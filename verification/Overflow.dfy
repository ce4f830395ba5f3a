/** What happens to the counters of a thread that only frees.  It never sets its `target`, so its
    list grows until the 16-bit `count` returns to 0. */
module Overflow {
  import opened Chunks
  import opened Pool
  import Classes

  /** Different chunks of a set. */
  ghost predicate Among(chunks: seq<Chunk>, held: set<Chunk>) {
    Distinct(chunks) && forall i :: 0 <= i < |chunks| ==> chunks[i] in held
  }

  lemma NoneAmong(held: set<Chunk>)
    ensures Among([], held)
  {}

  lemma OneMoreAmong(chunks: seq<Chunk>, c: Chunk, held: set<Chunk>)
    requires Among(chunks, held) && c !in held
    ensures Among(chunks + [c], held + {c})
  {}

  /** One allocation with enough pages at hand. */
  method Allocate(pool: SizeClass, t: nat, supply: seq<nat>) returns (c: Chunk, rest: seq<nat>)
    requires pool.Ok() && t in pool.cache && Supply(pool.code, supply) && |supply| >= 32
    modifies pool, pool.table
    ensures pool.Ok() && OnlyFor(t, old(pool.cache), pool.cache)
    ensures Supply(pool.code, rest) && |rest| + 32 >= |supply|
    ensures c !in old(In(pool.g, Held)) && In(pool.g, Held) == old(In(pool.g, Held)) + {c}
  {
    hide Supply, In, Exact, Dropped, Classes.Target, Classes.PerPage, SizeClass.Ok;
    hide Stock, OnChains, FromPages, Foremost, Spent, Bare;
    SmallTarget(pool);
    c, rest := pool.Malloc(t, supply);
  }

  /** The producer allocates `n` chunks. */
  method Produce(pool: SizeClass, t: nat, supply: seq<nat>, n: nat) returns (chunks: seq<Chunk>)
    requires pool.Ok() && t in pool.cache && Supply(pool.code, supply) && |supply| >= 32 * n
    modifies pool, pool.table
    ensures pool.Ok() && OnlyFor(t, old(pool.cache), pool.cache)
    ensures |chunks| == n && Among(chunks, In(pool.g, Held))
  {
    hide Supply, In, Among, SizeClass.Ok;
    chunks := [];
    NoneAmong(In(pool.g, Held));
    var rest := supply;
    while |chunks| < n
      invariant pool.Ok() && t in pool.cache && OnlyFor(t, old(pool.cache), pool.cache)
      invariant Supply(pool.code, rest) && |chunks| <= n
      invariant |rest| >= 32 * (n - |chunks|) && Among(chunks, In(pool.g, Held))
    {
      var c;
      ghost var held := In(pool.g, Held);
      c, rest := Allocate(pool, t, rest);
      OneMoreAmong(chunks, c, held);
      chunks := chunks + [c];
    }
  }

  lemma SmallTarget(pool: SizeClass)
    requires pool.Ok()
    ensures pool.l < Classes.NUMSMALL && 0 < Classes.Target(pool.l) <= 32
  {
    Classes.ChunksFillPage(pool.l);
  }

  /** The consumer frees `n` chunks, which it did not allocate. */
  method Consume(pool: SizeClass, t: nat, chunks: seq<Chunk>)
    requires pool.Ok() && t in pool.cache && pool.cache[t] == Cache(Null, Null, 0, 0)
    requires |chunks| <= SHORT && Among(chunks, In(pool.g, Held))
    modifies pool, pool.table
    ensures pool.Ok() && t in pool.cache
    ensures pool.cache[t].target == 0 && pool.cache[t].aux == Null && pool.cache[t].count == Short(|chunks|)
    ensures chunks != [] ==> pool.cache[t].free == chunks[|chunks| - 1] != Null
  {
    hide In, SizeClass.Ok;
    var i := 0;
    while i < |chunks|
      invariant 0 <= i <= |chunks| && pool.Ok() && t in pool.cache
      invariant pool.cache[t] == Cache(if i == 0 then Null else chunks[i - 1], Null, Short(i), 0)
      invariant i > 0 ==> chunks[i - 1] != Null
      invariant forall j :: i <= j < |chunks| ==> chunks[j] in In(pool.g, Held)
    {
      HeldIsChunk(pool, chunks[i]);
      var _ := pool.Free(t, chunks[i]);
      i := i + 1;
    }
  }

  lemma HeldIsChunk(pool: SizeClass, c: Chunk)
    requires pool.Ok() && c in In(pool.g, Held)
    ensures c != Null
  {
    hide Shape;
    ShapeGood(pool.g, pool.View(), pool.l, Classes.PerPage(pool.l));
  }

  /** A consumer that has freed 65536 chunks of a producer has a `count` of 0 and a list of 65536
      entries: the counters are not exact. */
  method ConsumerOverflows(pool: SizeClass, producer: nat, consumer: nat, supply: seq<nat>)
    requires pool.Ok() && producer in pool.cache && consumer in pool.cache && producer != consumer
    requires pool.cache[consumer] == Cache(Null, Null, 0, 0)
    requires Supply(pool.code, supply) && |supply| >= 32 * SHORT
    modifies pool, pool.table
    ensures pool.Ok() && consumer in pool.cache && pool.cache[consumer].count == 0
    ensures !Exact(pool.g, consumer, pool.cache[consumer])
    ensures Local(consumer) in pool.g.list && |pool.g.list[Local(consumer)]| == SHORT
  {
    hide In, Supply;
    var chunks := Produce(pool, producer, supply, SHORT);
    Consume(pool, consumer, chunks);
    FullList(pool, consumer);
  }

  lemma FullList(pool: SizeClass, t: nat)
    requires pool.Ok() && t in pool.cache
    requires pool.cache[t].target == 0 && pool.cache[t].count == 0 && pool.cache[t].free != Null
    ensures Local(t) in pool.g.list && |pool.g.list[Local(t)]| == SHORT && !Exact(pool.g, t, pool.cache[t])
  {
    hide Shape, Good, CachesOk, Sorted, NoneFull, Quiet, Classes.PerPage, Classes.Target;
    ShapeGood(pool.g, pool.View(), pool.l, Classes.PerPage(pool.l));
    CacheAt(pool.g, t, pool.cache, Classes.Target(pool.l));
    NullIsEmpty(pool.g, Local(t));
  }
}
