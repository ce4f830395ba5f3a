/** The chunk allocator of a size class on top of the page allocator: the pages of chunks come from the
    heap, on demand, and go back to it when all their chunks are free.  A page of chunks is never a free
    page; and the defect by which alloc_pages spoils the extent map when it splits a block does not show
    here, because malloc_small writes the descriptor of the page anew. */
module Allocator {
  import opened Chunks
  import opened Codes
  import Pool
  import X = Extents
  import Classes

  /** The pages of the class are pages of the heap with its code. */
  ghost predicate Linked(T: X.Table, end: nat, g: Layout, code: seq<nat>, l: nat) {
    && |code| == |T| && end <= |T| && l < Classes.NUMSMALL
    && (forall n: nat :: OnPage(n) in g.list ==> 0 < n < end && T[n].code == l)
  }

  /** They are not free. */
  lemma NeverIdle(T: X.Table, end: nat, g: Layout, code: seq<nat>, l: nat, n: nat)
    requires Linked(T, end, g, code, l) && OnPage(n) in g.list
    ensures n !in X.Vacant(T, end)
  {}

  /** Pages in use outside the class, and their contents, are left alone. */
  ghost predicate Untouched(T: X.Table, end: nat, T': X.Table) {
    |T'| == |T| && forall k: nat :: k < end && k < |T| && k !in X.Vacant(T, end) ==> T'[k] == T[k]
  }

  lemma UntouchedTrans(T: X.Table, end: nat, T': X.Table, end': nat, T'': X.Table)
    requires Untouched(T, end, T') && Untouched(T', end', T'') && end <= end'
    requires X.Vacant(T', end') <= X.Vacant(T, end)
    ensures Untouched(T, end, T'')
  {
    hide X.Vacant;
  }

  /** A page of the heap with the code of the class becomes a page of the class. */
  lemma LinkedMore(T: X.Table, end: nat, g: Layout, code: seq<nat>, g': Layout, code': seq<nat>, l: nat, n: nat)
    requires Linked(T, end, g, code, l) && |code'| == |code|
    requires 0 < n < end && T[n].code == l && g'.list.Keys == g.list.Keys + {OnPage(n)}
    ensures Linked(T, end, g', code', l)
  {
    forall k: nat | OnPage(k) in g'.list ensures OnPage(k) in g.list || k == n {
      assert OnPage(k) in g'.list.Keys;
    }
  }

  /** Pages in use are not touched, and those of the class are in use. */
  lemma LinkedKept(T: X.Table, end: nat, g: Layout, code: seq<nat>, T': X.Table, end': nat, code': seq<nat>, l: nat)
    requires Linked(T, end, g, code, l) && Untouched(T, end, T') && end <= end' <= |T'| && |code'| == |code|
    ensures Linked(T', end', g, code', l)
  {
    forall k: nat | OnPage(k) in g.list ensures 0 < k < end' && T'[k].code == l {
      NeverIdle(T, end, g, code, l, k);
    }
  }

  lemma LinkedSame(T: X.Table, end: nat, g: Layout, code: seq<nat>, g': Layout, code': seq<nat>, l: nat)
    requires Linked(T, end, g, code, l) && |code'| == |code| && g'.list.Keys == g.list.Keys
    ensures Linked(T, end, g', code', l)
  {
    forall k: nat | OnPage(k) in g'.list ensures OnPage(k) in g.list {
      assert OnPage(k) in g'.list.Keys;
    }
  }

  /** With no free block there is no free page. */
  lemma NoFreePage(T: X.Table, end: nat, sizes: map<nat, nat>)
    requires X.WellFormed(T, end, sizes) && X.NoneFits(X.Listed(T, end), 1)
    ensures X.Vacant(T, end) == {}
  {
    forall k: nat ensures k !in X.Vacant(T, end) {
      X.VacantIsListed(T, end, k);
    }
  }

  lemma UntouchedStart(T: X.Table, end: nat)
    ensures Untouched(T, end, T)
  {}

  lemma HeapFacts(h: X.Heap)
    requires h.Ok()
    ensures 0 < h.end <= |h.pages| && X.GapOk(h.pages, h.end, h.end)
    ensures X.NoneFits(X.Listed(h.pages, h.end), 1) ==> X.Vacant(h.pages, h.end) == {}
  {
    if X.NoneFits(X.Listed(h.pages, h.end), 1) {
      NoFreePage(h.pages, h.end, X.F.Sizes(h.free.node));
    }
  }

  lemma LinkedFacts(T: X.Table, end: nat, g: Layout, code: seq<nat>, l: nat)
    requires Linked(T, end, g, code, l)
    ensures |code| == |T| && end <= |T| && l < Classes.NUMSMALL
  {}

  /** A page that the heap hands out is not one of the class, and no page in use is touched. */
  lemma NewPage(T: X.Table, end: nat, g: Layout, code: seq<nat>, l: nat, T': X.Table, n: nat)
    requires Linked(T, end, g, code, l)
    requires n == 0 ==> T' == T
    requires n != 0 ==> 0 < end && (n in X.Vacant(T, end) || n == end) && X.SameBut(T, T', X.Vacant(T, end) + {n})
    ensures n != 0 ==> OnPage(n) !in g.list
    ensures Untouched(T, end, T')
  {}

  lemma SupplyOne(code: seq<nat>, supply: seq<nat>)
    requires supply == [] || (|supply| == 1 && 0 < supply[0] < |code| && code[supply[0]] == BIG)
    ensures Pool.Supply(code, supply)
  {}

  lemma UntouchedSize(T: X.Table, end: nat, T': X.Table)
    requires Untouched(T, end, T')
    ensures |T'| == |T|
  {}

  /** A chunk that a caller holds lies on a page that is in use. */
  lemma HeldInUse(h: X.Heap, pool: Pool.SizeClass, c: Chunk)
    requires pool.Ok() && Linked(h.pages, h.end, pool.g, pool.code, pool.l) && c in Pool.In(pool.g, Held)
    ensures c.Chunk? && c.page < h.end && c.page !in h.Idle()
  {
    hide Pool.Shape, Good, Pool.Owns;
    Pool.ShapeGood(pool.g, pool.View(), pool.l, Classes.PerPage(pool.l));
    Pool.OwnsAt(pool.g, Classes.PerPage(pool.l), c);
    NeverIdle(h.pages, h.end, pool.g, pool.code, pool.l, c.page);
  }

  // ----- pages on their way back

  /** The pages that have left the class. */
  ghost function Leavers(g: Layout, g': Layout): set<nat> {
    set Q | Q in g.list && Q.OnPage? && Q !in g'.list :: Q.n
  }

  ghost function FirstOf(pages: seq<nat>, i: nat): set<nat>
    requires i <= |pages|
  {
    set n | n in pages[..i]
  }

  /** The first `i` of the pages that have left the class are free, and the others still have its code. */
  ghost predicate Returning(T: X.Table, end: nat, T': X.Table, end': nat, g: Layout, code: seq<nat>, l: nat,
                            pages: seq<nat>, i: nat)
  {
    && i <= |pages| && Linked(T', end', g, code, l) && end' <= end && |T'| == |T|
    && (forall j :: 0 <= j < |pages| ==> OnPage(pages[j]) !in g.list)
    && (forall j, k :: 0 <= j < k < |pages| ==> pages[j] != pages[k])
    && (forall j :: i <= j < |pages| ==> 0 < pages[j] < end' && T'[pages[j]].code == l)
    && X.Vacant(T', end') == X.Vacant(T, end) + FirstOf(pages, i) - X.Span(end', end)
    && X.Span(end', end) <= X.Vacant(T, end) + FirstOf(pages, i)
    && X.SameBut(T, T', X.Vacant(T, end) + FirstOf(pages, i))
  }

  lemma ReturnStart(T: X.Table, end: nat, g0: Layout, code0: seq<nat>, g: Layout, code: seq<nat>, l: nat,
                    pages: seq<nat>)
    requires Linked(T, end, g0, code0, l) && |code| == |code0| && Pool.LeftClass(g0, g, pages)
    ensures Returning(T, end, T, end, g, code, l, pages, 0)
  {
    forall j | 0 <= j < |pages|
      ensures OnPage(pages[j]) !in g.list && 0 < pages[j] < end && T[pages[j]].code == l
    {
      assert pages[j] in pages;
    }
    assert X.Span(end, end) == {};
  }

  lemma ReturnNext(T: X.Table, end: nat, T': X.Table, end': nat, g: Layout, code: seq<nat>, l: nat,
                   pages: seq<nat>, i: nat)
    requires Returning(T, end, T', end', g, code, l, pages, i) && i < |pages|
    ensures 0 < pages[i] < end' <= |T'| && T'[pages[i]].code == l < Classes.NUMSMALL
  {}

  lemma Returned(T: X.Table, end: nat, T1: X.Table, end1: nat, T': X.Table, end': nat, g: Layout,
                 code: seq<nat>, l: nat, pages: seq<nat>, i: nat)
    requires Returning(T, end, T1, end1, g, code, l, pages, i) && i < |pages| && end' <= end1 && |T'| == |T1|
    requires var V := X.Vacant(T1, end1) + {pages[i]};
      && X.Vacant(T', end') == V - X.Span(end', end1) && X.Span(end', end1) <= V && X.SameBut(T1, T', V)
    ensures Returning(T, end, T', end', g, code, l, pages, i + 1)
  {
    var V := X.Vacant(T1, end1) + {pages[i]};
    assert FirstOf(pages, i + 1) == FirstOf(pages, i) + {pages[i]};
    InUseStays(T1, end1, T', end', g, code, l, pages, i);
    assert X.Span(end', end) == X.Span(end', end1) + X.Span(end1, end);
    hide X.Vacant, Linked;
    assert X.Vacant(T', end') == X.Vacant(T, end) + FirstOf(pages, i + 1) - X.Span(end', end);
    assert X.SameBut(T, T', X.Vacant(T, end) + FirstOf(pages, i + 1));
  }

  lemma InUseStays(T1: X.Table, end1: nat, T': X.Table, end': nat, g: Layout, code: seq<nat>, l: nat,
                   pages: seq<nat>, i: nat)
    requires Linked(T1, end1, g, code, l) && i < |pages| && end' <= end1 && |T'| == |T1|
    requires forall j :: 0 <= j < |pages| ==> OnPage(pages[j]) !in g.list
    requires forall j, k :: 0 <= j < k < |pages| ==> pages[j] != pages[k]
    requires forall j :: i <= j < |pages| ==> 0 < pages[j] < end1 && T1[pages[j]].code == l
    requires var V := X.Vacant(T1, end1) + {pages[i]}; X.Span(end', end1) <= V && X.SameBut(T1, T', V)
    ensures Linked(T', end', g, code, l)
    ensures forall j :: i < j < |pages| ==> 0 < pages[j] < end' && T'[pages[j]].code == l
  {
    var V := X.Vacant(T1, end1) + {pages[i]};
    forall n: nat | 0 < n < end1 && T1[n].code == l && n != pages[i] ensures n < end' && T'[n].code == l {
      assert n !in V;
      assert n >= end' ==> n in X.Span(end', end1);
    }
  }

  lemma ReturnEnd(T: X.Table, end: nat, T': X.Table, end': nat, g0: Layout, g: Layout, code: seq<nat>,
                  l: nat, pages: seq<nat>)
    requires Returning(T, end, T', end', g, code, l, pages, |pages|) && Pool.LeftClass(g0, g, pages)
    ensures Linked(T', end', g, code, l) && end' <= end
    ensures X.Vacant(T', end') == X.Vacant(T, end) + Leavers(g0, g) - X.Span(end', end)
    ensures X.SameBut(T, T', X.Vacant(T, end) + Leavers(g0, g))
  {
    hide Linked;
    assert pages[..|pages|] == pages;
    forall n: nat ensures n in FirstOf(pages, |pages|) <==> n in Leavers(g0, g) {
      assert n in Leavers(g0, g) <==> OnPage(n) in g0.list && OnPage(n) !in g.list by { LeaverIs(g0, g, n); }
    }
    assert FirstOf(pages, |pages|) == Leavers(g0, g);
  }

  lemma LeaverIs(g: Layout, g': Layout, n: nat)
    ensures n in Leavers(g, g') <==> OnPage(n) in g.list && OnPage(n) !in g'.list
  {
    if OnPage(n) in g.list && OnPage(n) !in g'.list {
      assert OnPage(n).n == n;
    }
  }

  // ----- how far the chunks and the free pages go

  function Taken(n: nat): nat {
    if n == 0 then 0 else 1
  }

  /** One free page less. */
  lemma OneLess(V: set<nat>, V': set<nat>, n: nat)
    ensures V' == V - {n} && n in V ==> |V'| + 1 == |V|
  {}

  /** Which chunk needs the `m`-th page from sbrk, when the chains and the free pages have `stock` chunks. */
  function Due(stock: nat, per: nat, m: nat): nat {
    stock + m * per
  }

  predicate Given(grows: seq<bool>, i: nat) {
    i < |grows| && grows[i]
  }

  /** sbrk gives a page whenever a refill of `target` chunks needs one. */
  ghost predicate Fed(stock: nat, per: nat, target: nat, grows: seq<bool>) {
    forall m: nat :: Due(stock, per, m) < target ==> Given(grows, Due(stock, per, m))
  }

  /** The refill has collected `i` chunks, `left` more are at hand, and it has had `m` pages from sbrk. */
  ghost predicate Feeding(stock: nat, per: nat, grows: seq<bool>, i: nat, left: nat, m: nat) {
    && i + left == Due(stock, per, m)
    && (forall k: nat :: k < m ==> Given(grows, Due(stock, per, k)))
    && (m > 0 ==> left < per)
  }

  lemma FeedingNext(stock: nat, per: nat, grows: seq<bool>, i: nat, left: nat, m: nat, left': nat, more: nat)
    requires Feeding(stock, per, grows, i, left, m) && more <= 1 && left' + 1 == left + more * per
    requires more == 1 ==> left == 0 && Given(grows, i)
    ensures Feeding(stock, per, grows, i + 1, left', m + more)
  {
    assert Due(stock, per, m + more) == Due(stock, per, m) + more * per;
  }

  lemma {:induction false} DueGrows(stock: nat, per: nat, m: nat, k: nat)
    requires m <= k
    ensures Due(stock, per, m) <= Due(stock, per, k)
    decreases k
  {
    if m < k {
      DueGrows(stock, per, m, k - 1);
      assert Due(stock, per, k) == Due(stock, per, k - 1) + per;
    }
  }

  lemma FeedingStart(stock: nat, per: nat, grows: seq<bool>)
    ensures Feeding(stock, per, grows, 0, stock, 0)
  {}

  lemma FeedingEnd(stock: nat, per: nat, grows: seq<bool>, i: nat, left: nat, m: nat)
    requires Feeding(stock, per, grows, i, left, m)
    ensures i + left == stock + m * per && (m > 0 ==> left < per)
  {}

  lemma FedAll(stock: nat, per: nat, target: nat, grows: seq<bool>, left: nat, m: nat)
    requires Feeding(stock, per, grows, target, left, m)
    ensures Fed(stock, per, target, grows)
  {
    forall k: nat | Due(stock, per, k) < target ensures Given(grows, Due(stock, per, k)) {
      if k >= m {
        DueGrows(stock, per, m, k);
      }
    }
  }

  lemma NotFed(stock: nat, per: nat, target: nat, grows: seq<bool>, i: nat, m: nat)
    requires Feeding(stock, per, grows, i, 0, m) && i < target && !Given(grows, i)
    ensures !Fed(stock, per, target, grows)
  {
    assert Due(stock, per, m) == i;
  }

  class Allocator {
    const heap: X.Heap
    const pool: Pool.SizeClass

    ghost predicate Ok()
      reads heap, heap.free, pool, pool.table
    {
      heap.Ok() && pool.Ok() && Linked(heap.pages, heap.end, pool.g, pool.code, pool.l)
    }

    /** The chunks at hand without sbrk: those on chains, and those of the free pages. */
    ghost function Stock(): nat
      reads heap, pool
    {
      Pool.Stock(pool.g, |heap.Idle()|, Classes.PerPage(pool.l))
    }

    constructor (l: nat, threads: set<nat>)
      requires l < Classes.NUMSMALL
      ensures Ok() && pool.l == l && pool.cache.Keys == threads
    {
      heap := new X.Heap();
      pool := new Pool.SizeClass(l, seq(512, _ => 0), threads);
    }

    /** A page of the heap for the class.  `grows` says whether sbrk would give one. */
    method Fetch(grows: bool) returns (n: nat)
      requires heap.Ok() && Linked(heap.pages, heap.end, pool.g, pool.code, pool.l)
      requires pool.Core() && Pool.Sorted(pool.View()) && (grows ==> heap.end < |heap.pages|)
      modifies heap`pages, heap`end, heap.free, pool`code
      ensures heap.Ok() && Linked(heap.pages, heap.end, pool.g, pool.code, pool.l)
      ensures pool.Core() && Pool.Sorted(pool.View()) && |pool.code| == |old(pool.code)|
      ensures Untouched(old(heap.pages), old(heap.end), heap.pages)
      ensures old(heap.end) <= heap.end <= old(heap.end) + (if grows then 1 else 0)
      ensures heap.Idle() <= old(heap.Idle()) && (n == 0 <==> !grows && old(heap.Idle()) == {})
      ensures n == 0 ==> heap.Idle() == {}
      ensures |heap.Idle()| + Taken(n) == |old(heap.Idle())| + (heap.end - old(heap.end))
      ensures heap.end > old(heap.end) ==> old(heap.Idle()) == {}
      ensures n != 0 ==> n < heap.end && n < |heap.pages| && heap.pages[n].code == pool.l
      ensures n != 0 ==> n < |pool.code| && pool.code[n] == BIG
    {
      hide X.WellFormed, X.Vacant, X.Listed, X.NoneFits, X.SameBut, X.Heap.Ok, Linked, Untouched;
      hide Pool.SizeClass.Core, Pool.Sorted, Classes.PerPage;
      ghost var T, end, g, code := heap.pages, heap.end, pool.g, pool.code;
      HeapFacts(heap);
      LinkedFacts(T, end, g, code, pool.l);
      n := heap.GetChunkPage(pool.l, if grows then heap.end else 0);
      HeapFacts(heap);
      NewPage(T, end, g, code, pool.l, heap.pages, n);
      OneLess(X.Vacant(T, end), heap.Idle(), n);
      if n != 0 {
        pool.NoteBlock(n);
      }
      LinkedKept(T, end, g, code, heap.pages, heap.end, pool.code, pool.l);
    }

    /** Collect one more chunk, from a page of the heap if the class has no free chunk left. */
    method CollectOne(collected: Chunk, grows: bool, ghost g0: Layout, ghost k: nat) returns (ok: bool, newest: Chunk)
      requires heap.Ok() && Linked(heap.pages, heap.end, pool.g, pool.code, pool.l)
      requires pool.Core() && Pool.Sorted(pool.View()) && Pool.NoneFull(pool.g, Classes.PerPage(pool.l))
      requires Pool.Progress(g0, pool.g, k, collected) && (grows ==> heap.end < |heap.pages|)
      modifies heap`pages, heap`end, heap.free
      modifies pool`code, pool`first, pool`head, pool`next, pool`g, pool`listed, pool.table`count, pool.table`link
      ensures heap.Ok() && Linked(heap.pages, heap.end, pool.g, pool.code, pool.l)
      ensures pool.Core() && Pool.Sorted(pool.View()) && Pool.NoneFull(pool.g, Classes.PerPage(pool.l))
      ensures Pool.Progress(g0, pool.g, if ok then k + 1 else k, newest)
      ensures Untouched(old(heap.pages), old(heap.end), heap.pages)
      ensures old(heap.end) <= heap.end <= old(heap.end) + (if grows then 1 else 0)
      ensures heap.Idle() <= old(heap.Idle()) && (!ok ==> !grows && heap.Idle() == {} && Pool.OnChains(pool.g) == {})
      ensures var stock := Pool.Stock(old(pool.g), |old(heap.Idle())|, Classes.PerPage(pool.l));
        && Pool.Stock(pool.g, |heap.Idle()|, Classes.PerPage(pool.l)) + (if ok then 1 else 0)
           == stock + (heap.end - old(heap.end)) * Classes.PerPage(pool.l)
        && (ok <==> stock > 0 || grows)
        && (heap.end > old(heap.end) <==> ok && stock == 0)
    {
      hide X.WellFormed, X.Vacant, X.F.Valid, X.F.Sizes, Linked, Untouched;
      hide Pool.SizeClass.Core, Pool.Sorted, Pool.NoneFull, Pool.Progress, Classes.PerPage, Pool.Supply, Pool.OnChains;
      LinkedFacts(heap.pages, heap.end, pool.g, pool.code, pool.l);
      Classes.ChunksFillPage(pool.l);
      var supply := Feed(grows);
      ghost var g, code := pool.g, pool.code;
      LinkedFacts(heap.pages, heap.end, g, code, pool.l);
      var rest;
      ok, newest, rest := pool.Collect(collected, supply, g0, k);
      if supply != [] {
        LinkedMore(heap.pages, heap.end, g, code, pool.g, pool.code, pool.l, supply[0]);
      } else {
        LinkedSame(heap.pages, heap.end, g, code, pool.g, pool.code, pool.l);
      }
    }

    /** A page, if the class has no free chunk left. */
    method Feed(grows: bool) returns (supply: seq<nat>)
      requires heap.Ok() && Linked(heap.pages, heap.end, pool.g, pool.code, pool.l)
      requires pool.Core() && Pool.Sorted(pool.View()) && (grows ==> heap.end < |heap.pages|)
      modifies heap`pages, heap`end, heap.free, pool`code
      ensures heap.Ok() && Linked(heap.pages, heap.end, pool.g, pool.code, pool.l)
      ensures pool.Core() && Pool.Sorted(pool.View()) && Pool.Supply(pool.code, supply)
      ensures Untouched(old(heap.pages), old(heap.end), heap.pages)
      ensures old(heap.end) <= heap.end <= old(heap.end) + (if grows then 1 else 0)
      ensures heap.Idle() <= old(heap.Idle()) && pool.g == old(pool.g) && pool.head == old(pool.head)
      ensures |heap.Idle()| + |supply| == |old(heap.Idle())| + (heap.end - old(heap.end))
      ensures heap.end > old(heap.end) ==> pool.head == 0 && old(heap.Idle()) == {}
      ensures if supply == [] then pool.head == 0 ==> !grows && old(heap.Idle()) == {} && heap.Idle() == {}
              else |supply| == 1 && pool.head == 0 && 0 < supply[0] < heap.end
                   && supply[0] < |heap.pages| && heap.pages[supply[0]].code == pool.l
    {
      hide X.WellFormed, X.Vacant, X.Heap.Ok, Linked, Untouched;
      hide Pool.SizeClass.Core, Pool.Sorted, Pool.Supply;
      supply := [];
      UntouchedStart(heap.pages, heap.end);
      if pool.head == 0 {
        var n := Fetch(grows);
        if n != 0 {
          supply := [n];
        }
      }
      SupplyOne(pool.code, supply);
    }

    /** Fill an empty cache.  `grows[i]` says whether sbrk would give a page for the `i`-th chunk; the page
        table has descriptors for all of them. */
    method Refill(t: nat, grows: seq<bool>) returns (ok: bool)
      requires Ok() && t in pool.cache && pool.cache[t].free == Null && pool.cache[t].aux == Null
      requires heap.end + |grows| <= |heap.pages|
      modifies heap`pages, heap`end, heap.free
      modifies pool`code, pool`first, pool`head, pool`next, pool`g, pool`listed, pool`cache
      modifies pool.table`count, pool.table`link
      ensures Ok() && Pool.OnlyFor(t, old(pool.cache), pool.cache)
      ensures Pool.In(pool.g, Held) == old(Pool.In(pool.g, Held))
      ensures if ok then pool.cache[t].free != Null && Pool.In(pool.g, Lost) == old(Pool.In(pool.g, Lost))
              else heap.Idle() == {} && Pool.OnChains(pool.g) == {}
      ensures pool.l < Classes.NUMSMALL
      ensures ok <==> Fed(old(Stock()), Classes.PerPage(pool.l), Classes.Target(pool.l), grows)
      ensures ok ==> Stock() + Classes.Target(pool.l)
                     == old(Stock()) + (heap.end - old(heap.end)) * Classes.PerPage(pool.l)
      ensures ok && heap.end > old(heap.end) ==> Stock() < Classes.PerPage(pool.l)
      ensures ok ==> Pool.FromPages(old(pool.g), pool.cache[t].free)
      ensures var target := Classes.Target(pool.l);
        pool.cache[t] == if ok then Pool.Cache(pool.cache[t].free, Null, target, target)
                         else old(pool.cache[t]).(target := target)
      ensures Untouched(old(heap.pages), old(heap.end), heap.pages) && old(heap.end) <= heap.end
      ensures heap.Idle() <= old(heap.Idle())
    {
      hide X.WellFormed, X.Vacant, X.F.Valid, X.F.Sizes, Linked, Untouched, Pool.Shape, Pool.CachesOk, Pool.Quiet;
      hide Pool.Sorted, Pool.NoneFull, Pool.Progress, Pool.In, Pool.Dropped, Classes.PerPage, Classes.Target, Good;
      hide Pool.OnChains, Pool.FromPages, Pool.Stock, Feeding, Fed, Due;
      ghost var T, end := heap.pages, heap.end;
      ghost var stock, per := Stock(), Classes.PerPage(pool.l);
      FeedingStart(stock, per, grows);
      UntouchedStart(T, end);
      pool.StartRefill(t);
      ghost var g0, cache := pool.g, pool.cache;
      Pool.ProgressStart(g0);
      var target := pool.cache[t].target;
      var newFl, i := Null, 0;
      while i < target
        invariant heap.Ok() && Linked(heap.pages, heap.end, pool.g, pool.code, pool.l)
        invariant pool.Core() && Pool.Sorted(pool.View()) && Pool.NoneFull(pool.g, Classes.PerPage(pool.l))
        invariant i <= target && Pool.Progress(g0, pool.g, i, newFl) && pool.cache == cache
        invariant Untouched(T, end, heap.pages) && |heap.pages| == |T|
        invariant end <= heap.end <= end + (if i < |grows| then i else |grows|)
        invariant heap.Idle() <= X.Vacant(T, end)
        invariant Feeding(stock, per, grows, i, Stock(), heap.end - end)
      {
        ghost var T1, end1, left := heap.pages, heap.end, Stock();
        ok, newFl := CollectOne(newFl, i < |grows| && grows[i], g0, i);
        UntouchedTrans(T, end, T1, end1, heap.pages);
        UntouchedSize(T1, end1, heap.pages);
        if !ok {
          ghost var g1 := pool.g;
          NotFed(stock, per, target, grows, i, heap.end - end);
          pool.Drop(g0, i, newFl);
          LinkedSame(heap.pages, heap.end, g1, pool.code, pool.g, pool.code, pool.l);
          return;
        }
        FeedingNext(stock, per, grows, i, left, end1 - end, Stock(), heap.end - end1);
        i := i + 1;
      }
      FedAll(stock, per, target, grows, Stock(), heap.end - end);
      FeedingEnd(stock, per, grows, target, Stock(), heap.end - end);
      ghost var g1 := pool.g;
      pool.EndRefill(t, newFl, g0);
      Pool.SameStock(g1, pool.g, |heap.Idle()|, per);
      LinkedSame(heap.pages, heap.end, g1, pool.code, pool.g, pool.code, pool.l);
      ok := true;
    }

    /** malloc_small with its pages from the heap.  The chunk lies on a page that is in use; no page in use
        is touched.  It fails exactly when the thread's lists are both empty and sbrk does not give a page
        that the refill needs, after the chunks on chains and on free pages; the heap grows by no more
        pages than needed. */
    method Malloc(t: nat, grows: seq<bool>) returns (c: Chunk)
      requires Ok() && t in pool.cache && heap.end + |grows| <= |heap.pages|
      modifies heap`pages, heap`end, heap.free
      modifies pool`code, pool`first, pool`head, pool`next, pool`g, pool`listed, pool`cache
      modifies pool.table`count, pool.table`link
      ensures Ok() && Pool.OnlyFor(t, old(pool.cache), pool.cache) && pool.l < Classes.NUMSMALL
      ensures if c == Null then Pool.In(pool.g, Held) == old(Pool.In(pool.g, Held))
              else c !in old(Pool.In(pool.g, Held)) && Pool.In(pool.g, Held) == old(Pool.In(pool.g, Held)) + {c}
                   && Pool.In(pool.g, Lost) == old(Pool.In(pool.g, Lost))
                   && c.page < heap.end && c.page !in heap.Idle()
      ensures Untouched(old(heap.pages), old(heap.end), heap.pages) && old(heap.end) <= heap.end
      ensures heap.Idle() <= old(heap.Idle())
      ensures c == Null <==> Pool.Bare(old(pool.cache[t]))
                             && !Fed(old(Stock()), Classes.PerPage(pool.l), Classes.Target(pool.l), grows)
      ensures c == Null ==> heap.Idle() == {} && Pool.OnChains(pool.g) == {}
      ensures !Pool.Bare(old(pool.cache[t])) ==>
        && c == Pool.Foremost(old(pool.cache[t])) && pool.cache[t] == Pool.Spent(old(pool.cache[t]), old(pool.next))
        && heap.pages == old(heap.pages) && heap.end == old(heap.end) && Stock() == old(Stock())
      ensures Pool.Bare(old(pool.cache[t])) && c != Null ==>
        && Pool.FromPages(old(pool.g), c)
        && Stock() + Classes.Target(pool.l) == old(Stock()) + (heap.end - old(heap.end)) * Classes.PerPage(pool.l)
        && (heap.end > old(heap.end) ==> Stock() < Classes.PerPage(pool.l))
    {
      hide X.WellFormed, X.Vacant, X.F.Valid, X.F.Sizes, Linked, Untouched, Pool.Shape, Pool.CachesOk, Pool.Quiet;
      hide Pool.Sorted, Pool.NoneFull, Pool.In, Pool.Exact, Classes.PerPage, Classes.Target;
      hide Pool.OnChains, Pool.FromPages, Pool.Stock, Fed;
      UntouchedStart(heap.pages, heap.end);
      LinkedFacts(heap.pages, heap.end, pool.g, pool.code, pool.l);
      ghost var g0 := pool.g;
      if pool.cache[t].free == Null {
        if pool.cache[t].aux != Null {
          pool.TakeAux(t);
          Pool.SameStock(g0, pool.g, |heap.Idle()|, Classes.PerPage(pool.l));
          LinkedSame(heap.pages, heap.end, g0, pool.code, pool.g, pool.code, pool.l);
        } else {
          var ok := Refill(t, grows);
          if !ok {
            return Null;
          }
        }
      }
      ghost var g1 := pool.g;
      c := pool.PopCache(t);
      Pool.SameStock(g1, pool.g, |heap.Idle()|, Classes.PerPage(pool.l));
      LinkedSame(heap.pages, heap.end, g1, pool.code, pool.g, pool.code, pool.l);
      HeldInUse(heap, pool, c);
    }

    /** free of a chunk: the pages that become wholly free are free pages of the heap afterwards, unless it
        shrinks; and no other page in use is touched. */
    method Free(t: nat, c: Chunk, atBreak: bool)
      requires Ok() && t in pool.cache && c in Pool.In(pool.g, Held)
      modifies heap`pages, heap`end, heap.free
      modifies pool`code, pool`first, pool`head, pool`next, pool`g, pool`listed, pool`cache
      modifies pool.table`count, pool.table`link
      ensures Ok() && pool.cache == old(pool.cache)[t := Pool.Freed(old(pool.cache[t]), c)]
      ensures Pool.In(pool.g, Held) == old(Pool.In(pool.g, Held)) - {c}
      ensures Pool.In(pool.g, Lost) == old(Pool.In(pool.g, Lost)) && heap.end <= old(heap.end)
      ensures heap.Idle() == old(heap.Idle()) + Leavers(old(pool.g), pool.g) - X.Span(heap.end, old(heap.end))
      ensures X.SameBut(old(heap.pages), heap.pages, old(heap.Idle()) + Leavers(old(pool.g), pool.g))
    {
      hide X.WellFormed, X.Vacant, X.F.Valid, X.F.Sizes, X.Span, X.SameBut, Linked, Pool.Shape, Pool.CachesOk;
      hide Pool.Sorted, Pool.NoneFull, Pool.Quiet, Pool.In, Pool.Exact, Classes.PerPage, Classes.Target;
      ghost var g0, code0 := pool.g, pool.code;
      var released := pool.Free(t, c);
      ghost var T, end := heap.pages, heap.end;
      ReturnStart(T, end, g0, code0, pool.g, pool.code, pool.l, released);
      hide Returning;
      ghost var g1, cache1 := pool.g, pool.cache;
      var i := 0;
      while i < |released|
        invariant pool.Ok() && pool.g == g1 && pool.cache == cache1 && i <= |released|
        invariant heap.Ok() && Returning(T, end, heap.pages, heap.end, pool.g, pool.code, pool.l, released, i)
      {
        ReturnNext(T, end, heap.pages, heap.end, pool.g, pool.code, pool.l, released, i);
        ghost var T1, end1 := heap.pages, heap.end;
        heap.GiveChunkPage(released[i], atBreak);
        Returned(T, end, T1, end1, heap.pages, heap.end, pool.g, pool.code, pool.l, released, i);
        i := i + 1;
      }
      ReturnEnd(T, end, heap.pages, heap.end, g0, pool.g, pool.code, pool.l, released);
    }
  }
}
