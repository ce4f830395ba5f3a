/** The chunk allocator for one size class: malloc_small, free, and the flush of a thread's cache
    back to the pages.  The lock of the class makes each call atomic on what the threads share, and
    a thread's cache is its own; so a run is a sequence of calls. */
module Pool {
  import opened Chunks
  import opened Codes
  import P = PageSort
  import Classes

  /** How many values an unsigned short has. */
  const SHORT: nat := 65536

  /** The value of an unsigned short that was assigned `n`. */
  function Short(n: int): nat {
    n % SHORT
  }

  /** A thread's cache; `count` and `target` are unsigned shorts. */
  datatype Cache = Cache(free: Chunk, aux: Chunk, count: nat, target: nat)

  /** The page descriptors, the first page of the class's list, and the pages on that list. */
  datatype Desc = Desc(
    code: seq<nat>,
    first: seq<nat>,
    count: seq<int>,
    link: seq<nat>,
    head: nat,
    listed: seq<nat>)

  // ----- the invariant

  /** The entries that `free` holds when it becomes `aux`: `target` of them; or, while `target` is not
      set, as many as make `count` return to 0. */
  function Room(k: Cache): nat {
    if k.target == 0 then SHORT else k.target
  }

  /** `count` is the number of entries of `free` modulo 2^16; `aux` is empty or has just the entries
      that made `free` full. */
  ghost predicate CacheOk(g: Layout, t: nat, k: Cache, full: nat) {
    && Local(t) in g.list && Aux(t) in g.list && Local(t) in g.head && Aux(t) in g.head
    && g.head[Local(t)] == k.free && g.head[Aux(t)] == k.aux
    && 0 < full < SHORT && (k.target == 0 || k.target == full)
    && |g.list[Local(t)]| <= Room(k) && k.count == Short(|g.list[Local(t)]|)
    && (g.list[Aux(t)] == [] || |g.list[Aux(t)]| == Room(k))
  }

  /** The counters as they are meant: `free` has exactly `count` entries, and `aux` none or exactly
      `target`. */
  ghost predicate Exact(g: Layout, t: nat, k: Cache) {
    && Local(t) in g.list && Aux(t) in g.list
    && |g.list[Local(t)]| == k.count
    && (g.list[Aux(t)] == [] || |g.list[Aux(t)]| == k.target)
  }

  /** The same, read off the cache alone. */
  predicate LooksExact(k: Cache) {
    k.target != 0 || (k.aux == Null && (k.count == 0 ==> k.free == Null))
  }

  /** The cache after a chunk is freed. */
  function Freed(k: Cache, c: Chunk): Cache {
    if k.count == k.target then Cache(c, k.free, 1, k.target)
    else Cache(c, k.aux, Short(k.count + 1), k.target)
  }

  /** When the counters are exact after a chunk is freed. */
  predicate ExactAfterFree(k: Cache) {
    k.target != 0 || (if k.count == 0 then k.free == Null else k.count < SHORT - 1 && k.aux == Null)
  }

  ghost predicate CachesOk(g: Layout, cache: map<nat, Cache>, full: nat) {
    forall t :: t in cache ==> CacheOk(g, t, cache[t], full)
  }

  ghost predicate SameSize(d: Desc) {
    |d.first| == |d.code| && |d.count| == |d.code| && |d.link| == |d.code|
  }

  /** The chain of a page has `count` chunks, all its own; a page that is wholly free may be marked
      by a negative count instead. */
  ghost predicate PageOk(g: Layout, d: Desc, n: nat, l: nat, per: nat)
    requires SameSize(d) && n < |d.code|
  {
    OnPage(n) in g.list ==>
      && d.code[n] == l && 0 < n && OnPage(n) in g.head
      && var s := g.list[OnPage(n)];
      && (forall c :: c in s ==> OfPage(n, per, c))
      && (d.count[n] == |s| || (|s| == per && d.count[n] == -1))
      && g.head[OnPage(n)] == if d.count[n] == 0 then Null else Chunk(n, d.first[n])
  }

  /** The chunks are those of the pages of the class. */
  ghost predicate Owns(g: Layout, per: nat) {
    forall c :: c in g.place <==> c.Chunk? && OnPage(c.page) in g.list && c.index < per
  }

  /** The list of pages holds exactly those with a free chunk. */
  ghost predicate Listing(g: Layout, d: Desc, l: nat)
    requires SameSize(d)
  {
    && P.IsList(d.link, d.head, d.listed)
    && (forall n: nat :: n < |d.code| ==>
          (n in d.listed <==> OnPage(n) in g.list && g.list[OnPage(n)] != []))
  }

  ghost predicate Shape(g: Layout, d: Desc, l: nat, per: nat) {
    && SameSize(d)
    && Good(g)
    && Loose in g.list && Rest in g.list
    && Owns(g, per)
    && (forall n: nat :: n < |d.code| ==> PageOk(g, d, n, l, per))
    && (forall n: nat :: OnPage(n) in g.list ==> n < |d.code|)
    && Listing(g, d, l)
  }

  /** No page of the class is wholly free. */
  ghost predicate NoneFull(g: Layout, per: nat) {
    forall n: nat :: OnPage(n) in g.list ==> |g.list[OnPage(n)]| < per
  }

  /** A page that is wholly free is marked. */
  ghost predicate FullMarked(g: Layout, d: Desc, per: nat) {
    forall n: nat :: OnPage(n) in g.list && n < |d.count| && |g.list[OnPage(n)]| == per ==> d.count[n] == -1
  }

  ghost predicate Sorted(d: Desc) {
    P.InTable(d.count, d.listed) && P.Ascending(d.count, d.listed)
  }

  ghost predicate Quiet(g: Layout) {
    && Loose in g.list && Rest in g.list && Loose in g.head && Rest in g.head
    && g.list[Loose] == [] && g.list[Rest] == [] && g.head[Loose] == Null && g.head[Rest] == Null
  }

  ghost function In(g: Layout, Q: Place): set<Chunk> {
    set c | c in g.place && g.place[c] == Q
  }

  // ----- reading the invariant

  lemma ShapeAt(g: Layout, d: Desc, l: nat, per: nat, n: nat)
    requires Shape(g, d, l, per) && n < |d.code|
    ensures SameSize(d) && PageOk(g, d, n, l, per)
    ensures n in d.listed <==> OnPage(n) in g.list && g.list[OnPage(n)] != []
  {}

  lemma ShapeGood(g: Layout, d: Desc, l: nat, per: nat)
    requires Shape(g, d, l, per)
    ensures SameSize(d) && Good(g) && Loose in g.list && Rest in g.list && Owns(g, per)
    ensures g.list.Keys == g.head.Keys
    ensures P.IsList(d.link, d.head, d.listed)
  {}

  lemma ShapeFrom(g: Layout, d: Desc, l: nat, per: nat)
    requires SameSize(d) && Good(g) && Loose in g.list && Rest in g.list && Owns(g, per)
    requires forall n: nat :: n < |d.code| ==> PageOk(g, d, n, l, per)
    requires forall n: nat :: OnPage(n) in g.list ==> n < |d.code|
    requires Listing(g, d, l)
    ensures Shape(g, d, l, per)
  {}

  lemma OwnsAt(g: Layout, per: nat, c: Chunk)
    requires Owns(g, per)
    ensures c in g.place <==> c.Chunk? && OnPage(c.page) in g.list && c.index < per
  {}

  lemma OwnsSame(g: Layout, g': Layout, per: nat)
    requires Owns(g, per) && g'.place.Keys == g.place.Keys && g'.list.Keys == g.list.Keys
    ensures Owns(g', per)
  {
    hide Owns;
    forall c ensures c in g'.place <==> c.Chunk? && OnPage(c.page) in g'.list && c.index < per {
      OwnsAt(g, per, c);
      assert c in g'.place.Keys <==> c in g.place.Keys;
    }
    OwnsFrom(g', per);
  }

  lemma OwnsFrom(g: Layout, per: nat)
    requires forall c :: c in g.place <==> c.Chunk? && OnPage(c.page) in g.list && c.index < per
    ensures Owns(g, per)
  {}

  /** Every chunk of a page of the class is in exactly one place. */
  lemma Accounted(g: Layout, d: Desc, l: nat, per: nat, c: Chunk)
    requires Shape(g, d, l, per) && c.Chunk? && OnPage(c.page) in g.list && c.index < per
    ensures c in g.place && (Unlisted(g.place[c]) || (g.place[c] in g.list && c in g.list[g.place[c]]))
    ensures forall Q :: Q in g.list && c in g.list[Q] ==> g.place[c] == Q && multiset(g.list[Q])[c] == 1
  {
    hide Shape, Owns;
    ShapeGood(g, d, l, per);
    OwnsAt(g, per, c);
    hide Good;
    forall Q | Q in g.list && c in g.list[Q] ensures g.place[c] == Q && multiset(g.list[Q])[c] == 1 {
      GoodAt(g, Q);
      OnceIn(g.list[Q], c);
    }
    GoodPlace(g, c);
    if g.place[c] in g.list {
      GoodAt(g, g.place[c]);
    }
  }

  lemma GoodPlace(g: Layout, c: Chunk)
    requires Good(g) && c in g.place
    ensures Unlisted(g.place[c]) || g.place[c] in g.list
  {}

  lemma {:induction false} OnceIn(s: seq<Chunk>, c: Chunk)
    requires Distinct(s) && c in s
    ensures multiset(s)[c] == 1
  {
    assert s == [s[0]] + s[1..];
    assert multiset(s) == multiset{s[0]} + multiset(s[1..]);
    if c == s[0] {
      assert c !in s[1..];
    } else {
      OnceIn(s[1..], c);
    }
  }

  /** Between operations a page is on the list exactly when it has a free chunk; `count` is the
      number of its free chunks, and never all of them. */
  lemma ListedPages(g: Layout, d: Desc, l: nat, per: nat, n: nat)
    requires Shape(g, d, l, per) && NoneFull(g, per) && OnPage(n) in g.list
    ensures n < |d.code| && n < |d.count|
    ensures 0 <= d.count[n] < per && d.count[n] == |g.list[OnPage(n)]|
    ensures n in d.listed <==> d.count[n] > 0
  {
    hide Shape, Owns;
    KeyInTable(g, d, l, per, n);
    ShapeAt(g, d, l, per, n);
  }

  /** The page of a chunk has the class's code, so `free` finds the class from the address. */
  lemma ChunkCode(g: Layout, d: Desc, l: nat, per: nat, c: Chunk)
    requires Shape(g, d, l, per) && c in g.place
    ensures c.Chunk? && c.page < |d.code| && d.code[c.page] == l
  {
    hide Shape, Owns, Good;
    ShapeGood(g, d, l, per);
    OwnsAt(g, per, c);
    KeyInTable(g, d, l, per, c.page);
    ShapeAt(g, d, l, per, c.page);
  }

  lemma CachesKept(g: Layout, g': Layout, cache: map<nat, Cache>, full: nat)
    requires CachesOk(g, cache, full)
    requires forall t :: t in cache ==>
      Local(t) in g'.list && Aux(t) in g'.list && Local(t) in g'.head && Aux(t) in g'.head
    requires forall t :: t in cache ==>
      && Local(t) in g.list && Aux(t) in g.list && Local(t) in g.head && Aux(t) in g.head
      && g'.list[Local(t)] == g.list[Local(t)] && g'.list[Aux(t)] == g.list[Aux(t)]
      && g'.head[Local(t)] == g.head[Local(t)] && g'.head[Aux(t)] == g.head[Aux(t)]
    ensures CachesOk(g', cache, full)
  {}

  // ----- taking a chunk from the first page of the list

  /** The descriptors after the first chunk of the first page is taken. */
  ghost function Drawn(g: Layout, d: Desc): Desc
    requires SameSize(d) && d.head < |d.code| && d.listed != []
    requires OnPage(d.head) in g.list && g.list[OnPage(d.head)] != []
  {
    var n, s := d.head, g.list[OnPage(d.head)];
    d.(first := d.first[n := if |s| > 1 && s[1].Chunk? then s[1].index else 0],
       count := d.count[n := d.count[n] - 1],
       head := if d.count[n] == 1 then d.link[n] else n,
       listed := if d.count[n] == 1 then d.listed[1..] else d.listed)
  }

  /** What the program finds at the first page. */
  lemma FirstPage(g: Layout, d: Desc, l: nat, per: nat)
    requires Shape(g, d, l, per) && d.head != 0
    ensures SameSize(d) && 0 < d.head < |d.code| && d.code[d.head] == l && d.listed != [] && d.listed[0] == d.head
    ensures OnPage(d.head) in g.list && OnPage(d.head) in g.head && g.list[OnPage(d.head)] != []
    ensures var s := g.list[OnPage(d.head)];
      && s[0] == Chunk(d.head, d.first[d.head]) == g.head[OnPage(d.head)] && s[0] in g.next
      && g.next[s[0]] == (if |s| > 1 then s[1] else Null)
      && (|s| > 1 ==> OfPage(d.head, per, s[1]))
      && OfPage(d.head, per, s[0])
      && (d.count[d.head] > 0 ==> d.count[d.head] == |s|)
  {
    hide Shape, Owns;
    ShapeGood(g, d, l, per);
    var n := d.head;
    assert n in d.listed;
    ShapeAt(g, d, l, per, n);
    var s := g.list[OnPage(n)];
    GoodAt(g, OnPage(n));
    hide Good;
    assert IsList(g.next, g.next[s[0]], s[1..]);
    assert s[0] in s;
    if |s| > 1 {
      assert s[1] in s;
      assert s[1..][0] == s[1];
    }
  }

  lemma DrawnSize(g: Layout, d: Desc)
    requires SameSize(d) && d.head < |d.code| && d.listed != []
    requires OnPage(d.head) in g.list && g.list[OnPage(d.head)] != []
    ensures SameSize(Drawn(g, d)) && Drawn(g, d).code == d.code
  {}

  lemma DrawnShape(g: Layout, d: Desc, l: nat, per: nat)
    requires Shape(g, d, l, per) && d.head != 0 && per > 0
    requires SameSize(d) && d.head < |d.code| && d.count[d.head] > 0
    ensures Drawn.requires(g, d) && Move.requires(g, OnPage(d.head), Loose)
    ensures Shape(Move(g, OnPage(d.head), Loose), Drawn(g, d), l, per)
  {
    hide Shape, Good, Owns, Move, Listing, PageOk, P.IsList;
    FirstPage(g, d, l, per);
    ShapeGood(g, d, l, per);
    MoveGood(g, OnPage(d.head), Loose);
    var g', d' := Move(g, OnPage(d.head), Loose), Drawn(g, d);
    assert SameSize(d') && d'.code == d.code by { DrawnSize(g, d); }
    forall n: nat | n < |d.code| ensures PageOk(g', d', n, l, per) {
      DrawnPage(g, d, l, per, n);
    }
    DrawnListing(g, d, l, per);
    OwnsSame(g, g', per);
    forall n: nat | OnPage(n) in g'.list ensures n < |d.code| {
      KeyInTable(g, d, l, per, n);
    }
    ShapeFrom(g', d', l, per);
  }

  lemma KeyInTable(g: Layout, d: Desc, l: nat, per: nat, n: nat)
    requires Shape(g, d, l, per) && OnPage(n) in g.list
    ensures n < |d.code|
  {}

  lemma DrawnPage(g: Layout, d: Desc, l: nat, per: nat, n: nat)
    requires Shape(g, d, l, per) && d.head != 0 && n < |d.code| && per > 0
    requires Drawn.requires(g, d) && Move.requires(g, OnPage(d.head), Loose) && d.count[d.head] > 0
    ensures SameSize(Drawn(g, d)) && PageOk(Move(g, OnPage(d.head), Loose), Drawn(g, d), n, l, per)
  {
    hide Shape, Good, Owns, P.IsList, Move;
    FirstPage(g, d, l, per);
    ShapeGood(g, d, l, per);
    MoveGood(g, OnPage(d.head), Loose);
    ShapeAt(g, d, l, per, n);
    if n == d.head {
      var s := g.list[OnPage(n)];
      assert forall c :: c in s[1..] ==> c in s;
    }
  }

  lemma DrawnListing(g: Layout, d: Desc, l: nat, per: nat)
    requires Shape(g, d, l, per) && d.head != 0 && per > 0
    requires Drawn.requires(g, d) && Move.requires(g, OnPage(d.head), Loose) && d.count[d.head] > 0
    ensures SameSize(Drawn(g, d)) && Listing(Move(g, OnPage(d.head), Loose), Drawn(g, d), l)
  {
    hide Shape, P.Chain, Owns;
    FirstPage(g, d, l, per);
    ShapeGood(g, d, l, per);
    MoveGood(g, OnPage(d.head), Loose);
    ShapeAt(g, d, l, per, d.head);
    P.ChainTail(d.link, d.listed, 0);
    var g', d' := Move(g, OnPage(d.head), Loose), Drawn(g, d);
    forall n: nat | n < |d.code| ensures n in d'.listed <==> OnPage(n) in g'.list && g'.list[OnPage(n)] != [] {
      ShapeAt(g, d, l, per, n);
    }
    hide Good;
  }

  /** Taking from the first page keeps the list in order. */
  lemma DrawnSorted(g: Layout, d: Desc)
    requires Drawn.requires(g, d) && Sorted(d) && d.listed[0] == d.head
    ensures Sorted(Drawn(g, d))
  {
    assert forall i :: 0 < i < |d.listed| ==> d.listed[i] != d.head;
  }

  /** Every page has a chunk elsewhere, except perhaps the first. */
  lemma DrawnNoneFull(g: Layout, d: Desc, l: nat, per: nat)
    requires Shape(g, d, l, per) && d.head != 0 && per > 0 && Move.requires(g, OnPage(d.head), Loose)
    requires forall m: nat :: OnPage(m) in g.list && m != d.head ==> |g.list[OnPage(m)]| < per
    ensures NoneFull(Move(g, OnPage(d.head), Loose), per)
  {
    hide Shape, Owns;
    FirstPage(g, d, l, per);
    ShapeGood(g, d, l, per);
    GoodAt(g, OnPage(d.head));
    ShapeAt(g, d, l, per, d.head);
    ChainLength(g.list[OnPage(d.head)], d.head, per, Null);
    hide Good, P.IsList, Distinct;
  }

  /** All that taking a chunk keeps. */
  lemma DrawnKeeps(g: Layout, d: Desc, l: nat, per: nat, cache: map<nat, Cache>, full: nat)
    requires Shape(g, d, l, per) && d.head != 0 && per > 0 && Sorted(d) && CachesOk(g, cache, full)
    requires SameSize(d) && d.head < |d.code| && d.count[d.head] > 0
    requires forall m: nat :: OnPage(m) in g.list && m != d.head ==> |g.list[OnPage(m)]| < per
    ensures Drawn.requires(g, d) && Move.requires(g, OnPage(d.head), Loose)
    ensures var g' := Move(g, OnPage(d.head), Loose);
      && Shape(g', Drawn(g, d), l, per) && Sorted(Drawn(g, d)) && NoneFull(g', per) && CachesOk(g', cache, full)
      && Loose in g.head
      && g'.next == g.next[g.list[OnPage(d.head)][0] := g.head[Loose]]
      && OneMore(g, g', g.list[OnPage(d.head)][0])
  {
    hide Shape, Good, Sorted, CachesOk, NoneFull, Move, In, Owns, OnChains, P.IsList, Drawn;
    FirstPage(g, d, l, per);
    ShapeGood(g, d, l, per);
    DrawnShape(g, d, l, per);
    DrawnSorted(g, d);
    DrawnNoneFull(g, d, l, per);
    MoveGood(g, OnPage(d.head), Loose);
    MoveShared(g, OnPage(d.head), Loose, cache, full);
    MoveChains(g, d.head);
  }

  // ----- a new page

  /** The descriptors after a page is put on the list, which was empty. */
  ghost function Opened(d: Desc, n: nat, l: nat, per: nat): Desc
    requires SameSize(d) && n < |d.code|
  {
    Desc(d.code[n := l], d.first[n := 0], d.count[n := per], d.link[n := 0], n, [n])
  }

  lemma OpenedShape(g: Layout, d: Desc, n: nat, l: nat, per: nat, links: Memory)
    requires Shape(g, d, l, per) && d.head == 0 && per > 0 && SameSize(d) && 0 < n < |d.code| && OnPage(n) !in g.list
    requires Laid(links, n, per)
    ensures Shape(AddPage(g, n, per, links), Opened(d, n, l, per), l, per)
  {
    hide Shape, Good, Row, Laid, Owns, AddPage, Listing, PageOk;
    ShapeGood(g, d, l, per);
    forall c | c in g.place ensures !OfPage(n, per, c) {
      OwnsAt(g, per, c);
    }
    AddPageGood(g, n, per, links);
    var g', d' := AddPage(g, n, per, links), Opened(d, n, l, per);
    OpenedOwns(g, n, per, links);
    forall m: nat | m < |d.code| ensures PageOk(g', d', m, l, per) {
      OpenedPage(g, d, n, l, per, links, m);
    }
    OpenedListing(g, d, n, l, per, links);
    OpenedKeys(g, d, n, l, per, links);
    ShapeFrom(g', d', l, per);
  }

  lemma OpenedKeys(g: Layout, d: Desc, n: nat, l: nat, per: nat, links: Memory)
    requires Shape(g, d, l, per) && n < |d.code|
    ensures var g' := AddPage(g, n, per, links);
      Loose in g'.list && Rest in g'.list && forall m: nat :: OnPage(m) in g'.list ==> m < |d.code|
  {
    hide Shape, Good, Owns, Row;
    ShapeGood(g, d, l, per);
    forall m: nat | OnPage(m) in g.list ensures m < |d.code| {
      KeyInTable(g, d, l, per, m);
    }
  }

  /** What else is known of the new page. */
  lemma OpenedFirst(g: Layout, d: Desc, n: nat, l: nat, per: nat, links: Memory)
    requires SameSize(d) && n < |d.code| && NoneFull(g, per)
    ensures Sorted(Opened(d, n, l, per))
    ensures var g' := AddPage(g, n, per, links);
      && forall m: nat :: OnPage(m) in g'.list && m != n ==> |g'.list[OnPage(m)]| < per
  {
    hide Row;
    forall c ensures c in Row(n, 0, per) <==> OfPage(n, per, c) {
      RowMember(n, 0, per, c);
    }
  }

  lemma OpenedOwns(g: Layout, n: nat, per: nat, links: Memory)
    requires Owns(g, per)
    ensures Owns(AddPage(g, n, per, links), per)
  {
    hide Row, Owns;
    var g' := AddPage(g, n, per, links);
    forall c ensures c in g'.place <==> c.Chunk? && OnPage(c.page) in g'.list && c.index < per {
      RowMember(n, 0, per, c);
      OwnsAt(g, per, c);
    }
    OwnsFrom(g', per);
  }

  lemma OpenedPage(g: Layout, d: Desc, n: nat, l: nat, per: nat, links: Memory, m: nat)
    requires Shape(g, d, l, per) && per > 0 && SameSize(d) && 0 < n < |d.code| && m < |d.code|
    ensures PageOk(AddPage(g, n, per, links), Opened(d, n, l, per), m, l, per)
  {
    hide Shape, Row, Owns;
    ShapeAt(g, d, l, per, m);
    RowMember(n, 0, per, Null);
    if m == n {
      forall c ensures c in Row(n, 0, per) <==> OfPage(n, per, c) {
        RowMember(n, 0, per, c);
      }
    }
  }

  lemma OpenedListing(g: Layout, d: Desc, n: nat, l: nat, per: nat, links: Memory)
    requires Shape(g, d, l, per) && d.head == 0 && per > 0 && SameSize(d) && 0 < n < |d.code| && OnPage(n) !in g.list
    ensures Listing(AddPage(g, n, per, links), Opened(d, n, l, per), l)
  {
    hide Shape, Row, Owns;
    ShapeGood(g, d, l, per);
    P.HeadIsZero(d.link, d.listed);
    RowMember(n, 0, per, Null);
    var g', d' := AddPage(g, n, per, links), Opened(d, n, l, per);
    forall m: nat | m < |d.code| ensures m in d'.listed <==> OnPage(m) in g'.list && g'.list[OnPage(m)] != [] {
      ShapeAt(g, d, l, per, m);
    }
    hide Good;
  }

  // ----- giving a chunk back to its page

  /** The descriptors after chunk `c` becomes the first of its page's chain. */
  ghost function Returned(d: Desc, c: Chunk, per: nat): Desc
    requires SameSize(d) && c.Chunk? && c.page < |d.code|
  {
    var n := c.page;
    d.(first := d.first[n := c.index],
       count := d.count[n := if d.count[n] + 1 >= per then -1 else d.count[n] + 1],
       link := if d.count[n] == 0 then d.link[n := d.head] else d.link,
       head := if d.count[n] == 0 then n else d.head,
       listed := if d.count[n] == 0 then [n] + d.listed else d.listed)
  }

  /** What the program finds when it gives back the first chunk of the list it works on. */
  lemma FirstLoose(g: Layout, d: Desc, l: nat, per: nat)
    requires Shape(g, d, l, per) && g.list[Loose] != []
    ensures SameSize(d)
    ensures var c := g.list[Loose][0];
      && c.Chunk? && c.page < |d.code| && d.code[c.page] == l && OfPage(c.page, per, c) && 0 < c.page
      && c in g.next && c == g.head[Loose] && c in g.place && g.place[c] == Loose
      && OnPage(c.page) in g.list && OnPage(c.page) in g.head && |g.list[OnPage(c.page)]| < per
      && d.count[c.page] == |g.list[OnPage(c.page)]|
      && g.head[OnPage(c.page)] == if d.count[c.page] == 0 then Null else Chunk(c.page, d.first[c.page])
  {
    hide Shape, Owns;
    ShapeGood(g, d, l, per);
    GoodAt(g, Loose);
    var c := g.list[Loose][0];
    assert c in g.list[Loose];
    OwnsAt(g, per, c);
    KeyInTable(g, d, l, per, c.page);
    ShapeAt(g, d, l, per, c.page);
    GoodAt(g, OnPage(c.page));
    hide Good;
    ChainLength(g.list[OnPage(c.page)], c.page, per, c);
  }

  lemma ReturnedShape(g: Layout, d: Desc, l: nat, per: nat)
    requires Shape(g, d, l, per) && g.list[Loose] != []
    ensures SameSize(d) && Returned.requires(d, g.list[Loose][0], per)
    ensures Move.requires(g, Loose, OnPage(g.list[Loose][0].page))
    ensures Shape(Move(g, Loose, OnPage(g.list[Loose][0].page)), Returned(d, g.list[Loose][0], per), l, per)
  {
    hide Shape, Good, Owns, Move, Listing, PageOk;
    FirstLoose(g, d, l, per);
    ShapeGood(g, d, l, per);
    var c := g.list[Loose][0];
    MoveGood(g, Loose, OnPage(c.page));
    var g', d' := Move(g, Loose, OnPage(c.page)), Returned(d, c, per);
    forall n: nat | n < |d.code| ensures PageOk(g', d', n, l, per) {
      ReturnedPage(g, d, l, per, n);
    }
    ReturnedListing(g, d, l, per);
    OwnsSame(g, g', per);
    forall n: nat | OnPage(n) in g'.list ensures n < |d.code| {
      KeyInTable(g, d, l, per, n);
    }
    ShapeFrom(g', d', l, per);
  }

  lemma ReturnedPage(g: Layout, d: Desc, l: nat, per: nat, n: nat)
    requires Shape(g, d, l, per) && g.list[Loose] != [] && n < |d.code|
    requires Returned.requires(d, g.list[Loose][0], per) && Move.requires(g, Loose, OnPage(g.list[Loose][0].page))
    ensures SameSize(Returned(d, g.list[Loose][0], per))
    ensures PageOk(Move(g, Loose, OnPage(g.list[Loose][0].page)), Returned(d, g.list[Loose][0], per), n, l, per)
  {
    hide Shape, Good, Owns, P.IsList, Move;
    FirstLoose(g, d, l, per);
    ShapeGood(g, d, l, per);
    var c := g.list[Loose][0];
    MoveGood(g, Loose, OnPage(c.page));
    ShapeAt(g, d, l, per, n);
    if n == c.page {
      var s := [c] + g.list[OnPage(n)];
      assert forall x :: x in s ==> x == c || x in g.list[OnPage(n)];
    }
  }

  lemma ReturnedListing(g: Layout, d: Desc, l: nat, per: nat)
    requires Shape(g, d, l, per) && g.list[Loose] != []
    requires Returned.requires(d, g.list[Loose][0], per) && Move.requires(g, Loose, OnPage(g.list[Loose][0].page))
    ensures SameSize(Returned(d, g.list[Loose][0], per))
    ensures Listing(Move(g, Loose, OnPage(g.list[Loose][0].page)), Returned(d, g.list[Loose][0], per), l)
  {
    hide Shape, P.Chain, Owns;
    FirstLoose(g, d, l, per);
    ShapeGood(g, d, l, per);
    var c := g.list[Loose][0];
    MoveGood(g, Loose, OnPage(c.page));
    hide Good, Move;
    ShapeAt(g, d, l, per, c.page);
    var g', d' := Move(g, Loose, OnPage(c.page)), Returned(d, c, per);
    forall n: nat | n < |d.code| ensures n in d'.listed <==> OnPage(n) in g'.list && g'.list[OnPage(n)] != [] {
      ShapeAt(g, d, l, per, n);
    }
    if d.count[c.page] == 0 {
      ListFront(d.link, d.head, d.listed, c.page);
    }
  }

  lemma ListFront(link: seq<nat>, p: nat, s: seq<nat>, n: nat)
    requires P.IsList(link, p, s) && 0 < n < |link| && n !in s
    ensures P.IsList(link[n := p], n, [n] + s)
  {
    hide P.Chain;
    P.Elsewhere(link, s, 0, n, p);
    Single(link[n := p], n, p);
    P.ChainJoin(link[n := p], [n], s, 0);
  }

  lemma Single(link: seq<nat>, n: nat, p: nat)
    requires 0 < n < |link| && link[n] == p
    ensures P.Chain(link, [n], p)
  {}

  lemma ReturnedMarks(g: Layout, d: Desc, l: nat, per: nat)
    requires Shape(g, d, l, per) && g.list[Loose] != [] && FullMarked(g, d, per)
    requires Returned.requires(d, g.list[Loose][0], per) && Move.requires(g, Loose, OnPage(g.list[Loose][0].page))
    ensures FullMarked(Move(g, Loose, OnPage(g.list[Loose][0].page)), Returned(d, g.list[Loose][0], per), per)
  {
    hide Shape, Owns;
    FirstLoose(g, d, l, per);
    ShapeGood(g, d, l, per);
    MoveGood(g, Loose, OnPage(g.list[Loose][0].page));
    hide Good, P.IsList, Move;
  }

  // ----- giving a wholly free page back to the heap

  ghost function Released(d: Desc): Desc
    requires SameSize(d) && d.head < |d.code| && d.listed != []
  {
    var n := d.head;
    Desc(d.code[n := BIG], d.first[n := 0], d.count[n := 0], d.link[n := n + 1], d.link[n], d.listed[1..])
  }

  lemma ReleasedShape(g: Layout, d: Desc, l: nat, per: nat)
    requires Shape(g, d, l, per) && l < BIG && d.head != 0 && SameSize(d) && d.head < |d.code| && d.count[d.head] < 0
    ensures d.listed != [] && d.listed[0] == d.head && Shape(DropPage(g, d.head), Released(d), l, per)
    ensures OnPage(d.head) in g.list && |g.list[OnPage(d.head)]| == per
  {
    hide Shape, Owns;
    FirstPage(g, d, l, per);
    ShapeGood(g, d, l, per);
    var n := d.head;
    ShapeAt(g, d, l, per, n);
    DropPageGood(g, n);
    var g', d' := DropPage(g, n), Released(d);
    ReleasedListing(g, d, l, per);
    DropOwns(g, d, l, per, n);
    hide Good;
    forall m: nat | m < |d.code| ensures PageOk(g', d', m, l, per) {
      ReleasedPage(g, d, l, per, m);
    }
    forall m: nat | OnPage(m) in g'.list ensures m < |d.code| {
      assert OnPage(m) in g.list;
      KeyInTable(g, d, l, per, m);
    }
    ShapeFrom(g', d', l, per);
  }

  lemma DropOwns(g: Layout, d: Desc, l: nat, per: nat, n: nat)
    requires Shape(g, d, l, per) && OnPage(n) in g.list && |g.list[OnPage(n)]| == per
    ensures Owns(DropPage(g, n), per)
  {
    hide Shape, Owns;
    ShapeGood(g, d, l, per);
    WholePage(g, d, l, per, n);
    hide Good;
    var g' := DropPage(g, n);
    forall c ensures c in g'.place <==> c.Chunk? && OnPage(c.page) in g'.list && c.index < per {
      OwnsAt(g, per, c);
    }
    OwnsFrom(g', per);
  }

  lemma ReleasedPage(g: Layout, d: Desc, l: nat, per: nat, m: nat)
    requires Shape(g, d, l, per) && l < BIG && SameSize(d) && d.head < |d.code| && m < |d.code| && d.listed != []
    ensures PageOk(DropPage(g, d.head), Released(d), m, l, per)
  {
    hide Shape, Owns;
    ShapeAt(g, d, l, per, m);
  }

  /** All the chunks of a page with a full chain are on that chain. */
  lemma WholePage(g: Layout, d: Desc, l: nat, per: nat, n: nat)
    requires Shape(g, d, l, per) && OnPage(n) in g.list && |g.list[OnPage(n)]| == per
    ensures forall c :: c in g.place ==> (g.place[c] == OnPage(n) <==> c.Chunk? && c.page == n)
  {
    hide Shape, Owns;
    ShapeGood(g, d, l, per);
    KeyInTable(g, d, l, per, n);
    ShapeAt(g, d, l, per, n);
    GoodAt(g, OnPage(n));
    hide Good;
    forall c | c in g.place ensures g.place[c] == OnPage(n) <==> c.Chunk? && c.page == n {
      OwnsAt(g, per, c);
      ChainLength(g.list[OnPage(n)], n, per, c);
    }
  }

  lemma ReleasedListing(g: Layout, d: Desc, l: nat, per: nat)
    requires Shape(g, d, l, per) && l < BIG && d.head != 0 && SameSize(d) && d.head < |d.code| && d.listed != []
    ensures SameSize(Released(d)) && Listing(DropPage(g, d.head), Released(d), l)
  {
    hide Shape, P.Chain, Owns;
    FirstPage(g, d, l, per);
    ShapeGood(g, d, l, per);
    hide Good;
    P.ChainTail(d.link, d.listed, 0);
    P.Elsewhere(d.link, d.listed[1..], 0, d.head, d.head + 1);
    var g', d' := DropPage(g, d.head), Released(d);
    assert forall m :: m in d.listed <==> m == d.head || m in d.listed[1..] by {
      assert d.listed == [d.listed[0]] + d.listed[1..];
    }
    forall n: nat | n < |d.code| ensures n in d'.listed <==> OnPage(n) in g'.list && g'.list[OnPage(n)] != [] {
      ShapeAt(g, d, l, per, n);
    }
  }

  lemma ReleasedSorted(d: Desc)
    requires SameSize(d) && d.head < |d.code| && d.listed != [] && Sorted(d) && d.listed[0] == d.head
    ensures Sorted(Released(d))
  {
    assert forall i :: 0 < i < |d.listed| ==> d.listed[i] != d.head;
  }

  /** When the first page of a list in order is not wholly free, none is. */
  lemma SortedNoneFull(g: Layout, d: Desc, l: nat, per: nat)
    requires Shape(g, d, l, per) && Sorted(d) && FullMarked(g, d, per) && per > 0
    requires d.head == 0 || (d.head < |d.count| && d.count[d.head] >= 0)
    ensures NoneFull(g, per)
  {
    hide Shape, Owns;
    ShapeGood(g, d, l, per);
    P.HeadIsZero(d.link, d.listed);
    forall n: nat | OnPage(n) in g.list ensures |g.list[OnPage(n)]| < per {
      KeyInTable(g, d, l, per, n);
      ShapeAt(g, d, l, per, n);
      GoodAt(g, OnPage(n));
      ChainLength(g.list[OnPage(n)], n, per, Null);
      if n in d.listed {
        var i :| 0 <= i < |d.listed| && d.listed[i] == n;
        assert i > 0 ==> P.Leq(d.count, d.listed[0], d.listed[i]);
      }
    }
  }

  // ----- moves between the pages and the list being worked on

  predicate Shared(Q: Place) {
    Q == Loose || Q == Rest || Q.OnPage?
  }

  /** Such a move concerns no cache, and no chunk that is held or lost. */
  lemma MoveShared(g: Layout, A: Place, B: Place, cache: map<nat, Cache>, full: nat)
    requires Good(g) && A in g.list && g.list[A] != [] && B in g.list && A != B && Shared(A) && Shared(B)
    requires CachesOk(g, cache, full)
    ensures Move.requires(g, A, B)
    ensures CachesOk(Move(g, A, B), cache, full)
    ensures In(Move(g, A, B), Held) == In(g, Held) && In(Move(g, A, B), Lost) == In(g, Lost)
  {
    hide Move, Good, In, CachesOk;
    MoveGood(g, A, B);
    GoodAt(g, A);
    GoodAt(g, B);
    var g' := Move(g, A, B);
    var c := g.list[A][0];
    MoveCaches(g, g', A, B, g.list[A][1..], [c] + g.list[B], g.next[c], c, cache, full);
    MoveHeld(g, Move(g, A, B), g.list[A][0], A, B);
  }

  lemma MoveHeld(g: Layout, g': Layout, c: Chunk, A: Place, B: Place)
    requires !Unlisted(A) && !Unlisted(B) && c in g.place && g.place[c] == A && g'.place == g.place[c := B]
    ensures In(g', Held) == In(g, Held) && In(g', Lost) == In(g, Lost)
  {}

  lemma MoveCaches(g: Layout, g': Layout, A: Place, B: Place, s: seq<Chunk>, s': seq<Chunk>, c: Chunk, c': Chunk,
                   cache: map<nat, Cache>, full: nat)
    requires CachesOk(g, cache, full) && Shared(A) && Shared(B)
    requires g'.list == g.list[A := s][B := s'] && g'.head == g.head[A := c][B := c']
    ensures CachesOk(g', cache, full)
  {
    forall t | t in cache ensures CacheOk(g', t, cache[t], full) {
      assert CacheOk(g, t, cache[t], full);
    }
  }

  lemma ShiftShape(g: Layout, A: Place, B: Place, d: Desc, l: nat, per: nat)
    requires Shape(g, d, l, per) && A in g.list && B in g.list && A != B && g.list[B] == [] && !A.OnPage? && !B.OnPage?
    ensures Shift.requires(g, A, B) && Shape(Shift(g, A, B), d, l, per)
  {
    hide Shape, Good, Owns, ListOk;
    ShapeGood(g, d, l, per);
    ShiftGood(g, A, B);
    SamePages(g, Shift(g, A, B), d, l, per);
  }

  /** Which chunks are held or lost does not depend on the list a chunk is on. */
  lemma ShiftHeld(g: Layout, A: Place, B: Place)
    requires A in g.list && A in g.head && !Unlisted(A) && !Unlisted(B)
    ensures In(Shift(g, A, B), Held) == In(g, Held) && In(Shift(g, A, B), Lost) == In(g, Lost)
  {}

  lemma ShiftCaches(g: Layout, A: Place, B: Place, cache: map<nat, Cache>, full: nat)
    requires A in g.list && A in g.head && Shared(A) && Shared(B) && CachesOk(g, cache, full)
    ensures CachesOk(Shift(g, A, B), cache, full)
  {
    CachesKept(g, Shift(g, A, B), cache, full);
  }

  /** The pages are described by their own chains alone. */
  lemma SamePages(g: Layout, g': Layout, d: Desc, l: nat, per: nat)
    requires Shape(g, d, l, per) && Good(g') && g'.place.Keys == g.place.Keys && g'.list.Keys == g.list.Keys
    requires g'.head.Keys == g'.list.Keys
    requires forall n: nat :: OnPage(n) in g.list ==>
      OnPage(n) in g.head && g'.list[OnPage(n)] == g.list[OnPage(n)] && g'.head[OnPage(n)] == g.head[OnPage(n)]
    ensures Shape(g', d, l, per)
  {
    hide Good;
    forall n: nat | n < |d.code| ensures PageOk(g', d, n, l, per) {
      ShapeAt(g, d, l, per, n);
    }
    hide PageOk;
    assert Listing(g', d, l);
    OwnsSame(g, g', per);
  }

  ghost function Places(threads: set<nat>): set<Place> {
    {Loose, Rest} + (set t | t in threads :: Local(t)) + (set t | t in threads :: Aux(t))
  }

  ghost function NoChunks(threads: set<nat>): Layout {
    Layout(map[], map[], map Q | Q in Places(threads) :: [], map Q | Q in Places(threads) :: Null)
  }

  lemma NoChunksShape(threads: set<nat>, d: Desc, l: nat, per: nat)
    requires SameSize(d) && d.head == 0 && d.listed == []
    ensures Shape(NoChunks(threads), d, l, per) && Quiet(NoChunks(threads))
    ensures NoneFull(NoChunks(threads), per) && Sorted(d)
    ensures forall n: nat :: OnPage(n) !in NoChunks(threads).list
  {
    var g := NoChunks(threads);
    forall n: nat ensures OnPage(n) !in g.list {}
    assert Good(g);
    assert Owns(g, per);
    assert Listing(g, d, l);
    hide Good, Owns;
    ShapeFrom(g, d, l, per);
  }

  /** One chunk more on the list being worked on, from the chain of a page, and nothing else on a list of
      its own changed. */
  ghost predicate OneMore(g: Layout, g': Layout, c: Chunk) {
    && c in OnChains(g) && |OnChains(g')| + 1 == |OnChains(g)|
    && g'.list.Keys == g.list.Keys
    && Loose in g.list && Loose in g'.head && g'.head[Loose] == c && |g'.list[Loose]| == |g.list[Loose]| + 1
    && In(g', Held) == In(g, Held) && In(g', Lost) == In(g, Lost)
    && (forall Q :: Q in g.list && Q != Loose && !Q.OnPage? ==>
          Q in g.head && Q in g'.head && g'.list[Q] == g.list[Q] && g'.head[Q] == g.head[Q])
  }

  /** Since `g0`, an operation has collected `k` chunks, the last of them `c`; the caches' lists, and
      which chunks are held or lost, are as they were. */
  ghost predicate Progress(g0: Layout, g: Layout, k: nat, c: Chunk) {
    && Loose in g.list && Loose in g.head && |g.list[Loose]| == k && g.head[Loose] == c
    && In(g, Held) == In(g0, Held) && In(g, Lost) == In(g0, Lost)
    && (forall Q: Place :: !Q.OnPage? && Q != Loose && Q in g0.list ==>
          Q in g.list && Q in g0.head && Q in g.head && g.list[Q] == g0.list[Q] && g.head[Q] == g0.head[Q])
  }

  lemma ProgressStart(g: Layout)
    requires Quiet(g) && Good(g)
    ensures Progress(g, g, 0, Null)
  {}

  lemma ProgressAt(g0: Layout, g: Layout, k: nat, c: Chunk)
    requires Progress(g0, g, k, c)
    ensures Loose in g.head && g.head[Loose] == c
  {}

  lemma ProgressTake(g0: Layout, g: Layout, g': Layout, k: nat, c: Chunk, c': Chunk)
    requires Progress(g0, g, k, c) && OneMore(g, g', c')
    ensures Progress(g0, g', k + 1, c')
  {}

  lemma ProgressOpen(g0: Layout, g: Layout, k: nat, c: Chunk, n: nat, per: nat, links: Memory)
    requires Progress(g0, g, k, c) && forall x :: x in g.place ==> !OfPage(n, per, x)
    ensures Progress(g0, AddPage(g, n, per, links), k, c)
  {
    hide Row;
    var g' := AddPage(g, n, per, links);
    forall x ensures x in Row(n, 0, per) <==> OfPage(n, per, x) {
      RowMember(n, 0, per, x);
    }
    assert In(g', Held) == In(g, Held) && In(g', Lost) == In(g, Lost);
  }

  lemma OpenedCaches(g: Layout, n: nat, per: nat, links: Memory, cache: map<nat, Cache>, full: nat)
    requires CachesOk(g, cache, full)
    ensures CachesOk(AddPage(g, n, per, links), cache, full)
  {
    hide Row;
    CachesKept(g, AddPage(g, n, per, links), cache, full);
  }

  lemma NotYetOwned(g: Layout, d: Desc, n: nat, l: nat, per: nat)
    requires Shape(g, d, l, per) && n < |d.code| && d.code[n] != l
    ensures OnPage(n) !in g.list && forall x :: x in g.place ==> !OfPage(n, per, x)
  {
    hide Shape, Owns, Good;
    ShapeGood(g, d, l, per);
    ShapeAt(g, d, l, per, n);
    forall x | x in g.place ensures !OfPage(n, per, x) {
      OwnsAt(g, per, x);
    }
  }

  /** The links over the first `i` chunks of a page are written. */
  ghost predicate Laying(links: Memory, n: nat, i: nat) {
    && (forall c :: c in links <==> OfPage(n, i, c))
    && (forall k: nat, per: nat {:trigger After(n, k, per)} :: k < i < per ==> links[Chunk(n, k)] == After(n, k, per))
  }

  lemma NoLinks(n: nat)
    ensures Laying(map[], n, 0)
  {}

  lemma AddPageNext(g: Layout, n: nat, per: nat, links: Memory)
    ensures AddPage(g, n, per, links).next == g.next + links
    ensures AddPage(g, n, per, links).list.Keys == g.list.Keys + {OnPage(n)}
  {}

  lemma LayingDone(links: Memory, n: nat, per: nat)
    requires per > 0 && Laying(links, n, per - 1)
    ensures Laid(links[Chunk(n, per - 1) := Null], n, per)
  {}

  lemma LayingNext(links: Memory, n: nat, i: nat)
    requires Laying(links, n, i)
    ensures Laying(links[Chunk(n, i) := Chunk(n, i + 1)], n, i + 1)
  {}

  // ----- the caches

  lemma NullIsEmpty(g: Layout, Q: Place)
    requires Good(g) && Q in g.list
    ensures Q in g.head && (g.list[Q] == [] <==> g.head[Q] == Null)
  {
    GoodAt(g, Q);
  }

  lemma Retarget(g: Layout, t: nat, cache: map<nat, Cache>, full: nat)
    requires CachesOk(g, cache, full) && t in cache && Good(g) && cache[t].free == Null && cache[t].aux == Null
    ensures CachesOk(g, cache[t := cache[t].(target := full)], full)
    ensures cache[t].target == 0 || cache[t].target == full
  {
    hide Good;
    assert CacheOk(g, t, cache[t], full);
    NullIsEmpty(g, Local(t));
    NullIsEmpty(g, Aux(t));
  }

  lemma CacheAt(g: Layout, t: nat, cache: map<nat, Cache>, full: nat)
    requires CachesOk(g, cache, full) && t in cache
    ensures CacheOk(g, t, cache[t], full)
  {}

  /** Whether a cache's counters are exact shows in the cache alone. */
  lemma ExactFields(g: Layout, t: nat, cache: map<nat, Cache>, full: nat)
    requires CachesOk(g, cache, full) && t in cache && Good(g)
    ensures Exact(g, t, cache[t]) <==> LooksExact(cache[t])
  {
    hide Good;
    assert CacheOk(g, t, cache[t], full);
    NullIsEmpty(g, Local(t));
    NullIsEmpty(g, Aux(t));
  }

  /** A thread that has no `target` yet and frees its 65536th chunk in a row has a `count` of 0 and a
      full list. */
  lemma CountWraps(g: Layout, t: nat, cache: map<nat, Cache>, full: nat, c: Chunk)
    requires CachesOk(g, cache, full) && t in cache && Good(g)
    requires cache[t].target == 0 && cache[t].count == SHORT - 1 && Push.requires(g, c, Local(t))
    ensures Freed(cache[t], c).count == 0 && |Push(g, c, Local(t)).list[Local(t)]| == SHORT
    ensures !Exact(Push(g, c, Local(t)), t, Freed(cache[t], c))
  {
    assert CacheOk(g, t, cache[t], full);
  }

  /** A list of one cache becomes another, which was empty. */
  lemma ShiftCache(g: Layout, A: Place, B: Place, t: nat, cache: map<nat, Cache>, k: Cache, full: nat)
    requires CachesOk(g, cache, full) && t in cache && A in g.list && A in g.head && B in g.list && B in g.head
    requires {A, B} <= {Local(t), Aux(t), Loose, Rest} && A != B
    requires CacheOk(Shift(g, A, B), t, k, full)
    ensures CachesOk(Shift(g, A, B), cache[t := k], full)
  {
    var g', cache' := Shift(g, A, B), cache[t := k];
    forall u | u in cache' ensures CacheOk(g', u, cache'[u], full) {
      if u != t {
        assert CacheOk(g, u, cache[u], full);
        assert {A, B} !! {Local(u), Aux(u)};
      }
    }
  }

  /** The cache after its first chunk is handed out. */
  ghost function Popped(g: Layout, k: Cache): Cache
    requires k.free in g.next
  {
    k.(free := g.next[k.free], count := Short(k.count - 1))
  }

  /** The first chunk of a cache goes to the caller. */
  lemma PopLocal(g: Layout, d: Desc, l: nat, per: nat, t: nat, cache: map<nat, Cache>, full: nat)
    requires Shape(g, d, l, per) && CachesOk(g, cache, full) && t in cache && cache[t].free != Null
    ensures Local(t) in g.list && g.list[Local(t)] != [] && cache[t].free in g.next
    ensures Pop.requires(g, Local(t)) && Shape(Pop(g, Local(t)), d, l, per)
    ensures CachesOk(Pop(g, Local(t)), cache[t := Popped(g, cache[t])], full)
    ensures cache[t].free !in In(g, Held) && In(Pop(g, Local(t)), Held) == In(g, Held) + {cache[t].free}
    ensures OnChains(Pop(g, Local(t))) == OnChains(g)
    ensures In(Pop(g, Local(t)), Lost) == In(g, Lost)
    ensures Exact(g, t, cache[t]) ==> Exact(Pop(g, Local(t)), t, Popped(g, cache[t]))
  {
    hide Shape, Good, Owns, ListOk, OnChains;
    assert CacheOk(g, t, cache[t], full);
    ShapeGood(g, d, l, per);
    NullIsEmpty(g, Local(t));
    PopGood(g, Local(t));
    SameChains(g, Local(t), Held);
    SamePages(g, Pop(g, Local(t)), d, l, per);
    PopCaches(g, t, cache, full);
  }

  lemma PopCaches(g: Layout, t: nat, cache: map<nat, Cache>, full: nat)
    requires CachesOk(g, cache, full) && t in cache
    requires Pop.requires(g, Local(t)) && g.list[Local(t)][0] == g.head[Local(t)]
    ensures cache[t].free in g.next
    ensures Exact(g, t, cache[t]) ==> Exact(Pop(g, Local(t)), t, Popped(g, cache[t]))
    ensures CachesOk(Pop(g, Local(t)), cache[t := Popped(g, cache[t])], full)
  {
    assert CacheOk(g, t, cache[t], full);
    var g', cache' := Pop(g, Local(t)), cache[t := Popped(g, cache[t])];
    forall u | u in cache' ensures CacheOk(g', u, cache'[u], full) {
      assert CacheOk(g, u, cache[u], full);
    }
  }

  /** A chunk of a caller goes to a cache that has room for it. */
  lemma PushLocal(g: Layout, d: Desc, l: nat, per: nat, t: nat, cache: map<nat, Cache>, full: nat, c: Chunk)
    requires Shape(g, d, l, per) && CachesOk(g, cache, full) && t in cache && c in In(g, Held)
    requires cache[t].count == cache[t].target ==> cache[t].free == Null
    ensures Push.requires(g, c, Local(t)) && Shape(Push(g, c, Local(t)), d, l, per)
    ensures CachesOk(Push(g, c, Local(t)), cache[t := cache[t].(free := c, count := Short(cache[t].count + 1))], full)
    ensures In(Push(g, c, Local(t)), Held) == In(g, Held) - {c} && In(Push(g, c, Local(t)), Lost) == In(g, Lost)
    ensures g.head[Local(t)] == cache[t].free && c != Null
  {
    hide Shape, Owns, ListOk;
    assert CacheOk(g, t, cache[t], full);
    ShapeGood(g, d, l, per);
    assert c != Null by { assert Null !in g.place; }
    hide Good;
    NullIsEmpty(g, Local(t));
    PushGood(g, c, Local(t));
    SamePages(g, Push(g, c, Local(t)), d, l, per);
    PushCaches(g, t, cache, full, c);
  }

  lemma PushCaches(g: Layout, t: nat, cache: map<nat, Cache>, full: nat, c: Chunk)
    requires CachesOk(g, cache, full) && t in cache && Push.requires(g, c, Local(t))
    requires cache[t].free == Null ==> g.list[Local(t)] == []
    requires cache[t].count == cache[t].target ==> cache[t].free == Null
    ensures CachesOk(Push(g, c, Local(t)), cache[t := cache[t].(free := c, count := Short(cache[t].count + 1))], full)
  {
    var g', cache' := Push(g, c, Local(t)), cache[t := cache[t].(free := c, count := Short(cache[t].count + 1))];
    forall u | u in cache' ensures CacheOk(g', u, cache'[u], full) {
      assert CacheOk(g, u, cache[u], full);
    }
  }

  /** The chunks collected so far are lost when valloc fails. */
  lemma ForgetLoose(g: Layout, d: Desc, l: nat, per: nat, cache: map<nat, Cache>, full: nat)
    requires Shape(g, d, l, per) && CachesOk(g, cache, full)
    ensures Shape(Forget(g, Loose), d, l, per) && CachesOk(Forget(g, Loose), cache, full)
    ensures Forget(g, Loose).next == g.next
    ensures In(Forget(g, Loose), Held) == In(g, Held) && In(Forget(g, Loose), Lost) == In(g, Lost) + In(g, Loose)
    ensures NoneFull(g, per) ==> NoneFull(Forget(g, Loose), per)
  {
    hide Shape, Good, Owns, ListOk;
    ShapeGood(g, d, l, per);
    ForgetGood(g, Loose);
    SamePages(g, Forget(g, Loose), d, l, per);
    CachesKept(g, Forget(g, Loose), cache, full);
  }

  lemma ProgressForget(g0: Layout, g: Layout, k: nat, c: Chunk)
    requires Quiet(g0) && Progress(g0, g, k, c)
    ensures Quiet(Forget(g, Loose))
    ensures In(g, Held) == In(g0, Held) && In(g, Lost) == In(g0, Lost)
  {}

  /** The chunks collected are as many as counted, and come from the chains of pages and from new
      pages. */
  lemma Collected(g0: Layout, g: Layout, k: nat, c: Chunk, x: Chunk)
    requires Good(g0) && Good(g) && Quiet(g0) && Progress(g0, g, k, c)
    ensures |In(g, Loose)| == k
    ensures x in In(g, Loose) ==> x !in g0.place || g0.place[x].OnPage?
  {
    hide Good;
    GoodAt(g, Loose);
    DistinctSize(g.list[Loose]);
    assert In(g, Loose) == Members(g.list[Loose]);
    if x in In(g, Loose) && x in g0.place {
      GoodPlace(g0, x);
      if g0.place[x] in g0.list {
        GoodAt(g0, g0.place[x]);
        if !g0.place[x].OnPage? && g0.place[x] != Loose {
          GoodAt(g, g0.place[x]);
        }
      }
      assert Unlisted(g0.place[x]) ==> x in In(g0, g0.place[x]);
    }
  }

  /** A chunk from the chain of a page or from a new page. */
  ghost predicate FromPages(g0: Layout, c: Chunk) {
    c !in g0.place || g0.place[c].OnPage?
  }

  lemma FirstCollected(g0: Layout, g: Layout, k: nat, c: Chunk)
    requires Good(g0) && Good(g) && Quiet(g0) && Progress(g0, g, k, c) && k > 0
    ensures FromPages(g0, c)
  {
    Collected(g0, g, k, c, c);
    GoodAt(g, Loose);
    assert c in g.list[Loose];
  }

  /** The chunks collected become the cache's list. */
  lemma Filled(g0: Layout, g: Layout, d: Desc, l: nat, per: nat, t: nat, cache: map<nat, Cache>, full: nat, c: Chunk)
    requires Quiet(g0) && Shape(g, d, l, per) && CachesOk(g, cache, full) && NoneFull(g, per)
    requires t in cache && cache[t].target == full > 0 && cache[t].free == Null && cache[t].aux == Null
    requires Progress(g0, g, full, c)
    ensures Shift.requires(g, Loose, Local(t))
    ensures var g' := Shift(g, Loose, Local(t));
      && Shape(g', d, l, per) && NoneFull(g', per) && Quiet(g')
      && CachesOk(g', cache[t := cache[t].(free := c, count := full)], full)
      && In(g', Held) == In(g0, Held) && In(g', Lost) == In(g0, Lost)
    ensures c != Null
  {
    hide Shape, Good, Owns, ListOk, NoneFull, In, CachesOk;
    ShapeGood(g, d, l, per);
    CacheAt(g, t, cache, full);
    NullIsEmpty(g, Local(t));
    NullIsEmpty(g, Aux(t));
    NullIsEmpty(g, Loose);
    NullIsEmpty(g, Rest);
    ShiftShape(g, Loose, Local(t), d, l, per);
    ShiftHeld(g, Loose, Local(t));
    ShiftNoneFull(g, Loose, Local(t), per);
    ShiftCache(g, Loose, Local(t), t, cache, cache[t].(free := c, count := full), full);
  }

  lemma QuietPop(g: Layout, Q: Place, per: nat)
    requires Quiet(g) && NoneFull(g, per) && Pop.requires(g, Q) && Q.Local?
    ensures Quiet(Pop(g, Q)) && NoneFull(Pop(g, Q), per)
  {}

  /** `aux` becomes `free`, which is empty. */
  lemma AuxToFree(g: Layout, d: Desc, l: nat, per: nat, t: nat, cache: map<nat, Cache>, full: nat)
    requires Shape(g, d, l, per) && CachesOk(g, cache, full) && NoneFull(g, per) && Quiet(g)
    requires t in cache && cache[t].free == Null && cache[t].aux != Null
    ensures Shift.requires(g, Aux(t), Local(t))
    ensures var g' := Shift(g, Aux(t), Local(t));
      && Shape(g', d, l, per) && NoneFull(g', per) && Quiet(g')
      && CachesOk(g', cache[t := cache[t].(free := cache[t].aux, aux := Null, count := cache[t].target)], full)
      && In(g', Held) == In(g, Held) && In(g', Lost) == In(g, Lost) && g'.next == g.next
  {
    hide Shape, Good, Owns, ListOk;
    ShapeGood(g, d, l, per);
    assert CacheOk(g, t, cache[t], full);
    NullIsEmpty(g, Local(t));
    NullIsEmpty(g, Aux(t));
    ShiftShape(g, Aux(t), Local(t), d, l, per);
    ShiftHeld(g, Aux(t), Local(t));
    var k := cache[t].(free := cache[t].aux, aux := Null, count := cache[t].target);
    ShiftCache(g, Aux(t), Local(t), t, cache, k, full);
  }

  /** The list being worked on has lost its first chunk to a page; `c` is now the first. */
  ghost predicate OneLess(g: Layout, g': Layout, c: Chunk) {
    && g'.list.Keys == g.list.Keys
    && Loose in g.list && Loose in g'.head && g'.head[Loose] == c && |g.list[Loose]| == |g'.list[Loose]| + 1
    && In(g', Held) == In(g, Held) && In(g', Lost) == In(g, Lost) && Flows(g, g')
    && (forall Q :: Q in g.list && Q != Loose && !Q.OnPage? ==>
          Q in g.head && Q in g'.head && g'.list[Q] == g.list[Q] && g'.head[Q] == g.head[Q])
  }

  /** All that giving a chunk back keeps. */
  lemma ReturnedKeeps(g: Layout, d: Desc, l: nat, per: nat, cache: map<nat, Cache>, full: nat)
    requires Shape(g, d, l, per) && CachesOk(g, cache, full) && FullMarked(g, d, per)
    requires Loose in g.head && g.head[Loose] != Null
    ensures Loose in g.list && g.list[Loose] != []
    ensures var c := g.list[Loose][0];
      && c == g.head[Loose] && SameSize(d) && c.Chunk? && c.page < |d.code| && Returned.requires(d, c, per)
      && Move.requires(g, Loose, OnPage(c.page)) && OnPage(c.page) in g.head
      && g.head[OnPage(c.page)] == (if d.count[c.page] == 0 then Null else Chunk(c.page, d.first[c.page]))
      && d.count[c.page] >= 0
      && var g' := Move(g, Loose, OnPage(c.page));
      && Shape(g', Returned(d, c, per), l, per) && CachesOk(g', cache, full) && FullMarked(g', Returned(d, c, per), per)
      && g'.next == g.next[c := g.head[OnPage(c.page)]]
      && OneLess(g, g', g.next[c])
  {
    hide Shape, Good, CachesOk, FullMarked, Move, Owns, P.IsList, Returned, Flows, In;
    ShapeGood(g, d, l, per);
    NullIsEmpty(g, Loose);
    FirstLoose(g, d, l, per);
    ReturnedShape(g, d, l, per);
    ReturnedMarks(g, d, l, per);
    MoveGood(g, Loose, OnPage(g.list[Loose][0].page));
    MoveShared(g, Loose, OnPage(g.list[Loose][0].page), cache, full);
    FlowsMove(g, Move(g, Loose, OnPage(g.list[Loose][0].page)), g.list[Loose][0]);
  }

  // ----- where the chunks of a flush go

  predicate Working(Q: Place) {
    Q == Loose || Q == Rest
  }

  /** A chunk of a list being worked on stays on one, or goes to its page; any other stays. */
  predicate Flow(c: Chunk, Q: Place, Q': Place) {
    Q' == Q || (Working(Q) && (Working(Q') || (c.Chunk? && Q' == OnPage(c.page))))
  }

  ghost predicate Flows(g: Layout, g': Layout) {
    && g'.place.Keys == g.place.Keys && g'.list.Keys == g.list.Keys
    && (forall c :: c in g.place ==> Flow(c, g.place[c], g'.place[c]))
  }

  lemma FlowsTrans(g: Layout, g': Layout, g'': Layout)
    requires Flows(g, g') && Flows(g', g'')
    ensures Flows(g, g'')
  {
    forall c | c in g.place ensures Flow(c, g.place[c], g''.place[c]) {
      assert c in g'.place.Keys;
      assert Flow(c, g.place[c], g'.place[c]) && Flow(c, g'.place[c], g''.place[c]);
    }
  }

  lemma FlowsStart(g: Layout)
    ensures Flows(g, g)
  {}

  lemma FlowsShift(g: Layout)
    requires Rest in g.list && Rest in g.head && Loose in g.list
    ensures Flows(g, Shift(g, Rest, Loose))
  {}

  lemma FlowsMove(g: Layout, g': Layout, c: Chunk)
    requires c.Chunk? && c in g.place && g.place[c] == Loose && OnPage(c.page) in g.list
    requires g'.place == g.place[c := OnPage(c.page)] && g'.list.Keys == g.list.Keys
    ensures Flows(g, g')
  {}

  /** All the chunks of page `n` are on its chain or in one of the places `S`. */
  ghost predicate WhollyFree(g: Layout, n: nat, per: nat, S: set<Place>) {
    && OnPage(n) in g.list
    && (forall i: nat {:trigger Chunk(n, i)} :: i < per ==>
          Chunk(n, i) in g.place && (g.place[Chunk(n, i)] == OnPage(n) || g.place[Chunk(n, i)] in S))
  }

  /** When nothing is left to work on, every chunk of those lists is on its page. */
  lemma FlowsEnd(g: Layout, g': Layout, n: nat, per: nat)
    requires Flows(g, g') && Good(g') && Quiet(g')
    ensures WhollyFree(g', n, per, {}) <==> WhollyFree(g, n, per, {Loose, Rest})
  {
    GoodAt(g', Loose);
    GoodAt(g', Rest);
    hide Good;
    forall i: nat | Chunk(n, i) in g.place
      ensures Chunk(n, i) in g'.place
      ensures g'.place[Chunk(n, i)] == OnPage(n) <==> g.place[Chunk(n, i)] in {OnPage(n), Loose, Rest}
    {
      assert Chunk(n, i) in g'.place.Keys;
      assert Flow(Chunk(n, i), g.place[Chunk(n, i)], g'.place[Chunk(n, i)]);
    }
    assert forall i: nat :: Chunk(n, i) in g'.place.Keys <==> Chunk(n, i) in g.place.Keys;
  }

  /** A page is wholly free exactly when its chain is full. */
  lemma WhollyIsFull(g: Layout, d: Desc, l: nat, per: nat, n: nat)
    requires Shape(g, d, l, per) && OnPage(n) in g.list
    ensures WhollyFree(g, n, per, {}) <==> |g.list[OnPage(n)]| == per
  {
    hide Shape, Owns;
    ShapeGood(g, d, l, per);
    KeyInTable(g, d, l, per, n);
    ShapeAt(g, d, l, per, n);
    GoodAt(g, OnPage(n));
    hide Good;
    var s := g.list[OnPage(n)];
    ChainLength(s, n, per, Null);
    if |s| == per {
      WholePage(g, d, l, per, n);
      forall i: nat | i < per ensures Chunk(n, i) in g.place && g.place[Chunk(n, i)] == OnPage(n) {
        OwnsAt(g, per, Chunk(n, i));
      }
    }
    if WhollyFree(g, n, per, {}) {
      forall c | OfPage(n, per, c) ensures c in s {
        assert c == Chunk(n, c.index);
      }
      FullChain(s, n, per);
    }
  }

  /** A list handed to the flush: what was on it is now worked on. */
  lemma ShiftWholly(g: Layout, A: Place, B: Place, S: set<Place>, n: nat, per: nat)
    requires Good(g) && A in g.list && B in g.list && A != B && g.list[B] == [] && !A.OnPage? && !B.OnPage?
    requires A !in S && B !in S
    ensures Shift.requires(g, A, B)
    ensures WhollyFree(Shift(g, A, B), n, per, S + {B}) <==> WhollyFree(g, n, per, S + {A})
  {
    GoodAt(g, B);
    GoodAt(g, A);
    hide Good;
    var g' := Shift(g, A, B);
    forall i: nat | Chunk(n, i) in g.place
      ensures Chunk(n, i) in g'.place
      ensures g'.place[Chunk(n, i)] == OnPage(n) || g'.place[Chunk(n, i)] in S + {B} <==>
        g.place[Chunk(n, i)] == OnPage(n) || g.place[Chunk(n, i)] in S + {A}
    {
      assert Chunk(n, i) !in g.list[B];
    }
  }

  /** An empty list has no part in it. */
  lemma EmptyWholly(g: Layout, Q: Place, S: set<Place>, n: nat, per: nat)
    requires Good(g) && Q in g.list && g.list[Q] == []
    ensures WhollyFree(g, n, per, S + {Q}) <==> WhollyFree(g, n, per, S)
  {
    GoodAt(g, Q);
    hide Good;
    forall i: nat | Chunk(n, i) in g.place ensures g.place[Chunk(n, i)] != Q {
      assert Chunk(n, i) !in g.list[Q];
    }
  }

  lemma NoneWholly(g: Layout, d: Desc, l: nat, per: nat, n: nat)
    requires Shape(g, d, l, per) && NoneFull(g, per)
    ensures !WhollyFree(g, n, per, {})
  {
    hide Shape;
    if OnPage(n) in g.list {
      WhollyIsFull(g, d, l, per, n);
    }
  }

  // ----- pages handed back to the heap

  /** A page handed back is described as a block of one page in use, for `free` to take. */
  ghost predicate AsBlocks(code: seq<nat>, link: seq<nat>, pages: seq<nat>) {
    forall i :: 0 <= i < |pages| ==>
      0 < pages[i] < |code| && pages[i] < |link| && code[pages[i]] == BIG && link[pages[i]] == pages[i] + 1
  }

  /** `pages` are exactly the pages that have left the class, each once. */
  ghost predicate LeftClass(g: Layout, g': Layout, pages: seq<nat>) {
    && (forall n: nat :: n in pages <==> OnPage(n) in g.list && OnPage(n) !in g'.list)
    && (forall n: nat :: OnPage(n) in g'.list ==> OnPage(n) in g.list)
    && (forall i, j :: 0 <= i < j < |pages| ==> pages[i] != pages[j])
  }

  /** `pages` are exactly the pages that are wholly free once the lists `S` are given back. */
  ghost predicate AllWholly(g: Layout, per: nat, S: set<Place>, pages: seq<nat>) {
    forall n: nat :: n in pages <==> WhollyFree(g, n, per, S)
  }

  /** In the course of the second loop of the flush: `pages` have been dropped, with full chains, and
      the others are as they were. */
  ghost predicate Dropping(g0: Layout, g: Layout, per: nat, code: seq<nat>, link: seq<nat>, pages: seq<nat>) {
    && LeftClass(g0, g, pages) && AsBlocks(code, link, pages)
    && (forall n: nat :: OnPage(n) in g0.list && OnPage(n) !in g.list ==> |g0.list[OnPage(n)]| == per)
    && (forall n: nat :: OnPage(n) in g.list ==> OnPage(n) in g0.list && g.list[OnPage(n)] == g0.list[OnPage(n)])
  }

  lemma DroppingStart(g: Layout, per: nat, code: seq<nat>, link: seq<nat>)
    ensures Dropping(g, g, per, code, link, [])
  {}

  lemma DroppingNext(g0: Layout, g: Layout, per: nat, code: seq<nat>, link: seq<nat>, pages: seq<nat>, n: nat)
    requires Dropping(g0, g, per, code, link, pages) && OnPage(n) in g.list && 0 < n < |code| && n < |link|
    ensures |g.list[OnPage(n)]| == per ==>
      Dropping(g0, DropPage(g, n), per, code[n := BIG], link[n := n + 1], pages + [n])
  {
    assert n !in pages;
  }

  lemma DroppingEnd(g0: Layout, d0: Desc, g: Layout, l: nat, per: nat, code: seq<nat>, link: seq<nat>, pages: seq<nat>)
    requires Shape(g0, d0, l, per) && Dropping(g0, g, per, code, link, pages) && NoneFull(g, per)
    ensures LeftClass(g0, g, pages) && AsBlocks(code, link, pages) && AllWholly(g0, per, {}, pages)
  {
    hide Shape, WhollyFree;
    forall n: nat ensures n in pages <==> WhollyFree(g0, n, per, {}) {
      if OnPage(n) in g0.list {
        WhollyIsFull(g0, d0, l, per, n);
      } else {
        assert !WhollyFree(g0, n, per, {}) by { NotWholly(g0, n, per); }
      }
    }
  }

  lemma NotWholly(g: Layout, n: nat, per: nat)
    requires OnPage(n) !in g.list
    ensures !WhollyFree(g, n, per, {})
  {}

  /** What the flush released, said of the state before it. */
  lemma WhollyBefore(g0: Layout, g1: Layout, g: Layout, per: nat, pages: seq<nat>)
    requires Flows(g0, g1) && Good(g1) && Quiet(g1) && LeftClass(g1, g, pages) && AllWholly(g1, per, {}, pages)
    ensures LeftClass(g0, g, pages) && AllWholly(g0, per, {Loose, Rest}, pages)
  {
    forall n: nat ensures OnPage(n) in g1.list <==> OnPage(n) in g0.list {
      assert OnPage(n) in g1.list.Keys <==> OnPage(n) in g0.list.Keys;
    }
    LeftVia(g0, g1, g, g, pages);
    hide WhollyFree, Flows, Good, Quiet, LeftClass;
    forall n: nat ensures n in pages <==> WhollyFree(g0, n, per, {Loose, Rest}) {
      FlowsEnd(g0, g1, n, per);
    }
  }

  /** The flush of one list, said of the state before the list was handed to it. */
  lemma WhollyOne(g: Layout, A: Place, per: nat, pages: seq<nat>)
    requires Good(g) && Quiet(g) && A in g.list && !A.OnPage? && A != Loose && A != Rest
    requires Shift.requires(g, A, Loose) && AllWholly(Shift(g, A, Loose), per, {Loose, Rest}, pages)
    ensures AllWholly(g, per, {A}, pages)
  {
    var g1 := Shift(g, A, Loose);
    ShiftGood(g, A, Loose);
    hide Good, Shift, WhollyFree;
    assert Rest in g1.list && g1.list[Rest] == [] by { ShiftOthers(g, A, Loose, Rest); }
    forall n: nat ensures n in pages <==> WhollyFree(g, n, per, {A}) {
      EmptyWholly(g1, Rest, {Loose}, n, per);
      assert {Loose} + {Rest} == {Loose, Rest};
      ShiftWholly(g, A, Loose, {}, n, per);
      assert {} + {Loose} == {Loose} && {} + {A} == {A};
    }
  }

  lemma ShiftOthers(g: Layout, A: Place, B: Place, Q: Place)
    requires A in g.list && A in g.head && Q in g.list && Q != A && Q != B
    ensures Q in Shift(g, A, B).list && Shift(g, A, B).list[Q] == g.list[Q]
  {}

  /** And of two lists. */
  lemma WhollyBoth(g: Layout, A: Place, B: Place, per: nat, pages: seq<nat>)
    requires Good(g) && Quiet(g) && A in g.list && B in g.list && A != B && !A.OnPage? && !B.OnPage?
    requires {A, B} !! {Loose, Rest}
    requires Shift.requires(g, A, Loose) && Shift.requires(Shift(g, A, Loose), B, Rest)
    requires AllWholly(Shift(Shift(g, A, Loose), B, Rest), per, {Loose, Rest}, pages)
    ensures AllWholly(g, per, {A, B}, pages)
  {
    var g1 := Shift(g, A, Loose);
    ShiftGood(g, A, Loose);
    assert B in g1.list && Rest in g1.list && g1.list[Rest] == [];
    hide Good, Shift, WhollyFree;
    forall n: nat ensures n in pages <==> WhollyFree(g, n, per, {A, B}) {
      ShiftWholly(g1, B, Rest, {Loose}, n, per);
      assert {Loose} + {Rest} == {Loose, Rest} && {Loose} + {B} == {B} + {Loose};
      ShiftWholly(g, A, Loose, {B}, n, per);
      assert {B} + {A} == {A, B};
    }
  }

  /** With empty lists nothing becomes wholly free. */
  lemma WhollyNone(g: Layout, d: Desc, l: nat, per: nat, A: Place, B: Place)
    requires Shape(g, d, l, per) && NoneFull(g, per) && A in g.list && B in g.list
    requires g.list[A] == [] && g.list[B] == []
    ensures AllWholly(g, per, {A, B}, [])
  {
    hide Shape, Good, WhollyFree, NoneFull;
    ShapeGood(g, d, l, per);
    forall n: nat ensures !WhollyFree(g, n, per, {A, B}) {
      EmptyWholly(g, A, {}, n, per);
      EmptyWholly(g, B, {} + {A}, n, per);
      assert {} + {A} + {B} == {A, B};
      NoneWholly(g, d, l, per, n);
    }
  }

  lemma NoPagesLeft(g: Layout, g': Layout)
    requires forall n: nat :: OnPage(n) in g'.list <==> OnPage(n) in g.list
    ensures LeftClass(g, g', [])
  {}

  lemma SamePageKeys(g: Layout, A: Place, B: Place)
    requires A in g.list && A in g.head && !A.OnPage? && !B.OnPage?
    ensures forall n: nat :: OnPage(n) in Shift(g, A, B).list <==> OnPage(n) in g.list
  {}

  lemma PushPageKeys(g: Layout, c: Chunk, Q: Place)
    requires Push.requires(g, c, Q) && !Q.OnPage?
    ensures forall n: nat :: OnPage(n) in Push(g, c, Q).list <==> OnPage(n) in g.list
  {}

  lemma LeftVia(g: Layout, g1: Layout, g2: Layout, g': Layout, pages: seq<nat>)
    requires LeftClass(g1, g2, pages)
    requires forall n: nat :: OnPage(n) in g1.list <==> OnPage(n) in g.list
    requires forall n: nat :: OnPage(n) in g'.list <==> OnPage(n) in g2.list
    ensures LeftClass(g, g', pages)
  {}

  /** What is left to give back: the chunks from `cp` on, and then those from `cp2` on. */
  ghost predicate Remaining(g: Layout, cp: Chunk, cp2: Chunk, k: nat) {
    && Loose in g.list && Rest in g.list && Loose in g.head && Rest in g.head
    && g.head[Loose] == cp && g.head[Rest] == cp2
    && |g.list[Loose]| + |g.list[Rest]| == k
  }

  lemma RemainingAt(g: Layout, cp: Chunk, cp2: Chunk, k: nat)
    requires Remaining(g, cp, cp2, k)
    ensures Loose in g.head && g.head[Loose] == cp
  {}

  lemma HeadInTable(g: Layout, d: Desc, l: nat, per: nat)
    requires Shape(g, d, l, per)
    ensures SameSize(d) && (d.head == 0 || d.head < |d.code|)
  {
    hide Shape, Owns;
    ShapeGood(g, d, l, per);
    hide Good;
    P.HeadIsZero(d.link, d.listed);
  }

  lemma SortKeepsMarks(g: Layout, d: Desc, d': Desc, per: nat)
    requires FullMarked(g, d, per) && d'.count == d.count
    ensures FullMarked(g, d', per)
  {}

  lemma SortedFrom(d: Desc)
    requires P.InTable(d.count, d.listed) && P.Ascending(d.count, d.listed)
    ensures Sorted(d)
  {}

  lemma RemainingLess(g: Layout, g': Layout, c: Chunk, cp: Chunk, cp2: Chunk, k: nat)
    requires Remaining(g, cp, cp2, k) && OneLess(g, g', c)
    ensures k > 0 && Remaining(g', c, cp2, k - 1) && Flows(g, g')
    ensures In(g', Held) == In(g, Held) && In(g', Lost) == In(g, Lost)
  {}

  /** The second list takes the place of the first, which is empty. */
  lemma RestToLoose(g: Layout, d: Desc, l: nat, per: nat, cache: map<nat, Cache>, full: nat, cp2: Chunk, k: nat)
    requires Shape(g, d, l, per) && CachesOk(g, cache, full) && FullMarked(g, d, per) && Remaining(g, Null, cp2, k)
    ensures Shift.requires(g, Rest, Loose)
    ensures var g' := Shift(g, Rest, Loose);
      && Shape(g', d, l, per) && CachesOk(g', cache, full) && FullMarked(g', d, per) && Remaining(g', cp2, Null, k)
      && In(g', Held) == In(g, Held) && In(g', Lost) == In(g, Lost) && g'.next == g.next && Flows(g, g')
  {
    hide Shape, Good, Owns, ListOk, CachesOk, In, Flows;
    ShapeGood(g, d, l, per);
    NullIsEmpty(g, Loose);
    FlowsShift(g);
    ShiftShape(g, Rest, Loose, d, l, per);
    ShiftHeld(g, Rest, Loose);
    ShiftCaches(g, Rest, Loose, cache, full);
  }

  lemma RemainingNone(g: Layout, k: nat)
    requires Good(g) && Remaining(g, Null, Null, k)
    ensures k == 0 && Quiet(g)
  {
    hide Good;
    NullIsEmpty(g, Loose);
    NullIsEmpty(g, Rest);
  }

  lemma NoneFullMarked(g: Layout, d: Desc, per: nat)
    requires NoneFull(g, per)
    ensures FullMarked(g, d, per)
  {}

  /** Sorting the list of pages. */
  lemma Resorted(g: Layout, d: Desc, l: nat, per: nat, link: seq<nat>, head: nat, listed: seq<nat>)
    requires Shape(g, d, l, per) && |link| == |d.link|
    requires P.IsList(link, head, listed) && multiset(listed) == multiset(d.listed)
    ensures Shape(g, d.(link := link, head := head, listed := listed), l, per)
  {
    hide Shape, Good, Owns, P.IsList;
    ShapeGood(g, d, l, per);
    P.SameMembers(listed, d.listed);
    var d' := d.(link := link, head := head, listed := listed);
    forall n: nat | n < |d.code|
      ensures PageOk(g, d', n, l, per)
      ensures n in d'.listed <==> OnPage(n) in g.list && g.list[OnPage(n)] != []
    {
      ShapeAt(g, d, l, per, n);
    }
    forall n: nat | OnPage(n) in g.list ensures n < |d.code| {
      KeyInTable(g, d, l, per, n);
    }
    hide PageOk;
    ShapeFrom(g, d', l, per);
  }

  /** All that releasing a wholly free page keeps. */
  lemma ReleasedKeeps(g: Layout, d: Desc, l: nat, per: nat, cache: map<nat, Cache>, full: nat)
    requires Shape(g, d, l, per) && CachesOk(g, cache, full) && FullMarked(g, d, per) && Sorted(d) && Quiet(g)
    requires l < BIG && d.head != 0 && SameSize(d) && d.head < |d.code| && d.count[d.head] < 0
    ensures d.listed != []
    ensures var g' := DropPage(g, d.head);
      && Shape(g', Released(d), l, per) && CachesOk(g', cache, full) && FullMarked(g', Released(d), per)
      && Sorted(Released(d)) && Quiet(g') && In(g', Held) == In(g, Held) && In(g', Lost) == In(g, Lost)
  {
    hide Shape, Good, Owns, Sorted;
    ReleasedShape(g, d, l, per);
    ReleasedSorted(d);
    CachesKept(g, DropPage(g, d.head), cache, full);
  }

  lemma ShiftNoneFull(g: Layout, A: Place, B: Place, per: nat)
    requires NoneFull(g, per) && A in g.list && A in g.head && !A.OnPage? && !B.OnPage?
    ensures NoneFull(Shift(g, A, B), per)
  {}

  /** A full `aux` list is handed to the flush. */
  lemma AuxToLoose(g: Layout, d: Desc, l: nat, per: nat, t: nat, cache: map<nat, Cache>, full: nat)
    requires Shape(g, d, l, per) && CachesOk(g, cache, full) && NoneFull(g, per) && Quiet(g) && t in cache
    ensures Shift.requires(g, Aux(t), Loose)
    ensures var g' := Shift(g, Aux(t), Loose);
      && Shape(g', d, l, per) && NoneFull(g', per)
      && CachesOk(g', cache[t := cache[t].(aux := Null)], full)
      && Remaining(g', cache[t].aux, Null, |g.list[Aux(t)]|)
      && In(g', Held) == In(g, Held) && In(g', Lost) == In(g, Lost) && g'.next == g.next
  {
    hide Shape, Good, Owns, ListOk, NoneFull;
    ShapeGood(g, d, l, per);
    assert CacheOk(g, t, cache[t], full);
    ShiftShape(g, Aux(t), Loose, d, l, per);
    ShiftHeld(g, Aux(t), Loose);
    ShiftNoneFull(g, Aux(t), Loose, per);
    ShiftCache(g, Aux(t), Loose, t, cache, cache[t].(aux := Null), full);
  }

  /** A full `free` list becomes `aux`, which is empty. */
  lemma FreeToAux(g: Layout, d: Desc, l: nat, per: nat, t: nat, cache: map<nat, Cache>, full: nat)
    requires Shape(g, d, l, per) && CachesOk(g, cache, full) && NoneFull(g, per) && Quiet(g)
    requires t in cache && cache[t].count == cache[t].target && cache[t].aux == Null
    ensures Shift.requires(g, Local(t), Aux(t))
    ensures var g' := Shift(g, Local(t), Aux(t));
      && Shape(g', d, l, per) && NoneFull(g', per) && Quiet(g')
      && CachesOk(g', cache[t := cache[t].(aux := cache[t].free, free := Null, count := 0)], full)
      && In(g', Held) == In(g, Held) && In(g', Lost) == In(g, Lost) && g'.next == g.next
  {
    hide Shape, Good, Owns, ListOk, NoneFull;
    ShapeGood(g, d, l, per);
    assert CacheOk(g, t, cache[t], full);
    NullIsEmpty(g, Aux(t));
    ShiftShape(g, Local(t), Aux(t), d, l, per);
    ShiftHeld(g, Local(t), Aux(t));
    ShiftNoneFull(g, Local(t), Aux(t), per);
    ShiftCache(g, Local(t), Aux(t), t, cache, cache[t].(aux := cache[t].free, free := Null, count := 0), full);
  }

  /** Both lists of a cache are handed to the flush. */
  lemma CacheToFlush(g: Layout, d: Desc, l: nat, per: nat, t: nat, cache: map<nat, Cache>, full: nat)
    requires Shape(g, d, l, per) && CachesOk(g, cache, full) && NoneFull(g, per) && Quiet(g) && t in cache
    ensures Local(t) in g.list && Aux(t) in g.list
    ensures Shift.requires(g, Local(t), Loose) && Shift.requires(Shift(g, Local(t), Loose), Aux(t), Rest)
    ensures cache[t].free == Null ==> cache[t].count == 0
    ensures var g' := Shift(Shift(g, Local(t), Loose), Aux(t), Rest);
      && Shape(g', d, l, per) && NoneFull(g', per)
      && CachesOk(g', cache[t := cache[t].(free := Null, aux := Null, count := 0)], full)
      && Remaining(g', cache[t].free, cache[t].aux, |g.list[Local(t)]| + |g.list[Aux(t)]|)
      && In(g', Held) == In(g, Held) && In(g', Lost) == In(g, Lost) && g'.next == g.next
  {
    hide Shape, Good, Owns, ListOk, NoneFull, CachesOk, In;
    ShapeGood(g, d, l, per);
    CacheAt(g, t, cache, full);
    NullIsEmpty(g, Local(t));
    var g1 := Shift(g, Local(t), Loose);
    var k := cache[t].(free := Null, count := 0);
    ShiftShape(g, Local(t), Loose, d, l, per);
    ShiftHeld(g, Local(t), Loose);
    ShiftNoneFull(g, Local(t), Loose, per);
    ShiftCache(g, Local(t), Loose, t, cache, k, full);
    ShiftShape(g1, Aux(t), Rest, d, l, per);
    ShiftHeld(g1, Aux(t), Rest);
    ShiftNoneFull(g1, Aux(t), Rest, per);
    ShiftCache(g1, Aux(t), Rest, t, cache[t := k], k.(aux := Null), full);
    assert cache[t := k][t := k.(aux := Null)] == cache[t := k.(aux := Null)];
  }

  lemma QuietPush(g: Layout, c: Chunk, Q: Place, per: nat)
    requires Quiet(g) && NoneFull(g, per) && Push.requires(g, c, Q) && Q.Local?
    ensures Quiet(Push(g, c, Q)) && NoneFull(Push(g, c, Q), per)
  {}

  /** Between operations the first page of the list has a free chunk and a used one. */
  lemma HeadCount(g: Layout, d: Desc, l: nat, per: nat)
    requires Shape(g, d, l, per) && NoneFull(g, per) && d.head != 0
    ensures d.head < |d.count| && d.count[d.head] > 0
    ensures forall m: nat :: OnPage(m) in g.list && m != d.head ==> |g.list[OnPage(m)]| < per
  {
    hide Shape, Good, Owns;
    FirstPage(g, d, l, per);
    ShapeAt(g, d, l, per, d.head);
  }

  lemma ForgetKeys(g: Layout)
    requires Loose in g.list
    ensures Forget(g, Loose).list.Keys == g.list.Keys
  {}

  lemma Noted(g: Layout, d: Desc, l: nat, per: nat, n: nat)
    requires Shape(g, d, l, per) && n < |d.code| && OnPage(n) !in g.list
    ensures Shape(g, d.(code := d.code[n := BIG]), l, per)
  {
    hide Shape, Good, Owns, P.IsList;
    ShapeGood(g, d, l, per);
    var d' := d.(code := d.code[n := BIG]);
    forall k: nat | k < |d.code|
      ensures PageOk(g, d', k, l, per)
      ensures k in d'.listed <==> OnPage(k) in g.list && g.list[OnPage(k)] != []
    {
      ShapeAt(g, d, l, per, k);
    }
    forall k: nat | OnPage(k) in g.list ensures k < |d.code| {
      KeyInTable(g, d, l, per, k);
    }
    hide PageOk;
    ShapeFrom(g, d', l, per);
  }

  /** What a failed refill loses: fewer chunks than it was to collect, all of them from the chains of
      pages or from new pages. */
  ghost predicate Dropped(g0: Layout, g: Layout, l: nat)
    requires l < Classes.NUMSMALL
  {
    && In(g0, Lost) <= In(g, Lost)
    && |In(g, Lost) - In(g0, Lost)| < Classes.Target(l)
    && (forall c :: c in In(g, Lost) - In(g0, Lost) ==> c !in g0.place || g0.place[c].OnPage?)
  }

  lemma OtherPart(a: set<Chunk>, b: set<Chunk>)
    requires a !! b
    ensures |a + b - a| == |b|
  {
    assert a + b - a == b;
  }

  lemma ShortCount(g: Layout, t: nat, cache: map<nat, Cache>, full: nat)
    requires CachesOk(g, cache, full) && t in cache
    ensures cache[t].count < SHORT && cache[t].target < SHORT
  {
    assert CacheOk(g, t, cache[t], full);
  }

  /** Only the cache of thread `t` has changed. */
  ghost predicate OnlyFor(t: nat, before: map<nat, Cache>, after: map<nat, Cache>) {
    t in after && after == before[t := after[t]]
  }

  // ----- the chunks that a refill can collect

  /** The free chunks on the chains of the pages. */
  ghost function OnChains(g: Layout): set<Chunk> {
    set c | c in g.place && g.place[c].OnPage?
  }

  /** How many chunks there are on the pages of the class and on `pages` more. */
  ghost function Stock(g: Layout, pages: nat, per: nat): nat {
    |OnChains(g)| + pages * per
  }

  /** With no page on the list there is no chunk on a chain. */
  lemma NoneOnChains(g: Layout, d: Desc, l: nat, per: nat)
    requires Shape(g, d, l, per) && d.head == 0
    ensures OnChains(g) == {}
  {
    hide Shape, Owns;
    ShapeGood(g, d, l, per);
    hide Good, ListOk;
    assert d.listed == [];
    forall c | c in g.place ensures !g.place[c].OnPage? {
      if g.place[c].OnPage? {
        GoodPlace(g, c);
        PlaceListed(g, c);
        KeyInTable(g, d, l, per, g.place[c].n);
        ShapeAt(g, d, l, per, g.place[c].n);
      }
    }
  }

  lemma PlaceListed(g: Layout, c: Chunk)
    requires Good(g) && c in g.place && g.place[c] in g.list
    ensures c in g.list[g.place[c]]
  {
    GoodAt(g, g.place[c]);
  }

  lemma NothingLeft(g: Layout, pages: nat, per: nat)
    requires Stock(g, pages, per) == 0
    ensures OnChains(g) == {}
  {}

  /** One chunk less on the chains. */
  lemma MoveChains(g: Layout, n: nat)
    requires Good(g) && OnPage(n) in g.list && g.list[OnPage(n)] != [] && Loose in g.list
    ensures Move.requires(g, OnPage(n), Loose)
    ensures var c := g.list[OnPage(n)][0];
      && c in OnChains(g) && OnChains(Move(g, OnPage(n), Loose)) == OnChains(g) - {c}
      && |OnChains(Move(g, OnPage(n), Loose))| + 1 == |OnChains(g)|
  {
    PopGood(g, OnPage(n));
    GoodAt(g, Loose);
    hide Good, ListOk;
    var c := g.list[OnPage(n)][0];
    assert OnChains(Move(g, OnPage(n), Loose)) == OnChains(g) - {c};
  }

  /** A page of chunks more. */
  lemma OpenChains(g: Layout, n: nat, per: nat, links: Memory)
    requires OnChains(g) == {}
    ensures |OnChains(AddPage(g, n, per, links))| == per
  {
    RowSize(n, 0, per);
    hide Row;
    var g' := AddPage(g, n, per, links);
    forall c ensures c in OnChains(g') <==> c in Members(Row(n, 0, per)) {
      assert c in g.place && c !in Row(n, 0, per) ==> c !in OnChains(g);
    }
    assert OnChains(g') == Members(Row(n, 0, per));
  }

  /** Lists other than the chains. */
  lemma SameChains(g: Layout, A: Place, B: Place)
    requires A in g.list && A in g.head && !A.OnPage? && !B.OnPage?
    ensures OnChains(Shift(g, A, B)) == OnChains(g) && OnChains(Forget(g, A)) == OnChains(g)
    ensures Pop.requires(g, A) && g.list[A][0] in g.place && g.place[g.list[A][0]] == A ==>
      OnChains(Pop(g, A)) == OnChains(g)
  {}

  /** A cache with nothing in it. */
  predicate Bare(k: Cache) {
    k.free == Null && k.aux == Null
  }

  /** What a cache hands out first, and the cache after that: the first chunk of `free`; or, when that list
      is empty, of `aux`, which becomes `free` with `count` set to `target`. */
  function Foremost(k: Cache): Chunk {
    if k.free != Null then k.free else k.aux
  }

  function Spent(k: Cache, next: Memory): Cache {
    var c := Foremost(k);
    Cache(if c in next then next[c] else Null, if k.free != Null then k.aux else Null,
          Short((if k.free != Null then k.count else k.target) - 1), k.target)
  }

  /** `k'` is cache `k`, or `k` after its `aux` has become `free`. */
  predicate FromCache(k: Cache, next: Memory, k': Cache, next': Memory) {
    next' == next && k' == if k.free != Null then k else Cache(k.aux, Null, k.target, k.target)
  }

  lemma SameStock(g: Layout, g': Layout, pages: nat, per: nat)
    requires OnChains(g') == OnChains(g)
    ensures Stock(g', pages, per) == Stock(g, pages, per)
  {}

  /** Pages that valloc may hand out. */
  ghost predicate Supply(code: seq<nat>, supply: seq<nat>) {
    && (forall i :: 0 <= i < |supply| ==> 0 < supply[i] < |code| && code[supply[i]] == BIG)
    && (forall i, j :: 0 <= i < j < |supply| ==> supply[i] != supply[j])
  }

  lemma SupplyRest(code: seq<nat>, supply: seq<nat>, l: nat)
    requires Supply(code, supply) && supply != []
    ensures 0 < supply[0] < |code| && code[supply[0]] == BIG && Supply(code[supply[0] := l], supply[1..])
  {}

  // ----- the program

  class SizeClass {
    const l: nat
    const table: P.PageTable
    var code: seq<nat>
    var first: seq<nat>
    var head: nat
    var next: Memory
    var cache: map<nat, Cache>
    ghost var g: Layout
    ghost var listed: seq<nat>

    ghost function View(): Desc
      reads this, table
    {
      Desc(code, first, table.count, table.link, head, listed)
    }

    /** What holds inside the operations. */
    ghost predicate Core()
      reads this, table
    {
      && l < Classes.NUMSMALL
      && g.next == next
      && Shape(g, View(), l, Classes.PerPage(l))
      && CachesOk(g, cache, Classes.Target(l))
    }

    /** What holds between the operations. */
    ghost predicate Ok()
      reads this, table
    {
      Core() && Quiet(g) && NoneFull(g, Classes.PerPage(l)) && Sorted(View())
    }

    /** No pages yet, and every thread's cache is zero. */
    constructor (l: nat, code: seq<nat>, threads: set<nat>)
      requires l < Classes.NUMSMALL
      ensures Ok() && fresh(table) && this.l == l && this.code == code && cache.Keys == threads
      ensures g.place == map[] && forall n: nat :: OnPage(n) !in g.list
    {
      Classes.ChunksFillPage(l);
      hide Classes.PerPage, Classes.Target;
      this.l := l;
      this.code := code;
      first := seq(|code|, _ => 0);
      head, listed, next := 0, [], map[];
      cache := map t | t in threads :: Cache(Null, Null, 0, 0);
      var pages := new P.PageTable(|code|);
      table := pages;
      g := NoChunks(threads);
      new;
      NoChunksShape(threads, View(), l, Classes.PerPage(l));
      hide Shape, NoneFull, Sorted, Quiet;
    }

    /** Take the first chunk of the first page and put it before the chunks already collected. */
    method TakeOne(collected: Chunk) returns (newest: Chunk)
      requires Core() && Sorted(View()) && head != 0 && head < |table.count| && table.count[head] > 0
      requires Loose in g.head && g.head[Loose] == collected
      requires forall m: nat :: OnPage(m) in g.list && m != head ==> |g.list[OnPage(m)]| < Classes.PerPage(l)
      modifies this`first, this`head, this`next, this`g, this`listed, table`count
      ensures Core() && Sorted(View()) && NoneFull(g, Classes.PerPage(l))
      ensures OneMore(old(g), g, newest)
    {
      hide Shape, CachesOk, Sorted, NoneFull, Move, OneMore, Classes.PerPage, Classes.Target;
      ghost var g0, d0 := g, View();
      Classes.ChunksFillPage(l);
      FirstPage(g0, d0, l, Classes.PerPage(l));
      DrawnKeeps(g0, d0, l, Classes.PerPage(l), cache, Classes.Target(l));
      var pn := head;
      newest := Chunk(pn, first[pn]);
      if next[newest] != Null {
        first := first[pn := next[newest].index];
      } else {
        first := first[pn := 0];
        assert table.count[pn] == 1;
      }
      table.count := table.count[pn := table.count[pn] - 1];
      if table.count[pn] == 0 {
        assert first[pn] == 0;
        head := table.link[pn];
        listed := listed[1..];
      }
      next := next[newest := collected];
      g := Move(g0, OnPage(pn), Loose);
      assert View() == Drawn(g0, d0);
    }

    /** Put a page from valloc on the list, which is empty, with all its chunks free. */
    method OpenPage(n: nat, ghost g0: Layout, ghost k: nat, ghost c: Chunk)
      requires Core() && head == 0 && NoneFull(g, Classes.PerPage(l)) && Progress(g0, g, k, c)
      requires 0 < n < |code| && code[n] == BIG
      modifies this`code, this`first, this`head, this`next, this`g, this`listed, table`count, table`link
      ensures Core() && Sorted(View()) && Progress(g0, g, k, c)
      ensures head == n && n < |table.count| && table.count[n] == Classes.PerPage(l) > 0
      ensures forall m: nat :: OnPage(m) in g.list && m != n ==> |g.list[OnPage(m)]| < Classes.PerPage(l)
      ensures code == old(code)[n := l] && g.list.Keys == old(g.list.Keys) + {OnPage(n)}
      ensures OnChains(old(g)) == {} && |OnChains(g)| == Classes.PerPage(l)
    {
      hide Shape, Good, CachesOk, Sorted, NoneFull, AddPage, Progress, OnChains, Classes.PerPage, Classes.Target;
      Classes.ChunksFillPage(l);
      ghost var d0 := View();
      var per := Classes.PerPage(l);
      ShapeGood(g, d0, l, per);
      NotYetOwned(g, d0, n, l, per);
      code := code[n := l];
      table.count := table.count[n := per];
      first := first[n := 0];
      table.link := table.link[n := 0];
      ghost var links := Lay(n, per);
      head, listed := n, [n];
      OpenedShape(g, d0, n, l, per, links);
      OpenedFirst(g, d0, n, l, per, links);
      OpenedCaches(g, n, per, links, cache, Classes.Target(l));
      ProgressOpen(g0, g, k, c, n, per, links);
      NoneOnChains(g, d0, l, per);
      OpenChains(g, n, per, links);
      AddPageNext(g, n, per, links);
      g := AddPage(g, n, per, links);
      assert View() == Opened(d0, n, l, per);
    }

    /** The loop that links the chunks of a new page. */
    method Lay(n: nat, per: nat) returns (ghost links: Memory)
      requires per > 0
      modifies this`next
      ensures Laid(links, n, per) && next == old(next) + links
    {
      hide Laid, Laying;
      links := map[];
      var i := 0;
      assert Laying(links, n, 0) by { NoLinks(n); }
      while i + 1 < per
        invariant i < per && Laying(links, n, i) && next == old(next) + links
      {
        LayingNext(links, n, i);
        next := next[Chunk(n, i) := Chunk(n, i + 1)];
        links := links[Chunk(n, i) := Chunk(n, i + 1)];
        i := i + 1;
      }
      LayingDone(links, n, per);
      next := next[Chunk(n, i) := Null];
      links := links[Chunk(n, i) := Null];
    }

    /** Collect one more chunk, from a new page if the list is empty. */
    method Collect(collected: Chunk, supply: seq<nat>, ghost g0: Layout, ghost k: nat)
      returns (ok: bool, newest: Chunk, rest: seq<nat>)
      requires Core() && Sorted(View()) && NoneFull(g, Classes.PerPage(l))
      requires Progress(g0, g, k, collected) && Supply(code, supply)
      modifies this`code, this`first, this`head, this`next, this`g, this`listed, table`count, table`link
      ensures Core() && Sorted(View()) && NoneFull(g, Classes.PerPage(l)) && Supply(code, rest)
      ensures Progress(g0, g, if ok then k + 1 else k, newest)
      ensures if ok then |rest| >= |supply| - 1 else rest == supply == [] && old(head) == 0
      ensures |rest| <= |supply| && rest == supply[|supply| - |rest|..]
      ensures |code| == |old(code)|
      ensures if old(head) == 0 && supply != []
              then rest == supply[1..] && g.list.Keys == old(g.list.Keys) + {OnPage(supply[0])}
              else rest == supply && g.list.Keys == old(g.list.Keys)
      ensures var stock, stock' := Stock(old(g), |supply|, Classes.PerPage(l)), Stock(g, |rest|, Classes.PerPage(l));
        if ok then stock' + 1 == stock else stock' == stock == 0
      ensures old(head) == 0 ==> OnChains(old(g)) == {}
    {
      hide Shape, CachesOk, Sorted, NoneFull, Progress, OnChains, Classes.PerPage, Classes.Target, Supply;
      rest := supply;
      if head == 0 {
        NoneOnChains(g, View(), l, Classes.PerPage(l));
        if rest == [] {
          return false, collected, rest;
        }
        SupplyRest(code, rest, l);
        OpenPage(rest[0], g0, k, collected);
        rest := rest[1..];
      } else {
        HeadCount(g, View(), l, Classes.PerPage(l));
      }
      ghost var g1 := g;
      ProgressAt(g0, g, k, collected);
      newest := TakeOne(collected);
      ProgressTake(g0, g1, g, k, collected, newest);
      ok := true;
    }

    /** The loop of the refill; it drops what it has when valloc fails. */
    method CollectAll(target: nat, supply: seq<nat>, ghost g0: Layout)
      returns (ok: bool, newFl: Chunk, rest: seq<nat>)
      requires Ok() && Supply(code, supply) && g0 == g && target == Classes.Target(l)
      modifies this`code, this`first, this`head, this`next, this`g, this`listed, table`count, table`link
      ensures Core() && Sorted(View()) && NoneFull(g, Classes.PerPage(l)) && Supply(code, rest)
      ensures |rest| <= |supply| && rest == supply[|supply| - |rest|..]
      ensures ok <==> Stock(g0, |supply|, Classes.PerPage(l)) >= target
      ensures ok ==> Stock(g, |rest|, Classes.PerPage(l)) + target == Stock(g0, |supply|, Classes.PerPage(l))
      ensures ok ==> Progress(g0, g, target, newFl) && |rest| + target >= |supply|
      ensures !ok ==> rest == [] && |supply| < target && Ok() && In(g, Held) == In(g0, Held) && Dropped(g0, g, l)
      ensures !ok ==> OnChains(g) == {} && |In(g, Lost) - In(g0, Lost)| == Stock(g0, |supply|, Classes.PerPage(l))
    {
      hide Shape, CachesOk, Sorted, NoneFull, Quiet, Progress, In, Classes.PerPage, Classes.Target, Supply, Dropped;
      ShapeGood(g, View(), l, Classes.PerPage(l));
      hide Good, OnChains, Stock;
      ProgressStart(g);
      var i := target;
      newFl, rest := Null, supply;
      while i > 0
        invariant Core() && Sorted(View()) && NoneFull(g, Classes.PerPage(l)) && Supply(code, rest)
        invariant |rest| <= |supply| && rest == supply[|supply| - |rest|..] && |rest| + (target - i) >= |supply|
        invariant 0 <= i <= target && Progress(g0, g, target - i, newFl)
        invariant Stock(g, |rest|, Classes.PerPage(l)) + (target - i) == Stock(g0, |supply|, Classes.PerPage(l))
      {
        ok, newFl, rest := Collect(newFl, rest, g0, target - i);
        if !ok {
          NothingLeft(g, |rest|, Classes.PerPage(l));
          Drop(g0, target - i, newFl);
          return;
        }
        i := i - 1;
      }
      ok := true;
    }

    /** Collect `target` chunks from the pages of the class, and from new pages when those have no
        more.  When valloc fails the chunks collected so far are dropped. */
    method Refill(t: nat, supply: seq<nat>) returns (ok: bool, rest: seq<nat>)
      requires Ok() && t in cache && cache[t].free == Null && cache[t].aux == Null && Supply(code, supply)
      modifies this`code, this`first, this`head, this`next, this`g, this`listed, this`cache, table`count, table`link
      ensures Ok() && Supply(code, rest)
      ensures |rest| <= |supply| && rest == supply[|supply| - |rest|..]
      ensures In(g, Held) == old(In(g, Held))
      ensures OnlyFor(t, old(cache), cache) && l < Classes.NUMSMALL
      ensures cache[t].target == Classes.Target(l) && cache[t].aux == Null
      ensures ok ==> In(g, Lost) == old(In(g, Lost)) && cache[t].free != Null && cache[t].count == Classes.Target(l)
      ensures ok ==> |rest| + Classes.Target(l) >= |supply|
      ensures ok <==> old(Stock(g, |supply|, Classes.PerPage(l))) >= Classes.Target(l)
      ensures ok ==>
        Stock(g, |rest|, Classes.PerPage(l)) + Classes.Target(l) == old(Stock(g, |supply|, Classes.PerPage(l)))
      ensures ok ==> FromPages(old(g), cache[t].free)
      ensures !ok ==> rest == [] && |supply| < Classes.Target(l)
      ensures !ok ==> cache[t] == old(cache[t]).(target := Classes.Target(l)) && Dropped(old(g), g, l)
      ensures !ok ==> OnChains(g) == {}
      ensures !ok ==> |In(g, Lost) - old(In(g, Lost))| == old(Stock(g, |supply|, Classes.PerPage(l)))
    {
      hide Shape, CachesOk, Sorted, NoneFull, Quiet, Progress, In, OnChains;
      hide Classes.PerPage, Classes.Target, Supply, Dropped, FromPages;
      StartRefill(t);
      ghost var g0 := g;
      var newFl;
      ok, newFl, rest := CollectAll(cache[t].target, supply, g0);
      if ok {
        EndRefill(t, newFl, g0);
      }
    }

    /** The target is set when a thread first refills its cache. */
    method StartRefill(t: nat)
      requires Ok() && t in cache && cache[t].free == Null && cache[t].aux == Null
      modifies this`cache
      ensures Ok() && cache == old(cache)[t := old(cache[t]).(target := Classes.Target(l))]
      ensures cache[t].target == Classes.Target(l) > 0 && Good(g)
    {
      hide Shape, CachesOk, Sorted, NoneFull, Quiet, Classes.PerPage, Classes.Target;
      Classes.ChunksFillPage(l);
      ShapeGood(g, View(), l, Classes.PerPage(l));
      hide Good;
      Retarget(g, t, cache, Classes.Target(l));
      if cache[t].target == 0 {
        cache := cache[t := cache[t].(target := Classes.Target(l))];
      }
    }

    /** The chunks collected become the cache's list. */
    method EndRefill(t: nat, newFl: Chunk, ghost g0: Layout)
      requires Core() && Sorted(View()) && NoneFull(g, Classes.PerPage(l)) && Quiet(g0) && Good(g0)
      requires t in cache && cache[t].target == Classes.Target(l) > 0 && cache[t].free == Null && cache[t].aux == Null
      requires Progress(g0, g, cache[t].target, newFl)
      modifies this`g, this`cache
      ensures Ok() && In(g, Held) == In(g0, Held) && In(g, Lost) == In(g0, Lost) && newFl != Null
      ensures cache == old(cache)[t := old(cache[t]).(free := newFl, count := old(cache[t]).target)]
      ensures g.list.Keys == old(g.list.Keys) && OnChains(g) == OnChains(old(g))
      ensures FromPages(g0, newFl)
    {
      hide Shape, CachesOk, Sorted, NoneFull, Quiet, Progress, In, Good, OnChains, FromPages;
      hide Classes.PerPage, Classes.Target;
      Filled(g0, g, View(), l, Classes.PerPage(l), t, cache, Classes.Target(l), newFl);
      ShapeGood(g, View(), l, Classes.PerPage(l));
      CacheAt(g, t, cache, Classes.Target(l));
      FirstCollected(g0, g, cache[t].target, newFl);
      SameChains(g, Loose, Local(t));
      g := Shift(g, Loose, Local(t));
      cache := cache[t := cache[t].(free := newFl, count := cache[t].target)];
    }

    /** A block of one page that the heap has handed out; its descriptor is part of the shared table. */
    method NoteBlock(n: nat)
      requires Core() && Sorted(View()) && n < |code| && OnPage(n) !in g.list
      modifies this`code
      ensures Core() && Sorted(View()) && code == old(code)[n := BIG]
    {
      hide Shape, CachesOk, Classes.PerPage, Classes.Target;
      Noted(g, View(), l, Classes.PerPage(l), n);
      code := code[n := BIG];
    }

    /** The chunks collected so far are forgotten. */
    ghost method Drop(g0: Layout, k: nat, c: Chunk)
      requires Core() && Sorted(View()) && NoneFull(g, Classes.PerPage(l))
      requires Good(g0) && Quiet(g0) && Progress(g0, g, k, c) && k < Classes.Target(l)
      modifies this`g
      ensures g.list.Keys == old(g.list.Keys) && OnChains(g) == OnChains(old(g))
      ensures Ok() && In(g, Held) == In(g0, Held) && Dropped(g0, g, l) && |In(g, Lost) - In(g0, Lost)| == k
    {
      hide Shape, CachesOk, Sorted, NoneFull, Quiet, Progress, Forget, OnChains, Classes.PerPage, Classes.Target;
      assert In(g, Lost) !! In(g, Loose);
      hide In;
      ShapeGood(g, View(), l, Classes.PerPage(l));
      hide Good;
      ForgetLoose(g, View(), l, Classes.PerPage(l), cache, Classes.Target(l));
      ProgressForget(g0, g, k, c);
      Collected(g0, g, k, c, Null);
      forall x | x in In(g, Loose) ensures x !in g0.place || g0.place[x].OnPage? {
        Collected(g0, g, k, c, x);
      }
      OtherPart(In(g0, Lost), In(g, Loose));
      ForgetKeys(g);
      SameChains(g, Loose, Lost);
      g := Forget(g, Loose);
    }

    /** Hand out the first chunk of the cache. */
    method PopCache(t: nat) returns (c: Chunk)
      requires Ok() && t in cache && cache[t].free != Null
      modifies this`g, this`cache
      ensures cache == old(cache)[t := old(Spent(cache[t], next))] && c == old(cache[t].free)
      ensures Ok() && OnChains(g) == OnChains(old(g))
      ensures c != Null && c !in old(In(g, Held)) && In(g, Held) == old(In(g, Held)) + {c}
      ensures In(g, Lost) == old(In(g, Lost)) && g.list.Keys == old(g.list.Keys)
      ensures old(Exact(g, t, cache[t])) ==> Exact(g, t, cache[t])
    {
      hide Shape, CachesOk, Sorted, NoneFull, Quiet, In, Exact, OnChains, Classes.PerPage, Classes.Target;
      PopLocal(g, View(), l, Classes.PerPage(l), t, cache, Classes.Target(l));
      QuietPop(g, Local(t), Classes.PerPage(l));
      c := cache[t].free;
      cache := cache[t := cache[t].(free := next[c], count := Short(cache[t].count - 1))];
      g := Pop(g, Local(t));
    }

    /** `aux` becomes `free`, which is empty. */
    method TakeAux(t: nat)
      requires Ok() && t in cache && cache[t].free == Null && cache[t].aux != Null
      modifies this`g, this`cache
      ensures Ok() && In(g, Held) == old(In(g, Held)) && In(g, Lost) == old(In(g, Lost))
      ensures cache == old(cache)[t := Cache(old(cache[t].aux), Null, old(cache[t].target), old(cache[t].target))]
      ensures g.list.Keys == old(g.list.Keys) && OnChains(g) == OnChains(old(g))
    {
      hide Shape, CachesOk, Sorted, NoneFull, Quiet, In, OnChains, Classes.PerPage, Classes.Target;
      CacheAt(g, t, cache, Classes.Target(l));
      AuxToFree(g, View(), l, Classes.PerPage(l), t, cache, Classes.Target(l));
      SameChains(g, Aux(t), Local(t));
      g := Shift(g, Aux(t), Local(t));
      cache := cache[t := cache[t].(free := cache[t].aux, aux := Null, count := cache[t].target)];
    }

    /** The first half of malloc_small: an empty `free` list is replaced by `aux` or refilled. */
    method Restock(t: nat, supply: seq<nat>) returns (ok: bool, rest: seq<nat>)
      requires Ok() && t in cache && Supply(code, supply)
      modifies this`code, this`first, this`head, this`next, this`g, this`listed, this`cache, table`count, table`link
      ensures Ok() && Supply(code, rest)
      ensures |rest| <= |supply| && rest == supply[|supply| - |rest|..]
      ensures In(g, Held) == old(In(g, Held)) && OnlyFor(t, old(cache), cache)
      ensures ok ==> In(g, Lost) == old(In(g, Lost)) && cache[t].free != Null && |rest| + Classes.Target(l) >= |supply|
      ensures !ok ==> rest == [] && |supply| < Classes.Target(l)
      ensures !ok ==> cache[t] == old(cache[t]).(target := Classes.Target(l)) && Dropped(old(g), g, l)
      ensures old(Exact(g, t, cache[t])) ==> Exact(g, t, cache[t])
      ensures ok <==> !Bare(old(cache[t])) || old(Stock(g, |supply|, Classes.PerPage(l))) >= Classes.Target(l)
      ensures !Bare(old(cache[t])) ==>
        && FromCache(old(cache[t]), old(next), cache[t], next)
        && rest == supply && code == old(code) && OnChains(g) == OnChains(old(g))
      ensures Bare(old(cache[t])) && ok ==>
        && FromPages(old(g), cache[t].free)
        && cache[t] == Cache(cache[t].free, Null, Classes.Target(l), Classes.Target(l))
        && Stock(g, |rest|, Classes.PerPage(l)) + Classes.Target(l) == old(Stock(g, |supply|, Classes.PerPage(l)))
      ensures !ok ==> OnChains(g) == {}
      ensures !ok ==> |In(g, Lost) - old(In(g, Lost))| == old(Stock(g, |supply|, Classes.PerPage(l)))
    {
      hide Shape, CachesOk, Sorted, NoneFull, Quiet, In, Shift, Exact, Dropped, OnChains, FromPages, Stock;
      hide Classes.PerPage, Classes.Target, Supply;
      Classes.ChunksFillPage(l);
      ok, rest := true, supply;
      ExactHere(t);
      if cache[t].free == Null {
        if cache[t].aux != Null {
          TakeAux(t);
        } else {
          ok, rest := Refill(t, supply);
        }
      }
      ExactHere(t);
    }

    /** malloc_small.  `supply` is what valloc would return, call after call.  It fails exactly when the
        thread's lists are both empty and the pages of the class and of valloc have too few chunks for a
        refill; and then the chunks that there are get lost. */
    method Malloc(t: nat, supply: seq<nat>) returns (c: Chunk, rest: seq<nat>)
      requires Ok() && t in cache && Supply(code, supply)
      modifies this`code, this`first, this`head, this`next, this`g, this`listed, this`cache, table`count, table`link
      ensures Ok() && Supply(code, rest)
      ensures |rest| <= |supply| && rest == supply[|supply| - |rest|..]
      ensures OnlyFor(t, old(cache), cache)
      ensures c == Null <==>
        Bare(old(cache[t])) && old(Stock(g, |supply|, Classes.PerPage(l))) < Classes.Target(l)
      ensures !Bare(old(cache[t])) ==>
        && c == Foremost(old(cache[t])) && cache[t] == Spent(old(cache[t]), old(next))
        && rest == supply && code == old(code) && OnChains(g) == OnChains(old(g))
      ensures Bare(old(cache[t])) && c != Null ==>
        && FromPages(old(g), c)
        && cache[t] == Cache(cache[t].free, Null, Classes.Target(l) - 1, Classes.Target(l))
        && Stock(g, |rest|, Classes.PerPage(l)) + Classes.Target(l) == old(Stock(g, |supply|, Classes.PerPage(l)))
      ensures c != Null ==> c !in old(In(g, Held)) && In(g, Held) == old(In(g, Held)) + {c}
      ensures c != Null ==> In(g, Lost) == old(In(g, Lost)) && |rest| + Classes.Target(l) >= |supply|
      ensures c == Null ==> rest == [] && |supply| < Classes.Target(l) && OnChains(g) == {}
      ensures c == Null ==>
        && In(g, Held) == old(In(g, Held)) && Dropped(old(g), g, l)
        && cache[t] == old(cache[t]).(target := Classes.Target(l))
        && |In(g, Lost) - old(In(g, Lost))| == old(Stock(g, |supply|, Classes.PerPage(l)))
      ensures old(Exact(g, t, cache[t])) ==> Exact(g, t, cache[t])
    {
      hide Shape, CachesOk, Sorted, NoneFull, Quiet, In, Exact, Dropped, OnChains, FromPages, Stock;
      hide Classes.PerPage, Classes.Target, Supply;
      Classes.ChunksFillPage(l);
      var ok;
      ok, rest := Restock(t, supply);
      if !ok {
        return Null, rest;
      }
      ghost var g1 := g;
      c := PopCache(t);
      SameStock(g1, g, |rest|, Classes.PerPage(l));
    }

    lemma ExactHere(t: nat)
      requires Ok() && t in cache
      ensures Exact(g, t, cache[t]) <==> LooksExact(cache[t])
    {
      hide Shape, Sorted, NoneFull, Quiet, Exact, Classes.PerPage, Classes.Target;
      ShapeGood(g, View(), l, Classes.PerPage(l));
      ExactFields(g, t, cache, Classes.Target(l));
    }

    /** One round of the loop of the flush: the first chunk goes to the chain of its page. */
    method GiveBack(cp: Chunk) returns (rest: Chunk)
      requires Core() && FullMarked(g, View(), Classes.PerPage(l))
      requires Loose in g.head && g.head[Loose] == cp && cp != Null
      modifies this`first, this`head, this`next, this`g, this`listed, table`count, table`link
      ensures Core() && FullMarked(g, View(), Classes.PerPage(l))
      ensures OneLess(old(g), g, rest)
    {
      hide Shape, CachesOk, FullMarked, Good, Move, OneLess, Classes.PerPage, Classes.Target;
      ghost var g0, d0 := g, View();
      ReturnedKeeps(g0, d0, l, Classes.PerPage(l), cache, Classes.Target(l));
      rest := next[cp];
      var n := cp.page;
      next := next[cp := if table.count[n] != 0 then Chunk(n, first[n]) else Null];
      first := first[n := cp.index];
      if table.count[n] == 0 {
        table.link := table.link[n := head];
        head, listed := n, [n] + listed;
      }
      table.count := table.count[n := table.count[n] + 1];
      if table.count[n] >= Classes.PerPage(l) {
        table.count := table.count[n := -1];
      }
      g := Move(g0, Loose, OnPage(n));
      assert View() == Returned(d0, cp, Classes.PerPage(l));
    }

    /** The first loop of flush_to_global_freelist. */
    method GiveAllBack(cp0: Chunk, cp20: Chunk, ghost k0: nat)
      requires Core() && FullMarked(g, View(), Classes.PerPage(l)) && Remaining(g, cp0, cp20, k0)
      modifies this`first, this`head, this`next, this`g, this`listed, table`count, table`link
      ensures Core() && FullMarked(g, View(), Classes.PerPage(l)) && Quiet(g)
      ensures In(g, Held) == old(In(g, Held)) && In(g, Lost) == old(In(g, Lost)) && Flows(old(g), g)
    {
      hide Shape, CachesOk, FullMarked, Quiet, Remaining, OneLess, Flows, Shift, In, Classes.PerPage, Classes.Target;
      var cp, cp2 := cp0, cp20;
      ghost var k, g0 := k0, g;
      FlowsStart(g);
      if cp == Null {
        RestToLoose(g, View(), l, Classes.PerPage(l), cache, Classes.Target(l), cp2, k);
        g := Shift(g, Rest, Loose);
        cp, cp2 := cp2, Null;
      }
      while cp != Null
        invariant Core() && FullMarked(g, View(), Classes.PerPage(l)) && Remaining(g, cp, cp2, k)
        invariant (cp == Null ==> cp2 == Null) && Flows(g0, g)
        invariant In(g, Held) == old(In(g, Held)) && In(g, Lost) == old(In(g, Lost))
        decreases k
      {
        ghost var g1 := g;
        RemainingAt(g, cp, cp2, k);
        var tmp := GiveBack(cp);
        RemainingLess(g1, g, tmp, cp, cp2, k);
        FlowsTrans(g0, g1, g);
        k := k - 1;
        if tmp == Null {
          RestToLoose(g, View(), l, Classes.PerPage(l), cache, Classes.Target(l), cp2, k);
          FlowsTrans(g0, g, Shift(g, Rest, Loose));
          g := Shift(g, Rest, Loose);
          tmp, cp2 := cp2, Null;
        }
        cp := tmp;
      }
      ShapeGood(g, View(), l, Classes.PerPage(l));
      RemainingNone(g, k);
    }

    /** One round of the second loop of flush_to_global_freelist. */
    method ReleaseFirst()
      requires Core() && FullMarked(g, View(), Classes.PerPage(l)) && Quiet(g) && Sorted(View())
      requires SameSize(View()) && 0 < head < |code| && table.count[head] < 0
      modifies this`code, this`first, this`head, this`g, this`listed, table`count, table`link
      ensures Core() && FullMarked(g, View(), Classes.PerPage(l)) && Quiet(g) && Sorted(View())
      ensures g == DropPage(old(g), old(head)) && |listed| < |old(listed)|
      ensures OnPage(old(head)) in old(g.list) && |old(g.list)[OnPage(old(head))]| == Classes.PerPage(l)
      ensures code == old(code)[old(head) := BIG] && table.link == old(table.link)[old(head) := old(head) + 1]
      ensures In(g, Held) == old(In(g, Held)) && In(g, Lost) == old(In(g, Lost))
    {
      hide Shape, CachesOk, FullMarked, Quiet, Sorted, In, Classes.PerPage, Classes.Target;
      ghost var d0 := View();
      ReleasedKeeps(g, d0, l, Classes.PerPage(l), cache, Classes.Target(l));
      ReleasedShape(g, d0, l, Classes.PerPage(l));
      var pn := head;
      head := table.link[pn];
      code := code[pn := BIG];
      table.count := table.count[pn := 0];
      first := first[pn := 0];
      table.link := table.link[pn := pn + 1];
      g, listed := DropPage(g, pn), listed[1..];
      assert View() == Released(d0);
    }

    /** The second loop of flush_to_global_freelist: the wholly free pages go back to the heap. */
    method ReleasePages() returns (released: seq<nat>)
      requires Core() && FullMarked(g, View(), Classes.PerPage(l)) && Quiet(g) && Sorted(View())
      modifies this`code, this`first, this`head, this`g, this`listed, table`count, table`link
      ensures Ok()
      ensures In(g, Held) == old(In(g, Held)) && In(g, Lost) == old(In(g, Lost))
      ensures LeftClass(old(g), g, released) && AsBlocks(code, table.link, released) && |code| == |old(code)|
      ensures AllWholly(old(g), Classes.PerPage(l), {}, released)
    {
      hide Shape, CachesOk, FullMarked, Quiet, Sorted, NoneFull, In, Good, P.IsList, Classes.PerPage, Classes.Target;
      hide Dropping, LeftClass, AllWholly, AsBlocks, DropPage;
      Classes.ChunksFillPage(l);
      released := [];
      ghost var g0, d0 := g, View();
      ShapeGood(g, View(), l, Classes.PerPage(l));
      HeadInTable(g, View(), l, Classes.PerPage(l));
      DroppingStart(g, Classes.PerPage(l), code, table.link);
      while head != 0 && table.count[head] < 0
        invariant Core() && FullMarked(g, View(), Classes.PerPage(l)) && Quiet(g) && Sorted(View())
        invariant SameSize(View()) && (head == 0 || head < |code|)
        invariant In(g, Held) == old(In(g, Held)) && In(g, Lost) == old(In(g, Lost))
        invariant Dropping(g0, g, Classes.PerPage(l), code, table.link, released) && |code| == |old(code)|
        decreases |listed|
      {
        FirstPage(g, View(), l, Classes.PerPage(l));
        DroppingNext(g0, g, Classes.PerPage(l), code, table.link, released, head);
        var pn := head;
        ReleaseFirst();
        released := released + [pn];
        HeadInTable(g, View(), l, Classes.PerPage(l));
      }
      SortedNoneFull(g, View(), l, Classes.PerPage(l));
      DroppingEnd(g0, d0, g, l, Classes.PerPage(l), code, table.link, released);
    }

    /** flush_to_global_freelist: the chunks of both lists go to the chains of their pages, and the pages
        that are then wholly free, just those, are handed to the heap. */
    method Flush(cp: Chunk, cp2: Chunk, ghost k: nat) returns (released: seq<nat>)
      requires Core() && NoneFull(g, Classes.PerPage(l)) && Remaining(g, cp, cp2, k)
      modifies this`code, this`first, this`head, this`next, this`g, this`listed, table`count, table`link
      ensures Ok()
      ensures In(g, Held) == old(In(g, Held)) && In(g, Lost) == old(In(g, Lost))
      ensures LeftClass(old(g), g, released) && AsBlocks(code, table.link, released) && |code| == |old(code)|
      ensures AllWholly(old(g), Classes.PerPage(l), {Loose, Rest}, released)
    {
      hide Shape, CachesOk, FullMarked, NoneFull, Sorted, In, Remaining, Good, LeftClass, AllWholly, AsBlocks;
      hide P.IsList, P.Ascending, P.InTable, Classes.PerPage, Classes.Target;
      NoneFullMarked(g, View(), Classes.PerPage(l));
      ghost var g0 := g;
      GiveAllBack(cp, cp2, k);
      ghost var g1, d0 := g, View();
      ShapeGood(g, d0, l, Classes.PerPage(l));
      var r;
      ghost var sorted;
      r, sorted := table.Sort(head, listed);
      head, listed := r, sorted;
      Resorted(g, d0, l, Classes.PerPage(l), table.link, head, listed);
      SortKeepsMarks(g, d0, View(), Classes.PerPage(l));
      SortedFrom(View());
      released := ReleasePages();
      WhollyBefore(g0, g1, g, Classes.PerPage(l), released);
    }

    /** A full cache makes room: a full `aux` goes back to the pages, and `free` becomes `aux`. */
    method MakeRoom(t: nat) returns (released: seq<nat>)
      requires Ok() && t in cache && cache[t].count == cache[t].target
      modifies this`code, this`first, this`head, this`next, this`g, this`listed, this`cache, table`count, table`link
      ensures Ok() && cache == old(cache)[t := Cache(Null, old(cache[t].free), 0, old(cache[t].target))]
      ensures In(g, Held) == old(In(g, Held)) && In(g, Lost) == old(In(g, Lost))
      ensures LeftClass(old(g), g, released) && AsBlocks(code, table.link, released) && |code| == |old(code)|
      ensures AllWholly(old(g), Classes.PerPage(l), {Aux(t)}, released)
    {
      hide Shape, CachesOk, Sorted, NoneFull, Remaining, Quiet, In, Shift, Classes.PerPage, Classes.Target;
      hide LeftClass, AllWholly, Good;
      released := FlushAux(t);
      ghost var g1 := g;
      FreeToAux(g, View(), l, Classes.PerPage(l), t, cache, Classes.Target(l));
      g := Shift(g, Local(t), Aux(t));
      cache := cache[t := cache[t].(aux := cache[t].free, free := Null, count := 0)];
      SamePageKeys(g1, Local(t), Aux(t));
      LeftVia(old(g), old(g), g1, g, released);
    }

    /** The first half: a full `aux` goes back to the pages. */
    method FlushAux(t: nat) returns (released: seq<nat>)
      requires Ok() && t in cache
      modifies this`code, this`first, this`head, this`next, this`g, this`listed, this`cache, table`count, table`link
      ensures Ok() && cache == old(cache)[t := old(cache[t]).(aux := Null)]
      ensures In(g, Held) == old(In(g, Held)) && In(g, Lost) == old(In(g, Lost))
      ensures LeftClass(old(g), g, released) && AsBlocks(code, table.link, released) && |code| == |old(code)|
      ensures AllWholly(old(g), Classes.PerPage(l), {Aux(t)}, released)
    {
      hide Shape, CachesOk, Sorted, NoneFull, Remaining, Quiet, In, Shift, Classes.PerPage, Classes.Target;
      hide LeftClass, AllWholly, Good;
      released := [];
      ShapeGood(g, View(), l, Classes.PerPage(l));
      CacheAt(g, t, cache, Classes.Target(l));
      if cache[t].aux != Null {
        AuxToLoose(g, View(), l, Classes.PerPage(l), t, cache, Classes.Target(l));
        var tmp := cache[t].aux;
        ghost var k := |g.list[Aux(t)]|;
        g := Shift(g, Aux(t), Loose);
        cache := cache[t := cache[t].(aux := Null)];
        ghost var g1 := g;
        released := Flush(tmp, Null, k);
        SamePageKeys(old(g), Aux(t), Loose);
        LeftVia(old(g), g1, g, g, released);
        WhollyOne(old(g), Aux(t), Classes.PerPage(l), released);
      } else {
        NullIsEmpty(g, Aux(t));
        WhollyNone(g, View(), l, Classes.PerPage(l), Aux(t), Aux(t));
        assert {Aux(t), Aux(t)} == {Aux(t)};
        NoPagesLeft(g, g);
        assert AsBlocks(code, table.link, []);
        assert cache == cache[t := cache[t].(aux := Null)];
      }
    }

    /** free, for a chunk that a caller holds.  Every chunk stays accounted for in all cases; the
        counters are exact afterwards just when the cache looked so before. */
    method Free(t: nat, c: Chunk) returns (released: seq<nat>)
      requires Ok() && t in cache && c in In(g, Held)
      modifies this`code, this`first, this`head, this`next, this`g, this`listed, this`cache, table`count, table`link
      ensures Ok() && cache == old(cache)[t := Freed(old(cache[t]), c)]
      ensures In(g, Held) == old(In(g, Held)) - {c} && In(g, Lost) == old(In(g, Lost))
      ensures t in cache && (Exact(g, t, cache[t]) <==> ExactAfterFree(old(cache[t])))
      ensures old(Exact(g, t, cache[t])) ==>
        (Exact(g, t, cache[t]) <==> old(cache[t].target) != 0 || old(cache[t].count) < SHORT - 1)
      ensures LeftClass(old(g), g, released) && AsBlocks(code, table.link, released) && |code| == |old(code)|
      ensures if old(cache[t].count == cache[t].target)
              then AllWholly(old(g), Classes.PerPage(l), {Aux(t)}, released) else released == []
    {
      hide Shape, CachesOk, Sorted, NoneFull, Quiet, In, Exact, Classes.PerPage, Classes.Target;
      hide LeftClass, AllWholly;
      released := [];
      ExactHere(t);
      ShortCount(g, t, cache, Classes.Target(l));
      NoPagesLeft(g, g);
      if cache[t].count == cache[t].target {
        released := MakeRoom(t);
      }
      ghost var g1 := g;
      PushLocal(g, View(), l, Classes.PerPage(l), t, cache, Classes.Target(l), c);
      QuietPush(g, c, Local(t), Classes.PerPage(l));
      next := next[c := cache[t].free];
      cache := cache[t := cache[t].(free := c, count := Short(cache[t].count + 1))];
      g := Push(g, c, Local(t));
      PushPageKeys(g1, c, Local(t));
      LeftVia(old(g), old(g), g1, g, released);
      ExactHere(t);
    }

    /** shm_fini, for this class: the whole cache goes back to the pages. */
    method Finish(t: nat) returns (released: seq<nat>)
      requires Ok() && t in cache
      modifies this`code, this`first, this`head, this`next, this`g, this`listed, this`cache, table`count, table`link
      ensures Ok() && cache == old(cache)[t := Cache(Null, Null, 0, old(cache[t].target))]
      ensures In(g, Held) == old(In(g, Held)) && In(g, Lost) == old(In(g, Lost))
      ensures LeftClass(old(g), g, released) && AsBlocks(code, table.link, released) && |code| == |old(code)|
      ensures AllWholly(old(g), Classes.PerPage(l), {Local(t), Aux(t)}, released)
    {
      hide Shape, CachesOk, Sorted, NoneFull, Remaining, Quiet, In, Shift, Classes.PerPage, Classes.Target;
      hide LeftClass, AllWholly, Good;
      released := [];
      ShapeGood(g, View(), l, Classes.PerPage(l));
      CacheAt(g, t, cache, Classes.Target(l));
      CacheToFlush(g, View(), l, Classes.PerPage(l), t, cache, Classes.Target(l));
      var k := cache[t];
      ghost var n := |g.list[Local(t)]| + |g.list[Aux(t)]|;
      if k.aux != Null || k.free != Null {
        ghost var g1 := Shift(g, Local(t), Loose);
        g := Shift(g1, Aux(t), Rest);
        cache := cache[t := k.(free := Null, aux := Null, count := 0)];
        ghost var g2 := g;
        released := Flush(k.free, k.aux, n);
        SamePageKeys(old(g), Local(t), Loose);
        SamePageKeys(g1, Aux(t), Rest);
        LeftVia(old(g), g2, g, g, released);
        WhollyBoth(old(g), Local(t), Aux(t), Classes.PerPage(l), released);
      } else {
        NullIsEmpty(g, Local(t));
        NullIsEmpty(g, Aux(t));
        WhollyNone(g, View(), l, Classes.PerPage(l), Local(t), Aux(t));
        NoPagesLeft(g, g);
        assert AsBlocks(code, table.link, []);
        assert cache == cache[t := k.(free := Null, aux := Null, count := 0)];
        cache := cache[t := k.(free := Null, aux := Null, count := 0)];
      }
    }
  }
}
