/** The page table of the shared-memory allocator, and the operations that carve the heap into
    extents of pages: freeing with coalescing, allocation by best fit, and resizing in place.

    A page is named by its number; the heap is the pages below `end`.  The first page holds the
    allocator's own header. */
module Extents {
  import opened Codes
  import F = FreePages
  import Classes

  datatype Page = Page(code: nat, page: nat)

  type Table = seq<Page>

  // ----- the extent map

  predicate Extent(code: nat) {
    code == BIG || code == VACANT
  }

  /** The first page of an extent names the page after its last one, and the pages between name it. */
  ghost predicate HeadOk(T: Table, end: nat, n: nat)
    requires n < end <= |T|
  {
    Extent(T[n].code) ==>
      && n < T[n].page <= end
      && (T[n].page < end ==> T[T[n].page].code != MIDDLE)
      && (forall k: nat :: n < k < T[n].page ==> T[k] == Page(MIDDLE, n))
  }

  /** A middle page lies in the extent that it names. */
  ghost predicate BodyOk(T: Table, end: nat, n: nat)
    requires n < end <= |T|
  {
    T[n].code == MIDDLE ==> T[n].page < n && Extent(T[T[n].page].code) && n < T[T[n].page].page
  }

  /** Extents, pages of small chunks and the allocator's own pages tile the heap. */
  ghost predicate Tiled(T: Table, end: nat) {
    && 0 < end <= |T|
    && T[0].code == BASE
    && (forall n: nat :: n < end ==> HeadOk(T, end, n) && BodyOk(T, end, n))
  }

  /** No two free extents are adjacent, except perhaps at `q`. */
  ghost predicate ApartBut(T: Table, end: nat, q: nat) {
    forall n: nat :: n < end <= |T| && n != q && T[n].code == VACANT && T[n].page < end && T[n].page != q ==>
      T[T[n].page].code != VACANT
  }

  ghost predicate Apart(T: Table, end: nat) {
    forall n: nat :: n < end <= |T| && T[n].code == VACANT && T[n].page < end ==> T[T[n].page].code != VACANT
  }

  /** The free extents and their sizes. */
  ghost function Listed(T: Table, end: nat): map<nat, nat> {
    map n: nat | n < end && n < |T| && T[n].code == VACANT && n < T[n].page :: T[n].page - n
  }

  /** The extent a page belongs to. */
  function Owner(T: Table, k: nat): nat
    requires k < |T|
  {
    if T[k].code == MIDDLE then T[k].page else k
  }

  predicate Idle(T: Table, k: nat)
    requires k < |T|
  {
    Owner(T, k) < |T| && T[Owner(T, k)].code == VACANT
  }

  /** The pages of the free extents. */
  ghost function Vacant(T: Table, end: nat): set<nat> {
    set k: nat | k < end && k < |T| && Idle(T, k)
  }

  predicate Inside(lo: nat, hi: nat, k: nat) {
    lo <= k < hi
  }

  ghost function Span(lo: nat, hi: nat): set<nat> {
    set k: nat | k < hi && Inside(lo, hi, k)
  }

  lemma TiledAt(T: Table, end: nat, n: nat)
    requires Tiled(T, end) && n < end
    ensures HeadOk(T, end, n) && BodyOk(T, end, n)
  {}

  /** Every page belongs to exactly one extent, or stands alone. */
  lemma OneOwner(T: Table, end: nat, k: nat, n: nat)
    requires Tiled(T, end) && k < end && n < end && Extent(T[n].code)
    ensures n <= k < T[n].page <==> Owner(T, k) == n
  {
    hide Tiled;
    TiledAt(T, end, n);
    TiledAt(T, end, k);
  }

  /** The free list determines which pages are free. */
  lemma VacantIsListed(T: Table, end: nat, k: nat)
    requires Tiled(T, end)
    ensures k in Vacant(T, end) <==> exists n: nat :: n in Listed(T, end) && n <= k < n + Listed(T, end)[n]
  {
    if k in Vacant(T, end) {
      var n := Owner(T, k);
      TiledAt(T, end, k);
      TiledAt(T, end, n);
      assert n in Listed(T, end);
    }
    forall n: nat | n in Listed(T, end) && n <= k < n + Listed(T, end)[n] ensures k in Vacant(T, end) {
      TiledAt(T, end, n);
      OneOwner(T, end, k, n);
    }
  }

  // ----- the changes the operations make

  function Recode(T: Table, n: nat, code: nat): Table
    requires n < |T|
  {
    T[n := T[n].(code := code)]
  }

  /** `for (i = lo; i < hi; i++) NUM2PAGE(i)->page = a`. */
  function Named(T: Table, lo: nat, hi: nat, a: nat): Table {
    seq(|T|, i requires 0 <= i < |T| => if lo <= i < hi then T[i].(page := a) else T[i])
  }

  /** The extent at `a` swallows the extent at `b` that follows it. */
  function Join(T: Table, a: nat, b: nat): Table
    requires a < |T| && b < |T|
  {
    Named(T[a := T[a].(page := T[b].page)][b := T[b].(code := MIDDLE)], b, T[b].page, a)
  }

  /** The extent at `a` ends at `t`, where an extent in use begins. */
  function Split(T: Table, a: nat, t: nat): Table
    requires a < |T| && t < |T|
  {
    Named(T[t := Page(BIG, T[a].page)], t + 1, T[a].page, t)[a := T[a].(page := t)]
  }

  lemma RecodeTiled(T: Table, end: nat, p: nat, code: nat)
    requires Tiled(T, end) && p < end && Extent(T[p].code) && Extent(code)
    ensures Tiled(Recode(T, p, code), end)
  {
    hide Tiled;
    TiledZero(T, end);
    var T' := Recode(T, p, code);
    forall n: nat | n < end ensures HeadOk(T', end, n) && BodyOk(T', end, n) {
      TiledAt(T, end, n);
      TiledAt(T, end, p);
    }
    TiledFrom(T', end);
  }

  lemma TiledZero(T: Table, end: nat)
    requires Tiled(T, end)
    ensures 0 < end <= |T| && T[0].code == BASE
  {}

  lemma TiledFrom(T: Table, end: nat)
    requires 0 < end <= |T| && T[0].code == BASE
    requires forall n: nat :: n < end ==> HeadOk(T, end, n) && BodyOk(T, end, n)
    ensures Tiled(T, end)
  {}

  lemma JoinAt(T: Table, end: nat, a: nat, b: nat, k: nat)
    requires Tiled(T, end) && a < end && b < end && Extent(T[a].code) && Extent(T[b].code) && T[a].page == b
    requires k < |T|
    ensures |Join(T, a, b)| == |T| && a < b < T[b].page <= end
    ensures Join(T, a, b)[k] ==
      if k == a then T[a].(page := T[b].page) else if b <= k < T[b].page then Page(MIDDLE, a) else T[k]
    ensures k < end && b <= k < T[b].page ==> Owner(T, k) == b
    ensures k < end && a <= k < b ==> Owner(T, k) == a
  {
    hide Tiled;
    TiledZero(T, end);
    TiledAt(T, end, a);
    TiledAt(T, end, b);
    if k < end {
      OneOwner(T, end, k, b);
      OneOwner(T, end, k, a);
    }
  }

  lemma JoinTiled(T: Table, end: nat, a: nat, b: nat)
    requires Tiled(T, end) && a < end && b < end && Extent(T[a].code) && Extent(T[b].code) && T[a].page == b
    ensures Tiled(Join(T, a, b), end)
  {
    hide Tiled;
    hide Join;
    TiledZero(T, end);
    var T' := Join(T, a, b);
    JoinAt(T, end, a, b, 0);
    forall n: nat | n < end ensures HeadOk(T', end, n) && BodyOk(T', end, n) {
      JoinHead(T, end, a, b, n);
      JoinBody(T, end, a, b, n);
    }
    TiledFrom(T', end);
  }

  lemma JoinHead(T: Table, end: nat, a: nat, b: nat, n: nat)
    requires Tiled(T, end) && a < end && b < end && Extent(T[a].code) && Extent(T[b].code) && T[a].page == b
    requires n < end && end <= |Join(T, a, b)|
    ensures HeadOk(Join(T, a, b), end, n)
  {
    hide Tiled;
    TiledZero(T, end);
    hide Join;
    TiledAt(T, end, n);
    TiledAt(T, end, a);
    TiledAt(T, end, b);
    JoinAt(T, end, a, b, n);
    var T' := Join(T, a, b);
    if Extent(T'[n].code) {
      forall k: nat | n < k < T'[n].page ensures T'[k] == Page(MIDDLE, n) {
        JoinAt(T, end, a, b, k);
      }
      if T'[n].page < end {
        JoinAt(T, end, a, b, T'[n].page);
        if n != a {
          OneOwner(T, end, a, n);
          OneOwner(T, end, n, a);
        }
      }
    }
  }

  lemma JoinBody(T: Table, end: nat, a: nat, b: nat, n: nat)
    requires Tiled(T, end) && a < end && b < end && Extent(T[a].code) && Extent(T[b].code) && T[a].page == b
    requires n < end && end <= |Join(T, a, b)|
    ensures BodyOk(Join(T, a, b), end, n)
  {
    hide Tiled;
    TiledZero(T, end);
    hide Join;
    TiledAt(T, end, n);
    TiledAt(T, end, a);
    TiledAt(T, end, b);
    JoinAt(T, end, a, b, n);
    JoinAt(T, end, a, b, a);
    if T[n].code == MIDDLE {
      JoinAt(T, end, a, b, T[n].page);
      OneOwner(T, end, n, b);
      OneOwner(T, end, T[n].page, b);
    }
  }

  lemma SplitAt(T: Table, end: nat, a: nat, t: nat, k: nat)
    requires Tiled(T, end) && a < end && T[a].code == BIG && a < t < T[a].page && k < |T| && t < |T|
    ensures |Split(T, a, t)| == |T| && T[a].page <= end
    ensures Split(T, a, t)[k] ==
      if k == a then Page(BIG, t) else if k == t then Page(BIG, T[a].page)
      else if t < k < T[a].page then Page(MIDDLE, t) else T[k]
    ensures k < end && a <= k < T[a].page ==> Owner(T, k) == a
  {
    hide Tiled;
    TiledZero(T, end);
    TiledAt(T, end, a);
    if k < end {
      OneOwner(T, end, k, a);
    }
  }

  lemma SplitTiled(T: Table, end: nat, a: nat, t: nat)
    requires Tiled(T, end) && a < end && T[a].code == BIG && a < t < T[a].page
    ensures t < |T| && Tiled(Split(T, a, t), end)
  {
    hide Tiled;
    hide Split;
    TiledZero(T, end);
    TiledAt(T, end, a);
    var T' := Split(T, a, t);
    SplitAt(T, end, a, t, 0);
    forall n: nat | n < end ensures HeadOk(T', end, n) && BodyOk(T', end, n) {
      SplitHead(T, end, a, t, n);
      SplitBody(T, end, a, t, n);
    }
    TiledFrom(T', end);
  }

  lemma SplitHead(T: Table, end: nat, a: nat, t: nat, n: nat)
    requires Tiled(T, end) && a < end && T[a].code == BIG && a < t < T[a].page
    requires n < end && t < |T| && end <= |Split(T, a, t)|
    ensures HeadOk(Split(T, a, t), end, n)
  {
    hide Tiled;
    TiledZero(T, end);
    hide Split;
    TiledAt(T, end, n);
    TiledAt(T, end, a);
    SplitAt(T, end, a, t, n);
    var T' := Split(T, a, t);
    if Extent(T'[n].code) {
      forall k: nat | n < k < T'[n].page ensures T'[k] == Page(MIDDLE, n) {
        SplitAt(T, end, a, t, k);
      }
      if T'[n].page < end {
        SplitAt(T, end, a, t, T'[n].page);
      }
    }
  }

  lemma SplitBody(T: Table, end: nat, a: nat, t: nat, n: nat)
    requires Tiled(T, end) && a < end && T[a].code == BIG && a < t < T[a].page
    requires n < end && t < |T| && end <= |Split(T, a, t)|
    ensures BodyOk(Split(T, a, t), end, n)
  {
    hide Tiled;
    TiledZero(T, end);
    hide Split;
    TiledAt(T, end, n);
    TiledAt(T, end, a);
    SplitAt(T, end, a, t, n);
    SplitAt(T, end, a, t, a);
    SplitAt(T, end, a, t, t);
    if T[n].code == MIDDLE {
      SplitAt(T, end, a, t, T[n].page);
      OneOwner(T, end, n, a);
      OneOwner(T, end, T[n].page, a);
    }
  }

  // ----- the free side

  /** The extent map and the free list agree. */
  ghost predicate WellFormed(T: Table, end: nat, sizes: map<nat, nat>) {
    Tiled(T, end) && Apart(T, end) && sizes == Listed(T, end)
  }

  /** As above, except that the free extent at `q` is not yet listed and may touch others. */
  ghost predicate Pending(T: Table, end: nat, sizes: map<nat, nat>, q: nat) {
    Tiled(T, end) && q < end && T[q].code == VACANT && ApartBut(T, end, q) && sizes == Listed(T, end) - {q}
  }

  /** No free extent ends where `q` begins. */
  ghost predicate LeftClear(T: Table, end: nat, q: nat) {
    forall n: nat :: n < end <= |T| && T[n].code == VACANT ==> T[n].page != q
  }

  ghost predicate RightClear(T: Table, end: nat, q: nat) {
    q < end <= |T| && T[q].page < end ==> T[T[q].page].code != VACANT
  }

  /** Nothing outside `V` has changed. */
  ghost predicate SameBut(T: Table, T': Table, V: set<nat>) {
    |T'| == |T| && forall k: nat :: k < |T| && k !in V ==> T'[k] == T[k]
  }

  lemma PendingAt(T: Table, end: nat, sizes: map<nat, nat>, q: nat)
    requires Pending(T, end, sizes, q)
    ensures 0 < q < end <= |T| && T[q].code == VACANT && q < T[q].page <= end && Tiled(T, end)
    ensures T[q].page < end && T[T[q].page].code == VACANT ==> T[q].page < T[T[q].page].page <= end
  {
    TiledAt(T, end, q);
    if T[q].page < end {
      TiledAt(T, end, T[q].page);
    }
  }

  lemma Settled(T: Table, end: nat, sizes: map<nat, nat>, q: nat)
    requires Pending(T, end, sizes, q) && LeftClear(T, end, q) && RightClear(T, end, q)
    ensures q < T[q].page && q !in sizes && q != 0 && T[q].code == VACANT
    ensures WellFormed(T, end, sizes[q := T[q].page - q])
  {
    TiledAt(T, end, q);
    hide Tiled;
    assert sizes[q := T[q].page - q] == Listed(T, end);
  }

  /** An extent in use becomes free. */
  lemma FreeStart(T: Table, end: nat, sizes: map<nat, nat>, p: nat)
    requires WellFormed(T, end, sizes) && p < end && T[p].code == BIG
    ensures p < T[p].page <= end <= |T|
    ensures var T' := Recode(T, p, VACANT);
      && Pending(T', end, sizes, p)
      && Vacant(T', end) == Vacant(T, end) + Span(p, T[p].page)
      && SameBut(T, T', Span(p, T[p].page))
  {
    var T' := Recode(T, p, VACANT);
    RecodeTiled(T, end, p, VACANT);
    TiledAt(T, end, p);
    forall k: nat | k < end ensures Idle(T', k) <==> Idle(T, k) || p <= k < T[p].page {
      OneOwner(T, end, k, p);
      TiledAt(T, end, k);
    }
    hide Tiled;
    assert Listed(T', end) - {p} == Listed(T, end);
  }

  /** Joining leaves the same pages free. */
  lemma JoinIdle(T: Table, end: nat, a: nat, b: nat, k: nat)
    requires Tiled(T, end) && a < end && b < end && T[a].code == VACANT && T[b].code == VACANT && T[a].page == b
    requires k < end
    ensures k < |Join(T, a, b)| && (Idle(Join(T, a, b), k) <==> Idle(T, k))
  {
    hide Tiled, Join;
    TiledZero(T, end);
    TiledAt(T, end, k);
    JoinAt(T, end, a, b, k);
    JoinAt(T, end, a, b, Owner(T, k));
    JoinAt(T, end, a, b, a);
  }

  lemma JoinListed(T: Table, end: nat, a: nat, b: nat)
    requires Tiled(T, end) && a < end && b < end && T[a].code == VACANT && T[b].code == VACANT && T[a].page == b
    ensures Listed(Join(T, a, b), end) - {a} == Listed(T, end) - {a} - {b}
  {
    hide Tiled, Join;
    TiledZero(T, end);
    JoinAt(T, end, a, b, a);
    forall n: nat | n < end ensures n in Listed(Join(T, a, b), end) - {a} <==> n in Listed(T, end) - {a} - {b}
                            ensures n in Listed(Join(T, a, b), end) - {a} ==> Join(T, a, b)[n] == T[n] {
      JoinAt(T, end, a, b, n);
    }
  }

  /** Two adjacent free extents become one. */
  lemma JoinFree(T: Table, end: nat, a: nat, b: nat)
    requires Tiled(T, end) && a < end && b < end && T[a].code == VACANT && T[b].code == VACANT && T[a].page == b
    ensures var T' := Join(T, a, b);
      && Listed(T', end) - {a} == Listed(T, end) - {a} - {b}
      && Vacant(T', end) == Vacant(T, end)
      && SameBut(T, T', Vacant(T, end))
      && T'[a] == Page(VACANT, T[b].page)
  {
    hide Tiled, Join;
    TiledZero(T, end);
    JoinListed(T, end, a, b);
    JoinSame(T, end, a, b);
    JoinAt(T, end, a, b, a);
    forall k: nat | k < end ensures Idle(Join(T, a, b), k) <==> Idle(T, k) {
      JoinIdle(T, end, a, b, k);
    }
  }

  lemma JoinAll(T: Table, end: nat, a: nat, b: nat)
    requires Tiled(T, end) && a < end && b < end && Extent(T[a].code) && Extent(T[b].code) && T[a].page == b
    ensures |Join(T, a, b)| == |T| && a < b < T[b].page <= end
    ensures forall k: nat :: k < |T| ==>
      Join(T, a, b)[k] ==
        if k == a then T[a].(page := T[b].page) else if b <= k < T[b].page then Page(MIDDLE, a) else T[k]
  {
    hide Tiled, Join;
    TiledZero(T, end);
    JoinAt(T, end, a, b, a);
    forall k: nat | k < |T| ensures Join(T, a, b)[k] ==
      if k == a then T[a].(page := T[b].page) else if b <= k < T[b].page then Page(MIDDLE, a) else T[k] {
      JoinAt(T, end, a, b, k);
    }
  }

  lemma JoinSame(T: Table, end: nat, a: nat, b: nat)
    requires Tiled(T, end) && a < end && b < end && Extent(T[a].code) && T[b].code == VACANT && T[a].page == b
    ensures SameBut(T, Join(T, a, b), Vacant(T, end) + {a})
  {
    hide Tiled;
    TiledZero(T, end);
    forall k: nat | k < |T| && k !in Vacant(T, end) && k != a ensures Join(T, a, b)[k] == T[k] {
      JoinAt(T, end, a, b, k);
    }
    JoinAt(T, end, a, b, a);
    hide Join;
  }

  /** Coalescing to the left. */
  lemma JoinLeft(T: Table, end: nat, sizes: map<nat, nat>, a: nat, p: nat)
    requires Pending(T, end, sizes, p) && a < end && T[a].code == VACANT && T[a].page == p
    ensures a in sizes && Pending(Join(T, a, p), end, sizes - {a}, a) && LeftClear(Join(T, a, p), end, a)
  {
    hide Tiled, Join, Vacant, SameBut, ApartBut, LeftClear;
    TiledZero(T, end);
    JoinFree(T, end, a, p);
    JoinTiled(T, end, a, p);
    TiledAt(T, end, a);
    JoinLeftApart(T, end, a, p);
  }

  lemma JoinLeftApart(T: Table, end: nat, a: nat, p: nat)
    requires Tiled(T, end) && p < end && T[p].code == VACANT && ApartBut(T, end, p)
    requires a < end && T[a].code == VACANT && T[a].page == p
    ensures ApartBut(Join(T, a, p), end, a) && LeftClear(Join(T, a, p), end, a)
  {
    hide Tiled, Join;
    TiledZero(T, end);
    TiledAt(T, end, a);
    JoinAll(T, end, a, p);
  }

  /** Coalescing to the right. */
  lemma JoinRight(T: Table, end: nat, sizes: map<nat, nat>, q: nat, b: nat)
    requires Pending(T, end, sizes, q) && LeftClear(T, end, q) && T[q].page == b && b < end && T[b].code == VACANT
    ensures b in sizes && Pending(Join(T, q, b), end, sizes - {b}, q)
    ensures LeftClear(Join(T, q, b), end, q) && RightClear(Join(T, q, b), end, q)
  {
    hide Tiled, Join;
    TiledZero(T, end);
    JoinFree(T, end, q, b);
    JoinTiled(T, end, q, b);
    TiledAt(T, end, q);
    TiledAt(T, end, b);
    JoinAll(T, end, q, b);
  }

  /** The page before an extent tells whether a free extent ends there. */
  lemma LeftNeighbour(T: Table, end: nat, p: nat)
    requires Tiled(T, end) && 0 < p < end && Extent(T[p].code)
    ensures var a := Owner(T, p - 1);
      && a < p
      && (T[a].code == VACANT ==> T[a].page == p)
      && (T[a].code != VACANT ==> LeftClear(T, end, p))
  {
    var a := Owner(T, p - 1);
    TiledAt(T, end, p - 1);
    TiledAt(T, end, a);
    forall n: nat | n < end && T[n].code == VACANT && T[n].page == p ensures n == a {
      TiledAt(T, end, n);
      OneOwner(T, end, p - 1, n);
    }
    if T[a].code == VACANT {
      OneOwner(T, end, p, a);
    }
  }

  // ----- the free pages determine the map

  /** A free extent begins where the free pages begin. */
  lemma HeadOfRun(T: Table, end: nat, sizes: map<nat, nat>, a: nat)
    requires WellFormed(T, end, sizes) && a < end && T[a].code == VACANT
    ensures a < T[a].page <= end <= |T| && Span(a, T[a].page) <= Vacant(T, end)
    ensures 0 < a && a - 1 !in Vacant(T, end) && T[a].page !in Vacant(T, end)
  {
    TiledAt(T, end, a);
    LeftNeighbour(T, end, a);
    TiledAt(T, end, Owner(T, a - 1));
    forall k: nat | a <= k < T[a].page ensures k in Vacant(T, end) {
      OneOwner(T, end, k, a);
    }
  }

  lemma SameBounds(V: set<nat>, a: nat, s: nat, b: nat, t: nat, k: nat)
    requires 0 < a <= k < s && 0 < b <= k < t && Span(a, s) <= V && Span(b, t) <= V
    requires a - 1 !in V && b - 1 !in V && s !in V && t !in V
    ensures a == b && s == t
  {
    assert Inside(a, s, b - 1) ==> b - 1 in Span(a, s);
    assert Inside(b, t, a - 1) ==> a - 1 in Span(b, t);
    assert Inside(a, s, t) ==> t in Span(a, s);
    assert Inside(b, t, s) ==> s in Span(b, t);
  }

  /** Two well-formed maps with the same free pages have the same free extents. */
  lemma SameRun(T: Table, T': Table, end: nat, sizes: map<nat, nat>, sizes': map<nat, nat>, k: nat)
    requires WellFormed(T, end, sizes) && WellFormed(T', end, sizes') && Vacant(T, end) == Vacant(T', end)
    requires k in Vacant(T, end)
    ensures k < |T| && k < |T'| && T[k] == T'[k]
  {
    var a, b := Owner(T, k), Owner(T', k);
    TiledAt(T, end, k);
    TiledAt(T', end, k);
    TiledAt(T, end, a);
    TiledAt(T', end, b);
    HeadOfRun(T, end, sizes, a);
    HeadOfRun(T', end, sizes', b);
    hide WellFormed, Vacant;
    SameBounds(Vacant(T, end), a, T[a].page, b, T'[b].page, k);
  }

  /** What is in use and which pages are free leave no choice: a well-formed table and free list are
      determined by them. */
  lemma MapDetermined(T: Table, T': Table, end: nat, sizes: map<nat, nat>, sizes': map<nat, nat>)
    requires WellFormed(T, end, sizes) && WellFormed(T', end, sizes') && Vacant(T, end) == Vacant(T', end)
    requires SameBut(T, T', Vacant(T, end))
    ensures T == T' && sizes == sizes'
  {
    forall k: nat | k < |T| ensures T[k] == T'[k] {
      if k in Vacant(T, end) {
        SameRun(T, T', end, sizes, sizes', k);
      }
    }
    hide Tiled, Vacant;
  }

  // ----- giving the end of the heap back

  lemma Shrink(T: Table, end: nat, sizes: map<nat, nat>, q: nat)
    requires WellFormed(T, end, sizes) && q < end && T[q].code == VACANT && T[q].page == end
    ensures 0 < q && q in sizes && WellFormed(T, q, sizes - {q})
    ensures Vacant(T, q) == Vacant(T, end) - Span(q, end)
    ensures Span(q, end) <= Vacant(T, end) && q - 1 !in Vacant(T, end)
  {
    ShrinkTiled(T, end, q);
    ShrinkVacant(T, end, q);
    assert Listed(T, q) == Listed(T, end) - {q} by {
      forall n: nat | q < n < end ensures T[n].code == MIDDLE {
        TiledAt(T, end, q);
      }
    }
    LeftNeighbour(T, end, q);
    TiledAt(T, end, Owner(T, q - 1));
    hide Tiled;
  }

  lemma ShrinkTiled(T: Table, end: nat, q: nat)
    requires Tiled(T, end) && q < end && T[q].code == VACANT
    ensures 0 < q && Tiled(T, q)
  {
    hide Tiled;
    TiledZero(T, end);
    forall n: nat | n < q ensures HeadOk(T, q, n) && BodyOk(T, q, n) {
      TiledAt(T, end, n);
      if Extent(T[n].code) {
        OneOwner(T, end, q, n);
      }
    }
    TiledFrom(T, q);
  }

  lemma ShrinkVacant(T: Table, end: nat, q: nat)
    requires Tiled(T, end) && q < end && T[q].code == VACANT && T[q].page == end
    ensures Vacant(T, q) == Vacant(T, end) - Span(q, end) && Span(q, end) <= Vacant(T, end)
  {
    forall k: nat | q <= k < end ensures k in Vacant(T, end) {
      OneOwner(T, end, k, q);
    }
  }

  /** A free extent reaches the end of the heap exactly when all pages from one of its own on are
      free. */
  lemma ReachesEnd(T: Table, end: nat, q: nat, p: nat)
    requires Tiled(T, end) && Apart(T, end) && q <= p < end && T[q].code == VACANT && p < T[q].page
    ensures T[q].page == end <==> Span(p, end) <= Vacant(T, end)
  {
    TiledAt(T, end, q);
    if T[q].page == end {
      ShrinkVacant(T, end, q);
    } else {
      assert T[q].page in Span(p, end);
    }
  }

  lemma Freed(T: Table, end: nat, sizes: map<nat, nat>, q: nat, p: nat)
    requires WellFormed(T, end, sizes) && q <= p < end && T[q].code == VACANT && p < T[q].page
    ensures T[q].page == end <==> Span(p, end) <= Vacant(T, end)
    ensures end <= |T| && Span(end, end) == {}
    ensures EndsHeap(q, T[q].page - q, end) <==> T[q].page == end && !HugeRun(Vacant(T, end), end)
  {
    ReachesEnd(T, end, q, p);
    TiledAt(T, end, q);
    EndTest(q, T[q].page - q, end);
    if T[q].page == end {
      RunSize(T, end, sizes, q);
    }
  }

  lemma TableSize(T: Table, end: nat, sizes: map<nat, nat>)
    requires WellFormed(T, end, sizes)
    ensures 0 < end <= |T|
  {}

  lemma UsedAt(T: Table, end: nat, sizes: map<nat, nat>, p: nat)
    requires WellFormed(T, end, sizes) && p < end && T[p].code == BIG
    ensures p < T[p].page <= end <= |T| && Vacant(T, end) !! Span(p, T[p].page)
    ensures T[p].page < end && T[T[p].page].code == VACANT ==> T[p].page < T[T[p].page].page <= end
  {
    UsedIsBusy(T, end, p);
    if T[p].page < end {
      TiledAt(T, end, T[p].page);
    }
  }

  /** A product of two ints, which has 32 bits. */
  function Int32(x: int): int {
    var r := x % 0x1_0000_0000;
    if r < 0x8000_0000 then r else r - 0x1_0000_0000
  }

  /** The pages of an extent whose size in bytes is no int. */
  const HUGE: nat := 0x8_0000

  /** Whether the free block at `q` ends the heap, as the program computes it from byte addresses. */
  predicate EndsHeap(q: nat, size: nat, end: nat) {
    q * Classes.PAGESIZE + Int32(size * Classes.PAGESIZE) == end * Classes.PAGESIZE
  }

  /** The test is right for extents below 2 GiB, and never succeeds for larger ones. */
  lemma EndTest(q: nat, size: nat, end: nat)
    requires q + size <= end
    ensures EndsHeap(q, size, end) <==> q + size == end && size < HUGE
  {
    var x := size * Classes.PAGESIZE;
    assert Int32(x) <= x && (Int32(x) == x <==> x < 0x8000_0000);
  }

  /** The last 2 GiB of the heap are free. */
  ghost predicate HugeRun(V: set<nat>, end: nat) {
    HUGE <= end && Span(end - HUGE, end) <= V
  }

  lemma RunSize(T: Table, end: nat, sizes: map<nat, nat>, q: nat)
    requires WellFormed(T, end, sizes) && q < end && T[q].code == VACANT && T[q].page == end
    ensures end - q < HUGE <==> !HugeRun(Vacant(T, end), end)
  {
    HeadOfRun(T, end, sizes, q);
    hide WellFormed, Vacant;
    if end - q < HUGE <= end {
      assert Inside(end - HUGE, end, q - 1) && q - 1 in Span(end - HUGE, end);
    }
  }

  /** A heap in which freeing the only block does not give its pages back. */
  ghost function HugeTable(): Table {
    seq(HUGE + 1, i => if i == 0 then Page(BASE, 0) else if i == 1 then Page(BIG, HUGE + 1) else Page(MIDDLE, 1))
  }

  lemma HugeBlockStays()
    ensures WellFormed(HugeTable(), HUGE + 1, map[]) && HugeTable()[1] == Page(BIG, HUGE + 1)
    ensures HugeRun(Vacant(HugeTable(), HUGE + 1) + Span(1, HUGE + 1), HUGE + 1)
    ensures !EndsHeap(1, HUGE, HUGE + 1)
  {
    var T, end := HugeTable(), HUGE + 1;
    forall n: nat | n < end ensures HeadOk(T, end, n) && BodyOk(T, end, n) {}
    TiledFrom(T, end);
    EndTest(1, HUGE, HUGE + 1);
  }

  // ----- extending the heap

  /** setup_extent_descriptor: an extent in use of `size` pages begins at `at`. */
  function SetUp(T: Table, at: nat, size: nat): Table
    requires at < |T|
  {
    seq(|T|, i requires 0 <= i < |T| =>
      if i == at then Page(BIG, at + size) else if at < i < at + size then Page(MIDDLE, at) else T[i])
  }

  /** The heap may be extended over a gap just when the descriptors of the gap describe extents in
      use; in particular when there is no gap. */
  ghost predicate GapOk(T: Table, end: nat, at: nat) {
    Tiled(T, at) && forall k: nat :: end <= k < at && k < |T| ==> T[k].code != VACANT
  }

  lemma SetUpAt(T: Table, at: nat, size: nat)
    requires at < |T|
    ensures |SetUp(T, at, size)| == |T|
    ensures forall k: nat :: k < |T| ==>
      SetUp(T, at, size)[k] ==
        if k == at then Page(BIG, at + size) else if at < k < at + size then Page(MIDDLE, at) else T[k]
  {}

  lemma SetUpTiled(T: Table, at: nat, size: nat)
    requires 0 < at < |T| && at + size <= |T|
    ensures Tiled(SetUp(T, at, size), at + size) <==> Tiled(T, at)
  {
    hide Tiled, SetUp;
    SetUpAt(T, at, size);
    var T', end := SetUp(T, at, size), at + size;
    if Tiled(T, at) {
      TiledZero(T, at);
      forall n: nat | n < end ensures HeadOk(T', end, n) && BodyOk(T', end, n) {
        if n < at {
          TiledAt(T, at, n);
        }
      }
      TiledFrom(T', end);
    }
    if Tiled(T', end) {
      TiledZero(T', end);
      forall n: nat | n < at ensures HeadOk(T, at, n) && BodyOk(T, at, n) {
        SetUpBack(T, at, size, n);
      }
      TiledFrom(T, at);
    }
  }

  lemma SetUpBack(T: Table, at: nat, size: nat, n: nat)
    requires n < at < |T| && at + size <= |T| && Tiled(SetUp(T, at, size), at + size)
    ensures HeadOk(T, at, n) && BodyOk(T, at, n)
  {
    hide Tiled, SetUp;
    SetUpAt(T, at, size);
    var T' := SetUp(T, at, size);
    TiledAt(T', at + size, n);
    if Extent(T[n].code) {
      if size > 0 {
        OneOwner(T', at + size, at, n);
      }
      assert T[n].page <= at;
      forall k: nat | n < k < T[n].page ensures T[k] == Page(MIDDLE, n) {
        assert T'[k] == T[k];
      }
    }
  }

  lemma SetUpFree(T: Table, end: nat, at: nat, size: nat)
    requires end <= at < |T| && at + size <= |T| && Tiled(T, at)
    requires forall k: nat :: end <= k < at ==> T[k].code != VACANT
    ensures var T' := SetUp(T, at, size);
      && Listed(T', at + size) == Listed(T, end)
      && (Apart(T, end) && Tiled(T, end) ==> Apart(T', at + size))
      && (Tiled(T, end) ==> Vacant(T', at + size) == Vacant(T, end))
  {
    var T' := SetUp(T, at, size);
    hide Tiled;
    assert Listed(T', at + size) == Listed(T, end);
    if Tiled(T, end) {
      forall n: nat | n < end && T[n].code == VACANT ensures T[n].page <= end {
        TiledAt(T, end, n);
      }
      forall k: nat | k < at + size ensures Idle(T', k) <==> k < end && Idle(T, k) {
        if k < at {
          TiledAt(T, at, k);
        }
        if k < end {
          TiledAt(T, end, k);
        } else if k < at && T[k].code == MIDDLE {
          SetUpGap(T, end, at, k);
        }
      }
    }
  }

  /** A middle page of the gap does not belong to an extent of the old heap. */
  lemma SetUpGap(T: Table, end: nat, at: nat, k: nat)
    requires Tiled(T, end) && Tiled(T, at) && end <= k < at && T[k].code == MIDDLE
    ensures end <= T[k].page < at
  {
    TiledAt(T, at, k);
    if T[k].page < end {
      TiledAt(T, end, T[k].page);
    }
  }

  lemma Extended(T: Table, end: nat, sizes: map<nat, nat>, at: nat, size: nat)
    requires WellFormed(T, end, sizes) && end <= at < |T| && at + size <= |T|
    ensures WellFormed(SetUp(T, at, size), at + size, sizes) <==> GapOk(T, end, at)
    ensures GapOk(T, end, at) ==> Vacant(SetUp(T, at, size), at + size) == Vacant(T, end)
    ensures GapOk(T, end, end)
  {
    var T' := SetUp(T, at, size);
    SetUpTiled(T, at, size);
    TiledZero(T, end);
    hide Tiled, Vacant;
    if GapOk(T, end, at) {
      SetUpFree(T, end, at, size);
    } else if Tiled(T, at) {
      var k: nat :| end <= k < at && k < |T| && T[k].code == VACANT;
      TiledAt(T, at, k);
      assert k in Listed(T', at + size) && k !in Listed(T, end);
    }
  }

  // ----- resizing

  /** Pages in use are not free. */
  lemma UsedIsBusy(T: Table, end: nat, p: nat)
    requires Tiled(T, end) && p < end && T[p].code == BIG
    ensures p < T[p].page <= end && Vacant(T, end) !! Span(p, T[p].page)
  {
    TiledAt(T, end, p);
    forall k: nat | p <= k < T[p].page ensures k !in Vacant(T, end) {
      OneOwner(T, end, k, p);
    }
  }

  /** An extent in use takes in the free extent after it. */
  lemma JoinUsed(T: Table, end: nat, sizes: map<nat, nat>, p: nat, b: nat)
    requires WellFormed(T, end, sizes) && p < end && b < end
    requires T[p].code == BIG && T[p].page == b && T[b].code == VACANT
    ensures b in sizes && p < b < T[b].page <= end <= |T|
    ensures var T' := Join(T, p, b);
      && WellFormed(T', end, sizes - {b})
      && Vacant(T', end) + Span(p, T[b].page) == Vacant(T, end) + Span(p, b)
      && SameBut(T, T', Span(p, T[b].page))
      && T'[p] == Page(BIG, T[b].page)
  {
    hide Tiled, Join;
    TiledZero(T, end);
    JoinTiled(T, end, p, b);
    JoinAll(T, end, p, b);
    JoinUsedVacant(T, end, p, b);
    var T' := Join(T, p, b);
    assert Listed(T', end) == Listed(T, end) - {b} by {
      TiledAt(T, end, b);
    }
  }

  lemma JoinUsedVacant(T: Table, end: nat, p: nat, b: nat)
    requires Tiled(T, end) && p < end && T[p].code == BIG && T[p].page == b && b < end && T[b].code == VACANT
    ensures Vacant(Join(T, p, b), end) + Span(p, T[b].page) == Vacant(T, end) + Span(p, b)
  {
    hide Tiled, Join;
    TiledZero(T, end);
    JoinAll(T, end, p, b);
    forall k: nat | k < end
      ensures Idle(Join(T, p, b), k) || p <= k < T[b].page <==> Idle(T, k) || p <= k < b {
      TiledAt(T, end, k);
      OneOwner(T, end, k, b);
      OneOwner(T, end, k, p);
      OneOwner(T, end, Owner(T, k), b);
    }
  }

  /** An extent in use is cut in two. */
  lemma SplitUsed(T: Table, end: nat, sizes: map<nat, nat>, a: nat, t: nat)
    requires WellFormed(T, end, sizes) && a < end && T[a].code == BIG && a < t < T[a].page
    ensures t < |T| && T[a].page <= end <= |T|
    ensures var T' := Split(T, a, t);
      && WellFormed(T', end, sizes)
      && Vacant(T', end) == Vacant(T, end)
      && SameBut(T, T', Span(a, T[a].page))
      && T'[a] == Page(BIG, t) && T'[t] == Page(BIG, T[a].page)
  {
    hide Tiled, Split;
    TiledZero(T, end);
    TiledAt(T, end, a);
    SplitTiled(T, end, a, t);
    SplitAll(T, end, a, t);
    forall k: nat | k < end ensures Idle(Split(T, a, t), k) <==> Idle(T, k) {
      TiledAt(T, end, k);
      OneOwner(T, end, k, a);
    }
    assert Listed(Split(T, a, t), end) == Listed(T, end);
  }

  lemma SplitAll(T: Table, end: nat, a: nat, t: nat)
    requires Tiled(T, end) && a < end && T[a].code == BIG && a < t < T[a].page && t < |T|
    ensures |Split(T, a, t)| == |T|
    ensures forall k: nat :: k < |T| ==>
      Split(T, a, t)[k] == if k == a then Page(BIG, t) else if k == t then Page(BIG, T[a].page)
                           else if t < k < T[a].page then Page(MIDDLE, t) else T[k]
  {
    hide Tiled, Split;
    SplitAt(T, end, a, t, t);
    forall k: nat | k < |T| ensures Split(T, a, t)[k] ==
      if k == a then Page(BIG, t) else if k == t then Page(BIG, T[a].page)
      else if t < k < T[a].page then Page(MIDDLE, t) else T[k] {
      SplitAt(T, end, a, t, k);
    }
  }

  /** The block after its first page was made free in free_pages, when it had been cut down to nothing. */
  function Nothing(T: Table, a: nat): Table
    requires a < |T|
  {
    Recode(Split(T, a, a), a, VACANT)
  }

  /** An extent cannot be cut down to nothing, as mresize does when it is asked for no bytes.  If no
      free block ends where it begins, free_pages next takes the block for its own right neighbour and
      unlinks it from a list it is not on.  Otherwise the table that is left is no extent map. */
  lemma ResizeToNothing(T: Table, end: nat, a: nat)
    requires Tiled(T, end) && a < end && T[a].code == BIG
    ensures 0 < a < |T| && !Tiled(Split(T, a, a), end)
    ensures var T', o := Nothing(T, a), Owner(T, a - 1);
      && o < a
      && (T[o].code != VACANT ==> T'[a] == Page(VACANT, a) && a !in Listed(T, end))
      && (T[o].code == VACANT ==> !Tiled(Join(T', o, a), end) && Join(T', o, a)[a].code == MIDDLE)
  {
    TiledAt(T, end, a);
    LeftNeighbour(T, end, a);
    assert !HeadOk(Split(T, a, a), end, a);
    var T', o := Nothing(T, a), Owner(T, a - 1);
    if T[o].code == VACANT {
      var T'' := Join(T', o, a);
      assert T''[a] == Page(MIDDLE, a);
      assert !BodyOk(T'', end, a);
    }
  }

  /** The pages an extent could have: its own, and those of the free extent after it. */
  function Reach(T: Table, end: nat, p: nat): nat
    requires p < |T|
  {
    var stop := T[p].page;
    if stop < end && stop < |T| && T[stop].code == VACANT then T[stop].page else stop
  }

  /** The pages for `size` bytes, as mresize computes them: in 64 bits, and then as an int. */
  function PagesFor(size: nat): int {
    Int32((size + Classes.PAGESIZE - 1) % 0x1_0000_0000_0000_0000 / Classes.PAGESIZE)
  }

  /** They are the pages that the request takes just when their number is an int. */
  lemma PagesForExact(size: nat)
    requires size < 0x1_0000_0000_0000_0000
    ensures PagesFor(size) == (size + Classes.PAGESIZE - 1) / Classes.PAGESIZE
      <==> size <= 0x7FFF_FFFF * Classes.PAGESIZE
  {}

  /** A block asked to have room for 2^44 + 4096 bytes is cut down to one page. */
  lemma CastLosesPages()
    ensures PagesFor(0x1000_0000_0000 + 4096) == 1 && Classes.Smlist(0x1000_0000_0000 + 4096) == -1
  {
    Classes.SmlistLeast(0x1000_0000_0000 + 4096);
  }

  /** Where the extent ends after it has taken in what it needs to have `n` pages. */
  function Taking(T: Table, end: nat, p: nat, n: nat): nat
    requires p < |T|
  {
    if p + n <= T[p].page then T[p].page else Reach(T, end, p)
  }

  /** When a resized block whose pages from `t` to `stop` are too much makes the heap shrink. */
  ghost predicate GivesBack(V: set<nat>, end: nat, t: nat, stop: nat, atBreak: bool) {
    t < stop && atBreak && Span(t, end) <= V && !HugeRun(V, end)
  }

  // ----- allocation

  /** The page table after alloc_pages has taken `size` pages from the free extent at `p`.  The page
      after a block that is cut off is not recorded at its head. */
  function Taken(T: Table, p: nat, size: nat): Table
    requires p < |T| && p <= T[p].page <= |T|
  {
    var T1 := Recode(T, p, BIG);
    if T[p].page - p > size then
      Named(T1[p + size := Page(VACANT, T[p].page)], p + size + 1, T[p].page, p + size)
    else T1
  }

  /** With the end of the block recorded, taking is cutting the extent in two. */
  lemma TakenIsSplit(T: Table, end: nat, p: nat, size: nat)
    requires Tiled(T, end) && p < end && T[p].code == VACANT && 0 < size
    ensures p < T[p].page <= end <= |T|
    ensures p + size < T[p].page ==>
      Taken(T, p, size)[p := Page(BIG, p + size)] == Recode(Split(Recode(T, p, BIG), p, p + size), p + size, VACANT)
  {
    TiledAt(T, end, p);
    hide Tiled;
  }

  lemma TakenAt(T: Table, end: nat, p: nat, size: nat)
    requires Tiled(T, end) && p < end && T[p].code == VACANT && p + size <= T[p].page
    ensures 0 < p < T[p].page <= end <= |T|
    ensures |Taken(T, p, size)| == |T|
    ensures forall k: nat :: k < |T| ==>
      Taken(T, p, size)[k] ==
        if k == p + size && k < T[p].page then Page(VACANT, T[p].page)
        else if k == p then Page(BIG, T[p].page)
        else if p + size < k < T[p].page then Page(MIDDLE, p + size)
        else T[k]
  {
    TiledAt(T, end, p);
    hide Tiled;
  }

  lemma TakenVacant(T: Table, end: nat, p: nat, size: nat)
    requires Tiled(T, end) && p < end && T[p].code == VACANT && p + size <= T[p].page
    ensures Taken.requires(T, p, size)
    ensures Vacant(Taken(T, p, size), end) == Vacant(T, end) - Span(p, p + size)
    ensures Span(p, p + size) <= Vacant(T, end)
  {
    hide Tiled, Taken;
    TakenAt(T, end, p, size);
    forall k: nat | k < end
      ensures Idle(Taken(T, p, size), k) <==> Idle(T, k) && !(p <= k < p + size)
      ensures p <= k < p + size ==> Idle(T, k)
    {
      TiledAt(T, end, k);
      OneOwner(T, end, k, p);
      OneOwner(T, end, Owner(T, k), p);
    }
  }

  lemma TakenListed(T: Table, end: nat, p: nat, size: nat)
    requires Tiled(T, end) && p < end && T[p].code == VACANT && p + size <= T[p].page
    ensures Taken.requires(T, p, size)
    ensures p + size < T[p].page ==> p + size !in Listed(T, end) - {p}
    ensures Listed(Taken(T, p, size), end) ==
      if p + size < T[p].page then (Listed(T, end) - {p})[p + size := T[p].page - (p + size)] else Listed(T, end) - {p}
  {
    hide Tiled, Taken;
    TiledAt(T, end, p);
    TakenAt(T, end, p, size);
  }

  lemma TakenApart(T: Table, end: nat, p: nat, size: nat)
    requires Tiled(T, end) && Apart(T, end) && p < end && T[p].code == VACANT && p + size <= T[p].page
    ensures Taken.requires(T, p, size) && Apart(Taken(T, p, size), end)
  {
    hide Tiled, Taken;
    TakenAt(T, end, p, size);
    var T' := Taken(T, p, size);
    forall n: nat | n < end && T'[n].code == VACANT && T'[n].page < end ensures T'[T'[n].page].code != VACANT {
      TiledAt(T, end, p);
      TiledAt(T, end, n);
      if Extent(T[n].code) {
        OneOwner(T, end, p, n);
      }
    }
  }

  /** A block is taken and the rest put back: the free list stays right. */
  lemma TakenFree(T: Table, end: nat, sizes: map<nat, nat>, p: nat, size: nat)
    requires WellFormed(T, end, sizes) && p in sizes && size <= sizes[p]
    ensures 0 < p < end <= |T| && T[p].code == VACANT && p < T[p].page == p + sizes[p] <= end
    ensures size < sizes[p] ==> p + size !in sizes - {p}
    ensures var T' := Taken(T, p, size);
      && Listed(T', end) == (if size < sizes[p] then (sizes - {p})[p + size := sizes[p] - size] else sizes - {p})
      && Vacant(T', end) == Vacant(T, end) - Span(p, p + size)
      && Span(p, p + size) <= Vacant(T, end)
      && SameBut(T, T', Span(p, T[p].page))
      && Apart(T', end)
      && |T'| == |T| && (size > 0 ==> T'[p].code == BIG)
  {
    hide Tiled, Taken, Vacant, Apart;
    TiledZero(T, end);
    TiledAt(T, end, p);
    TakenAt(T, end, p, size);
    TakenVacant(T, end, p, size);
    TakenListed(T, end, p, size);
    TakenApart(T, end, p, size);
  }

  /** The end recorded at the head of a block in use is of no concern to the free side. */
  lemma TakenRepaired(T: Table, end: nat, p: nat, stop: nat)
    requires p < |T| && T[p].code == BIG && Tiled(T[p := Page(BIG, stop)], end) && Apart(T, end)
    ensures WellFormed(T[p := Page(BIG, stop)], end, Listed(T, end))
  {
    hide Tiled;
    assert Listed(T[p := Page(BIG, stop)], end) == Listed(T, end);
  }

  /** The whole table is an extent map again exactly when the block fits the request, or nothing was
      taken; a block that is cut off keeps an end that lies in the free block behind it. */
  lemma TakenTiled(T: Table, end: nat, p: nat, size: nat)
    requires Tiled(T, end) && p < end && T[p].code == VACANT && p + size <= T[p].page
    ensures Taken.requires(T, p, size)
    ensures Tiled(Taken(T, p, size), end) <==> p + size == T[p].page || size == 0
    ensures size > 0 ==> Tiled(Taken(T, p, size)[p := Page(BIG, p + size)], end)
  {
    TakenAt(T, end, p, size);
    hide Tiled;
    var T' := Taken(T, p, size);
    if size == 0 {
      TiledAt(T, end, p);
      assert T' == T;
    } else if p + size == T[p].page {
      RecodeTiled(T, end, p, BIG);
      assert T'[p := Page(BIG, p + size)] == T';
    } else {
      if Tiled(T', end) {
        TiledAt(T', end, p);
      }
      RecodeTiled(T, end, p, BIG);
      SplitTiled(Recode(T, p, BIG), end, p, p + size);
      SplitAt(Recode(T, p, BIG), end, p, p + size, p + size);
      RecodeTiled(Split(Recode(T, p, BIG), p, p + size), end, p + size, VACANT);
      TakenIsSplit(T, end, p, size);
    }
  }

  /** Taking one page of a free block of two is such a case. */
  lemma CutOffBlock()
    ensures var T := [Page(BASE, 0), Page(VACANT, 3), Page(MIDDLE, 1)];
      WellFormed(T, 3, map[1 := 2]) && !Tiled(Taken(T, 1, 1), 3)
  {
    var T := [Page(BASE, 0), Page(VACANT, 3), Page(MIDDLE, 1)];
    forall n: nat | n < 3 ensures HeadOk(T, 3, n) && BodyOk(T, 3, n) {}
    assert Listed(T, 3) == map[1 := 2];
    TakenTiled(T, 3, 1, 1);
  }

  /** free_pages finds no free block on either side of the block at `p`; it then lists `p` with the
      pages up to the end recorded at its head. */
  ghost predicate NoNeighbour(T: Table, end: nat, p: nat) {
    && 0 < p < |T|
    && (Owner(T, p - 1) < |T| ==> T[Owner(T, p - 1)].code != VACANT)
    && (T[p].page < end && T[p].page < |T| ==> T[T[p].page].code != VACANT)
  }

  /** What becomes of a block that was cut off, when it is freed.  It is listed with the pages of the
      whole block it was cut from, so it overlaps the rest, which is on the free list already; or, if the
      rest has been allocated in the meantime, pages in use become free. */
  lemma CutOffFreed(T: Table, end: nat, sizes: map<nat, nat>, p: nat, size: nat)
    requires WellFormed(T, end, sizes) && p in sizes && 0 < size < sizes[p]
    ensures 0 < p < end <= |T| && p + sizes[p] <= end && T[p].page == p + sizes[p]
    ensures var T' := Taken(T, p, size);
      && T'[p] == Page(BIG, p + sizes[p]) && NoNeighbour(T', end, p)
      && p + size in Listed(T', end) && p + size + Listed(T', end)[p + size] == p + sizes[p]
    ensures var T' := Taken(T, p, size);
      && T'[p + size] == Page(VACANT, p + sizes[p])
      && var T'' := Taken(T', p + size, sizes[p] - size);
      && T''[p] == Page(BIG, p + sizes[p]) && NoNeighbour(T'', end, p)
      && T''[p + size] == Page(BIG, p + sizes[p])
  {
    hide Tiled, Taken;
    TiledZero(T, end);
    TiledAt(T, end, p);
    TakenAt(T, end, p, size);
    TakenListed(T, end, p, size);
    LeftNeighbour(T, end, p);
    TiledAt(T, end, p - 1);
    var T' := Taken(T, p, size);
    TakenWhole(T', p + size, sizes[p] - size);
  }

  lemma TakenWhole(T: Table, p: nat, size: nat)
    requires p < |T| && 0 < size && T[p].page == p + size <= |T|
    ensures Taken(T, p, size) == Recode(T, p, BIG)
  {}

  // ----- pages of chunks

  /** A code that stands for no extent: of a size class, or of the allocator's own pages. */
  predicate Plain(code: nat) {
    code != BIG && code != VACANT && code != MIDDLE
  }

  /** A block of one page in use may become a page of chunks. */
  lemma BlockToPlain(T: Table, end: nat, sizes: map<nat, nat>, n: nat, c: Page)
    requires WellFormed(T, end, sizes) && 0 < n < end && T[n] == Page(BIG, n + 1) && Plain(c.code)
    ensures WellFormed(T[n := c], end, sizes) && Vacant(T[n := c], end) == Vacant(T, end)
  {
    PlainTiled(T, end, n, c);
    PlainFree(T, end, n, c);
  }

  /** And back. */
  lemma PlainToBlock(T: Table, end: nat, sizes: map<nat, nat>, n: nat)
    requires WellFormed(T, end, sizes) && 0 < n < end && Plain(T[n].code)
    ensures WellFormed(T[n := Page(BIG, n + 1)], end, sizes)
    ensures Vacant(T[n := Page(BIG, n + 1)], end) == Vacant(T, end)
  {
    PlainTiled(T, end, n, Page(BIG, n + 1));
    PlainFree(T, end, n, Page(BIG, n + 1));
  }

  predicate OnePage(c: Page, n: nat) {
    Plain(c.code) || c == Page(BIG, n + 1)
  }

  lemma PlainTiled(T: Table, end: nat, n: nat, c: Page)
    requires Tiled(T, end) && 0 < n < end && OnePage(T[n], n) && OnePage(c, n)
    ensures Tiled(T[n := c], end)
  {
    hide Tiled;
    TiledZero(T, end);
    TiledAt(T, end, n);
    var T' := T[n := c];
    forall k: nat | k < end ensures HeadOk(T', end, k) && BodyOk(T', end, k) {
      TiledAt(T, end, k);
      if k == n && c.code == BIG && n + 1 < end {
        PlainNext(T, end, n);
      }
    }
    TiledFrom(T', end);
  }

  /** No extent covers the page after a page that stands alone. */
  lemma PlainNext(T: Table, end: nat, n: nat)
    requires Tiled(T, end) && n + 1 < end && OnePage(T[n], n)
    ensures T[n + 1].code != MIDDLE
  {
    TiledAt(T, end, n);
    TiledAt(T, end, n + 1);
    if T[n + 1].code == MIDDLE {
      TiledAt(T, end, T[n + 1].page);
    }
  }

  lemma PlainFree(T: Table, end: nat, n: nat, c: Page)
    requires Tiled(T, end) && 0 < n < end && OnePage(T[n], n) && OnePage(c, n)
    ensures Listed(T[n := c], end) == Listed(T, end)
    ensures Apart(T, end) ==> Apart(T[n := c], end)
    ensures Vacant(T[n := c], end) == Vacant(T, end)
  {
    TiledZero(T, end);
    var T' := T[n := c];
    forall k: nat | k < end ensures Idle(T', k) <==> Idle(T, k) {
      TiledAt(T, end, k);
    }
    hide Tiled;
  }

  lemma OnePageSpan(n: nat)
    ensures Span(n, n + 1) == {n}
  {}

  lemma NotIdleAt(T: Table, end: nat, at: nat)
    requires end <= at
    ensures at !in Vacant(T, end)
  {}

  lemma NoneLeft(T: Table, end: nat)
    ensures NoneFits(Listed(T, end), 1) ==> forall n: nat :: n !in Listed(T, end)
  {}

  lemma HadOne(T: Table, end: nat, n: nat)
    requires n < end <= |T| && T[n].code == VACANT && n + 1 <= T[n].page
    ensures !NoneFits(Listed(T, end), 1)
  {
    assert n in Listed(T, end);
  }

  /** The page found becomes a page of chunks, whether its end was recorded or not. */
  lemma AsChunkPage(T: Table, end: nat, sizes: map<nat, nat>, n: nat, c: Page)
    requires n < |T| && 0 < n < end && Plain(c.code) && T[n].code == BIG
    requires WellFormed(T[n := Page(BIG, n + 1)], end, sizes)
    ensures WellFormed(T[n := c], end, sizes) && Vacant(T[n := c], end) == Vacant(T, end)
  {
    var T1 := T[n := Page(BIG, n + 1)];
    BlockToPlain(T1, end, sizes, n, c);
    assert T1[n := c] == T[n := c];
    hide WellFormed, Tiled;
    assert Vacant(T1, end) == Vacant(T, end);
  }

  /** No free block has `size` pages. */
  ghost predicate NoneFits(sizes: map<nat, nat>, size: nat) {
    forall n :: n in sizes ==> sizes[n] < size
  }

  ghost predicate OneFitsExactly(sizes: map<nat, nat>, size: nat) {
    exists n :: n in sizes && sizes[n] == size
  }

  /** What the two halves of mresize do to the free pages. */
  lemma ResizeSets(I0: set<nat>, I1: set<nat>, p: nat, s0: nat, s1: nat, t: nat)
    requires I1 + Span(p, s1) == I0 + Span(p, s0) && I1 !! Span(p, s1) && p <= t <= s1
    ensures I0 + Span(p, s0) - Span(p, t) == I1 + Span(t, s1)
    ensures Span(p, s1) == Span(p, t) + Span(t, s1)
    ensures p < t ==> p !in I1 + Span(t, s1)
  {
    assert Span(p, s1) == Span(p, t) + Span(t, s1);
    assert p < t ==> p in Span(p, s1);
  }

  // ----- the program

  class Heap {
    var pages: Table
    var end: nat
    const free: F.FreeList

    ghost predicate Ok()
      reads this, free
    {
      free.Ok() && WellFormed(pages, end, F.Sizes(free.node))
    }

    /** msetup: the header, the table of tables, and the first table of 512 descriptors. */
    constructor ()
      ensures Ok() && fresh(free)
      ensures end == 3 && |pages| == 512 && Idle() == {}
    {
      pages := seq(512, i => if i < 3 then Page(BASE, 0) else Page(0, 0));
      end := 3;
      free := new F.FreeList();
    }

    ghost function Idle(): set<nat>
      reads this
    {
      Vacant(pages, end)
    }

    method NamePages(lo: nat, hi: nat, a: nat)
      requires lo <= hi <= |pages|
      modifies this`pages
      ensures pages == Named(old(pages), lo, hi, a)
    {
      var i := lo;
      while i < hi
        invariant lo <= i <= hi && pages == Named(old(pages), lo, i, a)
      {
        pages := pages[i := pages[i].(page := a)];
        i := i + 1;
      }
    }

    /** The assignments by which the extent at `a` takes in the extent at `b`. */
    method Swallow(a: nat, b: nat)
      requires a < b < |pages| && b <= pages[b].page <= |pages|
      modifies this`pages
      ensures pages == Join(old(pages), a, b)
    {
      var stop := pages[b].page;
      pages := pages[a := pages[a].(page := stop)];
      pages := Recode(pages, b, MIDDLE);
      NamePages(b, stop, a);
    }

    /** The first half of free_pages: coalesce with the block before. */
    method MergeLeft(p: nat) returns (q: nat)
      requires free.Ok() && Pending(pages, end, F.Sizes(free.node), p)
      modifies this`pages, free
      ensures free.Ok() && Pending(pages, end, F.Sizes(free.node), q) && LeftClear(pages, end, q)
      ensures Idle() == old(Idle()) && SameBut(old(pages), pages, old(Idle()))
      ensures q <= p && pages[q].page == old(pages[p].page)
    {
      hide Tiled, Pending, Listed, Vacant, LeftClear, RightClear, Join, F.Valid;
      PendingAt(pages, end, F.Sizes(free.node), p);
      LeftNeighbour(pages, end, p);
      var adj := p - 1;
      if pages[adj].code == MIDDLE {
        adj := pages[adj].page;
      }
      assert adj == Owner(pages, p - 1);
      if pages[adj].code == VACANT {
        JoinLeft(pages, end, F.Sizes(free.node), adj, p);
        JoinFree(pages, end, adj, p);
        free.Remove(adj);
        Swallow(adj, p);
        q := adj;
      } else {
        q := p;
      }
    }

    /** The second half of free_pages: coalesce with the block after. */
    method MergeRight(q: nat)
      requires free.Ok() && Pending(pages, end, F.Sizes(free.node), q) && LeftClear(pages, end, q)
      modifies this`pages, free
      ensures free.Ok() && Pending(pages, end, F.Sizes(free.node), q)
      ensures LeftClear(pages, end, q) && RightClear(pages, end, q)
      ensures Idle() == old(Idle()) && SameBut(old(pages), pages, old(Idle()))
      ensures old(pages[q].page) <= pages[q].page
    {
      hide Tiled, Pending, Listed, Vacant, LeftClear, Join, F.Valid;
      PendingAt(pages, end, F.Sizes(free.node), q);
      if pages[q].page < end {
        var adj := pages[q].page;
        if pages[adj].code == VACANT {
          JoinRight(pages, end, F.Sizes(free.node), q, adj);
          JoinFree(pages, end, q, adj);
          free.Remove(adj);
          Swallow(q, adj);
        }
      }
    }

    /** free_pages: the block in use at `p` becomes free and is coalesced with its neighbours. */
    method FreePages(p: nat) returns (q: nat)
      requires Ok() && p < end && pages[p].code == BIG
      modifies this`pages, free
      ensures Ok()
      ensures Idle() == old(Idle()) + Span(p, old(pages[p].page))
      ensures SameBut(old(pages), pages, Idle())
      ensures q <= p < end && pages[q].code == VACANT && old(pages[p].page) <= pages[q].page
    {
      hide WellFormed, Tiled, Pending, Listed, Vacant, LeftClear, RightClear, F.Valid;
      FreeStart(pages, end, F.Sizes(free.node), p);
      pages := Recode(pages, p, VACANT);
      q := MergeLeft(p);
      MergeRight(q);
      Settled(pages, end, F.Sizes(free.node), q);
      free.Add(q, pages[q].page - q);
    }

    /** free, for a block of whole pages.  `atBreak` says that the heap ends at the program break. */
    method Free(p: nat, atBreak: bool)
      requires Ok() && p < end && pages[p].code == BIG
      modifies this`pages, this`end, free
      ensures Ok() && end <= old(end)
      ensures var V := old(Idle()) + Span(p, old(pages[p].page));
        && Idle() == V - Span(end, old(end))
        && Span(end, old(end)) <= V
        && (end < old(end) <==> atBreak && Span(p, old(end)) <= V && !HugeRun(V, old(end)))
        && (end < old(end) ==> 0 < end && end - 1 !in V && end < |pages| && pages[end] == Page(VACANT, old(end)))
        && SameBut(old(pages), pages, V)
    {
      hide WellFormed, Tiled, Listed, Vacant, Span, SameBut, HugeRun, EndsHeap, F.Valid;
      UsedAt(pages, end, F.Sizes(free.node), p);
      var fpage := FreePages(p);
      Freed(pages, end, F.Sizes(free.node), fpage, p);
      if EndsHeap(fpage, pages[fpage].page - fpage, end) && atBreak {
        Shrink(pages, end, F.Sizes(free.node), fpage);
        free.Remove(fpage);
        end := fpage;
      }
    }

    /** The descending loops that name the head of an extent. */
    method NamePagesDown(lo: nat, hi: nat, a: nat)
      requires lo <= hi <= |pages|
      modifies this`pages
      ensures pages == Named(old(pages), lo, hi, a)
    {
      var i := hi;
      while i > lo
        invariant lo <= i <= hi && pages == Named(old(pages), i, hi, a)
      {
        i := i - 1;
        pages := pages[i := pages[i].(page := a)];
      }
    }

    /** The first half of mresize: take in the free block after, if it is needed and is enough. */
    method Grow(p: nat, n: nat) returns (ok: bool)
      requires Ok() && p < end && pages[p].code == BIG
      modifies this`pages, free
      ensures Ok()
      ensures ok <==> p + n <= Reach(old(pages), end, p)
      ensures !ok ==> pages == old(pages) && free.node == old(free.node)
      ensures ok ==>
        && pages[p].code == BIG && p + n <= pages[p].page == Taking(old(pages), end, p, n)
        && Idle() + Span(p, pages[p].page) == old(Idle()) + Span(p, old(pages[p].page))
        && SameBut(old(pages), pages, Span(p, pages[p].page))
    {
      hide WellFormed, Tiled, Listed, Vacant, Join, Span, F.Valid;
      UsedAt(pages, end, F.Sizes(free.node), p);
      var stop := pages[p].page;
      if n > stop - p {
        if stop == end || pages[stop].code != VACANT || pages[stop].page - p < n {
          return false;
        }
        JoinUsed(pages, end, F.Sizes(free.node), p, stop);
        free.Remove(stop);
        Swallow(p, stop);
      }
      return true;
    }

    /** The assignments that cut the block at `p` in two at `t`. */
    method Cut(p: nat, t: nat)
      requires p < |pages| && p < t < pages[p].page <= |pages|
      modifies this`pages
      ensures pages == Split(old(pages), p, t)
    {
      var stop := pages[p].page;
      pages := pages[t := Page(BIG, stop)];
      NamePagesDown(t + 1, stop, t);
      pages := pages[p := pages[p].(page := t)];
    }

    /** The second half of mresize: give back what is too much. */
    method Trim(p: nat, n: nat, atBreak: bool)
      requires Ok() && p < end && pages[p].code == BIG && 0 < n && p + n <= pages[p].page
      modifies this`pages, this`end, free
      ensures Ok()
      ensures var V := old(Idle()) + Span(p + n, old(pages[p].page));
        && p < end && pages[p] == Page(BIG, p + n)
        && end <= old(end) && (end < old(end) <==> GivesBack(V, old(end), p + n, old(pages[p].page), atBreak))
        && Idle() == V - Span(end, old(end))
        && Span(end, old(end)) <= V
        && SameBut(old(pages), pages, V + Span(p, p + n))
    {
      hide WellFormed, Tiled, Listed, Vacant, Split, HugeRun, F.Valid;
      UsedAt(pages, end, F.Sizes(free.node), p);
      assert p in Span(p, pages[p].page);
      if n < pages[p].page - p {
        SplitUsed(pages, end, F.Sizes(free.node), p, p + n);
        Cut(p, p + n);
        Free(p + n, atBreak);
      }
    }

    /** mresize on a block of whole pages. */
    method ResizePages(p: nat, n: nat, atBreak: bool) returns (ok: bool)
      requires Ok() && p < end && pages[p].code == BIG && n > 0
      modifies this`pages, this`end, free
      ensures Ok()
      ensures ok <==> p + n <= Reach(old(pages), old(end), p)
      ensures !ok ==> pages == old(pages) && end == old(end) && free.node == old(free.node)
      ensures ok ==>
        var V := old(Idle()) + Span(p, old(pages[p].page)) - Span(p, p + n);
        && p < end && pages[p] == Page(BIG, p + n)
        && end <= old(end)
        && (end < old(end) <==> GivesBack(V, old(end), p + n, Taking(old(pages), old(end), p, n), atBreak))
        && Idle() == V - Span(end, old(end))
        && Span(end, old(end)) <= V
        && SameBut(old(pages), pages, V + Span(p, p + n))
    {
      hide WellFormed, Tiled, Listed, Vacant, Span, F.Valid;
      ok := Grow(p, n);
      if ok {
        UsedAt(pages, end, F.Sizes(free.node), p);
        ResizeSets(old(Idle()), Idle(), p, old(pages[p].page), pages[p].page, p + n);
        Trim(p, n, atBreak);
      }
    }

    /** mresize: give the block at `p` room for `size` bytes without moving it. */
    method Resize(p: nat, size: nat, atBreak: bool) returns (ok: bool)
      requires Ok() && p < end && size < 0x1_0000_0000_0000_0000
      requires pages[p].code == BIG && Classes.Smlist(size) == -1 ==> PagesFor(size) != 0
      modifies this`pages, this`end, free
      ensures Ok()
      ensures var n, T := PagesFor(size), old(pages);
        && (ok <==> T[p].code == Classes.Smlist(size) ||
                    (T[p].code == BIG && Classes.Smlist(size) == -1 && 0 < n && p + n <= Reach(T, old(end), p)))
        && (!ok || T[p].code != BIG ==> pages == T && end == old(end) && free.node == old(free.node))
        && (ok && T[p].code == BIG ==>
              var V := old(Idle()) + Span(p, T[p].page) - Span(p, p + n);
              && p < end && pages[p] == Page(BIG, p + n)
              && end <= old(end)
              && (end < old(end) <==> GivesBack(V, old(end), p + n, Taking(T, old(end), p, n), atBreak))
              && Idle() == V - Span(end, old(end))
              && Span(end, old(end)) <= V
              && SameBut(T, pages, V + Span(p, p + n)))
    {
      hide WellFormed, Tiled, Listed, Vacant, Span, SameBut, GivesBack, PagesFor, Classes.Smlist, F.Valid;
      TableSize(pages, end, F.Sizes(free.node));
      Classes.SmlistRange(size);
      var nl := Classes.Smlist(size);
      if pages[p].code == nl {
        return true;
      }
      if pages[p].code == BIG && nl == -1 {
        var n := PagesFor(size);
        if n < 0 {
          return false;  // as an unsigned number it is larger than any extent
        }
        ok := ResizePages(p, n, atBreak);
        return;
      }
      return false;
    }

    /** The assignments by which alloc_pages takes `size` pages from the free block at `p`. */
    method Take(p: nat, size: nat)
      requires p < |pages| && p + size <= pages[p].page <= |pages| && p < pages[p].page
      modifies this`pages
      ensures pages == Taken(old(pages), p, size)
    {
      var stop := pages[p].page;
      pages := Recode(pages, p, BIG);
      if stop - p > size {
        var extra := p + size;
        pages := pages[extra := Page(VACANT, stop)];
        NamePagesDown(extra + 1, stop, extra);
      }
    }

    /** alloc_pages: take `size` pages from the smallest free block that has them; 0 if none has. */
    method AllocPages(size: nat) returns (p: nat)
      requires Ok()
      modifies this`pages, free
      ensures free.Ok() && F.Sizes(free.node) == Listed(pages, end) && Apart(pages, end)
      ensures p == 0 ==> pages == old(pages) && NoneFits(Listed(pages, end), size)
      ensures Ok() <==>
        size == 0 || OneFitsExactly(old(Listed(pages, end)), size) || NoneFits(old(Listed(pages, end)), size)
      ensures p != 0 ==>
        var T := old(pages);
        && p < end && T[p].code == VACANT && p + size <= T[p].page <= |T|
        && (forall n: nat :: n in Listed(T, end) && Listed(T, end)[n] >= size ==>
              T[p].page - p < Listed(T, end)[n] || (T[p].page - p == Listed(T, end)[n] && p <= n))
        && Span(p, p + size) <= old(Idle()) && Span(p, T[p].page) <= old(Idle())
        && Idle() == old(Idle()) - Span(p, p + size)
        && SameBut(T, pages, Span(p, T[p].page))
        && (Ok() <==> p + size == T[p].page || size == 0)
        && |pages| == |T|
        && (size > 0 ==> pages[p].code == BIG && WellFormed(pages[p := Page(BIG, p + size)], end, F.Sizes(free.node)))
    {
      hide Tiled, Vacant, Listed, Apart, Span, SameBut, Taken, F.Valid;
      p := free.Find(size);
      if p != 0 {
        TakenFree(pages, end, F.Sizes(old(free.node)), p, size);
        HeadOfRun(pages, end, F.Sizes(old(free.node)), p);
        TakenTiled(pages, end, p, size);
        var stop := pages[p].page;
        Take(p, size);
        if size > 0 {
          TakenRepaired(pages, end, p, p + size);
        }
        if stop - p > size {
          free.Add(p + size, stop - (p + size));
        }
      }
    }

    /** The end of valloc, when no free block is large enough: sbrk has given the pages from `at` on,
        where `at` is past `end` if the break was moved by others. */
    method Extend(at: nat, size: nat)
      requires Ok() && end <= at < |pages| && at + size <= |pages|
      modifies this`pages, this`end
      ensures |pages| == |old(pages)| && end == at + size && pages[at] == Page(BIG, at + size)
      ensures Ok() <==> GapOk(old(pages), old(end), at)
      ensures at == old(end) ==> Ok()
      ensures Ok() ==> Idle() == old(Idle())
      ensures SameBut(old(pages), pages, {at} + Span(at, at + size))
    {
      hide WellFormed, Tiled, Listed, Vacant, GapOk, F.Valid;
      Extended(pages, end, F.Sizes(free.node), at, size);
      end := at + size;
      pages := pages[at := Page(BIG, at + size)];
      var i := size;
      while i > 1
        invariant end == at + size && i <= size && (size > 0 ==> i > 0) && |pages| == |old(pages)|
        invariant forall k: nat :: k < |pages| ==>
          pages[k] == if k == at then Page(BIG, at + size)
                      else if at + i <= k < at + size && i > 0 then Page(MIDDLE, at) else old(pages)[k]
      {
        i := i - 1;
        pages := pages[at + i := Page(MIDDLE, at)];
      }
      assert pages == SetUp(old(pages), at, size);
    }

    /** malloc_small gets a page from valloc and makes it a page of class `l`.  `at` is the page that sbrk
        gives when no free block is left, 0 if it fails.  The heap stays well-formed also when the page
        was cut off a larger block, because its descriptor is written anew. */
    method GetChunkPage(l: nat, at: nat) returns (n: nat)
      requires Ok() && l < Classes.NUMSMALL
      requires at == 0 || (end <= at && at + 1 <= |pages| && GapOk(pages, end, at))
      modifies this`pages, this`end, free
      ensures Ok() && |pages| == |old(pages)| && end == (if n != 0 && n !in old(Idle()) then at + 1 else old(end))
      ensures n == 0 <==> at == 0 && NoneFits(old(Listed(pages, end)), 1)
      ensures n == 0 ==> pages == old(pages)
      ensures n != 0 ==> n < end && pages[n] == Page(l, 0) && (n in old(Idle()) || n == at)
      ensures n != 0 && n !in old(Idle()) ==> NoneFits(old(Listed(pages, end)), 1)
      ensures n != 0 ==> Idle() == old(Idle()) - {n}
      ensures n != 0 ==> SameBut(old(pages), pages, old(Idle()) + {n})
    {
      hide WellFormed, Tiled, Vacant, Listed, Apart, GapOk, F.Valid;
      TableSize(pages, end, F.Sizes(free.node));
      n := AllocPages(1);
      if n == 0 {
        NoneLeft(old(pages), end);
        if at == 0 {
          return;
        }
        Extend(at, 1);
        n := at;
        OnePageSpan(n);
        NotIdleAt(old(pages), old(end), at);
        assert pages[n := Page(BIG, n + 1)] == pages;
      } else {
        OnePageSpan(n);
        HadOne(old(pages), end, n);
      }
      AsChunkPage(pages, end, F.Sizes(free.node), n, Page(l, 0));
      pages := pages[n := Page(l, 0)];
    }

    /** A page of chunks that are all free goes back: it becomes a block of one page, and is freed. */
    method GiveChunkPage(n: nat, atBreak: bool)
      requires Ok() && 0 < n < end && pages[n].code < Classes.NUMSMALL
      modifies this`pages, this`end, free
      ensures Ok() && end <= old(end) && |pages| == |old(pages)|
      ensures var V := old(Idle()) + {n};
        && Idle() == V - Span(end, old(end)) && Span(end, old(end)) <= V && SameBut(old(pages), pages, V)
    {
      hide WellFormed, Tiled, Vacant, Listed, Apart, F.Valid;
      TableSize(pages, end, F.Sizes(free.node));
      PlainToBlock(pages, end, F.Sizes(free.node), n);
      pages := pages[n := Page(BIG, n + 1)];
      OnePageSpan(n);
      Free(n, atBreak);
    }
  }

  /** The heap is extended by a page, which is then freed and given back; others move the break by a
      page; and the heap is extended again, over the descriptor that is left of the free page. */
  method MovedBreak() returns (h: Heap)
    ensures !h.Ok()
  {
    hide Tiled, WellFormed, F.Valid;
    h := new Heap();
    h.Extend(3, 1);
    assert Span(3, 4) == {3};
    assert !HugeRun({3}, 4);
    h.Free(3, true);
    assert h.end == 3;
    h.Extend(4, 1);
  }
}
