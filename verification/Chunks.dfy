/** Where the chunks of one size class are.  Every chunk of the class's pages is held by a caller,
    lost, or on exactly one list: a thread's `free` or `aux` list, the chain of its own page, or one of
    the two lists that an operation is working on.  The lists are threaded through the chunks themselves. */
module Chunks {

  /** The address of a chunk: a page and the position on it. */
  datatype Chunk = Null | Chunk(page: nat, index: nat)

  datatype Place = Held | Lost | Local(t: nat) | Aux(t: nat) | OnPage(n: nat) | Loose | Rest

  type Memory = map<Chunk, Chunk>

  datatype Layout = Layout(
    next: Memory,
    place: map<Chunk, Place>,
    list: map<Place, seq<Chunk>>,
    head: map<Place, Chunk>)

  // ----- lists

  /** From `p`, the `next` fields lead through exactly the chunks of `s`. */
  ghost predicate IsList(next: Memory, p: Chunk, s: seq<Chunk>)
    decreases |s|
  {
    if s == [] then p == Null
    else p == s[0] && p != Null && p in next && IsList(next, next[p], s[1..])
  }

  lemma EmptyList(next: Memory)
    ensures IsList(next, Null, [])
  {}

  lemma {:induction false} Elsewhere(next: Memory, p: Chunk, s: seq<Chunk>, c: Chunk, v: Chunk)
    requires IsList(next, p, s) && c !in s
    ensures IsList(next[c := v], p, s)
    decreases |s|
  {
    if s != [] {
      Elsewhere(next, next[p], s[1..], c, v);
    }
  }

  lemma {:induction false} Extended(next: Memory, more: Memory, p: Chunk, s: seq<Chunk>)
    requires IsList(next, p, s) && forall c :: c in s ==> c !in more
    ensures IsList(next + more, p, s)
    decreases |s|
  {
    if s != [] {
      assert p in s;
      Extended(next, more, next[p], s[1..]);
    }
  }

  lemma {:induction false} ListMember(next: Memory, p: Chunk, s: seq<Chunk>, c: Chunk)
    requires IsList(next, p, s) && c in s
    ensures c != Null && c in next
    decreases |s|
  {
    if c != s[0] {
      ListMember(next, next[p], s[1..], c);
    }
  }

  ghost predicate Distinct(s: seq<Chunk>) {
    forall i, j :: 0 <= i < j < |s| ==> s[i] != s[j]
  }

  // ----- the invariant

  predicate Unlisted(P: Place) {
    P == Held || P == Lost
  }

  ghost predicate ListOk(g: Layout, P: Place) {
    && P in g.list && P in g.head
    && IsList(g.next, g.head[P], g.list[P])
    && Distinct(g.list[P])
    && (forall c :: c in g.list[P] <==> c in g.place && g.place[c] == P)
  }

  /** Every chunk is in exactly one place, and a chunk on a list is on it once. */
  ghost predicate Good(g: Layout) {
    && g.list.Keys == g.head.Keys
    && Null !in g.place
    && Held !in g.list && Lost !in g.list
    && (forall P :: P in g.list ==> ListOk(g, P))
    && (forall c :: c in g.place ==> Unlisted(g.place[c]) || g.place[c] in g.list)
  }

  lemma GoodAt(g: Layout, P: Place)
    requires Good(g) && P in g.list
    ensures ListOk(g, P) && !Unlisted(P)
  {}

  // ----- what the program does with a list

  /** The first chunk of `P` is taken off its list. */
  ghost function Pop(g: Layout, P: Place): Layout
    requires P in g.list && P in g.head && g.list[P] != [] && g.list[P][0] in g.next
  {
    var c := g.list[P][0];
    Layout(g.next, g.place[c := Held], g.list[P := g.list[P][1..]], g.head[P := g.next[c]])
  }

  /** A chunk that is on no list becomes the first of `Q`. */
  ghost function Push(g: Layout, c: Chunk, Q: Place): Layout
    requires Q in g.list && Q in g.head
  {
    Layout(g.next[c := g.head[Q]], g.place[c := Q], g.list[Q := [c] + g.list[Q]], g.head[Q := c])
  }

  /** The first chunk of `P` becomes the first of `Q`. */
  ghost function Move(g: Layout, P: Place, Q: Place): Layout
    requires P in g.list && P in g.head && g.list[P] != [] && g.list[P][0] in g.next && Q in g.list && Q in g.head
  {
    Push(Pop(g, P), g.list[P][0], Q)
  }

  ghost function Replace(place: map<Chunk, Place>, P: Place, Q: Place): map<Chunk, Place> {
    map c | c in place :: if place[c] == P then Q else place[c]
  }

  /** The whole list `P` becomes the list `Q`, which was empty. */
  ghost function Shift(g: Layout, P: Place, Q: Place): Layout
    requires P in g.list && P in g.head
  {
    Layout(g.next, Replace(g.place, P, Q), g.list[Q := g.list[P]][P := []], g.head[Q := g.head[P]][P := Null])
  }

  /** The list `P` is forgotten. */
  ghost function Forget(g: Layout, P: Place): Layout {
    Layout(g.next, Replace(g.place, P, Lost), g.list[P := []], g.head[P := Null])
  }

  /** The chunks of a page from the `i`-th on. */
  ghost function Row(n: nat, i: nat, per: nat): seq<Chunk>
    decreases per - i
  {
    if i >= per then [] else [Chunk(n, i)] + Row(n, i + 1, per)
  }

  ghost predicate OfPage(n: nat, per: nat, c: Chunk) {
    c.Chunk? && c.page == n && c.index < per
  }

  /** A page whose chunks are all free. */
  ghost function AddPage(g: Layout, n: nat, per: nat, links: Memory): Layout {
    Layout(g.next + links,
           g.place + map c | c in Row(n, 0, per) :: OnPage(n),
           g.list[OnPage(n) := Row(n, 0, per)],
           g.head[OnPage(n) := Chunk(n, 0)])
  }

  /** The page is no longer one of the class. */
  ghost function DropPage(g: Layout, n: nat): Layout {
    Layout(g.next, map c | c in g.place && g.place[c] != OnPage(n) :: g.place[c],
           g.list - {OnPage(n)}, g.head - {OnPage(n)})
  }

  // ----- every such change keeps the invariant

  lemma PopGood(g: Layout, P: Place)
    requires Good(g) && P in g.list && g.list[P] != []
    ensures g.list[P][0] in g.next && g.list[P][0] in g.place && g.list[P][0] == g.head[P] && g.place[g.list[P][0]] == P
    ensures Good(Pop(g, P))
  {
    GoodAt(g, P);
    var g' := Pop(g, P);
    var c := g.list[P][0];
    assert c in g.list[P];
    forall Q | Q in g'.list ensures ListOk(g', Q) {
      GoodAt(g, Q);
      if Q == P {
        PopSelf(g, P);
      } else {
        assert c !in g.list[Q];
      }
    }
    hide ListOk;
  }

  lemma PopSelf(g: Layout, P: Place)
    requires ListOk(g, P) && !Unlisted(P) && g.list[P] != []
    ensures g.list[P][0] in g.next && ListOk(Pop(g, P), P)
  {
    var s, c := g.list[P], g.list[P][0];
    assert s == [c] + s[1..];
    assert c !in s[1..];
    assert forall x :: x in s <==> x == c || x in s[1..];
  }

  lemma PushGood(g: Layout, c: Chunk, Q: Place)
    requires Good(g) && Q in g.list && c != Null && (c in g.place ==> Unlisted(g.place[c]))
    ensures Good(Push(g, c, Q))
  {
    var g' := Push(g, c, Q);
    forall P | P in g'.list ensures ListOk(g', P) {
      GoodAt(g, P);
      assert c !in g.list[P];
      Elsewhere(g.next, g.head[P], g.list[P], c, g.head[Q]);
      if P == Q {
        PushSelf(g, c, Q);
      }
    }
    hide ListOk;
  }

  lemma PushSelf(g: Layout, c: Chunk, Q: Place)
    requires ListOk(g, Q) && c !in g.list[Q] && c != Null
    requires IsList(g.next[c := g.head[Q]], g.head[Q], g.list[Q])
    ensures ListOk(Push(g, c, Q), Q)
  {
    var s := [c] + g.list[Q];
    assert s[1..] == g.list[Q];
    assert forall x :: x in s <==> x == c || x in g.list[Q];
  }

  lemma MoveGood(g: Layout, P: Place, Q: Place)
    requires Good(g) && P in g.list && g.list[P] != [] && Q in g.list && P != Q
    ensures g.list[P][0] in g.next && g.list[P][0] in g.place && g.list[P][0] == g.head[P] && g.place[g.list[P][0]] == P
    ensures Good(Move(g, P, Q))
    ensures Move(g, P, Q) == Layout(g.next[g.list[P][0] := g.head[Q]], g.place[g.list[P][0] := Q],
      g.list[P := g.list[P][1..]][Q := [g.list[P][0]] + g.list[Q]],
      g.head[P := g.next[g.list[P][0]]][Q := g.list[P][0]])
  {
    PopGood(g, P);
    assert g.list[P][0] != Null by { GoodAt(g, P); }
    PushGood(Pop(g, P), g.list[P][0], Q);
    hide Good;
  }

  lemma ShiftGood(g: Layout, P: Place, Q: Place)
    requires Good(g) && P in g.list && Q in g.list && P != Q && g.list[Q] == []
    ensures Good(Shift(g, P, Q))
  {
    hide ListOk;
    var g' := Shift(g, P, Q);
    forall R | R in g'.list ensures ListOk(g', R) {
      ShiftAt(g, P, Q, R);
    }
  }

  lemma ShiftAt(g: Layout, P: Place, Q: Place, R: Place)
    requires Good(g) && P in g.list && Q in g.list && P != Q && g.list[Q] == [] && R in g.list
    ensures ListOk(Shift(g, P, Q), R)
  {
    hide IsList;
    assert IsList(g.next, Null, []) by { EmptyList(g.next); }
    GoodAt(g, P);
    GoodAt(g, Q);
    GoodAt(g, R);
    hide Good;
  }

  lemma ForgetGood(g: Layout, P: Place)
    requires Good(g) && P in g.list
    ensures Good(Forget(g, P))
  {
    hide ListOk;
    var g' := Forget(g, P);
    forall R | R in g'.list ensures ListOk(g', R) {
      ForgetAt(g, P, R);
    }
  }

  lemma ForgetAt(g: Layout, P: Place, R: Place)
    requires Good(g) && P in g.list && R in g.list
    ensures ListOk(Forget(g, P), R)
  {
    hide IsList;
    assert IsList(g.next, Null, []) by { EmptyList(g.next); }
    GoodAt(g, P);
    GoodAt(g, R);
    hide Good;
  }

  lemma {:induction false} RowMember(n: nat, i: nat, per: nat, c: Chunk)
    ensures c in Row(n, i, per) <==> OfPage(n, per, c) && i <= c.index
    ensures |Row(n, i, per)| == if i < per then per - i else 0
    decreases per - i
  {
    if i < per {
      RowMember(n, i + 1, per, c);
    }
  }

  lemma {:induction false} RowDistinct(n: nat, i: nat, per: nat)
    ensures Distinct(Row(n, i, per))
    decreases per - i
  {
    if i < per {
      RowDistinct(n, i + 1, per);
      RowMember(n, i + 1, per, Chunk(n, i));
    }
  }

  /** The chunk after the `i`-th of a page with `per` chunks. */
  ghost function After(n: nat, i: nat, per: nat): Chunk {
    if i + 1 == per then Null else Chunk(n, i + 1)
  }

  /** The links that malloc_small lays over a new page. */
  ghost predicate Laid(links: Memory, n: nat, per: nat) {
    && (forall c :: c in links <==> OfPage(n, per, c))
    && (forall i: nat {:trigger After(n, i, per)} :: i < per ==> links[Chunk(n, i)] == After(n, i, per))
  }

  lemma {:induction false} RowIsList(links: Memory, n: nat, i: nat, per: nat)
    requires Laid(links, n, per) && i <= per
    ensures IsList(links, if i == per then Null else Chunk(n, i), Row(n, i, per))
    decreases per - i
  {
    if i < per {
      RowIsList(links, n, i + 1, per);
      assert Row(n, i, per)[1..] == Row(n, i + 1, per);
      assert Chunk(n, i) in links && links[Chunk(n, i)] == After(n, i, per);
    }
  }

  lemma {:induction false} ListKept(next: Memory, more: Memory, p: Chunk, s: seq<Chunk>)
    requires IsList(more, p, s)
    ensures IsList(next + more, p, s)
    decreases |s|
  {
    if s != [] {
      ListKept(next, more, more[p], s[1..]);
    }
  }

  lemma AddPageGood(g: Layout, n: nat, per: nat, links: Memory)
    requires Good(g) && OnPage(n) !in g.list && Laid(links, n, per) && per > 0
    requires forall c :: c in g.place ==> !OfPage(n, per, c)
    ensures Good(AddPage(g, n, per, links))
  {
    hide ListOk, Laid, Row;
    var g' := AddPage(g, n, per, links);
    forall P | P in g'.list ensures ListOk(g', P) {
      if P == OnPage(n) {
        AddPageNew(g, n, per, links);
      } else {
        AddPageOld(g, n, per, links, P);
      }
    }
    forall c ensures c in Row(n, 0, per) <==> OfPage(n, per, c) {
      RowMember(n, 0, per, c);
    }
  }

  lemma AddPageNew(g: Layout, n: nat, per: nat, links: Memory)
    requires Laid(links, n, per) && per > 0
    requires forall c :: c in g.place ==> g.place[c] != OnPage(n)
    ensures ListOk(AddPage(g, n, per, links), OnPage(n))
  {
    hide Laid, Row, Distinct, IsList;
    RowDistinct(n, 0, per);
    RowIsList(links, n, 0, per);
    ListKept(g.next, links, Chunk(n, 0), Row(n, 0, per));
  }

  lemma AddPageOld(g: Layout, n: nat, per: nat, links: Memory, P: Place)
    requires Good(g) && Laid(links, n, per) && P in g.list && P != OnPage(n)
    requires forall c :: c in g.place ==> !OfPage(n, per, c)
    ensures ListOk(AddPage(g, n, per, links), P)
  {
    hide Row, IsList, Distinct;
    forall c ensures c in Row(n, 0, per) <==> OfPage(n, per, c) {
      RowMember(n, 0, per, c);
    }
    GoodAt(g, P);
    Extended(g.next, links, g.head[P], g.list[P]);
    hide Good;
  }

  lemma DropPageGood(g: Layout, n: nat)
    requires Good(g)
    ensures Good(DropPage(g, n))
  {
    var g' := DropPage(g, n);
    forall R | R in g'.list ensures ListOk(g', R) {
      GoodAt(g, R);
    }
    hide ListOk;
  }

  // ----- how many chunks a page can have

  ghost function Members(s: seq<Chunk>): set<Chunk> {
    set c | c in s
  }

  lemma {:induction false} RowSize(n: nat, i: nat, per: nat)
    ensures |Members(Row(n, i, per))| == if i < per then per - i else 0
    decreases per - i
  {
    if i < per {
      RowSize(n, i + 1, per);
      RowMember(n, i + 1, per, Chunk(n, i));
      assert Members(Row(n, i, per)) == {Chunk(n, i)} + Members(Row(n, i + 1, per));
    } else {
      assert Members(Row(n, i, per)) == {};
    }
  }

  lemma {:induction false} DistinctSize(s: seq<Chunk>)
    requires Distinct(s)
    ensures |Members(s)| == |s|
  {
    if s == [] {
      assert Members(s) == {};
    } else {
      DistinctSize(s[1..]);
      assert s[0] !in s[1..];
      assert Members(s) == {s[0]} + Members(s[1..]);
    }
  }

  lemma Subset(a: set<Chunk>, b: set<Chunk>)
    requires a <= b
    ensures |a| <= |b|
    ensures a != b ==> |a| < |b|
  {
    assert b == a + (b - a);
  }

  /** A chain holds the page's own chunks, so it cannot be longer than the page; while some chunk of
      the page is elsewhere it is shorter; and when it is as long, every chunk is on it. */
  lemma ChainLength(s: seq<Chunk>, n: nat, per: nat, c: Chunk)
    requires Distinct(s) && forall x :: x in s ==> OfPage(n, per, x)
    ensures |s| <= per
    ensures OfPage(n, per, c) && c !in s ==> |s| < per
    ensures OfPage(n, per, c) && |s| == per ==> c in s
  {
    DistinctSize(s);
    RowSize(n, 0, per);
    forall x ensures x in Row(n, 0, per) <==> OfPage(n, per, x) {
      RowMember(n, 0, per, x);
    }
    Subset(Members(s), Members(Row(n, 0, per)));
    assert OfPage(n, per, c) ==> c in Members(Row(n, 0, per));
  }

  /** A chain that has every chunk of the page is as long as the page. */
  lemma FullChain(s: seq<Chunk>, n: nat, per: nat)
    requires Distinct(s) && forall x :: OfPage(n, per, x) ==> x in s
    ensures |s| >= per
  {
    DistinctSize(s);
    RowSize(n, 0, per);
    forall x ensures x in Row(n, 0, per) <==> OfPage(n, per, x) {
      RowMember(n, 0, per, x);
    }
    Subset(Members(Row(n, 0, per)), Members(s));
  }
}
