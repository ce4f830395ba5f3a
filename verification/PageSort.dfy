/** page_list_sort: the merge sort that orders a singly linked list of page descriptors in
    place.  Page number 0 ends a list.  `link[n]` is the `page` field of descriptor `n`, and
    `count[n]` is its `count` field. */
module PageSort {

  // ----- lists in the descriptor table

  /** What the link of the `i`-th page of a list must be. */
  function After(s: seq<nat>, i: nat, end: nat): nat {
    if i + 1 < |s| then s[i + 1] else end
  }

  /** The pages of `s` are linked in order, and the last one is linked to `end`. */
  ghost predicate Chain(link: seq<nat>, s: seq<nat>, end: nat) {
    && (forall i :: 0 <= i < |s| ==> 0 < s[i] < |link|)
    && (forall i, j :: 0 <= i < j < |s| ==> s[i] != s[j])
    && (forall i {:trigger After(s, i, end)} :: 0 <= i < |s| ==> link[s[i]] == After(s, i, end))
  }

  function Head(s: seq<nat>, end: nat): nat {
    if s == [] then end else s[0]
  }

  /** `p` is the first page of a list that holds exactly the pages of `s`, in order. */
  ghost predicate IsList(link: seq<nat>, p: nat, s: seq<nat>) {
    Chain(link, s, 0) && p == Head(s, 0)
  }

  // ----- the order

  /** pcmp(a, b) <= 0: fewer free chunks first, and then the lower page number. */
  predicate Leq(count: seq<int>, a: nat, b: nat)
    requires a < |count| && b < |count|
  {
    count[a] < count[b] || (count[a] == count[b] && a <= b)
  }

  ghost predicate InTable(count: seq<int>, s: seq<nat>) {
    forall i :: 0 <= i < |s| ==> s[i] < |count|
  }

  /** Strictly ascending in (count, page number). */
  ghost predicate Ascending(count: seq<int>, s: seq<nat>)
    requires InTable(count, s)
  {
    forall i, j :: 0 <= i < j < |s| ==> Leq(count, s[i], s[j]) && s[i] != s[j]
  }

  // ----- merging, as a function on sequences

  function Merged(count: seq<int>, a: seq<nat>, b: seq<nat>): (r: seq<nat>)
    requires InTable(count, a) && InTable(count, b)
    ensures |r| == |a| + |b| && InTable(count, r)
    decreases |a| + |b|
  {
    if a == [] then b
    else if b == [] then a
    else if Leq(count, a[0], b[0]) then [a[0]] + Merged(count, a[1..], b)
    else [b[0]] + Merged(count, a, b[1..])
  }

  lemma {:induction false} MergedKeepsPages(count: seq<int>, a: seq<nat>, b: seq<nat>)
    requires InTable(count, a) && InTable(count, b)
    ensures multiset(Merged(count, a, b)) == multiset(a) + multiset(b)
    decreases |a| + |b|
  {
    if a != [] && b != [] {
      if Leq(count, a[0], b[0]) {
        MergedKeepsPages(count, a[1..], b);
        FirstCounts(a);
        FirstCounts(Merged(count, a, b));
        assert Merged(count, a, b)[1..] == Merged(count, a[1..], b);
      } else {
        MergedKeepsPages(count, a, b[1..]);
        FirstCounts(b);
        FirstCounts(Merged(count, a, b));
        assert Merged(count, a, b)[1..] == Merged(count, a, b[1..]);
      }
    }
  }

  lemma FirstCounts(s: seq<nat>)
    requires s != []
    ensures multiset(s) == multiset{s[0]} + multiset(s[1..])
  {
    assert s == [s[0]] + s[1..];
  }

  lemma MergedMember(count: seq<int>, a: seq<nat>, b: seq<nat>, x: nat)
    requires InTable(count, a) && InTable(count, b)
    ensures x in Merged(count, a, b) <==> x in a || x in b
  {
    MergedKeepsPages(count, a, b);
    assert x in Merged(count, a, b) <==> x in multiset(Merged(count, a, b));
    assert x in a <==> x in multiset(a);
    assert x in b <==> x in multiset(b);
  }

  lemma {:induction false} MergedAscends(count: seq<int>, a: seq<nat>, b: seq<nat>)
    requires InTable(count, a) && InTable(count, b) && Ascending(count, a) && Ascending(count, b)
    requires forall x :: x in a ==> x !in b
    ensures Ascending(count, Merged(count, a, b))
    decreases |a| + |b|
  {
    if a != [] && b != [] {
      if Leq(count, a[0], b[0]) {
        MergedAscends(count, a[1..], b);
        Prepend(count, a[0], a[1..], b);
      } else {
        MergedAscends(count, a, b[1..]);
        Prepend(count, b[0], a, b[1..]);
      }
    }
  }

  /** A page that is below two lists is below their merge. */
  lemma Prepend(count: seq<int>, x: nat, a: seq<nat>, b: seq<nat>)
    requires x < |count| && InTable(count, a) && InTable(count, b) && Ascending(count, Merged(count, a, b))
    requires forall y :: y in a || y in b ==> y < |count| && Leq(count, x, y) && x != y
    ensures Ascending(count, [x] + Merged(count, a, b))
  {
    var r := Merged(count, a, b);
    forall j | 0 <= j < |r| ensures Leq(count, x, r[j]) && x != r[j] {
      MergedMember(count, a, b, r[j]);
    }
  }

  // ----- writing a link

  /** Re-linking the end of a chain. */
  lemma Relink(link: seq<nat>, s: seq<nat>, end: nat, end': nat)
    requires Chain(link, s, end) && s != []
    ensures Chain(link[s[|s| - 1] := end'], s, end')
  {
    forall i | 0 <= i < |s| ensures link[s[|s| - 1] := end'][s[i]] == After(s, i, end') {
      assert link[s[i]] == After(s, i, end);
    }
  }

  /** A write outside a chain does not concern it. */
  lemma Elsewhere(link: seq<nat>, s: seq<nat>, end: nat, n: nat, v: nat)
    requires Chain(link, s, end) && n < |link| && n !in s
    ensures Chain(link[n := v], s, end)
  {}

  lemma ChainTail(link: seq<nat>, s: seq<nat>, end: nat)
    requires Chain(link, s, end) && s != []
    ensures Chain(link, s[1..], end) && link[s[0]] == Head(s[1..], end) && s[0] !in s[1..]
  {
    ChainSplit(link, s, 1, end);
    assert s[0] in s[..1];
    assert link[s[..1][0]] == After(s[..1], 0, Head(s[1..], end));
  }

  lemma ChainAppend(link: seq<nat>, s: seq<nat>, x: nat, end: nat)
    requires Chain(link, s, x) && 0 < x < |link| && x !in s && link[x] == end
    ensures Chain(link, s + [x], end)
  {
    ChainJoin(link, s, [x], end);
  }

  lemma ChainJoin(link: seq<nat>, s: seq<nat>, r: seq<nat>, end: nat)
    requires Chain(link, s, Head(r, end)) && Chain(link, r, end)
    requires forall x :: x in s ==> x !in r
    ensures Chain(link, s + r, end)
  {
    assert forall i :: 0 <= i < |s| ==> s[i] in s;
    assert forall i :: 0 <= i < |r| ==> r[i] in r;
    var t := s + r;
    forall i | 0 <= i < |t| ensures link[t[i]] == After(t, i, end) {
      if i < |s| {
        assert link[s[i]] == After(s, i, Head(r, end));
      } else {
        assert link[r[i - |s|]] == After(r, i - |s|, end);
      }
    }
  }

  lemma ChainSplit(link: seq<nat>, s: seq<nat>, m: nat, end: nat)
    requires Chain(link, s, end) && m <= |s|
    ensures Chain(link, s[..m], Head(s[m..], end)) && Chain(link, s[m..], end)
    ensures forall x :: x in s[..m] ==> x !in s[m..]
  {
    var a, b := s[..m], s[m..];
    forall i | 0 <= i < |a| ensures link[a[i]] == After(a, i, Head(b, end)) {
      assert link[s[i]] == After(s, i, end);
    }
    forall i | 0 <= i < |b| ensures link[b[i]] == After(b, i, end) {
      assert link[s[m + i]] == After(s, m + i, end);
    }
  }

  /** Linking page `x`, the first of the list `r`, to the end of the pages already `done`. */
  lemma Linked(l: seq<nat>, l': seq<nat>, done: seq<nat>, r: seq<nat>, o: seq<nat>)
    requires Chain(l, r, 0) && Chain(l, o, 0) && r != []
    requires done != [] ==> done[|done| - 1] < |l| && Chain(l, done, l[done[|done| - 1]])
    requires l' == if done == [] then l else l[done[|done| - 1] := r[0]]
    requires forall x :: x in done ==> x !in r && x !in o
    ensures Chain(l', r[1..], 0) && Chain(l', o, 0)
    ensures l'[r[0]] == Head(r[1..], 0) && r[0] !in r[1..]
    ensures Chain(l', done + [r[0]], l'[r[0]])
  {
    if done == [] {
      ChainTail(l, r, 0);
    } else {
      var z := done[|done| - 1];
      assert z in done;
      Elsewhere(l, r, 0, z, r[0]);
      Elsewhere(l, o, 0, z, r[0]);
      Relink(l, done, l[z], r[0]);
      ChainTail(l', r, 0);
      assert r[0] in r;
      ChainAppend(l', done, r[0], l'[r[0]]);
    }
  }

  // ----- the program

  /** What is known in the merge loop: the pages of `all` are those already `done` and those left
      in two lists; no link outside `all` has changed since the table was `was`. */
  ghost predicate Merging(link: seq<nat>, was: seq<nat>, all: set<nat>, done: seq<nat>, a: seq<nat>, b: seq<nat>) {
    && |link| == |was|
    && Chain(link, a, 0) && Chain(link, b, 0)
    && (done != [] ==> done[|done| - 1] < |link| && Chain(link, done, link[done[|done| - 1]]))
    && (forall x :: x in done ==> x !in a && x !in b && x in all)
    && (forall x :: x in a ==> x !in b && x in all)
    && (forall x :: x in b ==> x !in a && x in all)
    && (forall n :: 0 <= n < |link| && n !in all ==> link[n] == was[n])
  }

  lemma MergeStep(l: seq<nat>, l': seq<nat>, was: seq<nat>, all: set<nat>, done: seq<nat>, r: seq<nat>, o: seq<nat>)
    requires Merging(l, was, all, done, r, o) && r != []
    requires l' == if done == [] then l else l[done[|done| - 1] := r[0]]
    ensures Merging(l', was, all, done + [r[0]], r[1..], o) && l'[r[0]] == Head(r[1..], 0)
  {
    Linked(l, l', done, r, o);
    assert done != [] ==> done[|done| - 1] in done;
    assert r[0] in r;
    assert 0 < r[0] < |l|;
    hide Chain;
  }

  lemma MergingSwap(l: seq<nat>, was: seq<nat>, all: set<nat>, done: seq<nat>, a: seq<nat>, b: seq<nat>)
    requires Merging(l, was, all, done, a, b)
    ensures Merging(l, was, all, done, b, a)
  {}

  lemma HeadIsZero(link: seq<nat>, s: seq<nat>)
    requires Chain(link, s, 0)
    ensures Head(s, 0) == 0 <==> s == []
    ensures forall i :: 0 <= i < |s| ==> s[i] < |link|
  {}

  lemma MergedFirst(count: seq<int>, a: seq<nat>, b: seq<nat>)
    requires InTable(count, a) && InTable(count, b)
    ensures a == [] ==> Merged(count, a, b) == b
    ensures b == [] ==> Merged(count, a, b) == a
    ensures a != [] && b != [] ==>
      Merged(count, a, b) == if Leq(count, a[0], b[0]) then [a[0]] + Merged(count, a[1..], b)
                             else [b[0]] + Merged(count, a, b[1..])
  {}

  ghost function Pages(a: seq<nat>, b: seq<nat>): set<nat> {
    set x | x in a + b
  }

  lemma MergeStart(link: seq<nat>, count: seq<int>, a: seq<nat>, b: seq<nat>)
    requires Chain(link, a, 0) && Chain(link, b, 0) && |link| == |count|
    requires forall x :: x in a ==> x !in b
    ensures Merging(link, link, Pages(a, b), [], a, b)
    ensures InTable(count, a) && InTable(count, b)
    ensures Head(a, 0) == 0 <==> a == []
    ensures Head(b, 0) == 0 <==> b == []
    ensures forall x :: x in Pages(a, b) <==> x in a || x in b
  {}

  /** Moving the lower of the two first pages to the pages already done. */
  lemma MergedMove(count: seq<int>, done: seq<nat>, a: seq<nat>, b: seq<nat>, total: seq<nat>)
    requires InTable(count, a) && InTable(count, b) && done + Merged(count, a, b) == total && a != [] && b != []
    ensures InTable(count, a[1..]) && InTable(count, b[1..]) && a[0] < |count| && b[0] < |count|
    ensures Leq(count, a[0], b[0]) ==> done + [a[0]] + Merged(count, a[1..], b) == total
    ensures !Leq(count, a[0], b[0]) ==> done + [b[0]] + Merged(count, a, b[1..]) == total
  {
    MergedFirst(count, a, b);
    hide Merged;
    if Leq(count, a[0], b[0]) {
      assert done + ([a[0]] + Merged(count, a[1..], b)) == done + [a[0]] + Merged(count, a[1..], b);
    } else {
      assert done + ([b[0]] + Merged(count, a, b[1..])) == done + [b[0]] + Merged(count, a, b[1..]);
    }
  }

  /** Linking the rest of one list behind the pages already done. */
  lemma MergeEnd(l: seq<nat>, l': seq<nat>, done: seq<nat>, r: seq<nat>)
    requires Chain(l, r, 0) && done != [] && 0 < done[|done| - 1] < |l| && Chain(l, done, l[done[|done| - 1]])
    requires l' == l[done[|done| - 1] := Head(r, 0)]
    requires forall x :: x in done ==> x !in r
    ensures Chain(l', done + r, 0)
  {
    var z := done[|done| - 1];
    assert z in done;
    Elsewhere(l, r, 0, z, Head(r, 0));
    Relink(l, done, l[z], Head(r, 0));
    ChainJoin(l', done, r, 0);
  }

  // ----- finding the middle

  /** No two neighbours among the first `m + 1` pages are out of order. */
  ghost predicate InOrder(count: seq<int>, s: seq<nat>, m: nat)
    requires InTable(count, s) && m < |s|
  {
    forall i :: 0 <= i < m ==> Leq(count, s[i], s[i + 1])
  }

  lemma {:induction false} InOrderAscends(count: seq<int>, s: seq<nat>, m: nat)
    requires InTable(count, s) && m < |s| && InOrder(count, s, m)
    requires forall i, j :: 0 <= i < j < |s| ==> s[i] != s[j]
    ensures Ascending(count, s[..m + 1])
  {
    if m > 0 {
      InOrderAscends(count, s, m - 1);
      forall i | 0 <= i < m ensures Leq(count, s[i], s[m]) {
        assert Leq(count, s[m - 1], s[m - 1 + 1]);
        if i < m - 1 {
          assert s[..m][i] == s[i] && s[..m][m - 1] == s[m - 1];
          assert Leq(count, s[..m][i], s[..m][m - 1]);
        }
      }
    }
  }

  lemma InOrderNext(count: seq<int>, s: seq<nat>, m: nat)
    requires InTable(count, s) && m + 1 < |s| && InOrder(count, s, m) && Leq(count, s[m], s[m + 1])
    ensures InOrder(count, s, m + 1)
  {}

  /** The links that the first loop follows from page `m`. */
  lemma MiddleLinks(link: seq<nat>, s: seq<nat>, m: nat)
    requires Chain(link, s, 0) && m < |s|
    ensures 0 < s[m] < |link| && link[s[m]] == After(s, m, 0)
    ensures m + 1 < |s| ==> 0 < s[m + 1]
    ensures 2 * m + 1 < |s| ==> 0 < s[2 * m + 1] < |link| && link[s[2 * m + 1]] == After(s, 2 * m + 1, 0)
    ensures 2 * m + 2 < |s| ==> 0 < s[2 * m + 2] < |link| && link[s[2 * m + 2]] == After(s, 2 * m + 2, 0)
    ensures 2 * m + 3 < |s| ==> 0 < s[2 * m + 3]
  {}

  lemma SameMembers(a: seq<nat>, b: seq<nat>)
    requires multiset(a) == multiset(b)
    ensures forall x :: x in a <==> x in b
    ensures |a| == |b|
  {
    forall x ensures x in a <==> x in b {
      assert x in a <==> x in multiset(a);
      assert x in b <==> x in multiset(b);
    }
    assert |multiset(a)| == |a| && |multiset(b)| == |b|;
  }

  /** A list is not affected by writes to the pages of another. */
  lemma Kept(l: seq<nat>, l': seq<nat>, s: seq<nat>, other: seq<nat>)
    requires Chain(l, s, 0) && |l| == |l'|
    requires forall x :: x in other ==> x !in s
    requires forall n :: 0 <= n < |l| && n !in other ==> l'[n] == l[n]
    ensures Chain(l', s, 0)
  {
    assert forall i :: 0 <= i < |s| ==> s[i] in s;
    Untouched(l, l', s, 0);
  }

  lemma ShortList(link: seq<nat>, count: seq<int>, p: nat, s: seq<nat>)
    requires |link| == |count| && IsList(link, p, s) && (p == 0 || (p < |link| && link[p] == 0))
    ensures InTable(count, s) && Ascending(count, s)
  {
    assert s != [] ==> link[s[0]] == After(s, 0, 0);
  }

  lemma LongList(link: seq<nat>, p: nat, s: seq<nat>)
    requires IsList(link, p, s) && 0 < p < |link| && link[p] != 0
    ensures |s| >= 2
    ensures forall i, j :: 0 <= i < j < |s| ==> s[i] != s[j]
  {
    assert link[s[0]] == After(s, 0, 0);
  }

  /** The two halves, after the first loop. */
  lemma Halves(link: seq<nat>, s: seq<nat>, m: nat, s1: seq<nat>, s2: seq<nat>)
    requires Chain(link, s, 0) && m + 1 < |s| && s1 == s[..m + 1] && s2 == s[m + 1..]
    ensures Chain(link, s1, Head(s2, 0)) && Chain(link, s2, 0)
    ensures 0 < s[m] < |link| && link[s[m]] == Head(s2, 0) && s1[m] == s[m]
    ensures forall x :: x in s1 ==> x !in s2 && x in s
    ensures forall x :: x in s2 ==> x in s
  {
    ChainSplit(link, s, m + 1, 0);
    assert link[s[m]] == After(s, m, 0);
  }

  /** Sorting the second half and then ending the first half leaves two separate lists. */
  lemma Cut(l0: seq<nat>, l1: seq<nat>, l2: seq<nat>, s1: seq<nat>, s2: seq<nat>, b2: seq<nat>)
    requires s1 != [] && Chain(l0, s1, Head(s2, 0)) && Chain(l1, b2, 0) && multiset(b2) == multiset(s2)
    requires |l0| == |l1| && s1[|s1| - 1] < |l1| && l2 == l1[s1[|s1| - 1] := 0]
    requires forall x :: x in s1 ==> x !in s2
    requires forall n :: 0 <= n < |l1| && n !in s2 ==> l1[n] == l0[n]
    ensures Chain(l2, s1, 0) && Chain(l2, b2, 0)
    ensures forall x :: x in s1 ==> x !in b2
    ensures |b2| == |s2|
    ensures forall x :: x in b2 <==> x in s2
    ensures forall n :: 0 <= n < |l2| && n !in s1 && n !in s2 ==> l2[n] == l0[n]
  {
    SameMembers(b2, s2);
    assert forall i :: 0 <= i < |s1| ==> s1[i] in s1;
    Untouched(l0, l1, s1, Head(s2, 0));
    Relink(l1, s1, Head(s2, 0), 0);
    Elsewhere(l1, b2, 0, s1[|s1| - 1], 0);
  }

  lemma Joined(count: seq<int>, s: seq<nat>, s1: seq<nat>, s2: seq<nat>, a2: seq<nat>, b2: seq<nat>)
    requires s == s1 + s2 && InTable(count, a2) && InTable(count, b2) && Ascending(count, a2) && Ascending(count, b2)
    requires multiset(a2) == multiset(s1) && multiset(b2) == multiset(s2)
    requires forall x :: x in a2 ==> x !in b2
    ensures multiset(Merged(count, a2, b2)) == multiset(s)
    ensures |Merged(count, a2, b2)| == |s|
    ensures Ascending(count, Merged(count, a2, b2))
  {
    MergedKeepsPages(count, a2, b2);
    MergedAscends(count, a2, b2);
    SameMembers(Merged(count, a2, b2), s);
  }

  lemma Untouched(l: seq<nat>, l': seq<nat>, s: seq<nat>, end: nat)
    requires Chain(l, s, end) && |l| == |l'|
    requires forall i :: 0 <= i < |s| ==> l'[s[i]] == l[s[i]]
    ensures Chain(l', s, end)
  {}

  // ----- the program

  /** The descriptor table; only the fields that the sort uses. */
  class PageTable {
    var link: seq<nat>
    var count: seq<int>

    constructor (n: nat)
      ensures |link| == |count| == n
    {
      link, count := seq(n, _ => 0), seq(n, _ => 0);
    }

    /** Link page `x`, the first of one list, behind page `t` (or make it the first page of the
        result, if `t` is 0), and move on to the next page of that list. */
    method Attach(p: nat, t: nat, x: nat,
                  ghost was: seq<nat>, ghost all: set<nat>, ghost done: seq<nat>, ghost r: seq<nat>, ghost o: seq<nat>)
      returns (p': nat, x': nat)
      requires Merging(link, was, all, done, r, o) && r != [] && x == r[0]
      requires if done == [] then t == 0 else t == done[|done| - 1] != 0
      modifies this`link
      ensures Merging(link, was, all, done + [x], r[1..], o)
      ensures x' == Head(r[1..], 0) && (x' == 0 <==> r[1..] == [])
      ensures x != 0 && p' == if done == [] then x else p
    {
      ghost var l := link;
      p' := p;
      assert 0 < r[0] < |l|;
      if t == 0 { p' := x; } else { link := link[t := x]; }
      MergeStep(l, link, was, all, done, r, o);
      x' := link[x];
      HeadIsZero(link, r[1..]);
    }

    /** The final loop of the sort: merge two lists by re-linking their pages. */
    method Merge(a0: nat, b0: nat, ghost sa: seq<nat>, ghost sb: seq<nat>)
      returns (p: nat)
      requires |link| == |count|
      requires IsList(link, a0, sa) && IsList(link, b0, sb) && sa != [] && sb != []
      requires forall x :: x in sa ==> x !in sb
      modifies this`link
      ensures InTable(count, sa) && InTable(count, sb)
      ensures IsList(link, p, Merged(count, sa, sb))
      ensures |link| == |old(link)|
      ensures forall n :: 0 <= n < |link| && n !in sa && n !in sb ==> link[n] == old(link[n])
    {
      hide Chain;
      hide Merged;
      hide Merging;
      var a, b, t := a0, b0, 0;  // `t` is the page whose link is written next; 0 stands for `p` itself
      ghost var done: seq<nat>, ra, rb := [], sa, sb;
      ghost var was, all := link, Pages(sa, sb);
      MergeStart(link, count, sa, sb);
      hide InTable;
      hide Pages;
      p := 0;
      ghost var total := Merged(count, sa, sb);
      while a != 0 && b != 0
        invariant Merging(link, was, all, done, ra, rb)
        invariant InTable(count, ra) && InTable(count, rb) && done + Merged(count, ra, rb) == total
        invariant a == Head(ra, 0) && b == Head(rb, 0) && (a == 0 <==> ra == []) && (b == 0 <==> rb == [])
        invariant if done == [] then t == 0 && ra != [] && rb != [] else t == done[|done| - 1] != 0 && p == done[0]
        decreases |ra| + |rb|
      {
        MergedMove(count, done, ra, rb, total);
        if Leq(count, a, b) {
          var x := a;
          p, a := Attach(p, t, x, was, all, done, ra, rb);
          t, done, ra := x, done + [ra[0]], ra[1..];
        } else {
          var x := b;
          MergingSwap(link, was, all, done, ra, rb);
          p, b := Attach(p, t, x, was, all, done, rb, ra);
          t, done, rb := x, done + [rb[0]], rb[1..];
          MergingSwap(link, was, all, done, rb, ra);
        }
      }
      MergedFirst(count, ra, rb);
      MergingSwap(link, was, all, done, ra, rb);
      MergeRest(t, if a == 0 then b else a, was, all, done, if a == 0 then rb else ra, if a == 0 then ra else rb);
    }

    /** `*t = a | b`, where one of the two is 0. */
    method MergeRest(t: nat, x: nat, ghost was: seq<nat>, ghost all: set<nat>,
                     ghost done: seq<nat>, ghost r: seq<nat>, ghost o: seq<nat>)
      requires Merging(link, was, all, done, r, o)
      requires done != [] && t == done[|done| - 1] && x == Head(r, 0)
      modifies this`link
      ensures Chain(link, done + r, 0)
      ensures |link| == |was|
      ensures forall n :: 0 <= n < |link| && n !in all ==> link[n] == was[n]
    {
      ghost var l := link;
      assert t in done;
      assert 0 < done[|done| - 1];
      link := link[t := x];
      MergeEnd(l, link, done, r);
    }

    /** The first loop of the sort: `a` moves one page for every two that `b` moves, and `asort`
        records whether `a` met two pages that are out of order. */
    method Middle(p: nat, ghost s: seq<nat>) returns (a: nat, asort: bool, ghost m: nat)
      requires |link| == |count| && IsList(link, p, s) && |s| >= 2
      ensures m + 1 < |s| && a == s[m] && InTable(count, s)
      ensures !asort ==> InOrder(count, s, m)
    {
      MiddleLinks(link, s, 0);
      assert InTable(count, s);
      assert InOrder(count, s, 0);
      a, asort, m := p, false, 0;
      var b := link[a];
      hide Chain;
      hide InOrder;
      while b != 0
        invariant m < |s| && a == s[m] && 2 * m < |s|
        invariant b == if 2 * m + 1 < |s| then s[2 * m + 1] else 0
        invariant !asort ==> InOrder(count, s, m)
        decreases |s| - m
      {
        MiddleLinks(link, s, m);
        b := link[b];
        if b == 0 { break; }
        var l := a;
        a := link[a];
        if !asort && !Leq(count, l, a) {
          asort := true;
        }
        if !asort {
          InOrderNext(count, s, m);
        }
        b := link[b];
        m := m + 1;
      }
    }

    // ----- the sort

    /** The same pages, in strictly ascending order, with no other link changed, even though a first
        half that is found in order is not sorted again. */
    method Sort(p: nat, ghost s: seq<nat>) returns (r: nat, ghost sorted: seq<nat>)
      requires |link| == |count| && IsList(link, p, s)
      modifies this`link
      ensures IsList(link, r, sorted)
      ensures multiset(sorted) == multiset(s)
      ensures |sorted| == |s| && InTable(count, sorted) && Ascending(count, sorted)
      ensures |link| == |old(link)|
      ensures forall n :: 0 <= n < |link| && n !in s ==> link[n] == old(link[n])
      decreases |s|, 1
    {
      hide Chain;
      hide Ascending;
      hide Merged;
      hide InOrder;
      HeadIsZero(link, s);
      if p == 0 || link[p] == 0 {
        ShortList(link, count, p, s);
        r, sorted := p, s;
        return;
      }
      LongList(link, p, s);
      var a, asort;
      ghost var m;
      a, asort, m := Middle(p, s);
      ghost var l0, s1, s2 := link, s[..m + 1], s[m + 1..];
      Halves(l0, s, m, s1, s2);
      var b;
      ghost var b2;
      b, b2 := Sort(link[a], s2);
      ghost var l1 := link;
      link := link[a := 0];
      Cut(l0, l1, link, s1, s2, b2);
      ghost var l2 := link;
      ghost var a2;
      a, a2 := SortFirst(p, asort, s, m, s1, b2);
      r := Merge(a, b, a2, b2);
      sorted := Merged(count, a2, b2);
      assert s == s1 + s2;
      Joined(count, s, s1, s2, a2, b2);
    }

    /** The first half is sorted only if it was seen to be out of order. */
    method SortFirst(p: nat, asort: bool, ghost s: seq<nat>, ghost m: nat, ghost s1: seq<nat>, ghost b2: seq<nat>)
      returns (a: nat, ghost a2: seq<nat>)
      requires |link| == |count| && InTable(count, s) && m + 1 < |s| && s1 == s[..m + 1]
      requires !asort ==> InOrder(count, s, m)
      requires forall i, j :: 0 <= i < j < |s| ==> s[i] != s[j]
      requires IsList(link, p, s1) && Chain(link, b2, 0)
      requires forall x :: x in s1 ==> x !in b2
      modifies this`link
      ensures |link| == |old(link)|
      ensures IsList(link, a, a2) && Chain(link, b2, 0) && multiset(a2) == multiset(s1) && |a2| == |s1|
      ensures InTable(count, a2) && Ascending(count, a2)
      ensures forall x :: x in a2 <==> x in s1
      ensures forall n :: 0 <= n < |link| && n !in s1 ==> link[n] == old(link[n])
      decreases |s|, 0
    {
      hide Chain;
      hide Ascending;
      hide InOrder;
      a, a2 := p, s1;
      ghost var l2 := link;
      if asort {
        a, a2 := Sort(a, s1);
        SameMembers(a2, s1);
        Kept(l2, link, b2, s1);
      } else {
        InOrderAscends(count, s, m);
      }
    }
  }
}
