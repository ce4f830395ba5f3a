/** Sequential histories of a first-in first-out queue, and when a sequence of operations is one. */
module Histories {
  import opened Rings

  // ----- the queue, one operation at a time

  datatype Call = Put(v: Item) | Got(v: Item) | Nothing

  /** The queue after an operation; none, if the operation cannot have that result. */
  function Apply(q: seq<Item>, c: Call): Option<seq<Item>> {
    match c
    case Put(v) => Some(q + [v])
    case Got(v) => if q != [] && q[0] == v then Some(q[1..]) else None
    case Nothing => if q == [] then Some(q) else None
  }

  function Replay(calls: seq<Call>): Option<seq<Item>> {
    if calls == [] then Some([])
    else
      var q := Replay(calls[..|calls| - 1]);
      if q.None? then None else Apply(q.value, calls[|calls| - 1])
  }

  /** The operations, one after the other from the empty queue, have these results. */
  predicate Legal(calls: seq<Call>) {
    Replay(calls).Some?
  }

  // ----- a criterion

  /** An operation with the name of the element it adds or takes. */
  datatype Act<N(==)> = In(n: N) | Out(n: N) | Empty

  function CallOf<N(==)>(a: Act<N>, item: N -> Item): Call {
    match a
    case In(n) => Put(item(n))
    case Out(n) => Got(item(n))
    case Empty => Nothing
  }

  function Calls<N(==)>(h: seq<Act<N>>, item: N -> Item): seq<Call> {
    seq(|h|, i requires 0 <= i < |h| => CallOf(h[i], item))
  }

  /** `a` is among the first `i` operations. */
  predicate Among<N(==)>(h: seq<Act<N>>, i: nat, a: Act<N>) {
    exists j :: 0 <= j < i && j < |h| && h[j] == a
  }

  /** No element is added or taken twice; what is taken was added before; elements are taken in the
      order in which they were added; and the queue is found empty only when all are taken. */
  ghost predicate Orderly<N(!new)>(h: seq<Act<N>>) {
    && (forall i, j :: 0 <= i < j < |h| && h[i] == h[j] ==> h[i].Empty?)
    && (forall i :: 0 <= i < |h| && h[i].Out? ==> Among(h, i, In(h[i].n)))
    && (forall i, j, k :: 0 <= i < j < |h| && 0 <= k < |h| && h[i].In? && h[j].In? && h[k] == Out(h[j].n) ==>
          Among(h, k, Out(h[i].n)))
    && (forall i, j :: 0 <= i < j < |h| && h[i].In? && h[j].Empty? ==> Among(h, j, Out(h[i].n)))
  }

  // ----- the elements added and taken so far, in order

  function Ins<N(==)>(h: seq<Act<N>>, i: nat): seq<N>
    requires i <= |h|
  {
    if i == 0 then [] else Ins(h, i - 1) + if h[i - 1].In? then [h[i - 1].n] else []
  }

  function Outs<N(==)>(h: seq<Act<N>>, i: nat): seq<N>
    requires i <= |h|
  {
    if i == 0 then [] else Outs(h, i - 1) + if h[i - 1].Out? then [h[i - 1].n] else []
  }

  /** The operations that added the elements come in the order of the elements. */
  lemma {:induction false} InsAt<N>(h: seq<Act<N>>, i: nat, a: nat) returns (j: nat)
    requires i <= |h| && a < |Ins(h, i)|
    ensures j < i && h[j] == In(Ins(h, i)[a]) && |Ins(h, j)| == a
  {
    if a < |Ins(h, i - 1)| {
      j := InsAt(h, i - 1, a);
    } else {
      j := i - 1;
    }
  }

  lemma {:induction false} InsGrow<N>(h: seq<Act<N>>, i: nat, j: nat)
    requires i <= j <= |h|
    ensures |Ins(h, i)| <= |Ins(h, j)|
  {
    if i < j {
      InsGrow(h, i, j - 1);
    }
  }

  lemma {:induction false} InsHas<N>(h: seq<Act<N>>, i: nat, j: nat)
    requires j < i <= |h| && h[j].In?
    ensures h[j].n in Ins(h, i)
  {
    if j < i - 1 {
      InsHas(h, i - 1, j);
    }
  }

  lemma {:induction false} OutsHas<N>(h: seq<Act<N>>, i: nat, j: nat)
    requires j < i <= |h| && h[j].Out?
    ensures h[j].n in Outs(h, i)
  {
    if j < i - 1 {
      OutsHas(h, i - 1, j);
    }
  }

  lemma {:induction false} OutsAt<N>(h: seq<Act<N>>, i: nat, n: N) returns (j: nat)
    requires i <= |h| && n in Outs(h, i)
    ensures j < i && h[j] == Out(n)
  {
    if n in Outs(h, i - 1) {
      j := OutsAt(h, i - 1, n);
    } else {
      j := i - 1;
    }
  }

  /** The elements added are different ones, added in order. */
  lemma InsOrder<N(!new)>(h: seq<Act<N>>, i: nat, a: nat, b: nat) returns (j: nat, k: nat)
    requires i <= |h| && a < b < |Ins(h, i)|
    ensures j < k < i && h[j] == In(Ins(h, i)[a]) && h[k] == In(Ins(h, i)[b])
    ensures Orderly(h) ==> Ins(h, i)[a] != Ins(h, i)[b]
  {
    j := InsAt(h, i, a);
    k := InsAt(h, i, b);
    if k <= j {
      InsGrow(h, k, j);
    }
  }

  // ----- the criterion is right

  ghost predicate Kept<N(!new)>(h: seq<Act<N>>, i: nat)
    requires i <= |h|
  {
    |Outs(h, i)| <= |Ins(h, i)| && Outs(h, i) == Ins(h, i)[..|Outs(h, i)|]
  }

  /** The element taken next is the first that is left. */
  lemma TakesFirst<N(!new)>(h: seq<Act<N>>, i: nat)
    requires Orderly(h) && i < |h| && h[i].Out? && Kept(h, i)
    ensures |Outs(h, i)| < |Ins(h, i)| && Ins(h, i)[|Outs(h, i)|] == h[i].n
  {
    var s, t := Ins(h, i), Outs(h, i);
    var j :| 0 <= j < i && j < |h| && h[j] == In(h[i].n);
    InsHas(h, i, j);
    var b :| 0 <= b < |s| && s[b] == h[i].n;
    if b < |t| {
      assert t[b] == h[i].n;
      var k := OutsAt(h, i, h[i].n);
      assert false;
    }
    if |t| < b {
      var x, y := InsOrder(h, i, |t|, b);
      assert Among(h, i, Out(s[|t|]));
      Untaken(h, i);
    }
  }

  /** An element that is left is not taken. */
  lemma Untaken<N(!new)>(h: seq<Act<N>>, i: nat)
    requires Orderly(h) && i <= |h| && Kept(h, i) && |Outs(h, i)| < |Ins(h, i)|
    ensures !Among(h, i, Out(Ins(h, i)[|Outs(h, i)|]))
  {
    var s, t := Ins(h, i), Outs(h, i);
    if Among(h, i, Out(s[|t|])) {
      var k :| 0 <= k < i && k < |h| && h[k] == Out(s[|t|]);
      OutsHas(h, i, k);
      var a :| 0 <= a < |t| && t[a] == s[|t|];
      var x, y := InsOrder(h, i, a, |t|);
      assert false;
    }
  }

  lemma KeepsFirst<N(!new)>(h: seq<Act<N>>, i: nat)
    requires Orderly(h) && i < |h| && Kept(h, i)
    ensures Kept(h, i + 1)
    ensures h[i].Empty? ==> |Outs(h, i)| == |Ins(h, i)|
  {
    if h[i].Out? {
      TakesFirst(h, i);
    } else if h[i].Empty? && |Outs(h, i)| < |Ins(h, i)| {
      Untaken(h, i);
      var j := InsAt(h, i, |Outs(h, i)|);
      assert false;
    }
  }

  function Items<N(==)>(s: seq<N>, item: N -> Item): seq<Item> {
    seq(|s|, i requires 0 <= i < |s| => item(s[i]))
  }

  /** The elements in the queue after `i` operations. */
  ghost function Remaining<N(!new)>(h: seq<Act<N>>, i: nat): seq<N>
    requires i <= |h| && Kept(h, i)
  {
    Ins(h, i)[|Outs(h, i)|..]
  }

  lemma RemainingNext<N(!new)>(h: seq<Act<N>>, i: nat)
    requires Orderly(h) && i < |h| && Kept(h, i)
    ensures Kept(h, i + 1)
    ensures match h[i]
      case In(n) => Remaining(h, i + 1) == Remaining(h, i) + [n]
      case Out(n) => Remaining(h, i) != [] && Remaining(h, i)[0] == n && Remaining(h, i + 1) == Remaining(h, i)[1..]
      case Empty => Remaining(h, i + 1) == Remaining(h, i) == []
  {
    KeepsFirst(h, i);
    if h[i].Out? {
      TakesFirst(h, i);
    }
    hide Orderly;
  }

  lemma ApplyNext<N(!new)>(h: seq<Act<N>>, i: nat, item: N -> Item)
    requires Orderly(h) && i < |h| && Kept(h, i)
    ensures Kept(h, i + 1)
    ensures Apply(Items(Remaining(h, i), item), CallOf(h[i], item)) == Some(Items(Remaining(h, i + 1), item))
  {
    hide Orderly;
    RemainingNext(h, i);
    hide Kept, Remaining;
    var q, q' := Items(Remaining(h, i), item), Items(Remaining(h, i + 1), item);
    match h[i]
    case In(n) => assert q' == q + [item(n)];
    case Out(n) => assert q' == q[1..];
    case Empty => assert q' == q;
  }

  lemma {:induction false} ReplaysTo<N(!new)>(h: seq<Act<N>>, i: nat, item: N -> Item)
    requires Orderly(h) && i <= |h|
    ensures Kept(h, i)
    ensures Replay(Calls(h, item)[..i]) == Some(Items(Remaining(h, i), item))
  {
    if i > 0 {
      hide Orderly, Kept, Remaining, Items;
      ReplaysTo(h, i - 1, item);
      ApplyNext(h, i - 1, item);
      var c := Calls(h, item)[..i];
      assert c[..|c| - 1] == Calls(h, item)[..i - 1];
    } else {
      assert Items(Remaining(h, 0), item) == [];
    }
  }

  /** An orderly sequence of operations is a legal history, whatever the items are. */
  lemma OrderlyIsLegal<N(!new)>(h: seq<Act<N>>, item: N -> Item)
    requires Orderly(h)
    ensures Legal(Calls(h, item))
  {
    ReplaysTo(h, |h|, item);
    assert Calls(h, item)[..|h|] == Calls(h, item);
  }
}
