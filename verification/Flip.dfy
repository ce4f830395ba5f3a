/** A run in which the unsafe bit of an occupied cell changes between a dequeuer's load of the item
    and its successful CAS2: the limit of what Accesses.OccupiedCas2 states.

    The ring has two cells.  Item 1 is marked unsafe and taken, which leaves its cell empty and
    unsafe; a skip moves that cell to ticket 6.  Dequeuer 9 loads the index word while the cell is
    empty and the item after the deposit has cleared the bit; dequeuer 11 then sets the bit again. */
module Flip {
  import opened Rings
  import opened Queue
  import opened Accesses

  /** One open ring of two cells. */
  ghost predicate Plain(s: State) {
    && s.size == 2 && |s.rings| == 1 && s.head == 0 && s.tail == 0 && |s.thr| == 12
    && |s.rings[0].cells| == 2 && !s.rings[0].closed
  }

  /** The two cells and the two counters. */
  ghost predicate Memory(s: State, c0: Cell, c1: Cell, head: nat, tail: nat) {
    Plain(s) && s.rings[0].cells == [c0, c1] && s.rings[0].head == head && s.rings[0].tail == tail
  }

  ghost predicate Ends(run: seq<State>, c0: Cell, c1: Cell, head: nat, tail: nat) {
    IsRun(run) && Memory(Last(run), c0, c1, head, tail)
  }

  /** Only thread `t` has moved. */
  ghost predicate Moved(run: seq<State>, run': seq<State>, t: nat) {
    && 0 < |run| <= |run'| && run'[..|run|] == run
    && |Last(run).thr| == |Last(run').thr|
    && forall u :: 0 <= u < |Last(run).thr| && u != t ==> Last(run').thr[u] == Last(run).thr[u]
  }

  lemma Append(run: seq<State>, s: State, t: nat) returns (run': seq<State>)
    requires IsRun(run) && Step(Last(run), s, t)
    ensures run' == run + [s] && IsRun(run') && Last(run') == s
  {
    hide Step;
    run' := run + [s];
    forall n | 0 <= n < |run'| - 1 ensures Next(run'[n], run'[n + 1]) {
      if n < |run| - 1 {
        assert run'[n] == run[n] && run'[n + 1] == run[n + 1];
      }
    }
  }

  /** The next access of thread `t`. */
  lemma One(run: seq<State>, t: nat) returns (run': seq<State>)
    requires IsRun(run) && Ready(Last(run), t)
    ensures run' == run + [Exec(Last(run), t)] && IsRun(run')
  {
    run' := Append(run, Exec(Last(run), t), t);
  }

  ghost predicate At0(p: Pc, h: nat) {
    p.Dequeue? && p.cp.DIdx? && p.cp.d.lh == 0 && p.cp.d.h == h && p.cp.d.r == 0
  }

  ghost predicate Checking(p: Pc, h: nat) {
    p.Leaving? && p.xp.DCheck? && p.xp.lh == 0 && p.xp.h == h
  }

  /** A dequeue is invoked and draws its ticket. */
  lemma Draw(run: seq<State>, t: nat, c0: Cell, c1: Cell, head: nat, tail: nat) returns (run': seq<State>)
    requires Ends(run, c0, c1, head, tail) && t < 12 && Last(run).thr[t] == Idle
    ensures Ends(run', c0, c1, head + 1, tail) && Moved(run, run', t) && At0(Last(run').thr[t], head)
  {
    var s := Last(run);
    run' := Append(run, GoD(s, t, DStart(s.clock)), t);
    hide IsRun;
    run' := One(run', t);
    run' := One(run', t);
  }

  /** An enqueue is invoked and draws its ticket. */
  lemma Issue(run: seq<State>, t: nat, item: Item, c0: Cell, c1: Cell, head: nat, tail: nat) returns (run': seq<State>)
    requires Ends(run, c0, c1, head, tail) && t < 12 && Last(run).thr[t] == Idle
    ensures Ends(run', c0, c1, head, tail + 1) && Moved(run, run', t)
    ensures Last(run').thr[t].Enqueue? && Last(run').thr[t].ep == EIdx(Last(run').thr[t].ep.e, 0, tail)
    ensures Last(run').thr[t].ep.e.item == item
  {
    var s := Last(run);
    run' := Append(run, GoE(s, t, EStart(Enq(item, s.clock, 0))), t);
    hide IsRun;
    run' := One(run', t);
    run' := One(run', t);
    run' := One(run', t);
  }

  lemma FirstCell(q: Ring)
    requires |q.cells| == 2
    ensures Slot(q, 0) == 0 && Slot(q, 2) == 0 && Slot(q, 4) == 0 && Slot(q, 6) == 0 && Slot(q, 8) == 0
  {
    assert Residue(4, 2) == Residue(2, 2);
    assert Residue(6, 2) == Residue(4, 2);
    assert Residue(8, 2) == Residue(6, 2);
  }

  /** The enqueuer of item 1 deposits it under ticket 0. */
  lemma PutIn(run: seq<State>, t: nat, c1: Cell, head: nat, tail: nat) returns (run': seq<State>)
    requires Ends(run, Cell(None, 0, false), c1, head, tail) && t < 12
    requires Last(run).thr[t].Enqueue? && Last(run).thr[t].ep == EIdx(Last(run).thr[t].ep.e, 0, 0)
    ensures Ends(run', Cell(Some(Last(run).thr[t].ep.e.item), 0, false), c1, head, tail) && Moved(run, run', t)
  {
    FirstCell(Last(run).rings[0]);
    hide IsRun;
    run' := One(run, t);
    run' := One(run', t);
    run' := One(run', t);
  }

  /** A dequeuer with a later ticket marks the occupied first cell and gives up. */
  lemma MarkIt(run: seq<State>, t: nat, v: Item, i: nat, c1: Cell, head: nat, tail: nat, h: nat)
    returns (run': seq<State>)
    requires Ends(run, Cell(Some(v), i, false), c1, head, tail) && t < 12 && At0(Last(run).thr[t], h)
    requires h in {2, 8} && i < h
    ensures Ends(run', Cell(Some(v), i, true), c1, head, tail) && Moved(run, run', t)
  {
    FirstCell(Last(run).rings[0]);
    hide IsRun;
    run' := One(run, t);
    run' := One(run', t);
    run' := One(run', t);
  }

  /** The dequeuer with ticket 0 takes the item from the marked cell. */
  lemma TakeIt(run: seq<State>, t: nat, v: Item, c1: Cell, head: nat, tail: nat) returns (run': seq<State>)
    requires Ends(run, Cell(Some(v), 0, true), c1, head, tail) && t < 12 && At0(Last(run).thr[t], 0)
    ensures Ends(run', Cell(None, 2, true), c1, head, tail) && Moved(run, run', t)
  {
    FirstCell(Last(run).rings[0]);
    hide IsRun;
    run' := One(run, t);
    run' := One(run', t);
    run' := One(run', t);
  }

  /** The dequeuer with ticket 4 moves the empty cell past its ticket. */
  lemma SkipIt(run: seq<State>, t: nat, c1: Cell) returns (run': seq<State>)
    requires Ends(run, Cell(None, 2, true), c1, 5, 1) && t < 12 && At0(Last(run).thr[t], 4)
    ensures Ends(run', Cell(None, 6, true), c1, 5, 1) && Moved(run, run', t)
    ensures Checking(Last(run').thr[t], 4)
  {
    FirstCell(Last(run).rings[0]);
    hide IsRun;
    run' := One(run, t);
    run' := One(run', t);
    run' := One(run', t);
    run' := One(run', t);
  }

  ghost predicate Comparing(p: Pc) {
    p.Leaving? && p.xp.FAgain? && p.xp.x.lh == 0 && p.xp.w == Word(false, 1) && p.xp.hs == 5
  }

  /** It finds `tail` behind, and loads both counters. */
  lemma Sample(run: seq<State>, t: nat, c0: Cell, c1: Cell) returns (run': seq<State>)
    requires Ends(run, c0, c1, 5, 1) && t < 12 && Checking(Last(run).thr[t], 4)
    ensures Ends(run', c0, c1, 5, 1) && Moved(run, run', t) && Comparing(Last(run').thr[t])
  {
    assert |run| > 0;
    hide IsRun, AllDrawn;
    run' := One(run, t);
    run' := One(run', t);
    run' := One(run', t);
  }

  /** fixState raises `tail`. */
  lemma CatchUp(run: seq<State>, t: nat, c0: Cell, c1: Cell) returns (run': seq<State>)
    requires Ends(run, c0, c1, 5, 1) && t < 12 && Comparing(Last(run).thr[t])
    ensures Ends(run', c0, c1, 5, 5) && Moved(run, run', t)
  {
    assert |run| > 0;
    hide IsRun;
    run' := One(run, t);
    run' := One(run', t);
  }

  /** The enqueuer with ticket 6 finds the cell empty and unsafe and `head` not past it. */
  lemma Aim(run: seq<State>, t: nat, c1: Cell) returns (run': seq<State>)
    requires Ends(run, Cell(None, 6, true), c1, 5, 7) && t < 12
    requires Last(run).thr[t].Enqueue? && Last(run).thr[t].ep == EIdx(Last(run).thr[t].ep.e, 0, 6)
    ensures Ends(run', Cell(None, 6, true), c1, 5, 7) && Moved(run, run', t)
    ensures Last(run').thr[t] == Enqueue(ECas(Last(run).thr[t].ep.e, 0, 6, 6, true))
  {
    FirstCell(Last(run).rings[0]);
    hide IsRun;
    run' := One(run, t);
    run' := One(run', t);
    run' := One(run', t);
  }

  /** Dequeuer 9 loads the index word, the deposit is made, and dequeuer 9 loads the item. */
  lemma Cross(run: seq<State>, e: Enq, c1: Cell) returns (run': seq<State>, d: Deq)
    requires Ends(run, Cell(None, 6, true), c1, 7, 7)
    requires Last(run).thr[7] == Enqueue(ECas(e, 0, 6, 6, true)) && At0(Last(run).thr[9], 6)
    ensures |run'| == |run| + 3
    ensures Memory(run'[|run| + 1], Cell(Some(e.item), 6, false), c1, 7, 7)
    ensures Ends(run', Cell(Some(e.item), 6, false), c1, 7, 7)
    ensures run'[|run| + 1].thr == Last(run').thr[9 := Dequeue(DVal(d, 6, true))] && |Last(run').thr| == 12
    ensures Last(run').thr[9] == Dequeue(DTake(d, e.item, true)) && d.lh == 0 && d.h == 6
    ensures forall u :: 0 <= u < 12 && u != 7 && u != 9 ==> Last(run').thr[u] == Last(run).thr[u]
  {
    FirstCell(Last(run).rings[0]);
    hide IsRun;
    d := Last(run).thr[9].cp.d;
    run' := One(run, 9);
    run' := One(run', 7);
    run' := One(run', 9);
  }

  /** Item 1 is deposited, marked and taken. */
  lemma FirstItem() returns (run: seq<State>)
    ensures Ends(run, Cell(None, 2, true), Cell(None, 1, false), 3, 1)
    ensures forall t :: 4 <= t < 12 ==> Last(run).thr[t] == Idle
  {
    var c1 := Cell(None, 1, false);
    run := Begin();
    hide IsRun, Memory;
    run := Issue(run, 0, 1, Cell(None, 0, false), c1, 0, 0);
    run := PutIn(run, 0, c1, 0, 1);
    run := Draw(run, 1, Cell(Some(1), 0, false), c1, 0, 1);
    run := Draw(run, 2, Cell(Some(1), 0, false), c1, 1, 1);
    run := Draw(run, 3, Cell(Some(1), 0, false), c1, 2, 1);
    run := MarkIt(run, 3, 1, 0, c1, 3, 1, 2);
    run := TakeIt(run, 1, 1, c1, 3, 1);
  }

  /** Its cell is moved on to ticket 6. */
  lemma MoveOn() returns (run: seq<State>)
    ensures Ends(run, Cell(None, 6, true), Cell(None, 1, false), 5, 5)
    ensures forall t :: 6 <= t < 12 ==> Last(run).thr[t] == Idle
  {
    var c1 := Cell(None, 1, false);
    run := FirstItem();
    hide IsRun, Memory;
    run := Draw(run, 4, Cell(None, 2, true), c1, 3, 1);
    run := Draw(run, 5, Cell(None, 2, true), c1, 4, 1);
    run := SkipIt(run, 5, c1);
    run := Sample(run, 5, Cell(None, 6, true), c1);
    run := CatchUp(run, 5, Cell(None, 6, true), c1);
  }

  /** Dequeuer 9 is about to load its index word, and enqueuer 7 to deposit. */
  lemma Prepare() returns (run: seq<State>, e: Enq)
    ensures Ends(run, Cell(None, 6, true), Cell(None, 1, false), 7, 7)
    ensures Last(run).thr[7] == Enqueue(ECas(e, 0, 6, 6, true)) && At0(Last(run).thr[9], 6)
    ensures Last(run).thr[10] == Idle && Last(run).thr[11] == Idle
  {
    var c1 := Cell(None, 1, false);
    run := MoveOn();
    hide IsRun, Memory;
    run := Issue(run, 6, 3, Cell(None, 6, true), c1, 5, 5);
    run := Issue(run, 7, 2, Cell(None, 6, true), c1, 5, 6);
    e := Last(run).thr[7].ep.e;
    run := Aim(run, 7, c1);
    run := Draw(run, 8, Cell(None, 6, true), c1, 5, 7);
    run := Draw(run, 9, Cell(None, 6, true), c1, 6, 7);
  }

  /** Dequeuer 11 sets the bit again. */
  lemma Again(run: seq<State>, v: Item, c1: Cell) returns (run': seq<State>)
    requires Ends(run, Cell(Some(v), 6, false), c1, 7, 7) && Last(run).thr[10] == Idle && Last(run).thr[11] == Idle
    ensures Ends(run', Cell(Some(v), 6, true), c1, 9, 7) && |run| <= |run'| && run'[..|run|] == run
    ensures Last(run').thr[9] == Last(run).thr[9]
  {
    hide IsRun;
    run' := Draw(run, 10, Cell(Some(v), 6, false), c1, 7, 7);
    var run1 := run';
    run' := Draw(run', 11, Cell(Some(v), 6, false), c1, 8, 7);
    var run2 := run';
    run' := MarkIt(run', 11, v, 6, c1, 9, 7, 8);
    assert run == run1[..|run|] == run2[..|run|] == run'[..|run|];
  }

  lemma Begin() returns (run: seq<State>)
    ensures Ends(run, Cell(None, 0, false), Cell(None, 1, false), 0, 0)
    ensures forall t :: 0 <= t < 12 ==> Last(run).thr[t] == Idle
  {
    run := [State(2, [Empty(2)], 0, 0, seq(12, _ => Idle), 0, map[])];
    assert Empty(2).cells == [Cell(None, 0, false), Cell(None, 1, false)];
  }

  /** After the item was loaded, and before a CAS2 on the loaded words succeeds, the cell may change:
      the loaded index word had the bit set, the bit was clear when the item was loaded, and it is
      set again now that dequeuer 9 is about to make its CAS2, which will succeed. */
  lemma UnsafeBitMayChange() returns (run: seq<State>, n: nat, d: Deq, v: Item)
    ensures IsRun(run) && n + 1 < |run| && 9 < |run[n].thr| && 9 < |run[n + 1].thr|
    ensures run[n].thr[9] == Dequeue(DVal(d, 6, true)) && run[n + 1].thr[9] == Dequeue(DTake(d, v, true))
    ensures Exists(run[n], d.lh) && CellAt(run[n], d.lh, d.h) == Cell(Some(v), 6, false)
    ensures Exists(Last(run), d.lh) && CellAt(Last(run), d.lh, d.h) == Cell(Some(v), 6, true)
    ensures 9 < |Last(run).thr| && Last(run).thr[9] == Dequeue(DTake(d, v, true))
  {
    var e;
    run, e := Prepare();
    var c1 := Cell(None, 1, false);
    hide IsRun, At0;
    n, v := |run| + 1, e.item;
    var run1;
    run1, d := Cross(run, e, c1);
    run := Again(run1, v, c1);
    assert run[n] == run1[n] && run[n + 1] == run1[n + 1];
    FirstCell(run[n].rings[0]);
    FirstCell(Last(run).rings[0]);
  }
}
