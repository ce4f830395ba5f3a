/** The queue is not lock-free, whatever the size of its rings.  In a ring whose cells are empty and
    unsafe, one enqueuer and one dequeuer can go on for ever without completing: the enqueuer gives up
    every ticket because the dequeuer has drawn it too, and the dequeuer, which skips the cell, finds
    every time that `tail` has moved on.  The distance of the counters never grows, so the ring is never
    closed.  Three threads are enough to make the cells unsafe, one by one, and to leave. */
module Livelock {
  import opened Rings
  import opened Queue
  import Flip

  // ----- states of one open ring and five threads

  ghost predicate Counters(s: State, size: nat, head: nat, tail: nat) {
    && s.size == size > 0 && |s.rings| == 1 && s.head == 0 && s.tail == 0 && |s.thr| == 5
    && |s.rings[0].cells| == size && !s.rings[0].closed
    && s.rings[0].head == head && s.rings[0].tail == tail
  }

  /** The cell of ticket `k`. */
  ghost function CellOf(s: State, k: nat): Cell
    requires |s.rings| > 0 && |s.rings[0].cells| > 0
  {
    At(s.rings[0], k)
  }

  /** The cells are those of `s`, but for the one of ticket `k`. */
  ghost predicate Wrote(s: State, s': State, k: nat, c: Cell)
    requires |s.rings| > 0 && |s.rings[0].cells| > 0
  {
    |s'.rings| > 0 && s'.rings[0].cells == Write(s.rings[0], k, c).cells
  }

  ghost predicate SameCells(s: State, s': State) {
    |s.rings| > 0 && |s'.rings| > 0 && s'.rings[0].cells == s.rings[0].cells
  }

  lemma {:induction false} DifferentSlots(k: nat, t: nat, n: nat)
    requires n > 0 && k < t < k + n
    ensures Residue(k, n) != Residue(t, n)
  {
    if k >= n {
      DifferentSlots(k - n, t - n, n);
    }
  }

  lemma WroteAt(s: State, s': State, k: nat, c: Cell, t: nat)
    requires |s.rings| > 0 && |s.rings[0].cells| > 0 && Wrote(s, s', k, c)
    ensures CellOf(s', k) == c
    ensures k != t && k < t + |s.rings[0].cells| && t < k + |s.rings[0].cells| ==> CellOf(s', t) == CellOf(s, t)
    ensures CellOf(s', k + |s.rings[0].cells|) == c
  {
    SlotWraps(s'.rings[0], k);
    if k < t < k + |s.rings[0].cells| {
      DifferentSlots(k, t, |s.rings[0].cells|);
    } else if t < k < t + |s.rings[0].cells| {
      DifferentSlots(t, k, |s.rings[0].cells|);
    }
  }

  // ----- runs in which nothing is completed

  /** The threads that are inside an operation stay inside, and no other begins one. */
  ghost predicate NoneReturns(s: State, s': State) {
    |s'.thr| == |s.thr| && forall u :: 0 <= u < |s.thr| ==> (s'.thr[u] == Idle <==> s.thr[u] == Idle)
  }

  /** An access of some thread. */
  ghost predicate Works(s: State, s': State) {
    exists t: nat :: Ready(s, t) && s' == Exec(s, t)
  }

  /** `run` goes on after `base` with accesses that complete no operation. */
  ghost predicate GoesOn(base: seq<State>, run: seq<State>) {
    && IsRun(run) && 0 < |base| <= |run| && run[..|base|] == base
    && (forall i :: |base| - 1 <= i < |run| - 1 ==> NoneReturns(run[i], run[i + 1]) && Works(run[i], run[i + 1]))
  }

  lemma GoesOnTrans(a: seq<State>, b: seq<State>, c: seq<State>)
    requires GoesOn(a, b) && GoesOn(b, c)
    ensures GoesOn(a, c)
  {
    hide IsRun, NoneReturns, Works;
    assert c[..|a|] == b[..|a|];
    forall i | |a| - 1 <= i < |c| - 1 ensures NoneReturns(c[i], c[i + 1]) && Works(c[i], c[i + 1]) {
      if i < |b| - 1 {
        assert c[i] == b[i] && c[i + 1] == b[i + 1];
      }
    }
  }

  lemma GoesOnByOne(run: seq<State>, s: State)
    requires |run| > 0 && IsRun(run + [s]) && NoneReturns(Last(run), s) && Works(Last(run), s)
    ensures GoesOn(run, run + [s])
  {
    hide IsRun, NoneReturns, Works;
  }

  lemma StaysInside(s: State, s': State, t: nat)
    requires Ready(s, t) && s' == Exec(s, t) && t < |s'.thr| == |s.thr| && s'.thr == s.thr[t := s'.thr[t]]
    requires s'.thr[t] != Idle
    ensures NoneReturns(s, s') && Works(s, s')
  {
    hide Exec;
  }

  /** An access of thread `t` after which it is still inside its operation. */
  lemma Step1(run: seq<State>, t: nat) returns (run': seq<State>)
    requires IsRun(run) && Ready(Last(run), t) && t < |Exec(Last(run), t).thr| == |Last(run).thr|
    requires Exec(Last(run), t).thr == Last(run).thr[t := Exec(Last(run), t).thr[t]]
    requires Exec(Last(run), t).thr[t] != Idle
    ensures |run'| == |run| + 1 && IsRun(run') && Last(run') == Exec(Last(run), t) && GoesOn(run, run')
  {
    assert |run| > 0;
    hide IsRun, Exec, NoneReturns, Works;
    run' := Flip.One(run, t);
    StaysInside(Last(run), Exec(Last(run), t), t);
    GoesOnByOne(run, Exec(Last(run), t));
  }

  // ----- the round

  predicate Enqueuing(p: Pc, k: nat) {
    p.Enqueue? && p.ep.EIdx? && p.ep.lt == 0 && p.ep.k == k
  }

  predicate Dequeuing(p: Pc, h: nat) {
    p.Dequeue? && p.cp.DIdx? && p.cp.d.lh == 0 && p.cp.d.h == h && p.cp.d.r == 0
  }

  /** From ticket `m` on, all cells are empty and unsafe, and none is past its ticket. */
  ghost predicate AllUnsafe(s: State, m: nat)
    requires |s.rings| > 0 && |s.rings[0].cells| > 0
  {
    forall t: nat :: m <= t < m + |s.rings[0].cells| ==>
      CellOf(s, t).val == None && CellOf(s, t).unsafe && CellOf(s, t).idx <= t
  }

  /** Thread 3 has drawn enqueue ticket `m` and thread 4 dequeue ticket `m`. */
  ghost predicate Facing(s: State, size: nat, m: nat) {
    && Counters(s, size, m + 1, m + 1) && AllUnsafe(s, m)
    && Enqueuing(s.thr[3], m) && Dequeuing(s.thr[4], m)
  }

  /** The enqueuer finds the cell unsafe and `head` past its ticket. */
  lemma EnqueuerGivesUp(run: seq<State>, size: nat, m: nat) returns (run': seq<State>)
    requires IsRun(run) && Counters(Last(run), size, m + 1, m + 1) && Enqueuing(Last(run).thr[3], m)
    requires var c := CellOf(Last(run), m); c.val == None && c.unsafe && c.idx <= m
    ensures IsRun(run') && GoesOn(run, run') && |run'| > |run|
    ensures Counters(Last(run'), size, m + 1, m + 1) && SameCells(Last(run), Last(run'))
    ensures Last(run').thr[3].Enqueue? && Last(run').thr[3].ep.EStart?
    ensures Last(run').thr == Last(run).thr[3 := Last(run').thr[3]]
  {
    hide IsRun, GoesOn;
    var a := Step1(run, 3);
    var b := Step1(a, 3);
    var c := Step1(b, 3);
    var d := Step1(c, 3);
    GoesOnTrans(run, a, b);
    GoesOnTrans(run, b, c);
    GoesOnTrans(run, c, d);
    run' := d;
  }

  /** It draws the next ticket. */
  lemma EnqueuerDraws(run: seq<State>, size: nat, m: nat) returns (run': seq<State>)
    requires IsRun(run) && Counters(Last(run), size, m + 1, m + 1)
    requires Last(run).thr[3].Enqueue? && Last(run).thr[3].ep.EStart?
    ensures IsRun(run') && GoesOn(run, run') && |run'| > |run|
    ensures Counters(Last(run'), size, m + 1, m + 2) && SameCells(Last(run), Last(run'))
    ensures Enqueuing(Last(run').thr[3], m + 1) && Last(run').thr == Last(run).thr[3 := Last(run').thr[3]]
  {
    hide IsRun, GoesOn;
    var a := Step1(run, 3);
    var b := Step1(a, 3);
    var c := Step1(b, 3);
    GoesOnTrans(run, a, b);
    GoesOnTrans(run, b, c);
    run' := c;
  }

  /** The dequeuer skips the cell. */
  lemma DequeuerSkips(run: seq<State>, size: nat, m: nat) returns (run': seq<State>)
    requires IsRun(run) && Counters(Last(run), size, m + 1, m + 2) && Dequeuing(Last(run).thr[4], m)
    requires var c := CellOf(Last(run), m); c.val == None && c.unsafe && c.idx <= m
    ensures IsRun(run') && GoesOn(run, run') && |run'| > |run|
    ensures Counters(Last(run'), size, m + 1, m + 2)
    ensures Wrote(Last(run), Last(run'), m, Cell(None, m + size, true))
    ensures Flip.Checking(Last(run').thr[4], m) && Last(run').thr == Last(run).thr[4 := Last(run').thr[4]]
  {
    hide IsRun, GoesOn;
    var a := Step1(run, 4);
    var b := Step1(a, 4);
    var c := Step1(b, 4);
    var d := Step1(c, 4);
    GoesOnTrans(run, a, b);
    GoesOnTrans(run, b, c);
    GoesOnTrans(run, c, d);
    run' := d;
  }

  /** It finds `tail` past its ticket, and draws the next one. */
  lemma DequeuerDraws(run: seq<State>, size: nat, m: nat) returns (run': seq<State>)
    requires IsRun(run) && Counters(Last(run), size, m + 1, m + 2) && Flip.Checking(Last(run).thr[4], m)
    ensures IsRun(run') && GoesOn(run, run') && |run'| > |run|
    ensures Counters(Last(run'), size, m + 2, m + 2) && SameCells(Last(run), Last(run'))
    ensures Dequeuing(Last(run').thr[4], m + 1) && Last(run').thr == Last(run).thr[4 := Last(run').thr[4]]
  {
    hide IsRun, GoesOn, AllDrawn;
    var a := Step1(run, 4);
    var b := Step1(a, 4);
    var c := Step1(b, 4);
    GoesOnTrans(run, a, b);
    GoesOnTrans(run, b, c);
    run' := c;
  }

  /** The cells after a round. */
  lemma StillUnsafe(s: State, s': State, m: nat)
    requires |s.rings| > 0 && |s.rings[0].cells| > 0 && AllUnsafe(s, m)
    requires Wrote(s, s', m, Cell(None, m + |s.rings[0].cells|, true))
    ensures AllUnsafe(s', m + 1)
  {
    forall t: nat | m + 1 <= t < m + 1 + |s.rings[0].cells|
      ensures CellOf(s', t).val == None && CellOf(s', t).unsafe && CellOf(s', t).idx <= t
    {
      WroteAt(s, s', m, Cell(None, m + |s.rings[0].cells|, true), t);
    }
  }

  /** After fourteen accesses the two face each other again, one ticket further. */
  lemma Round(run: seq<State>, size: nat, m: nat) returns (run': seq<State>)
    requires IsRun(run) && Facing(Last(run), size, m)
    ensures IsRun(run') && GoesOn(run, run') && |run'| > |run| && Facing(Last(run'), size, m + 1)
  {
    assert |run| > 0 && CellOf(Last(run), m).val == None;
    hide IsRun, GoesOn;
    var a := EnqueuerGivesUp(run, size, m);
    var b := EnqueuerDraws(a, size, m);
    var c := DequeuerSkips(b, size, m);
    var d := DequeuerDraws(c, size, m);
    StillUnsafe(Last(run), Last(d), m);
    GoesOnTrans(run, a, b);
    GoesOnTrans(run, b, c);
    GoesOnTrans(run, c, d);
    run' := d;
  }

  lemma {:induction false} Rounds(run: seq<State>, size: nat, m: nat, n: nat) returns (run': seq<State>)
    requires IsRun(run) && Facing(Last(run), size, m)
    ensures GoesOn(run, run') && |run'| >= |run| + n
    decreases n
  {
    if n == 0 {
      run' := run;
    } else {
      var run1 := Round(run, size, m);
      hide IsRun, GoesOn, Facing;
      var run2 := Rounds(run1, size, m + 1, n - 1);
      GoesOnTrans(run, run1, run2);
      run' := run2;
    }
  }

  // ----- how the cells become unsafe

  ghost predicate Ends(run: seq<State>, size: nat, head: nat, tail: nat) {
    IsRun(run) && Counters(Last(run), size, head, tail)
  }

  /** Only thread `t` has moved. */
  ghost predicate Moved(run: seq<State>, run': seq<State>, t: nat) {
    && 0 < |run| && 0 < |run'| && t < |Last(run).thr| && t < |Last(run').thr|
    && Last(run').thr == Last(run).thr[t := Last(run').thr[t]]
  }

  lemma Begin(size: nat) returns (run: seq<State>)
    requires size > 0
    ensures Ends(run, size, 0, 0) && Last(run).thr == [Idle, Idle, Idle, Idle, Idle]
    ensures forall t: nat :: t < size ==> CellOf(Last(run), t) == Cell(None, t, false)
  {
    run := [State(size, [Empty(size)], 0, 0, [Idle, Idle, Idle, Idle, Idle], 0, map[])];
  }

  lemma Issue(run: seq<State>, t: nat, size: nat, head: nat, tail: nat) returns (run': seq<State>)
    requires Ends(run, size, head, tail) && t < 5 && Last(run).thr[t] == Idle
    ensures Ends(run', size, head, tail + 1) && Moved(run, run', t) && SameCells(Last(run), Last(run'))
    ensures Enqueuing(Last(run').thr[t], tail)
  {
    var s := Last(run);
    run' := Flip.Append(run, GoE(s, t, EStart(Enq(1, s.clock, 0))), t);
    hide IsRun;
    run' := Flip.One(run', t);
    run' := Flip.One(run', t);
    run' := Flip.One(run', t);
  }

  lemma Draw(run: seq<State>, t: nat, size: nat, head: nat, tail: nat) returns (run': seq<State>)
    requires Ends(run, size, head, tail) && t < 5 && Last(run).thr[t] == Idle
    ensures Ends(run', size, head + 1, tail) && Moved(run, run', t) && SameCells(Last(run), Last(run'))
    ensures Dequeuing(Last(run').thr[t], head)
  {
    var s := Last(run);
    run' := Flip.Append(run, GoD(s, t, DStart(s.clock)), t);
    hide IsRun;
    run' := Flip.One(run', t);
    run' := Flip.One(run', t);
  }

  predicate Aiming(p: Pc, k: nat, i: nat) {
    p.Enqueue? && p.ep == ECas(p.ep.e, 0, k, i, false)
  }

  /** The enqueuer finds its cell empty and safe. */
  lemma Aim(run: seq<State>, t: nat, size: nat, k: nat) returns (run': seq<State>)
    requires Ends(run, size, k, k + 1) && t < 5 && Enqueuing(Last(run).thr[t], k)
    requires var c := CellOf(Last(run), k); c.val == None && !c.unsafe && c.idx <= k
    ensures Ends(run', size, k, k + 1) && Moved(run, run', t) && SameCells(Last(run), Last(run'))
    ensures Aiming(Last(run').thr[t], k, CellOf(Last(run), k).idx)
  {
    assert |run| > 0;
    hide IsRun;
    run' := Flip.One(run, t);
    run' := Flip.One(run', t);
  }

  /** An item is put into a safe empty cell, and the enqueue returns. */
  lemma PutIn(run: seq<State>, t: nat, size: nat, k: nat) returns (run': seq<State>, v: Item)
    requires Ends(run, size, k, k + 1) && t < 5 && Enqueuing(Last(run).thr[t], k)
    requires var c := CellOf(Last(run), k); c.val == None && !c.unsafe && c.idx <= k
    ensures Ends(run', size, k, k + 1) && Moved(run, run', t) && Last(run').thr[t] == Idle
    ensures Wrote(Last(run), Last(run'), k, Cell(Some(v), k, false))
  {
    run' := Aim(run, t, size, k);
    v := Last(run').thr[t].ep.e.item;
    hide IsRun;
    run' := Flip.One(run', t);
    run' := Flip.One(run', t);
  }

  /** A dequeuer whose cell holds an older item marks the cell. */
  lemma MarkIt(run: seq<State>, t: nat, size: nat, h: nat, i: nat, v: Item) returns (run': seq<State>)
    requires Ends(run, size, h + 1, h) && t < 5 && Dequeuing(Last(run).thr[t], h)
    requires CellOf(Last(run), h) == Cell(Some(v), i, false) && i < h
    ensures Ends(run', size, h + 1, h) && Moved(run, run', t) && Flip.Checking(Last(run').thr[t], h)
    ensures Wrote(Last(run), Last(run'), h, Cell(Some(v), i, true))
  {
    assert |run| > 0;
    hide IsRun;
    run' := Flip.One(run, t);
    run' := Flip.One(run', t);
    run' := Flip.One(run', t);
  }

  predicate Looking(p: Pc, h: nat, i: nat, u: bool) {
    p.Dequeue? && p.cp.DTail? && p.cp.d.lh == 0 && p.cp.d.h == h && p.cp.i == i && p.cp.u == u
  }

  lemma Look(run: seq<State>, t: nat, size: nat, h: nat) returns (run': seq<State>)
    requires Ends(run, size, h + 1, h) && t < 5 && Dequeuing(Last(run).thr[t], h)
    requires CellOf(Last(run), h).val == None && CellOf(Last(run), h).idx <= h
    ensures Ends(run', size, h + 1, h) && Moved(run, run', t) && SameCells(Last(run), Last(run'))
    ensures Looking(Last(run').thr[t], h, CellOf(Last(run), h).idx, CellOf(Last(run), h).unsafe)
    ensures Last(run').thr[t].cp.d.r == 0
  {
    assert |run| > 0;
    hide IsRun;
    run' := Flip.One(run, t);
    run' := Flip.One(run', t);
  }

  /** A dequeuer that finds its cell empty and `tail` not past its ticket skips the cell. */
  lemma SkipIt(run: seq<State>, t: nat, size: nat, h: nat) returns (run': seq<State>)
    requires Ends(run, size, h + 1, h) && t < 5 && Dequeuing(Last(run).thr[t], h)
    requires CellOf(Last(run), h).val == None && CellOf(Last(run), h).idx <= h
    ensures Ends(run', size, h + 1, h) && Moved(run, run', t) && Flip.Checking(Last(run').thr[t], h)
    ensures Wrote(Last(run), Last(run'), h, Cell(None, h + size, CellOf(Last(run), h).unsafe))
  {
    run' := Look(run, t, size, h);
    hide IsRun;
    run' := Flip.One(run', t);
    run' := Flip.One(run', t);
  }

  /** The dequeuer takes its item and returns. */
  lemma TakeIt(run: seq<State>, t: nat, size: nat, head: nat, h: nat, v: Item) returns (run': seq<State>)
    requires Ends(run, size, head, head) && t < 5 && Dequeuing(Last(run).thr[t], h)
    requires CellOf(Last(run), h) == Cell(Some(v), h, true)
    ensures Ends(run', size, head, head) && Moved(run, run', t) && Last(run').thr[t] == Idle
    ensures Wrote(Last(run), Last(run'), h, Cell(None, h + size, true))
  {
    assert |run| > 0;
    hide IsRun;
    run' := Flip.One(run, t);
    run' := Flip.One(run', t);
    run' := Flip.One(run', t);
    run' := Flip.One(run', t);
  }

  predicate Comparing(p: Pc, h: nat) {
    p.Leaving? && p.xp.FAgain? && p.xp.x.lh == 0 && p.xp.w == Word(false, h) && p.xp.hs == h + 1
  }

  lemma Sample(run: seq<State>, t: nat, size: nat, h: nat) returns (run': seq<State>)
    requires Ends(run, size, h + 1, h) && t < 5 && Flip.Checking(Last(run).thr[t], h)
    ensures Ends(run', size, h + 1, h) && Moved(run, run', t) && SameCells(Last(run), Last(run'))
    ensures Comparing(Last(run').thr[t], h)
  {
    assert |run| > 0;
    hide IsRun, AllDrawn;
    run' := Flip.One(run, t);
    run' := Flip.One(run', t);
    run' := Flip.One(run', t);
  }

  /** A dequeuer that has left its cell finds `tail` behind, raises it, and returns null. */
  lemma FindNothing(run: seq<State>, t: nat, size: nat, h: nat) returns (run': seq<State>)
    requires Ends(run, size, h + 1, h) && t < 5 && Flip.Checking(Last(run).thr[t], h)
    ensures Ends(run', size, h + 1, h + 1) && Moved(run, run', t) && SameCells(Last(run), Last(run'))
    ensures Last(run').thr[t] == Idle
  {
    run' := Sample(run, t, size, h);
    hide IsRun;
    run' := Flip.One(run', t);
    run' := Flip.One(run', t);
    run' := Flip.One(run', t);
    run' := Flip.One(run', t);
  }

  ghost predicate AllIdle(s: State) {
    s.thr == [Idle, Idle, Idle, Idle, Idle]
  }

  /** From ticket `m` on, all cells are empty, none is past its ticket, and the last `d` are unsafe. */
  ghost predicate Prepared(s: State, m: nat, d: nat)
    requires |s.rings| > 0 && |s.rings[0].cells| > 0
  {
    forall t: nat :: m <= t < m + |s.rings[0].cells| ==>
      && CellOf(s, t).val == None && CellOf(s, t).idx <= t
      && (CellOf(s, t).unsafe <==> t + d >= m + |s.rings[0].cells|)
  }

  /** In the course of a pass: ticket `m` holds an item, and the cells before ticket `h` are skipped. */
  ghost predicate Passing(s: State, m: nat, d: nat, h: nat, v: Item)
    requires |s.rings| > 0 && |s.rings[0].cells| > 0
  {
    && CellOf(s, m) == Cell(Some(v), m, false)
    && (forall t: nat :: m < t < m + |s.rings[0].cells| ==>
          && CellOf(s, t).val == None
          && (if t < h then CellOf(s, t).idx == t + |s.rings[0].cells| else CellOf(s, t).idx <= t)
          && (CellOf(s, t).unsafe <==> t + d >= m + |s.rings[0].cells|))
  }

  /** A dequeue that finds nothing. */
  lemma NullDequeue(run: seq<State>, size: nat, h: nat) returns (run': seq<State>)
    requires Ends(run, size, h, h) && Last(run).thr[2] == Idle
    requires CellOf(Last(run), h).val == None && CellOf(Last(run), h).idx <= h
    ensures Ends(run', size, h + 1, h + 1) && Last(run').thr == Last(run).thr
    ensures Wrote(Last(run), Last(run'), h, Cell(None, h + size, CellOf(Last(run), h).unsafe))
  {
    var a := Draw(run, 2, size, h, h);
    hide IsRun;
    var b := SkipIt(a, 2, size, h);
    run' := FindNothing(b, 2, size, h);
  }

  lemma PassingNext(s: State, s': State, m: nat, d: nat, h: nat, v: Item)
    requires |s.rings| > 0 && |s.rings[0].cells| > 0 && Passing(s, m, d, h, v) && m < h < m + |s.rings[0].cells|
    requires Wrote(s, s', h, Cell(None, h + |s.rings[0].cells|, CellOf(s, h).unsafe))
    ensures Passing(s', m, d, h + 1, v)
  {
    var c := Cell(None, h + |s.rings[0].cells|, CellOf(s, h).unsafe);
    WroteAt(s, s', h, c, m);
    forall t: nat | m < t < m + |s.rings[0].cells|
      ensures CellOf(s', t).val == None
      ensures if t < h + 1 then CellOf(s', t).idx == t + |s.rings[0].cells| else CellOf(s', t).idx <= t
      ensures CellOf(s', t).unsafe <==> t + d >= m + |s.rings[0].cells|
    {
      WroteAt(s, s', h, c, t);
    }
  }

  lemma {:induction false} NullDequeues(run: seq<State>, size: nat, m: nat, d: nat, h: nat, v: Item)
    returns (run': seq<State>)
    requires Ends(run, size, h, h) && Last(run).thr[2] == Idle && m < h <= m + size && Passing(Last(run), m, d, h, v)
    ensures Ends(run', size, m + size, m + size) && Last(run').thr == Last(run).thr
    ensures Passing(Last(run'), m, d, m + size, v)
    decreases m + size - h
  {
    run' := run;
    if h < m + size {
      run' := NullDequeue(run, size, h);
      PassingNext(Last(run), Last(run'), m, d, h, v);
      hide IsRun, Passing;
      run' := NullDequeues(run', size, m, d, h + 1, v);
    }
  }

  /** An item is put in, and a dequeuer draws its ticket and pauses. */
  lemma Pause(run: seq<State>, size: nat, m: nat, d: nat) returns (run': seq<State>, v: Item)
    requires Ends(run, size, m, m) && AllIdle(Last(run)) && d < size && Prepared(Last(run), m, d)
    ensures Ends(run', size, m + 1, m + 1) && Passing(Last(run'), m, d, m + 1, v)
    ensures Dequeuing(Last(run').thr[1], m) && Last(run').thr == [Idle, Last(run').thr[1], Idle, Idle, Idle]
  {
    var a := Issue(run, 0, size, m, m);
    var b;
    hide IsRun;
    assert CellOf(Last(run), m).val == None;
    b, v := PutIn(a, 0, size, m);
    run' := Draw(b, 1, size, m, m + 1);
    PassingStart(Last(run), Last(run'), m, d, v);
  }

  lemma PassingStart(s: State, s': State, m: nat, d: nat, v: Item)
    requires |s.rings| > 0 && |s.rings[0].cells| > 0 && Prepared(s, m, d)
    requires Wrote(s, s', m, Cell(Some(v), m, false))
    ensures Passing(s', m, d, m + 1, v)
  {
    WroteAt(s, s', m, Cell(Some(v), m, false), m);
    forall t: nat | m < t < m + |s.rings[0].cells|
      ensures CellOf(s', t) == CellOf(s, t) && CellOf(s, t).val == None && CellOf(s, t).idx <= t
      ensures CellOf(s, t).unsafe <==> t + d >= m + |s.rings[0].cells|
    {
      WroteAt(s, s', m, Cell(Some(v), m, false), t);
    }
  }

  /** The other dequeuer comes round to the cell and marks it, and the first one takes the item. */
  lemma Resume(run: seq<State>, size: nat, m: nat, d: nat, v: Item) returns (run': seq<State>)
    requires Ends(run, size, m + size, m + size) && Passing(Last(run), m, d, m + size, v) && d < size
    requires Dequeuing(Last(run).thr[1], m) && Last(run).thr == [Idle, Last(run).thr[1], Idle, Idle, Idle]
    ensures Ends(run', size, m + size + 1, m + size + 1) && AllIdle(Last(run'))
    ensures Prepared(Last(run'), m + size + 1, d + 1)
  {
    var a := Draw(run, 2, size, m + size, m + size);
    hide IsRun;
    SlotWraps(Last(a).rings[0], m);
    var b := MarkIt(a, 2, size, m + size, m, v);
    var c := FindNothing(b, 2, size, m + size);
    WroteAt(Last(a), Last(b), m + size, Cell(Some(v), m, true), m);
    SlotWraps(Last(b).rings[0], m);
    run' := TakeIt(c, 1, size, m + size + 1, m, v);
    PreparedNext(Last(run), Last(b), Last(run'), m, d, v);
  }

  lemma PreparedNext(s: State, s1: State, s': State, m: nat, d: nat, v: Item)
    requires |s.rings| > 0 && |s.rings[0].cells| > 0 && Passing(s, m, d, m + |s.rings[0].cells|, v)
    requires Wrote(s, s1, m + |s.rings[0].cells|, Cell(Some(v), m, true))
    requires |s1.rings| > 0 && Wrote(s1, s', m, Cell(None, m + |s.rings[0].cells|, true))
    ensures Prepared(s', m + |s.rings[0].cells| + 1, d + 1)
  {
    var size := |s.rings[0].cells|;
    var m' := m + size + 1;
    forall t: nat | m' <= t < m' + size
      ensures CellOf(s', t).val == None && CellOf(s', t).idx <= t
      ensures CellOf(s', t).unsafe <==> t + (d + 1) >= m' + size
    {
      var u := t - size;
      SlotWraps(s'.rings[0], u);
      if u < m + size {
        WroteAt(s1, s', m, Cell(None, m + size, true), u);
        WroteAt(s, s1, m + size, Cell(Some(v), m, true), u);
        assert CellOf(s', t) == CellOf(s, u);
      } else {
        SlotWraps(s'.rings[0], m);
        WroteAt(s1, s', m, Cell(None, m + size, true), m);
        assert CellOf(s', t) == CellOf(s', m);
      }
    }
  }

  /** One more cell is unsafe, and every operation has completed. */
  lemma OneMore(run: seq<State>, size: nat, m: nat, d: nat) returns (run': seq<State>)
    requires Ends(run, size, m, m) && AllIdle(Last(run)) && d < size && Prepared(Last(run), m, d)
    ensures Ends(run', size, m + size + 1, m + size + 1) && AllIdle(Last(run'))
    ensures Prepared(Last(run'), m + size + 1, d + 1)
  {
    var a, v := Pause(run, size, m, d);
    hide IsRun, Passing, Prepared;
    var b := NullDequeues(a, size, m, d, m + 1, v);
    run' := Resume(b, size, m, d, v);
  }

  lemma {:induction false} MakeUnsafe(size: nat, d: nat) returns (run: seq<State>, m: nat)
    requires size > 0 && d <= size
    ensures Ends(run, size, m, m) && AllIdle(Last(run)) && Prepared(Last(run), m, d)
  {
    if d == 0 {
      run := Begin(size);
      m := 0;
    } else {
      var a, k := MakeUnsafe(size, d - 1);
      hide IsRun, Prepared;
      run := OneMore(a, size, k, d - 1);
      m := k + size + 1;
    }
  }

  // ----- the theorem

  lemma Meet(size: nat) returns (run: seq<State>, m: nat)
    requires size > 0
    ensures IsRun(run) && Facing(Last(run), size, m)
  {
    var a;
    a, m := MakeUnsafe(size, size);
    hide IsRun;
    var b := Issue(a, 3, size, m, m);
    run := Draw(b, 4, size, m, m + 1);
    forall t: nat | m <= t < m + size
      ensures CellOf(Last(run), t).val == None && CellOf(Last(run), t).unsafe && CellOf(Last(run), t).idx <= t
    {
      assert CellOf(Last(run), t) == CellOf(Last(a), t);
    }
  }

  /** `base` can go on for `n` accesses and more with no operation completed. */
  ghost predicate GoesOnFor(base: seq<State>, n: nat) {
    exists run: seq<State> :: GoesOn(base, run) && |run| >= |base| + n
  }

  /** For every ring size, there is a run that can go on for any number of accesses with no operation
      completed, although operations are under way throughout. */
  lemma NotLockFree(size: nat)
    requires size > 0
    ensures exists base: seq<State>, t: nat ::
      && IsRun(base) && Last(base).size == size && t < |Last(base).thr| && Last(base).thr[t] != Idle
      && forall n: nat :: GoesOnFor(base, n)
  {
    var base, m := Meet(size);
    assert |base| > 0 && 3 < |Last(base).thr| && Last(base).thr[3] != Idle;
    hide IsRun, GoesOn, Facing;
    forall n: nat ensures GoesOnFor(base, n) {
      var run := Rounds(base, size, m, n);
    }
  }
}
