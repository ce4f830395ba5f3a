/** An operation that runs alone returns, from every reachable state. */
module Solo {
  import opened Rings
  import opened Queue
  import opened Invariant
  import opened Preserve

  /** `n` transitions of thread `t` alone; it stops when its operation has returned. */
  ghost function Alone(s: State, t: nat, n: nat): State
    requires Inv(s) && t < |s.thr|
    decreases n
  {
    if n == 0 || s.thr[t] == Idle then s
    else
      ExecInv(s, t);
      Alone(Exec(s, t), t, n - 1)
  }

  lemma ExecInv(s: State, t: nat)
    requires Inv(s) && t < |s.thr| && s.thr[t] != Idle
    ensures Ready(s, t) && Inv(Exec(s, t)) && t < |Exec(s, t).thr|
  {
    hide Inv;
    hide Exec;
    NeverStuck(s, t);
    var s' := Exec(s, t);
    assert Step(s, s', t);
    hide Step;
    StepInv(s, s', t);
    StepFrame(s, s', t);
  }

  // ----- a measure that falls with every transition

  /** Lexicographic order on the six components of the measure. */
  datatype Rank = Rank(a: nat, b: nat, c: nat, d: nat, e: nat, f: nat)

  predicate Less(x: Rank, y: Rank) {
    || x.a < y.a
    || (x.a == y.a && x.b < y.b)
    || (x.a == y.a && x.b == y.b && x.c < y.c)
    || (x.a == y.a && x.b == y.b && x.c == y.c && x.d < y.d)
    || (x.a == y.a && x.b == y.b && x.c == y.c && x.d == y.d && x.e < y.e)
    || (x.a == y.a && x.b == y.b && x.c == y.c && x.d == y.d && x.e == y.e && x.f < y.f)
  }

  function Over(x: int, y: int): nat {
    if x > y then x - y else 0
  }

  /** Enqueue tickets until the last ring must be closed. */
  ghost function Room(s: State): nat
    requires |s.rings| > 0
  {
    var q := s.rings[|s.rings| - 1];
    if q.closed then 0 else 1 + Over(q.head + s.size + 1, q.tail)
  }

  /** The enqueuer's next pass ends with a closed ring or a deposit. */
  predicate MustClose(s: State, lt: nat, k: nat) {
    && lt + 1 == |s.rings|
    && !s.rings[lt].closed
    && s.rings[lt].tail == k + 1
    && k - s.rings[lt].head >= s.size
  }

  ghost function EnqRank(s: State, p: EnqPc): Rank
    requires |s.rings| > 0
  {
    var ahead := Over(|s.rings| - 1, s.tail);
    match p
    case EDone(_, _) => Rank(0, 0, 0, 0, 0, 0)
    case ESwing(_, _) => Rank(0, 0, 0, 0, 0, 1)
    case EStart(_) => Rank(1, ahead, Room(s), 10, 0, 0)
    case ENext(_, lt) => Rank(1, ahead, Room(s), if lt == s.tail then 9 else 29, 0, 0)
    case EHelp(_, lt) => Rank(1, ahead, Room(s), if lt == s.tail then 8 else 28, 0, 0)
    case ETicket(_, lt) => Rank(1, ahead, Room(s), if lt + 1 == |s.rings| then 8 else 28, 0, 0)
    case EAppend(_, lt) => Rank(1, ahead, Room(s), if lt + 1 == |s.rings| then 7 else 27, 0, 0)
    case EIdx(_, lt, k) => Rank(1, ahead, Room(s), if MustClose(s, lt, k) then 7 else 27, 0, 0)
    case EVal(_, lt, k, _, _) => Rank(1, ahead, Room(s), if MustClose(s, lt, k) then 6 else 26, 0, 0)
    case EHead(_, lt, k, _, _) => Rank(1, ahead, Room(s), if MustClose(s, lt, k) then 5 else 25, 0, 0)
    case ECas(_, lt, k, _, _) => Rank(1, ahead, Room(s), if MustClose(s, lt, k) then 4 else 24, 0, 0)
    case EFull(_, lt, k) => Rank(1, ahead, Room(s), if MustClose(s, lt, k) then 3 else 23, 0, 0)
    case EClose(_, lt, k) => Rank(1, ahead, Room(s), if MustClose(s, lt, k) then 2 else 22, 0, 0)
  }

  lemma EnqListFalls(s: State, t: nat)
    requires Ready(s, t) && s.thr[t].Enqueue? && s.tail < |s.rings|
    requires var p := s.thr[t].ep; p.EStart? || p.ENext? || p.EHelp? || p.EAppend? || p.ESwing?
    requires s.thr[t].ep.EHelp? ==> s.thr[t].ep.lt + 1 < |s.rings|
    ensures Less(EnqRank(EnqStep(s, t), EnqStep(s, t).thr[t].ep), EnqRank(s, s.thr[t].ep))
  {}

  lemma EnqTicketFalls(s: State, t: nat, e: Enq, lt: nat)
    requires Ready(s, t) && s.thr[t] == Enqueue(ETicket(e, lt)) && s.tail < |s.rings|
    requires lt + 1 < |s.rings| ==> s.rings[lt].closed
    ensures Less(EnqRank(EnqStep(s, t), EnqStep(s, t).thr[t].ep), EnqRank(s, s.thr[t].ep))
  {
    var q := DrawTail(s.rings[lt], t);
    assert q.head == s.rings[lt].head && q.tail == s.rings[lt].tail + 1 && q.closed == s.rings[lt].closed;
    hide DrawTail;
  }

  lemma EnqLoadFalls(s: State, t: nat)
    requires Ready(s, t) && s.thr[t].Enqueue? && s.tail < |s.rings|
    requires s.thr[t].ep.EIdx? || s.thr[t].ep.EVal? || s.thr[t].ep.EHead?
    ensures Less(EnqRank(EnqStep(s, t), EnqStep(s, t).thr[t].ep), EnqRank(s, s.thr[t].ep))
  {}

  lemma EnqCasFalls(s: State, t: nat)
    requires Ready(s, t) && s.thr[t].Enqueue? && s.tail < |s.rings|
    requires s.thr[t].ep.ECas? || s.thr[t].ep.EFull?
    ensures Less(EnqRank(EnqStep(s, t), EnqStep(s, t).thr[t].ep), EnqRank(s, s.thr[t].ep))
  {}

  lemma EnqCloseFalls(s: State, t: nat, e: Enq, lt: nat, k: nat)
    requires Ready(s, t) && s.thr[t] == Enqueue(EClose(e, lt, k)) && s.tail < |s.rings|
    ensures Less(EnqRank(EnqStep(s, t), EnqStep(s, t).thr[t].ep), EnqRank(s, s.thr[t].ep))
  {}

  lemma EnqFalls(s: State, t: nat)
    requires Inv(s) && Ready(s, t) && s.thr[t].Enqueue? && !s.thr[t].ep.EDone?
    ensures Less(EnqRank(EnqStep(s, t), EnqStep(s, t).thr[t].ep), EnqRank(s, s.thr[t].ep))
  {
    hide LogOk;
    hide RingInv;
    hide EnqStep;
    hide EnqRank;
    assert ThreadOk(s, t, s.thr[t]);
    match s.thr[t].ep {
      case ETicket(e, lt) => EnqTicketFalls(s, t, e, lt);
      case EClose(e, lt, k) => EnqCloseFalls(s, t, e, lt, k);
      case EIdx(_, _, _) => EnqLoadFalls(s, t);
      case EVal(_, _, _, _, _) => EnqLoadFalls(s, t);
      case EHead(_, _, _, _, _) => EnqLoadFalls(s, t);
      case ECas(_, _, _, _, _) => EnqCasFalls(s, t);
      case EFull(_, _, _) => EnqCasFalls(s, t);
      case _ => EnqListFalls(s, t);
    }
  }

  // ----- dequeue

  /** Tickets between `head` and `tail` of the ring the queue's `head` points to. */
  ghost function Backlog(s: State): nat
    requires s.head < |s.rings|
  {
    Over(s.rings[s.head].tail, s.rings[s.head].head)
  }

  /** The dequeuer's pass over ring `lh` ends with a return or with `head` moved on. */
  predicate MustLeave(s: State, lh: nat, h: nat) {
    && lh == s.head < |s.rings|
    && s.rings[lh].head == h + 1
    && s.rings[lh].tail <= h + 1
  }

  ghost function InCell(s: State, d: Deq, current: bool, step: nat): Rank
    requires s.head < |s.rings|
  {
    Rank(Over(|s.rings| - 1, s.head), Backlog(s), if MustLeave(s, d.lh, d.h) then 4 else 9,
         Over(PATIENCE + 2, d.r), if current then step else 10 + step, 0)
  }

  predicate Reads(s: State, d: Deq, i: nat, u: bool) {
    && d.lh < |s.rings| && |s.rings[d.lh].cells| > 0
    && At(s.rings[d.lh], d.h).idx == i && At(s.rings[d.lh], d.h).unsafe == u
  }

  predicate Holds(s: State, d: Deq, v: Option<Item>, i: nat, u: bool) {
    && d.lh < |s.rings| && |s.rings[d.lh].cells| > 0
    && At(s.rings[d.lh], d.h) == Cell(v, i, u)
  }

  ghost function CellRank(s: State, p: CellPc): Rank
    requires s.head < |s.rings|
  {
    match p
    case DDone(_, _, _) => Rank(0, 0, 0, 0, 0, 0)
    case DStart(_) => Rank(Over(|s.rings| - 1, s.head), Backlog(s), 6, 0, 0, 0)
    case DTicket(_, lh) => Rank(Over(|s.rings| - 1, s.head), Backlog(s), if lh == s.head then 5 else 10, 0, 0, 0)
    case DIdx(d) => InCell(s, d, true, 9)
    case DVal(d, i, u) => InCell(s, d, Reads(s, d, i, u), 8)
    case DTail(d, i, u) => InCell(s, d, Holds(s, d, None, i, u), 7)
    case DTake(d, v, u) => InCell(s, d, Holds(s, d, Some(v), d.h, u), 6)
    case DMark(d, v, i, u) => InCell(s, d, Holds(s, d, Some(v), i, u), 6)
    case DSkip(d, i, u) => InCell(s, d, Holds(s, d, None, i, u), 6)
    case DBts(_, lh, h) =>
      Rank(Over(|s.rings| - 1, s.head), Backlog(s), if MustLeave(s, lh, h) then 4 else 9, 0, 0, 0)
  }

  ghost function OnExit(s: State, lh: nat, h: nat, step: nat): Rank
    requires s.head < |s.rings|
  {
    Rank(Over(|s.rings| - 1, s.head), Backlog(s), if MustLeave(s, lh, h) then 3 else 8, step, 0, 0)
  }

  ghost function ExitRank(s: State, p: ExitPc): Rank
    requires s.head < |s.rings|
  {
    match p
    case DNull(_) => Rank(0, 0, 0, 0, 0, 0)
    case DCheck(_, lh, h) => OnExit(s, lh, h, 20)
    case FTail(x) => OnExit(s, x.lh, x.h, 16)
    case FHead(x, w) => OnExit(s, x.lh, x.h, if Tails(s, x, w) then 15 else 19)
    case FAgain(x, w, _) => OnExit(s, x.lh, x.h, if Tails(s, x, w) then 14 else 18)
    case FCas(x, w, _) => OnExit(s, x.lh, x.h, if Tails(s, x, w) then 13 else 17)
    case DNext(x, _) => OnExit(s, x.lh, x.h, 12)
    case DAgain(x) => OnExit(s, x.lh, x.h, 11)
    case DSwing(x) => OnExit(s, x.lh, x.h, 10)
    case DRetire(_, _) => Rank(Over(|s.rings| - 1, s.head), Backlog(s), 7, 0, 0, 0)
  }

  predicate Tails(s: State, x: Exit, w: Word) {
    x.lh < |s.rings| && TailWord(s.rings[x.lh]) == w
  }

  ghost function DeqRank(s: State, p: Pc): Rank
    requires s.head < |s.rings| && (p.Dequeue? || p.Leaving?)
  {
    match p
    case Dequeue(cp) => CellRank(s, cp)
    case Leaving(xp) => ExitRank(s, xp)
  }

  lemma LoopFalls(s: State, t: nat)
    requires ListOk(s) && Ready(s, t) && s.thr[t].Dequeue?
    requires s.thr[t].cp.DIdx? || s.thr[t].cp.DTail?
    ensures Less(DeqRank(CellStep(s, t), CellStep(s, t).thr[t]), DeqRank(s, s.thr[t]))
  {
    hide RingInv;
  }

  lemma TakeFalls(s: State, t: nat)
    requires ListOk(s) && Ready(s, t) && s.thr[t].Dequeue?
    requires s.thr[t].cp.DTake? || s.thr[t].cp.DMark?
    ensures Less(DeqRank(CellStep(s, t), CellStep(s, t).thr[t]), DeqRank(s, s.thr[t]))
  {
    hide RingInv;
  }

  lemma SkipFalls(s: State, t: nat, d: Deq, i: nat, u: bool)
    requires ListOk(s) && Ready(s, t) && s.thr[t] == Dequeue(DSkip(d, i, u))
    ensures Less(DeqRank(CellStep(s, t), CellStep(s, t).thr[t]), DeqRank(s, s.thr[t]))
  {
    hide RingInv;
    if Holds(s, d, None, i, u) {
      SkipDone(s, t, d, i, u);
    } else {
      assert CellStep(s, t) == GoD(s, t, DIdx(d));
      hide CellStep;
    }
  }

  lemma SkipDone(s: State, t: nat, d: Deq, i: nat, u: bool)
    requires ListOk(s) && Ready(s, t) && s.thr[t] == Dequeue(DSkip(d, i, u)) && Holds(s, d, None, i, u)
    ensures Less(DeqRank(CellStep(s, t), CellStep(s, t).thr[t]), DeqRank(s, s.thr[t]))
  {
    hide RingInv;
    assert CellStep(s, t) == Put(s, t, AfterSkip(d, u, s.size), d.lh, Skip(s.rings[d.lh], d.h));
    hide CellStep;
  }

  lemma ValFalls(s: State, t: nat, d: Deq, i: nat, u: bool)
    requires ListOk(s) && Ready(s, t) && s.thr[t] == Dequeue(DVal(d, i, u))
    ensures Less(DeqRank(CellStep(s, t), CellStep(s, t).thr[t]), DeqRank(s, s.thr[t]))
  {
    hide RingInv;
    if i > d.h {
      hide InCell;
      DepartFalls(s, t, d, i, u);
    } else {
      var s' := CellStep(s, t);
      var c := At(s.rings[d.lh], d.h);
      assert s'.thr[t].Dequeue? && s'.rings == s.rings && s'.head == s.head;
      if c.val.Some? {
        assert s'.thr[t].cp == if i == d.h then DTake(d, c.val.value, u) else DMark(d, c.val.value, i, u);
      } else {
        assert s'.thr[t].cp == if d.r % RELOAD == 0 then DTail(d, i, u) else EmptyCell(d, i, u);
      }
      hide CellStep;
    }
  }

  lemma DepartFalls(s: State, t: nat, d: Deq, i: nat, u: bool)
    requires ListOk(s) && Ready(s, t) && s.thr[t] == Dequeue(DVal(d, i, u)) && i > d.h
    ensures Less(DeqRank(CellStep(s, t), CellStep(s, t).thr[t]), DeqRank(s, s.thr[t]))
  {
    hide RingInv;
  }

  lemma DrawFalls(s: State, t: nat)
    requires ListOk(s) && Ready(s, t) && s.thr[t].Dequeue?
    requires s.thr[t].cp.DStart? || s.thr[t].cp.DTicket? || s.thr[t].cp.DBts?
    ensures Less(DeqRank(CellStep(s, t), CellStep(s, t).thr[t]), DeqRank(s, s.thr[t]))
  {
    hide RingInv;
  }

  lemma CellFalls(s: State, t: nat)
    requires ListOk(s) && Ready(s, t) && s.thr[t].Dequeue? && !s.thr[t].cp.DDone?
    ensures Less(DeqRank(CellStep(s, t), CellStep(s, t).thr[t]), DeqRank(s, s.thr[t]))
  {
    hide ListOk;
    hide CellStep;
    hide DeqRank;
    match s.thr[t].cp {
      case DStart(_) => DrawFalls(s, t);
      case DTicket(_, _) => DrawFalls(s, t);
      case DBts(_, _, _) => DrawFalls(s, t);
      case DIdx(_) => LoopFalls(s, t);
      case DVal(d, i, u) => ValFalls(s, t, d, i, u);
      case DTail(_, _, _) => LoopFalls(s, t);
      case DSkip(d, i, u) => SkipFalls(s, t, d, i, u);
      case _ => TakeFalls(s, t);
    }
  }

  lemma FixFalls(s: State, t: nat)
    requires ListOk(s) && Ready(s, t) && s.thr[t].Leaving? && ExitOk(s, s.thr[t].xp)
    requires s.thr[t].xp.FTail? || s.thr[t].xp.FHead? || s.thr[t].xp.FAgain? || s.thr[t].xp.FCas?
    ensures Less(DeqRank(ExitStep(s, t), ExitStep(s, t).thr[t]), DeqRank(s, s.thr[t]))
  {
    hide RingInv;
  }

  lemma MoveOnFalls(s: State, t: nat)
    requires ListOk(s) && Ready(s, t) && s.thr[t].Leaving? && ExitOk(s, s.thr[t].xp)
    requires var p := s.thr[t].xp; p.DCheck? || p.DNext? || p.DAgain? || p.DSwing? || p.DRetire?
    ensures Less(DeqRank(ExitStep(s, t), ExitStep(s, t).thr[t]), DeqRank(s, s.thr[t]))
  {
    hide RingInv;
    hide AllDrawn;
  }

  lemma ExitFalls(s: State, t: nat)
    requires ListOk(s) && Ready(s, t) && s.thr[t].Leaving? && ExitOk(s, s.thr[t].xp) && !s.thr[t].xp.DNull?
    ensures Less(DeqRank(ExitStep(s, t), ExitStep(s, t).thr[t]), DeqRank(s, s.thr[t]))
  {
    hide ListOk;
    hide ExitOk;
    hide ExitStep;
    hide DeqRank;
    match s.thr[t].xp {
      case FTail(_) => FixFalls(s, t);
      case FHead(_, _) => FixFalls(s, t);
      case FAgain(_, _, _) => FixFalls(s, t);
      case FCas(_, _, _) => FixFalls(s, t);
      case _ => MoveOnFalls(s, t);
    }
  }

  // ----- termination

  ghost function Measure(s: State, t: nat): Rank
    requires t < |s.thr| && |s.rings| > 0 && s.head < |s.rings|
  {
    match s.thr[t]
    case Idle => Rank(0, 0, 0, 0, 0, 0)
    case Enqueue(ep) => EnqRank(s, ep)
    case _ => DeqRank(s, s.thr[t])
  }

  lemma Falls(s: State, t: nat)
    requires Inv(s) && Ready(s, t)
    ensures
      var s' := Exec(s, t);
      && t < |s'.thr| && s'.head < |s'.rings|
      && (s'.thr[t] != Idle ==> Less(Measure(s', t), Measure(s, t)))
  {
    hide RingInv;
    hide LogOk;
    hide EnqRank;
    hide DeqRank;
    hide EnqStep;
    hide CellStep;
    hide ExitStep;
    ExecInv(s, t);
    assert ThreadOk(s, t, s.thr[t]);
    match s.thr[t]
    case Enqueue(ep) => EnqMeasure(s, t, ep);
    case Dequeue(cp) => CellMeasure(s, t, cp);
    case Leaving(xp) => ExitMeasure(s, t, xp);
  }

  lemma EnqMeasure(s: State, t: nat, ep: EnqPc)
    requires Inv(s) && Ready(s, t) && s.thr[t] == Enqueue(ep) && Inv(EnqStep(s, t)) && t < |EnqStep(s, t).thr|
    ensures EnqStep(s, t).thr[t] != Idle ==> Less(Measure(EnqStep(s, t), t), Measure(s, t))
  {
    if !ep.EDone? {
      EnqFalls(s, t);
      hide Inv;
      hide EnqRank;
    }
  }

  lemma CellMeasure(s: State, t: nat, cp: CellPc)
    requires Inv(s) && Ready(s, t) && s.thr[t] == Dequeue(cp) && Inv(CellStep(s, t)) && t < |CellStep(s, t).thr|
    ensures CellStep(s, t).thr[t] != Idle ==> Less(Measure(CellStep(s, t), t), Measure(s, t))
  {
    if !cp.DDone? {
      hide LogOk;
      hide RingInv;
      hide DeqRank;
      CellStays(s, t);
      hide CellStep;
      CellFalls(s, t);
    }
  }

  lemma CellStays(s: State, t: nat)
    requires Ready(s, t) && s.thr[t].Dequeue? && !s.thr[t].cp.DDone?
    ensures t < |CellStep(s, t).thr| && (CellStep(s, t).thr[t].Dequeue? || CellStep(s, t).thr[t].Leaving?)
  {}

  lemma ExitMeasure(s: State, t: nat, xp: ExitPc)
    requires Inv(s) && Ready(s, t) && s.thr[t] == Leaving(xp) && ExitOk(s, xp)
    requires Inv(ExitStep(s, t)) && t < |ExitStep(s, t).thr|
    ensures ExitStep(s, t).thr[t] != Idle ==> Less(Measure(ExitStep(s, t), t), Measure(s, t))
  {
    if !xp.DNull? {
      ExitFalls(s, t);
      hide Inv;
      hide DeqRank;
    }
  }

  lemma {:induction false} Returns(s: State, t: nat) returns (n: nat)
    requires Inv(s) && t < |s.thr|
    ensures t < |Alone(s, t, n).thr| && Alone(s, t, n).thr[t] == Idle
    decreases Measure(s, t).a, Measure(s, t).b, Measure(s, t).c, Measure(s, t).d, Measure(s, t).e, Measure(s, t).f
  {
    hide Inv;
    hide Measure;
    hide Exec;
    if s.thr[t] == Idle {
      n := 0;
    } else {
      ExecInv(s, t);
      Falls(s, t);
      var s' := Exec(s, t);
      if s'.thr[t] == Idle {
        n := 1;
        assert Alone(s', t, 0) == s';
      } else {
        var m := Returns(s', t);
        n := m + 1;
      }
    }
  }

  /** From every state of every run, a thread that runs alone completes its operation. */
  lemma SoloTermination(run: seq<State>, t: nat)
    requires IsRun(run) && t < |Last(run).thr|
    ensures Inv(Last(run))
    ensures exists n: nat :: t < |Alone(Last(run), t, n).thr| && Alone(Last(run), t, n).thr[t] == Idle
  {
    hide Inv;
    RunInv(run);
    var n := Returns(Last(run), t);
  }
}
