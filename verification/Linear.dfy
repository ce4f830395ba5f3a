/** The queue is linearizable.  An enqueue takes effect when the ticket of its deposit is issued; a
    dequeue that returns an item takes effect when its ticket has been both issued and drawn; and a
    dequeue that returns null takes effect when it finds `tail` no further than one past its ticket.
    Ordered by these instants, the operations of a run are a legal history of a first-in first-out
    queue. */
module Linear {
  import opened Rings
  import opened Queue
  import opened Invariant
  import opened Preserve
  import opened Theorems
  import opened Tickets
  import Accesses
  import Solo
  import H = Histories

  // ----- operations

  /** An operation that has completed: its thread, and the transition in which it returned. */
  datatype Op = Op(t: nat, e: nat)

  ghost predicate Completed(run: seq<State>, o: Op) {
    && o.e + 1 < |run| && o.t < |run[o.e].thr| && o.t < |run[o.e + 1].thr|
    && run[o.e].thr[o.t] != Idle && run[o.e + 1].thr[o.t] == Idle
  }

  /** The program counter from which it returned. */
  ghost function PcOf(run: seq<State>, o: Op): Pc
    requires Completed(run, o)
  {
    run[o.e].thr[o.t]
  }

  /** The transition in which it was invoked. */
  ghost function Start(run: seq<State>, o: Op): nat
    requires Completed(run, o)
  {
    Began(PcOf(run, o))
  }

  /** The program counter right after it was invoked. */
  ghost function InvokedPc(run: seq<State>, o: Op): Pc
    requires Completed(run, o)
  {
    var n := Start(run, o) + 1;
    if n < |run| && o.t < |run[n].thr| then run[n].thr[o.t] else Idle
  }

  /** The operation as its caller sees it: an enqueue of the item with which it was invoked, or a dequeue
      with the item or the null that it returns. */
  ghost function CallOf(run: seq<State>, o: Op): H.Call
    requires Completed(run, o)
  {
    if InvokedPc(run, o).Enqueue? then H.Put(InvokedPc(run, o).ep.e.item)
    else match PcOf(run, o)
      case Dequeue(DDone(_, _, v)) => H.Got(v)
      case _ => H.Nothing
  }

  /** An operation returns as what it was invoked, an enqueue or a dequeue. */
  lemma ReturnsAsInvoked(run: seq<State>, o: Op)
    requires IsRun(run) && Completed(run, o)
    ensures Start(run, o) + 1 <= o.e && o.t < |run[Start(run, o)].thr| && run[Start(run, o)].thr[o.t] == Idle
    ensures InvokedPc(run, o) == Invocation(PcOf(run, o))
    ensures
      if InvokedPc(run, o).Enqueue?
      then PcOf(run, o).Enqueue? && PcOf(run, o).ep.EDone?
           && InvokedPc(run, o) == Enqueue(EStart(Enq(PcOf(run, o).ep.e.item, Start(run, o), 0)))
      else InvokedPc(run, o) == Dequeue(DStart(Start(run, o)))
           && ((PcOf(run, o).Dequeue? && PcOf(run, o).cp.DDone?) || (PcOf(run, o).Leaving? && PcOf(run, o).xp.DNull?))
  {
    OpReturns(run, o);
    InvokedWith(run, o.e, o.t);
  }

  /** The same, with the position of the item. */
  ghost function ActOf(run: seq<State>, o: Op): H.Act<Pos>
    requires Completed(run, o)
  {
    match PcOf(run, o)
    case Enqueue(EDone(_, at)) => H.In(at)
    case Dequeue(DDone(_, at, _)) => H.Out(at)
    case _ => H.Empty
  }

  lemma OpReturns(run: seq<State>, o: Op)
    requires IsRun(run) && Completed(run, o)
    ensures Returning(PcOf(run, o))
  {
    hide Step;
    assert Next(run[o.e], run[o.e + 1]);
    Accesses.OwnStep(run[o.e], run[o.e + 1], o.t);
    StepReturns(run[o.e], run[o.e + 1], o.t);
  }

  ghost function Upto(run: seq<State>, n: nat): seq<State>
    requires n < |run|
  {
    run[..n + 1]
  }

  /** The thread is idle at the invocation and busy from then to the return. */
  lemma OpSpan(run: seq<State>, o: Op)
    requires IsRun(run) && Completed(run, o)
    ensures Start(run, o) < o.e && run[Start(run, o)].clock == Start(run, o)
    ensures forall n :: Start(run, o) < n <= o.e ==> o.t < |run[n].thr| && run[n].thr[o.t] != Idle
  {
    hide Step;
    var before := Upto(run, o.e);
    BusySinceBegan(before, o.t);
    ClockCounts(run, Start(run, o));
    forall n | Start(run, o) < n <= o.e ensures o.t < |run[n].thr| && run[n].thr[o.t] != Idle {
      assert before[n] == run[n];
    }
  }

  /** Operations of one thread do not overlap. */
  lemma SameOp(run: seq<State>, o: Op, o': Op, n: nat)
    requires IsRun(run) && Completed(run, o) && Completed(run, o') && o.t == o'.t
    requires Start(run, o) < n <= o.e && Start(run, o') < n <= o'.e
    ensures o == o'
  {
    hide IsRun;
    OpSpan(run, o);
    OpSpan(run, o');
  }

  // ----- the instant at which an operation takes effect

  ghost predicate Reached(s: State, p: Pos, both: bool) {
    Issued(s, p) && (both ==> Drawn(s, p))
  }

  ghost function FirstTime(run: seq<State>, p: Pos, both: bool, n: nat): nat
    requires n < |run|
  {
    if n == 0 || !Reached(run[n - 1], p, both) then n else FirstTime(run, p, both, n - 1)
  }

  lemma {:induction false} FirstTimeIs(run: seq<State>, p: Pos, both: bool, n: nat)
    requires IsRun(run) && n < |run| && Reached(run[n], p, both)
    ensures var k := FirstTime(run, p, both, n);
      k <= n && Reached(run[k], p, both) && forall j :: 0 <= j < k ==> !Reached(run[j], p, both)
  {
    hide IsRun;
    if n > 0 && Reached(run[n - 1], p, both) {
      FirstTimeIs(run, p, both, n - 1);
    } else if n > 0 {
      forall j | 0 <= j < n ensures !Reached(run[j], p, both) {
        Permanent(run, j, n - 1, p);
      }
    }
  }

  ghost function Time(run: seq<State>, o: Op): nat
    requires Completed(run, o)
  {
    var p := PcOf(run, o);
    if p.Enqueue? && p.ep.EDone? then FirstTime(run, p.ep.at, false, o.e)
    else if p.Dequeue? && p.cp.DDone? then FirstTime(run, p.cp.at, true, o.e)
    else if p.Leaving? && p.xp.DNull? then p.xp.x.at
    else 0
  }

  /** What is known when an operation returns. */
  lemma AtReturn(run: seq<State>, o: Op)
    requires IsRun(run) && Completed(run, o)
    ensures Returning(PcOf(run, o))
    ensures match PcOf(run, o)
      case Enqueue(EDone(e, at)) =>
        && Filled(run[o.e], at) && run[o.e].rings[at.ring].dep[at.ticket] == e.item
        && Issued(run[o.e], at) && run[o.e].rings[at.ring].issuedTo[at.ticket] == o.t
        && Start(run, o) < |run| && !Issued(run[Start(run, o)], at)
      case Dequeue(DDone(_, at, v)) =>
        && Taken(run[o.e], at) && Filled(run[o.e], at) && run[o.e].rings[at.ring].dep[at.ticket] == v
        && Issued(run[o.e], at) && Drawn(run[o.e], at) && run[o.e].rings[at.ring].drawnBy[at.ticket] == o.t
        && Start(run, o) < |run| && !Drawn(run[Start(run, o)], at)
      case Leaving(DNull(x)) =>
        && x.began < x.at < o.e && x.lh < |run[o.e].rings|
      case _ => true
  {
    OpReturns(run, o);
    InvAt(run, o.e);
    ClockCounts(run, o.e);
    assert ThreadOk(run[o.e], o.t, run[o.e].thr[o.t]);
    HeldSince(Upto(run, o.e), o.t);
    OpSpan(run, o);
    if PcOf(run, o).Dequeue? {
      TicketFacts(run[o.e], PcOf(run, o).cp.at);
    }
    hide Inv, Step;
  }

  /** The instant lies between invocation and return. */
  lemma InSpan(run: seq<State>, o: Op)
    requires IsRun(run) && Completed(run, o)
    ensures Start(run, o) < Time(run, o) <= o.e
  {
    hide IsRun;
    AtReturn(run, o);
    OpSpan(run, o);
    var p := PcOf(run, o);
    if !p.Leaving? {
      var at := if p.Enqueue? then p.ep.at else p.cp.at;
      FirstTimeIs(run, at, p.Dequeue?, o.e);
      if Time(run, o) <= Start(run, o) {
        Permanent(run, Time(run, o), Start(run, o), at);
      }
    }
  }

  // ----- the order

  /** Keys are compared component by component; at one instant, additions come first, and tests for
      emptiness last. */
  datatype Key = Key(time: nat, kind: nat, a: nat, b: nat)

  predicate Less(x: Key, y: Key) {
    || x.time < y.time
    || (x.time == y.time && x.kind < y.kind)
    || (x.time == y.time && x.kind == y.kind && x.a < y.a)
    || (x.time == y.time && x.kind == y.kind && x.a == y.a && x.b < y.b)
  }

  lemma LessTotal(x: Key, y: Key)
    ensures x == y || Less(x, y) || Less(y, x)
  {}

  lemma LessTrans(x: Key, y: Key, z: Key)
    requires Less(x, y) && Less(y, z)
    ensures Less(x, z)
  {}

  ghost function KeyOf(run: seq<State>, o: Op): Key
    requires Completed(run, o)
  {
    match ActOf(run, o)
    case In(at) => Key(Time(run, o), 0, at.ring, at.ticket)
    case Out(at) => Key(Time(run, o), 1, at.ring, at.ticket)
    case Empty => Key(Time(run, o), 2, o.t, 0)
  }

  /** An operation that returned before another was invoked comes before it. */
  lemma RealTime(run: seq<State>, o: Op, o': Op)
    requires IsRun(run) && Completed(run, o) && Completed(run, o') && o.e < Start(run, o')
    ensures Less(KeyOf(run, o), KeyOf(run, o'))
  {
    hide IsRun;
    InSpan(run, o);
    InSpan(run, o');
  }

  /** No two operations add or take the same element. */
  lemma OneOpPerElement(run: seq<State>, o: Op, o': Op)
    requires IsRun(run) && Completed(run, o) && Completed(run, o')
    requires ActOf(run, o) == ActOf(run, o') && !ActOf(run, o).Empty?
    ensures o == o'
  {
    hide IsRun;
    AtReturn(run, o);
    AtReturn(run, o');
    InSpan(run, o);
    InSpan(run, o');
    var at, both := ActOf(run, o).n, ActOf(run, o).Out?;
    FirstTimeIs(run, at, both, o.e);
    FirstTimeIs(run, at, both, o'.e);
    Permanent(run, o.e, if o.e <= o'.e then o'.e else o.e, at);
    Permanent(run, o'.e, if o.e <= o'.e then o'.e else o.e, at);
    var n := FirstTime(run, at, both, o.e);
    assert n == FirstTime(run, at, both, o'.e);
    SameOp(run, o, o', n);
  }

  /** Different operations have different keys. */
  lemma KeysDiffer(run: seq<State>, o: Op, o': Op)
    requires IsRun(run) && Completed(run, o) && Completed(run, o') && KeyOf(run, o) == KeyOf(run, o')
    ensures o == o'
  {
    hide IsRun;
    if ActOf(run, o).Empty? {
      InSpan(run, o);
      InSpan(run, o');
      SameOp(run, o, o', Time(run, o));
    } else {
      assert ActOf(run, o) == ActOf(run, o');
      OneOpPerElement(run, o, o');
    }
  }

  // ----- every deposit and every delivery belongs to an operation

  /** `o` is the operation that added the element at `p`, or is about to return from it. */
  ghost predicate Adder(run: seq<State>, o: Op, p: Pos) {
    || (Completed(run, o) && ActOf(run, o) == H.In(p))
    || (o.e == |run| - 1 && o.t < |Last(run).thr| && Depositing(Last(run).thr[o.t]) == Some(p))
  }

  ghost predicate Taker(run: seq<State>, o: Op, p: Pos) {
    || (Completed(run, o) && ActOf(run, o) == H.Out(p))
    || (o.e == |run| - 1 && o.t < |Last(run).thr| && Delivering(Last(run).thr[o.t]) == Some(p))
  }

  /** An enqueue that has deposited keeps its deposit until it returns. */
  lemma DepositKept(s: State, t: nat)
    requires Ready(s, t) && Depositing(s.thr[t]).Some?
    ensures var s' := Exec(s, t);
      t < |s'.thr| && (Depositing(s'.thr[t]) == Depositing(s.thr[t]) || (s.thr[t].ep.EDone? && s'.thr[t] == Idle))
  {}

  lemma DeliveryKept(s: State, t: nat)
    requires Ready(s, t) && Delivering(s.thr[t]).Some?
    ensures t < |Exec(s, t).thr| && Exec(s, t).thr[t] == Idle
  {}

  lemma StepKeeps(s: State, s': State, a: nat, t: nat)
    requires Step(s, s', a) && t < |s.thr| == |s'.thr|
    ensures Depositing(s.thr[t]).Some? ==>
      Depositing(s'.thr[t]) == Depositing(s.thr[t]) || (s.thr[t].ep.EDone? && s'.thr[t] == Idle)
    ensures Delivering(s.thr[t]).Some? ==> s'.thr[t] == s.thr[t] || s'.thr[t] == Idle
  {
    StepFrame(s, s', a);
    hide Exec;
    if a == t && Ready(s, t) && s' == Exec(s, t) {
      if Depositing(s.thr[t]).Some? {
        DepositKept(s, t);
      } else if Delivering(s.thr[t]).Some? {
        DeliveryKept(s, t);
      }
    }
  }

  lemma {:induction false} FilledByOp(run: seq<State>, p: Pos) returns (o: Op)
    requires IsRun(run) && Filled(Last(run), p)
    ensures Adder(run, o, p)
  {
    hide Step, Adds;
    assert |run| > 1;
    var m := |run| - 1;
    var before := run[..m];
    ClockCounts(run, m - 1);
    ClockCounts(run, m);
    assert Next(run[m - 1], run[m - 1 + 1]);
    var a :| Step(run[m - 1], run[m], a);
    if Filled(run[m - 1], p) {
      o := FilledByOp(before, p);
      if !Completed(before, o) {
        StepKeeps(run[m - 1], run[m], a, o.t);
        o := Op(o.t, if run[m].thr[o.t] == Idle then m - 1 else m);
      }
    } else {
      StepAdds(run[m - 1], run[m], a, p);
      AddsFilled(run[m - 1], run[m], a, p);
      o := Op(a, m);
    }
  }

  lemma AddsFilled(s: State, s': State, a: nat, p: Pos)
    requires a < |s'.thr| && Adds(s, s', a, p)
    ensures Filled(s', p) && !Filled(s, p) ==> Depositing(s'.thr[a]) == Some(p)
    ensures Taken(s', p) && !Taken(s, p) ==> Delivering(s'.thr[a]) == Some(p)
  {}

  lemma {:induction false} TakenByOp(run: seq<State>, p: Pos) returns (o: Op)
    requires IsRun(run) && Taken(Last(run), p)
    ensures Taker(run, o, p)
  {
    hide Step, Adds;
    assert |run| > 1;
    var m := |run| - 1;
    var before := run[..m];
    ClockCounts(run, m - 1);
    ClockCounts(run, m);
    assert Next(run[m - 1], run[m - 1 + 1]);
    var a :| Step(run[m - 1], run[m], a);
    if Taken(run[m - 1], p) {
      o := TakenByOp(before, p);
      if !Completed(before, o) {
        StepKeeps(run[m - 1], run[m], a, o.t);
        o := Op(o.t, if run[m].thr[o.t] == Idle then m - 1 else m);
      }
    } else {
      StepAdds(run[m - 1], run[m], a, p);
      AddsFilled(run[m - 1], run[m], a, p);
      o := Op(a, m);
    }
  }

  // ----- runs in which every operation has completed

  ghost predicate AllIdle(run: seq<State>) {
    |run| > 0 && forall t :: 0 <= t < |Last(run).thr| ==> Last(run).thr[t] == Idle
  }

  lemma AddingOp(run: seq<State>, p: Pos) returns (o: Op)
    requires IsRun(run) && AllIdle(run) && Filled(Last(run), p)
    ensures Completed(run, o) && ActOf(run, o) == H.In(p)
  {
    hide IsRun;
    o := FilledByOp(run, p);
  }

  /** A deposit whose ticket has been drawn has been taken by an operation. */
  lemma TakingOp(run: seq<State>, p: Pos) returns (o: Op)
    requires IsRun(run) && AllIdle(run) && Filled(Last(run), p) && Drawn(Last(run), p)
    ensures Completed(run, o) && ActOf(run, o) == H.Out(p)
  {
    DrawnAccounted(run, p);
    RunInv(run);
    TicketFacts(Last(run), p);
    hide IsRun, Inv;
    o := TakenByOp(run, p);
  }

  /** What is taken was added before. */
  lemma AddedBefore(run: seq<State>, o: Op, p: Pos) returns (o': Op)
    requires IsRun(run) && AllIdle(run) && Completed(run, o) && ActOf(run, o) == H.Out(p)
    ensures Completed(run, o') && ActOf(run, o') == H.In(p) && Less(KeyOf(run, o'), KeyOf(run, o))
  {
    hide IsRun;
    AtReturn(run, o);
    Permanent(run, o.e, |run| - 1, p);
    o' := AddingOp(run, p);
    AtReturn(run, o');
    FirstTimeIs(run, p, true, o.e);
    FirstTimeIs(run, p, false, o'.e);
  }

  /** If an element is reached at an instant, its operations come no later. */
  lemma TakenBy(run: seq<State>, o: Op, p: Pos, n: nat)
    requires IsRun(run) && Completed(run, o) && ActOf(run, o) == H.Out(p) && n < |run| && Reached(run[n], p, true)
    ensures Time(run, o) <= n
  {
    hide IsRun;
    AtReturn(run, o);
    FirstTimeIs(run, p, true, o.e);
  }

  /** Elements are added in the order of their positions. */
  lemma AddedInOrder(run: seq<State>, o: Op, o': Op, p: Pos, p': Pos)
    requires IsRun(run) && Completed(run, o) && Completed(run, o')
    requires ActOf(run, o) == H.In(p) && ActOf(run, o') == H.In(p') && Less(KeyOf(run, o), KeyOf(run, o'))
    ensures Before(p, p')
  {
    hide IsRun;
    AtReturn(run, o);
    AtReturn(run, o');
    FirstTimeIs(run, p, false, o.e);
    FirstTimeIs(run, p', false, o'.e);
    if Before(p', p) {
      IssuedInOrder(run, Time(run, o), o'.e, p', p);
    }
  }

  /** Elements are taken in the order in which they were added. */
  lemma TakenInOrder(run: seq<State>, o1: Op, o2: Op, o3: Op, p: Pos, p': Pos) returns (o: Op)
    requires IsRun(run) && AllIdle(run) && Completed(run, o1) && Completed(run, o2) && Completed(run, o3)
    requires ActOf(run, o1) == H.In(p) && ActOf(run, o2) == H.In(p') && Less(KeyOf(run, o1), KeyOf(run, o2))
    requires ActOf(run, o3) == H.Out(p')
    ensures Completed(run, o) && ActOf(run, o) == H.Out(p) && Less(KeyOf(run, o), KeyOf(run, o3))
  {
    hide IsRun;
    AddedInOrder(run, o1, o2, p, p');
    AtReturn(run, o1);
    AtReturn(run, o3);
    FirstTimeIs(run, p', true, o3.e);
    var n := Time(run, o3);
    DrawnInOrder(run, n, o1.e, p, p');
    IssuedInOrder(run, n, o1.e, p, p');
    Permanent(run, n, |run| - 1, p);
    Permanent(run, o1.e, |run| - 1, p);
    o := TakingOp(run, p);
    TakenBy(run, o, p, n);
  }

  // ----- a dequeue that finds nothing

  lemma StepToNull(s: State, s': State, t: nat, x: Exit)
    requires Step(s, s', t) && t < |s'.thr| && s'.thr[t] == Leaving(DNull(x)) && s.thr[t] != s'.thr[t]
    ensures s.thr[t].Leaving? && s.thr[t].xp.DNext? && s.thr[t].xp.x == x && |s.rings| == x.lh + 1
  {
    hide AllDrawn;
    if s.thr[t].Enqueue? {
      EnqNoStamp(s, t);
    } else if s.thr[t].Dequeue? {
      CellNoStamp(s, t);
    }
  }

  /** It looked for a next ring after its record was made, and there was none. */
  lemma {:induction false} WasLastRing(run: seq<State>, t: nat, x: Exit) returns (m: nat)
    requires IsRun(run) && t < |Last(run).thr| && Last(run).thr[t] == Leaving(DNull(x))
    ensures x.at <= m < |run| && |run[m].rings| == x.lh + 1
  {
    hide Step;
    assert |run| > 1;
    var n := |run| - 1;
    var before := run[..n];
    ClockCounts(run, n - 1);
    ClockCounts(run, n);
    assert Next(run[n - 1], run[n - 1 + 1]);
    if run[n - 1].thr[t] == run[n].thr[t] {
      m := WasLastRing(before, t, x);
    } else {
      Accesses.OwnStep(run[n - 1], run[n], t);
      StepToNull(run[n - 1], run[n], t, x);
      InvAt(run, n - 1);
      assert ThreadOk(run[n - 1], t, run[n - 1].thr[t]);
      m := n - 1;
    }
  }

  /** When the record was made, its ring was the last and `head` pointed to it. */
  lemma NullRing(run: seq<State>, o: Op, x: Exit)
    requires IsRun(run) && Completed(run, o) && PcOf(run, o) == Leaving(DNull(x)) && x.at < |run|
    ensures var s := run[x.at];
      && x.lh == s.head && |s.rings| == x.lh + 1
      && s.rings[x.lh].tail <= x.h + 1 && x.h < s.rings[x.lh].head
  {
    hide IsRun, Step, AllDrawn;
    var before := Upto(run, o.e);
    assert IsRun(before) by { RunUpto(run, o.e); }
    StampTrue(before, o.t);
    var m := WasLastRing(before, o.t, x);
    assert before[x.at] == run[x.at] && before[m] == run[m];
    InvAt(run, x.at);
    assert ThreadOk(run[x.at], o.t, run[x.at].thr[o.t]);
    hide LogOk, RingInv;
    RunLater(run, x.at, m);
    hide Grown;
  }

  lemma RunUpto(run: seq<State>, n: nat)
    requires IsRun(run) && n < |run|
    ensures IsRun(Upto(run, n))
  {
    hide Next;
  }

  /** When the record was made, every ticket issued by then under which something is ever deposited
      had been drawn. */
  lemma NullDrawn(run: seq<State>, o: Op, x: Exit, p: Pos, k: nat)
    requires IsRun(run) && Completed(run, o) && PcOf(run, o) == Leaving(DNull(x))
    requires x.at < |run| && Issued(run[x.at], p) && k < |run| && Filled(run[k], p)
    ensures Drawn(run[x.at], p)
  {
    hide IsRun, Inv;
    NullRing(run, o, x);
    InvAt(run, x.at);
    TicketFacts(run[x.at], p);
    if p.ring < run[x.at].head {
      HandOff(run, x.at, k, p.ring, p.ticket);
    }
  }

  /** Nothing is found only when every element added before has been taken. */
  lemma TakenBeforeNull(run: seq<State>, o: Op, o': Op, p: Pos) returns (o'': Op)
    requires IsRun(run) && AllIdle(run) && Completed(run, o) && Completed(run, o')
    requires ActOf(run, o) == H.In(p) && ActOf(run, o').Empty? && Less(KeyOf(run, o), KeyOf(run, o'))
    ensures Completed(run, o'') && ActOf(run, o'') == H.Out(p) && Less(KeyOf(run, o''), KeyOf(run, o'))
  {
    hide IsRun;
    AtReturn(run, o);
    AtReturn(run, o');
    FirstTimeIs(run, p, false, o.e);
    var x := PcOf(run, o').xp.x;
    Permanent(run, Time(run, o), x.at, p);
    NullDrawn(run, o', x, p, o.e);
    Permanent(run, x.at, |run| - 1, p);
    Permanent(run, o.e, |run| - 1, p);
    o'' := TakingOp(run, p);
    TakenBy(run, o'', p, x.at);
  }

  // ----- sorting the operations

  ghost function Ops(run: seq<State>): set<Op>
    requires |run| > 0
  {
    set t: nat, e: nat | t < |run[0].thr| && e < |run| && Completed(run, Op(t, e)) :: Op(t, e)
  }

  lemma OpsAreAll(run: seq<State>, o: Op)
    requires IsRun(run)
    ensures o in Ops(run) <==> Completed(run, o)
  {
    if Completed(run, o) {
      ClockCounts(run, o.e);
      assert o == Op(o.t, o.e);
    }
  }

  ghost predicate AllCompleted(run: seq<State>, S: set<Op>) {
    forall o :: o in S ==> Completed(run, o)
  }

  lemma {:induction false} FirstOp(run: seq<State>, S: set<Op>) returns (o: Op)
    requires IsRun(run) && AllCompleted(run, S) && S != {}
    ensures o in S && forall o' :: o' in S && o' != o ==> Less(KeyOf(run, o), KeyOf(run, o'))
    decreases |S|
  {
    hide IsRun, KeyOf;
    o :| o in S;
    var rest := S - {o};
    if rest != {} {
      var r := FirstOp(run, rest);
      if KeyOf(run, o) == KeyOf(run, r) {
        KeysDiffer(run, o, r);
      }
      hide Less;
      if Less(KeyOf(run, r), KeyOf(run, o)) {
        o := r;
      } else {
        LessTotal(KeyOf(run, o), KeyOf(run, r));
        forall o' | o' in S && o' != o ensures Less(KeyOf(run, o), KeyOf(run, o')) {
          if o' != r {
            assert o' in rest;
            LessTrans(KeyOf(run, o), KeyOf(run, r), KeyOf(run, o'));
          }
        }
      }
    }
  }

  ghost predicate SortedOps(run: seq<State>, lin: seq<Op>) {
    && (forall i :: 0 <= i < |lin| ==> Completed(run, lin[i]))
    && (forall i, j :: 0 <= i < j < |lin| ==> Less(KeyOf(run, lin[i]), KeyOf(run, lin[j])))
  }

  lemma {:induction false} SortOps(run: seq<State>, S: set<Op>) returns (lin: seq<Op>)
    requires IsRun(run) && AllCompleted(run, S)
    ensures SortedOps(run, lin) && forall o :: o in lin <==> o in S
    decreases |S|
  {
    hide IsRun, KeyOf;
    if S == {} {
      lin := [];
    } else {
      var o := FirstOp(run, S);
      var rest := SortOps(run, S - {o});
      lin := [o] + rest;
      forall i, j | 0 <= i < j < |lin| ensures Less(KeyOf(run, lin[i]), KeyOf(run, lin[j])) {
        assert lin[j] == rest[j - 1] && rest[j - 1] in rest;
      }
    }
  }

  // ----- the theorem

  ghost function ActsOf(run: seq<State>, lin: seq<Op>): seq<H.Act<Pos>>
    requires forall i :: 0 <= i < |lin| ==> Completed(run, lin[i])
  {
    seq(|lin|, i requires 0 <= i < |lin| => ActOf(run, lin[i]))
  }

  ghost function CallsOf(run: seq<State>, lin: seq<Op>): seq<H.Call>
    requires forall i :: 0 <= i < |lin| ==> Completed(run, lin[i])
  {
    seq(|lin|, i requires 0 <= i < |lin| => CallOf(run, lin[i]))
  }

  /** `lin` is a linearization: it has every completed operation once, an operation that returned
      before another was invoked comes before it, and it is a legal history of a queue. */
  ghost predicate Linearization(run: seq<State>, lin: seq<Op>) {
    && (forall o :: o in lin <==> Completed(run, o))
    && (forall i, j :: 0 <= i < j < |lin| ==> lin[i] != lin[j])
    && (forall i, j :: 0 <= i < j < |lin| ==> !(lin[j].e < Start(run, lin[i])))
    && H.Legal(CallsOf(run, lin))
  }

  /** An operation with a smaller key than the `i`-th is among the first `i`. */
  lemma AmongFirst(run: seq<State>, lin: seq<Op>, i: nat, o: Op)
    requires SortedOps(run, lin) && i < |lin| && o in lin && Less(KeyOf(run, o), KeyOf(run, lin[i]))
    ensures H.Among(ActsOf(run, lin), i, ActOf(run, o))
  {
    hide KeyOf, ActOf;
    var j :| 0 <= j < |lin| && lin[j] == o;
    assert j != i;
    assert !(i < j);
    assert ActsOf(run, lin)[j] == ActOf(run, o);
  }

  lemma SortedIsOrderly(run: seq<State>, lin: seq<Op>)
    requires IsRun(run) && AllIdle(run) && SortedOps(run, lin) && forall o :: o in lin <==> Completed(run, o)
    ensures H.Orderly(ActsOf(run, lin))
  {
    hide IsRun, AllIdle, KeyOf, ActOf;
    var h := ActsOf(run, lin);
    forall i, j | 0 <= i < j < |h| && h[i] == h[j] ensures h[i].Empty? {
      if !h[i].Empty? {
        OneOpPerElement(run, lin[i], lin[j]);
      }
    }
    forall i: nat | i < |h| && h[i].Out? ensures H.Among(h, i, H.In(h[i].n)) {
      var o := AddedBefore(run, lin[i], h[i].n);
      AmongFirst(run, lin, i, o);
    }
    forall i, j, k: nat | 0 <= i < j < |h| && k < |h| && h[i].In? && h[j].In? && h[k] == H.Out(h[j].n)
      ensures H.Among(h, k, H.Out(h[i].n))
    {
      var o := TakenInOrder(run, lin[i], lin[j], lin[k], h[i].n, h[j].n);
      AmongFirst(run, lin, k, o);
    }
    forall i, j: nat | 0 <= i < j < |h| && h[i].In? && h[j].Empty? ensures H.Among(h, j, H.Out(h[i].n)) {
      var o := TakenBeforeNull(run, lin[i], lin[j], h[i].n);
      AmongFirst(run, lin, j, o);
    }
  }

  /** The item at a position, at the end of the run. */
  ghost function ItemAt(s: State, p: Pos): Item {
    if Filled(s, p) then s.rings[p.ring].dep[p.ticket] else 0
  }

  lemma CallHasItem(run: seq<State>, o: Op, item: Pos -> Item)
    requires IsRun(run) && Completed(run, o) && forall p :: item(p) == ItemAt(Last(run), p)
    ensures CallOf(run, o) == H.CallOf(ActOf(run, o), item)
  {
    hide IsRun;
    AtReturn(run, o);
    ReturnsAsInvoked(run, o);
    if !ActOf(run, o).Empty? {
      Permanent(run, o.e, |run| - 1, ActOf(run, o).n);
    }
  }

  /** Every run in which all operations have completed is linearizable. */
  lemma CompleteRunLinearizable(run: seq<State>) returns (lin: seq<Op>)
    requires IsRun(run) && AllIdle(run)
    ensures Linearization(run, lin)
  {
    assert |run| > 0;
    hide IsRun, AllIdle, KeyOf, ActOf, CallOf, ItemAt, H.Orderly;
    forall o ensures o in Ops(run) <==> Completed(run, o) {
      OpsAreAll(run, o);
    }
    lin := SortOps(run, Ops(run));
    SortedIsOrderly(run, lin);
    var s := Last(run);
    var item := (p: Pos) => ItemAt(s, p);
    H.OrderlyIsLegal(ActsOf(run, lin), item);
    forall i | 0 <= i < |lin| ensures CallOf(run, lin[i]) == H.CallOf(ActOf(run, lin[i]), item) {
      CallHasItem(run, lin[i], item);
    }
    assert CallsOf(run, lin) == H.Calls(ActsOf(run, lin), item);
    forall i, j | 0 <= i < j < |lin| ensures lin[i] != lin[j] && !(lin[j].e < Start(run, lin[i])) {
      if lin[j].e < Start(run, lin[i]) {
        RealTime(run, lin[j], lin[i]);
      }
    }
  }

  // ----- completing the operations that are under way

  /** No thread begins an operation. */
  ghost predicate NoneInvoked(s: State, s': State) {
    |s'.thr| == |s.thr| && forall u :: 0 <= u < |s.thr| && s.thr[u] == Idle ==> s'.thr[u] == Idle
  }

  /** `run'` goes on after `run` with operations that were under way; none is invoked. */
  ghost predicate OnlyCompletes(run: seq<State>, run': seq<State>) {
    && 0 < |run| <= |run'| && run'[..|run|] == run
    && (forall n :: |run| - 1 <= n < |run'| - 1 ==> NoneInvoked(run'[n], run'[n + 1]))
  }

  lemma CompletesMore(run: seq<State>, run': seq<State>, run'': seq<State>)
    requires OnlyCompletes(run, run') && OnlyCompletes(run', run'')
    ensures OnlyCompletes(run, run'')
  {
    hide NoneInvoked;
    assert run''[..|run|] == run'[..|run|];
    forall n | |run| - 1 <= n < |run''| - 1 ensures NoneInvoked(run''[n], run''[n + 1]) {
      if n < |run'| - 1 {
        assert run''[n] == run'[n] && run''[n + 1] == run'[n + 1];
      }
    }
  }

  lemma Unchanged(run: seq<State>)
    requires |run| > 0
    ensures OnlyCompletes(run, run)
  {}

  lemma OneMore(run: seq<State>, t: nat) returns (run': seq<State>)
    requires IsRun(run) && t < |Last(run).thr| && Last(run).thr[t] != Idle
    ensures Ready(Last(run), t) && run' == run + [Exec(Last(run), t)] && IsRun(run')
    ensures OnlyCompletes(run, run') && |Last(run').thr| == |Last(run).thr|
    ensures forall u :: 0 <= u < |Last(run).thr| && u != t ==> Last(run').thr[u] == Last(run).thr[u]
  {
    RunInv(run);
    NeverStuck(Last(run), t);
    var s := Exec(Last(run), t);
    run' := run + [s];
    assert Step(Last(run), s, t);
    hide Inv, Exec, Step;
    StepFrame(Last(run), s, t);
    assert NoneInvoked(Last(run), s);
    hide NoneInvoked;
    forall n | 0 <= n < |run'| - 1 ensures Next(run'[n], run'[n + 1]) {
      if n < |run| - 1 {
        assert Next(run[n], run[n + 1]);
      }
    }
  }

  lemma {:induction false} FinishThread(run: seq<State>, t: nat) returns (run': seq<State>)
    requires IsRun(run) && t < |Last(run).thr| && Inv(Last(run))
    ensures IsRun(run') && OnlyCompletes(run, run') && |Last(run').thr| == |Last(run).thr|
    ensures Last(run').thr[t] == Idle
    ensures forall u :: 0 <= u < |Last(run).thr| && u != t ==> Last(run').thr[u] == Last(run).thr[u]
    decreases Solo.Measure(Last(run), t).a, Solo.Measure(Last(run), t).b, Solo.Measure(Last(run), t).c,
              Solo.Measure(Last(run), t).d, Solo.Measure(Last(run), t).e, Solo.Measure(Last(run), t).f
  {
    assert |run| > 0;
    hide IsRun, Inv, Solo.Measure, Exec, OnlyCompletes;
    Unchanged(run);
    run' := run;
    if Last(run).thr[t] != Idle {
      run' := OneMore(run, t);
      Solo.Falls(Last(run), t);
      if Last(run').thr[t] != Idle {
        var run1 := run';
        RunInv(run1);
        run' := FinishThread(run1, t);
        CompletesMore(run, run1, run');
      }
    }
  }

  lemma {:induction false} FinishThreads(run: seq<State>, k: nat) returns (run': seq<State>)
    requires IsRun(run) && k <= |Last(run).thr|
    ensures IsRun(run') && OnlyCompletes(run, run') && |Last(run').thr| == |Last(run).thr|
    ensures forall u :: 0 <= u < k ==> Last(run').thr[u] == Idle
  {
    assert |run| > 0;
    hide IsRun, Inv, OnlyCompletes;
    Unchanged(run);
    run' := run;
    if k > 0 {
      var run1 := FinishThreads(run, k - 1);
      RunInv(run1);
      run' := FinishThread(run1, k - 1);
      CompletesMore(run, run1, run');
    }
  }

  /** Every run is linearizable: the operations under way can be completed, with none invoked, and
      then all operations have a linearization. */
  lemma Linearizable(run: seq<State>) returns (full: seq<State>, lin: seq<Op>)
    requires IsRun(run)
    ensures IsRun(full) && OnlyCompletes(run, full) && AllIdle(full) && Linearization(full, lin)
  {
    full := FinishThreads(run, |Last(run).thr|);
    lin := CompleteRunLinearizable(full);
  }
}
