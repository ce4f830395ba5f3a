/** When tickets are issued and drawn in the course of a run, by whom, and what becomes of them. */
module Tickets {
  import opened Rings
  import opened Queue
  import opened Invariant
  import opened Preserve
  import opened Theorems

  // ----- issued, drawn, deposited, delivered

  ghost predicate Issued(s: State, p: Pos) {
    p.ring < |s.rings| && p.ticket in s.rings[p.ring].issuedTo
  }

  ghost predicate Drawn(s: State, p: Pos) {
    p.ring < |s.rings| && p.ticket in s.rings[p.ring].drawnBy
  }

  ghost predicate Filled(s: State, p: Pos) {
    p.ring < |s.rings| && p.ticket in s.rings[p.ring].dep
  }

  ghost predicate Taken(s: State, p: Pos) {
    p.ring < |s.rings| && p.ticket in s.rings[p.ring].got
  }

  ghost predicate GivenUpAt(s: State, p: Pos) {
    p.ring < |s.rings| && p.ticket in s.rings[p.ring].left
  }

  lemma Permanent(run: seq<State>, n: nat, m: nat, p: Pos)
    requires IsRun(run) && n <= m < |run|
    ensures Issued(run[n], p) ==>
      Issued(run[m], p) && run[m].rings[p.ring].issuedTo[p.ticket] == run[n].rings[p.ring].issuedTo[p.ticket]
    ensures Drawn(run[n], p) ==>
      Drawn(run[m], p) && run[m].rings[p.ring].drawnBy[p.ticket] == run[n].rings[p.ring].drawnBy[p.ticket]
    ensures Filled(run[n], p) ==>
      Filled(run[m], p) && run[m].rings[p.ring].dep[p.ticket] == run[n].rings[p.ring].dep[p.ticket]
    ensures Taken(run[n], p) ==> Taken(run[m], p)
  {
    hide IsRun;
    RunLater(run, n, m);
  }

  /** What a reachable state says about a ticket. */
  lemma TicketFacts(s: State, p: Pos)
    requires Inv(s) && p.ring < |s.rings|
    ensures Drawn(s, p) <==> p.ticket < s.rings[p.ring].head
    ensures Issued(s, p) ==> p.ticket < s.rings[p.ring].tail
    ensures Filled(s, p) ==> Issued(s, p) && !GivenUpAt(s, p)
    ensures Taken(s, p) ==> Filled(s, p) && Drawn(s, p)
    ensures Taken(s, p) ==> s.rings[p.ring].got[p.ticket] == s.rings[p.ring].dep[p.ticket]
    ensures Drawn(s, p) ==> p.ring <= s.head
  {
    hide LogOk;
    assert RingInv(s.rings[p.ring]);
    assert p.ticket in s.rings[p.ring].left ==> LeftOk(s.rings[p.ring], p.ticket);
  }

  /** Tickets are issued in the order of their positions. */
  lemma IssuedInOrder(run: seq<State>, n: nat, m: nat, p: Pos, p': Pos)
    requires IsRun(run) && n < |run| && m < |run|
    requires Before(p, p') && Issued(run[n], p') && Issued(run[m], p)
    ensures Issued(run[n], p)
  {
    hide IsRun;
    if m <= n {
      Permanent(run, m, n, p);
    } else {
      InvAt(run, n);
      TicketFacts(run[n], p');
      RunLater(run, n, m);
      hide LogOk, RingInv;
    }
  }

  /** Tickets under which something is deposited at some time are drawn in that order too. */
  lemma DrawnInOrder(run: seq<State>, n: nat, m: nat, p: Pos, p': Pos)
    requires IsRun(run) && n < |run| && m < |run|
    requires Before(p, p') && Drawn(run[n], p') && Filled(run[m], p)
    ensures Drawn(run[n], p)
  {
    InvAt(run, n);
    TicketFacts(run[n], p');
    if p.ring < p'.ring {
      HandOff(run, n, m, p.ring, p.ticket);
    }
    TicketFacts(run[n], p);
  }

  // ----- the ticket a thread holds

  /** The enqueue ticket that a thread holds or has used. */
  function HeldTail(p: Pc): Option<Pos> {
    if !p.Enqueue? then None
    else match p.ep
      case EStart(_) => None
      case ENext(_, _) => None
      case EHelp(_, _) => None
      case ETicket(_, _) => None
      case EAppend(_, _) => None
      case ESwing(_, lt) => Some(Pos(lt + 1, 0))
      case EDone(_, at) => Some(at)
      case _ => Some(Pos(p.ep.lt, p.ep.k))
  }

  /** The dequeue ticket that a thread in the cell loop holds. */
  function HeldHead(p: Pc): Option<Pos> {
    if p.Dequeue? && !p.cp.DStart? && !p.cp.DTicket? && !p.cp.DBts? && !p.cp.DDone?
    then Some(Pos(p.cp.d.lh, p.cp.d.h)) else None
  }

  function Delivering(p: Pc): Option<Pos> {
    if p.Dequeue? && p.cp.DDone? then Some(p.cp.at) else None
  }

  ghost predicate NewTail(s: State, p: Pc, p': Pc) {
    HeldTail(p').Some? ==> HeldTail(p') == HeldTail(p) || !Issued(s, HeldTail(p').value)
  }

  /** An enqueue ticket comes to a thread in the step that issues it. */
  lemma TailHeld(s: State, t: nat)
    requires Inv(s) && Ready(s, t) && s.thr[t].Enqueue?
    ensures t < |EnqStep(s, t).thr| && NewTail(s, s.thr[t], EnqStep(s, t).thr[t])
  {
    hide LogOk, Stable;
    assert ThreadOk(s, t, s.thr[t]);
    if s.thr[t].ep.ETicket? {
      assert RingInv(s.rings[s.thr[t].ep.lt]);
    }
    hide RingInv, Inv, Deposit, Close, Seeded;
  }

  ghost predicate NewHead(s: State, p: Pc, p': Pc) {
    && (HeldHead(p').Some? ==> HeldHead(p') == HeldHead(p) || !Drawn(s, HeldHead(p').value))
    && (Delivering(p').Some? ==> Delivering(p') == HeldHead(p) || p' == p)
  }

  ghost predicate Settled(s: State, p: Pc, p': Pc) {
    HeldHead(p).Some? && HeldHead(p') != HeldHead(p) ==>
      Taken(s, HeldHead(p).value) || GivenUpAt(s, HeldHead(p).value)
  }

  predicate AtCas(p: CellPc) {
    p.DTake? || p.DMark? || p.DSkip?
  }

  /** A dequeue ticket comes to a thread in the step that draws it, and it is delivered or given up
      before the thread lets go of it. */
  lemma HeadHeld(s: State, t: nat)
    requires Inv(s) && Ready(s, t) && s.thr[t].Dequeue?
    ensures t < |CellStep(s, t).thr| && NewHead(s, s.thr[t], CellStep(s, t).thr[t])
    ensures Settled(CellStep(s, t), s.thr[t], CellStep(s, t).thr[t])
  {
    hide NewHead, Settled, CellStep, Inv;
    if AtCas(s.thr[t].cp) {
      CasHeld(s, t);
    } else {
      LoadHeld(s, t);
    }
  }

  lemma CasHeld(s: State, t: nat)
    requires Inv(s) && Ready(s, t) && s.thr[t].Dequeue? && AtCas(s.thr[t].cp)
    ensures t < |CellStep(s, t).thr| && NewHead(s, s.thr[t], CellStep(s, t).thr[t])
    ensures Settled(CellStep(s, t), s.thr[t], CellStep(s, t).thr[t])
  {
    hide Inv;
  }

  lemma LoadHeld(s: State, t: nat)
    requires Inv(s) && Ready(s, t) && s.thr[t].Dequeue? && !AtCas(s.thr[t].cp)
    ensures t < |CellStep(s, t).thr| && NewHead(s, s.thr[t], CellStep(s, t).thr[t])
    ensures Settled(CellStep(s, t), s.thr[t], CellStep(s, t).thr[t])
  {
    if s.thr[t].cp.DTicket? {
      TicketFacts(s, Pos(s.thr[t].cp.lh, s.rings[s.thr[t].cp.lh].head));
      hide Inv;
    } else {
      hide Inv, CellStep;
      WordHeld(s, t);
    }
  }

  lemma WordHeld(s: State, t: nat)
    requires Ready(s, t) && s.thr[t].Dequeue? && !AtCas(s.thr[t].cp) && !s.thr[t].cp.DTicket?
    ensures t < |CellStep(s, t).thr| && NewHead(s, s.thr[t], CellStep(s, t).thr[t])
    ensures Settled(CellStep(s, t), s.thr[t], CellStep(s, t).thr[t])
  {
    hide Close, Drawn;
  }

  lemma ExitHeld(s: State, t: nat)
    requires Ready(s, t) && s.thr[t].Leaving?
    ensures t < |ExitStep(s, t).thr| && HeldTail(ExitStep(s, t).thr[t]).None?
    ensures HeldHead(ExitStep(s, t).thr[t]).None? && Delivering(ExitStep(s, t).thr[t]).None?
  {
    hide AllDrawn;
  }

  lemma EnqHeldHead(s: State, t: nat)
    requires Ready(s, t) && s.thr[t].Enqueue?
    ensures t < |EnqStep(s, t).thr|
    ensures HeldHead(EnqStep(s, t).thr[t]).None? && Delivering(EnqStep(s, t).thr[t]).None?
  {
    hide Deposit, DrawTail, Close, Seeded;
  }

  lemma CellHeldTail(s: State, t: nat)
    requires Ready(s, t) && s.thr[t].Dequeue?
    ensures t < |CellStep(s, t).thr| && HeldTail(CellStep(s, t).thr[t]).None?
  {
    hide Deliver, Mark, Skip, Leave, DrawHead, Close;
  }

  /** The same for every step, also those of other threads. */
  lemma StepHeld(s: State, s': State, a: nat, t: nat)
    requires Inv(s) && Step(s, s', a) && t < |s.thr| == |s'.thr|
    ensures NewTail(s, s.thr[t], s'.thr[t]) && NewHead(s, s.thr[t], s'.thr[t]) && Settled(s', s.thr[t], s'.thr[t])
  {
    StepFrame(s, s', a);
    hide Inv, EnqStep, CellStep, ExitStep;
    if a == t && Ready(s, t) && s' == Exec(s, t) {
      match s.thr[t] {
        case Enqueue(_) =>
          TailHeld(s, t);
          EnqHeldHead(s, t);
        case Dequeue(_) =>
          HeadHeld(s, t);
          CellHeldTail(s, t);
        case Leaving(_) => ExitHeld(s, t);
      }
    }
  }

  /** A ticket that a thread holds was issued or drawn after its operation was invoked. */
  lemma {:induction false} HeldSince(run: seq<State>, t: nat)
    requires IsRun(run) && t < |Last(run).thr| && Last(run).thr[t] != Idle
    ensures var p := Last(run).thr[t];
      && Began(p) < |run|
      && (HeldTail(p).Some? ==> !Issued(run[Began(p)], HeldTail(p).value))
      && (HeldHead(p).Some? ==> !Drawn(run[Began(p)], HeldHead(p).value))
      && (Delivering(p).Some? ==> !Drawn(run[Began(p)], Delivering(p).value))
  {
    hide Step, Inv, NewTail, NewHead;
    assert |run| > 1;
    var m := |run| - 1;
    var before := run[..m];
    ClockCounts(run, m - 1);
    ClockCounts(run, m);
    assert Next(run[m - 1], run[m - 1 + 1]);
    var a :| Step(run[m - 1], run[m], a);
    RunInv(before);
    StepHeld(run[m - 1], run[m], a, t);
    StepBegan(run[m - 1], run[m], a, t);
    BusySinceBegan(run, t);
    var p, p' := run[m - 1].thr[t], run[m].thr[t];
    if p != Idle {
      HeldSince(before, t);
    }
    HeldStep(run, t, p, p');
  }

  lemma HeldStep(run: seq<State>, t: nat, p: Pc, p': Pc)
    requires IsRun(run) && |run| > 1 && p' != Idle && Began(p') < |run| - 1
    requires NewTail(run[|run| - 2], p, p') && NewHead(run[|run| - 2], p, p')
    requires p == Idle || (Began(p) == Began(p')
      && (HeldTail(p).Some? ==> !Issued(run[Began(p)], HeldTail(p).value))
      && (HeldHead(p).Some? ==> !Drawn(run[Began(p)], HeldHead(p).value))
      && (Delivering(p).Some? ==> !Drawn(run[Began(p)], Delivering(p).value)))
    ensures HeldTail(p').Some? ==> !Issued(run[Began(p')], HeldTail(p').value)
    ensures HeldHead(p').Some? ==> !Drawn(run[Began(p')], HeldHead(p').value)
    ensures Delivering(p').Some? ==> !Drawn(run[Began(p')], Delivering(p').value)
  {
    hide IsRun, Issued, Drawn;
    if HeldTail(p').Some? {
      Permanent(run, Began(p'), |run| - 2, HeldTail(p').value);
    }
    if HeldHead(p').Some? {
      Permanent(run, Began(p'), |run| - 2, HeldHead(p').value);
    }
  }

  // ----- what a step adds

  /** The deposit of an enqueue that has not returned. */
  function Depositing(p: Pc): Option<Pos> {
    if p.Enqueue? && (p.ep.ESwing? || p.ep.EDone?) then HeldTail(p) else None
  }

  /** A ticket drawn, an item deposited, or an item delivered in a step is that of the thread. */
  ghost predicate Adds(s: State, s': State, a: nat, p: Pos)
    requires a < |s'.thr|
  {
    && (Drawn(s', p) && !Drawn(s, p) ==>
          s'.rings[p.ring].drawnBy[p.ticket] == a && HeldHead(s'.thr[a]) == Some(p))
    && (Filled(s', p) && !Filled(s, p) ==> Depositing(s'.thr[a]) == Some(p))
    && (Taken(s', p) && !Taken(s, p) ==> Delivering(s'.thr[a]) == Some(p))
  }

  lemma EnqAdds(s: State, t: nat, p: Pos)
    requires Ready(s, t) && s.thr[t].Enqueue?
    ensures t < |EnqStep(s, t).thr| && Adds(s, EnqStep(s, t), t, p)
  {
    hide EnqStep, Adds;
    if AtCell(s.thr[t].ep) {
      EnqCellAdds(s, t, p);
    } else {
      EnqListAdds(s, t, p);
    }
  }

  lemma EnqCellAdds(s: State, t: nat, p: Pos)
    requires Ready(s, t) && s.thr[t].Enqueue? && AtCell(s.thr[t].ep)
    ensures t < |EnqStep(s, t).thr| && Adds(s, EnqStep(s, t), t, p)
  {}

  lemma EnqListAdds(s: State, t: nat, p: Pos)
    requires Ready(s, t) && s.thr[t].Enqueue? && !AtCell(s.thr[t].ep)
    ensures t < |EnqStep(s, t).thr| && Adds(s, EnqStep(s, t), t, p)
  {}

  lemma CellAdds(s: State, t: nat, p: Pos)
    requires Ready(s, t) && s.thr[t].Dequeue?
    ensures t < |CellStep(s, t).thr| && Adds(s, CellStep(s, t), t, p)
  {
    hide CellStep, Adds;
    if AtCas(s.thr[t].cp) {
      CasAdds(s, t, p);
    } else {
      LoadAdds(s, t, p);
    }
  }

  lemma CasAdds(s: State, t: nat, p: Pos)
    requires Ready(s, t) && s.thr[t].Dequeue? && AtCas(s.thr[t].cp)
    ensures t < |CellStep(s, t).thr| && Adds(s, CellStep(s, t), t, p)
  {}

  lemma LoadAdds(s: State, t: nat, p: Pos)
    requires Ready(s, t) && s.thr[t].Dequeue? && !AtCas(s.thr[t].cp)
    ensures t < |CellStep(s, t).thr| && Adds(s, CellStep(s, t), t, p)
  {}

  lemma ExitAdds(s: State, t: nat, p: Pos)
    requires Ready(s, t) && s.thr[t].Leaving?
    ensures t < |ExitStep(s, t).thr| && Adds(s, ExitStep(s, t), t, p)
  {
    hide AllDrawn;
  }

  lemma StepAdds(s: State, s': State, a: nat, p: Pos)
    requires Step(s, s', a)
    ensures a < |s'.thr| && Adds(s, s', a, p)
  {
    hide EnqStep, CellStep, ExitStep;
    if Ready(s, a) && s' == Exec(s, a) {
      match s.thr[a]
      case Enqueue(_) => EnqAdds(s, a, p);
      case Dequeue(_) => CellAdds(s, a, p);
      case Leaving(_) => ExitAdds(s, a, p);
    }
  }

  // ----- what becomes of a drawn ticket

  ghost predicate Accounted(s: State, p: Pos) {
    Drawn(s, p) ==>
      || Taken(s, p) || GivenUpAt(s, p)
      || (s.rings[p.ring].drawnBy[p.ticket] < |s.thr| && HeldHead(s.thr[s.rings[p.ring].drawnBy[p.ticket]]) == Some(p))
  }

  /** A drawn ticket has been delivered, has been given up, or is held by the thread that drew it. */
  lemma {:induction false} DrawnAccounted(run: seq<State>, p: Pos)
    requires IsRun(run)
    ensures Accounted(Last(run), p)
  {
    if |run| > 1 {
      hide Step, Inv, Adds, Settled, NewTail, NewHead;
      var m := |run| - 1;
      var before := run[..m];
      DrawnAccounted(before, p);
      ClockCounts(run, m - 1);
      ClockCounts(run, m);
      assert Next(run[m - 1], run[m - 1 + 1]);
      var a :| Step(run[m - 1], run[m], a);
      RunInv(before);
      StepAdds(run[m - 1], run[m], a, p);
      StepFrame(run[m - 1], run[m], a);
      if Drawn(run[m - 1], p) {
        var u := run[m - 1].rings[p.ring].drawnBy[p.ticket];
        if u < |run[m].thr| {
          StepHeld(run[m - 1], run[m], a, u);
        }
      }
      AccountedStep(run, a, p);
    }
  }

  lemma AccountedStep(run: seq<State>, a: nat, p: Pos)
    requires IsRun(run) && |run| > 1 && Accounted(run[|run| - 2], p)
    requires |run[|run| - 2].thr| == |run[|run| - 1].thr|
    requires a < |run[|run| - 1].thr| && Adds(run[|run| - 2], run[|run| - 1], a, p)
    requires Drawn(run[|run| - 2], p) ==>
      var u := run[|run| - 2].rings[p.ring].drawnBy[p.ticket];
      u < |run[|run| - 1].thr| ==> Settled(run[|run| - 1], run[|run| - 2].thr[u], run[|run| - 1].thr[u])
    ensures Accounted(Last(run), p)
  {
    hide IsRun;
    var m := |run| - 1;
    Permanent(run, m - 1, m, p);
    if GivenUpAt(run[m - 1], p) {
      RunLater(run, m - 1, m);
    }
  }
}
