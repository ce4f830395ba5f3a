/** What the queue guarantees in every run of any number of threads. */
module Theorems {
  import opened Rings
  import opened Queue
  import opened Invariant
  import opened Preserve

  // ----- along a run

  lemma InvAt(run: seq<State>, n: nat)
    requires IsRun(run) && n < |run|
    ensures Inv(run[n])
  {
    hide Inv;
    RunInv(run[..n + 1]);
  }

  /** Every cell only moves forward, every counter only grows, every record is permanent. */
  ghost predicate Grown(q: Ring, q': Ring) {
    && |q.cells| == |q'.cells| > 0
    && q.head <= q'.head
    && q.tail <= q'.tail
    && (q.closed ==> q'.closed && q'.issuedTo == q.issuedTo)
    && (forall k: nat :: k in q.issuedTo ==> k in q'.issuedTo && q'.issuedTo[k] == q.issuedTo[k])
    && (forall k: nat :: k in q'.issuedTo && k !in q.issuedTo ==> k >= q.tail)
    && (forall h: nat :: h in q.drawnBy ==> h in q'.drawnBy && q'.drawnBy[h] == q.drawnBy[h])
    && (forall j :: 0 <= j < |q.cells| ==> Forward(q.cells[j], q'.cells[j]))
    && (forall k: nat :: k in q.dep ==> k in q'.dep && q'.dep[k] == q.dep[k])
    && (forall h: nat :: h in q.got ==> h in q'.got && q'.got[h] == q.got[h])
    && q.left <= q'.left
  }

  ghost predicate Later(s: State, s': State) {
    && s.size == s'.size
    && |s.thr| == |s'.thr|
    && |s.rings| <= |s'.rings|
    && s.head <= s'.head
    && s.tail <= s'.tail
    && (forall r :: 0 <= r < |s.rings| ==> Grown(s.rings[r], s'.rings[r]))
    && (forall p :: p in s.log ==>
          p in s'.log && s'.log[p].began == s.log[p].began && (s.log[p].ended.Some? ==> s'.log[p] == s.log[p]))
  }

  lemma GrownTrans(q: Ring, q': Ring, q'': Ring)
    requires Grown(q, q') && Grown(q', q'')
    ensures Grown(q, q'')
  {
    forall j | 0 <= j < |q.cells| ensures Forward(q.cells[j], q''.cells[j]) {
      assert Forward(q.cells[j], q'.cells[j]) && Forward(q'.cells[j], q''.cells[j]);
    }
  }

  lemma LaterTrans(s: State, s': State, s'': State)
    requires Later(s, s') && Later(s', s'')
    ensures Later(s, s'')
  {
    hide Grown;
    forall r | 0 <= r < |s.rings| ensures Grown(s.rings[r], s''.rings[r]) {
      GrownTrans(s.rings[r], s'.rings[r], s''.rings[r]);
    }
  }

  lemma EvolvesLater(s: State, s': State, t: nat)
    requires Evolves(s, s', t) && s'.size == s.size && |s'.thr| == |s.thr|
    ensures Later(s, s')
  {
    forall r | 0 <= r < |s.rings| ensures Grown(s.rings[r], s'.rings[r]) {
      assert Stable(s.rings[r], s'.rings[r], t);
    }
    hide Stable;
    hide Grown;
  }

  lemma StepLater(s: State, s': State, t: nat)
    requires Inv(s) && Step(s, s', t)
    ensures Later(s, s')
  {
    hide Inv;
    hide Step;
    hide Evolves;
    hide Later;
    StepFrame(s, s', t);
    StepInv(s, s', t);
    EvolvesLater(s, s', t);
  }

  lemma {:induction false} RunLater(run: seq<State>, n: nat, m: nat)
    requires IsRun(run) && n <= m < |run|
    ensures Later(run[n], run[m])
    decreases m
  {
    hide Step, Inv, Later;
    if n == m {
      InvAt(run, n);
      LaterRefl(run[n]);
    } else {
      RunLater(run, n, m - 1);
      InvAt(run, m - 1);
      assert Next(run[m - 1], run[m - 1 + 1]);
      var t :| Step(run[m - 1], run[m], t);
      StepLater(run[m - 1], run[m], t);
      LaterTrans(run[n], run[m - 1], run[m]);
    }
  }

  lemma LaterRefl(s: State)
    requires Inv(s)
    ensures Later(s, s)
  {
    hide LogOk;
  }

  // ----- no item is lost, and none is delivered twice

  /** The items sitting in the cells of a ring, by ticket. */
  ghost function Waiting(q: Ring): set<nat> {
    set j | 0 <= j < |q.cells| && q.cells[j].val.Some? :: q.cells[j].idx
  }

  /** At all times every deposit has either been delivered or sits in a cell, and not both. */
  lemma Conservation(run: seq<State>, r: nat)
    requires IsRun(run) && r < |Last(run).rings|
    ensures var q := Last(run).rings[r];
      && q.dep.Keys == q.got.Keys + Waiting(q)
      && q.got.Keys !! Waiting(q)
      && (forall h :: h in q.got ==> q.got[h] == q.dep[h])
      && (forall k: nat :: k in Waiting(q) ==> At(q, k) == Cell(Some(q.dep[k]), k, At(q, k).unsafe))
  {
    RunInv(run);
    hide LogOk;
    RingConservation(Last(run).rings[r]);
  }

  lemma RingConservation(q: Ring)
    requires RingInv(q)
    ensures q.dep.Keys == q.got.Keys + Waiting(q)
    ensures q.got.Keys !! Waiting(q)
    ensures forall k: nat :: k in Waiting(q) ==> At(q, k) == Cell(Some(q.dep[k]), k, At(q, k).unsafe)
  {
    forall k: nat | k in q.dep && k !in q.got ensures k in Waiting(q) {
      assert DepositOk(q, k);
      assert q.cells[Slot(q, k)].idx == k;
    }
    forall k: nat | k in Waiting(q) ensures k in q.dep && k !in q.got && At(q, k).idx == k {
      var j :| 0 <= j < |q.cells| && q.cells[j].val.Some? && q.cells[j].idx == k;
    }
  }

  /** A ticket that a dequeuer has given up at some time of the run is one under which nothing was
      deposited before and nothing is ever deposited after. */
  lemma NoItemLost(run: seq<State>, n: nat, m: nat, lh: nat, h: nat)
    requires IsRun(run) && n < |run| && m < |run|
    requires lh < |run[n].rings| && h in run[n].rings[lh].left
    ensures lh < |run[m].rings| ==> h !in run[m].rings[lh].dep
  {
    InvAt(run, n);
    InvAt(run, m);
    hide LogOk;
    if n <= m {
      RunLater(run, n, m);
    } else {
      RunLater(run, m, n);
    }
    var s := if n <= m then run[m] else run[n];
    assert h in s.rings[lh].left && RingInv(s.rings[lh]);
    assert LeftOk(s.rings[lh], h);
  }

  /** The ticket in question: a dequeuer that has left its cell, whether it still closes the ring or
      goes on to look at `tail`, has given up its ticket. */
  lemma GivenUp(run: seq<State>, t: nat, began: nat, lh: nat, h: nat)
    requires IsRun(run) && t < |Last(run).thr|
    requires Last(run).thr[t] == Leaving(DCheck(began, lh, h)) || Last(run).thr[t] == Dequeue(DBts(began, lh, h))
    ensures lh < |Last(run).rings| && h in Last(run).rings[lh].left
  {
    RunInv(run);
    hide LogOk;
    assert ThreadOk(Last(run), t, Last(run).thr[t]);
  }

  /** An enqueue that is about to return has deposited the item it was invoked with, and a dequeuer that
      holds the same ticket can only take that item. */
  lemma EnqueueDeposits(run: seq<State>, n: nat, m: nat, t: nat, e: Enq, at: Pos)
    requires IsRun(run) && n <= m < |run|
    requires t < |run[n].thr| && run[n].thr[t] == Enqueue(EDone(e, at))
    ensures at.ring < |run[m].rings|
    ensures at.ticket in run[m].rings[at.ring].dep && run[m].rings[at.ring].dep[at.ticket] == e.item
    ensures at.ticket !in run[m].rings[at.ring].left
    ensures e.began + 1 <= n && t < |run[e.began].thr| && t < |run[e.began + 1].thr|
    ensures run[e.began].thr[t] == Idle && run[e.began + 1].thr[t] == Enqueue(EStart(Enq(e.item, e.began, 0)))
    ensures
      var q := run[m].rings[at.ring];
      && |q.cells| > 0
      && ((at.ticket in q.got && q.got[at.ticket] == e.item)
          || (At(q, at.ticket).val == Some(e.item) && At(q, at.ticket).idx == at.ticket))
  {
    InvokedWith(run, n, t);
    DepositStays(run, n, m, t, e, at);
  }

  lemma DepositStays(run: seq<State>, n: nat, m: nat, t: nat, e: Enq, at: Pos)
    requires IsRun(run) && n <= m < |run|
    requires t < |run[n].thr| && run[n].thr[t] == Enqueue(EDone(e, at))
    ensures at.ring < |run[m].rings|
    ensures at.ticket in run[m].rings[at.ring].dep && run[m].rings[at.ring].dep[at.ticket] == e.item
    ensures at.ticket !in run[m].rings[at.ring].left
    ensures
      var q := run[m].rings[at.ring];
      && |q.cells| > 0
      && ((at.ticket in q.got && q.got[at.ticket] == e.item)
          || (At(q, at.ticket).val == Some(e.item) && At(q, at.ticket).idx == at.ticket))
  {
    InvAt(run, n);
    InvAt(run, m);
    hide LogOk;
    RunLater(run, n, m);
    assert ThreadOk(run[n], t, run[n].thr[t]);
    var q := run[m].rings[at.ring];
    assert RingInv(q) && DepositOk(q, at.ticket);
  }

  /** The call with which the operation of a busy thread began. */
  lemma InvokedWith(run: seq<State>, n: nat, t: nat)
    requires IsRun(run) && n < |run| && t < |run[n].thr| && run[n].thr[t] != Idle
    ensures var b := Began(run[n].thr[t]);
      && b + 1 <= n && t < |run[b].thr| && t < |run[b + 1].thr|
      && run[b].thr[t] == Idle && run[b + 1].thr[t] == Invocation(run[n].thr[t])
  {
    hide Step;
    var upto := run[..n + 1];
    BusySinceBegan(upto, t);
    var b := Began(run[n].thr[t]);
    assert upto[b] == run[b] && upto[b + 1] == run[b + 1];
  }

  /** The step in which thread `t` takes item `v` out of the cell of ticket `at`. */
  ghost predicate Delivers(s: State, s': State, t: nat, at: Pos, v: Item) {
    && Step(s, s', t)
    && s.thr[t].Dequeue? && s.thr[t].cp.DTake?
    && s'.thr[t] == Dequeue(DDone(s.thr[t].cp.d.began, at, v))
  }

  lemma DeliveryTakes(s: State, s': State, t: nat, at: Pos, v: Item)
    requires Inv(s) && t < |s.thr| == |s'.thr| && Delivers(s, s', t, at, v)
    ensures at.ring < |s.rings| == |s'.rings|
    ensures at.ticket in s.rings[at.ring].dep && s.rings[at.ring].dep[at.ticket] == v
    ensures at.ticket !in s.rings[at.ring].got && at.ticket in s'.rings[at.ring].got
    ensures at.ticket in s.rings[at.ring].drawnBy && s.rings[at.ring].drawnBy[at.ticket] == t
  {
    hide LogOk;
    hide Stable;
    assert ThreadOk(s, t, s.thr[t]);
    var d := s.thr[t].cp.d;
    assert s' == CellStep(s, t);
    hide RingInv;
    assert RingInv(s.rings[d.lh]);
    Delivered(s.rings[d.lh], t, d.h);
  }

  /** What a dequeuer returns is what was deposited under the ticket that it drew. */
  lemma DeliveredOwn(run: seq<State>, n: nat, t: nat, at: Pos, v: Item)
    requires IsRun(run) && n < |run| - 1 && t < |run[n].thr| == |run[n + 1].thr|
    requires Delivers(run[n], run[n + 1], t, at, v)
    ensures at.ring < |run[n].rings| && at.ticket in run[n].rings[at.ring].dep
    ensures run[n].rings[at.ring].dep[at.ticket] == v
    ensures at.ticket in run[n].rings[at.ring].drawnBy && run[n].rings[at.ring].drawnBy[at.ticket] == t
  {
    InvAt(run, n);
    DeliveryTakes(run[n], run[n + 1], t, at, v);
  }

  /** What is returned is what was deposited, and no deposit is ever delivered a second time. */
  lemma DeliveredOnce(run: seq<State>, n: nat, m: nat, t: nat, u: nat, at: Pos, v: Item, at': Pos, w: Item)
    requires IsRun(run) && n < m < |run| - 1
    requires t < |run[n].thr| == |run[n + 1].thr| && u < |run[m].thr| == |run[m + 1].thr|
    requires Delivers(run[n], run[n + 1], t, at, v) && Delivers(run[m], run[m + 1], u, at', w)
    ensures at != at'
    ensures at.ring < |run[n].rings| && at.ticket in run[n].rings[at.ring].dep
    ensures run[n].rings[at.ring].dep[at.ticket] == v
    ensures at'.ring < |run[m].rings| && at'.ticket in run[m].rings[at'.ring].dep
    ensures run[m].rings[at'.ring].dep[at'.ticket] == w
  {
    InvAt(run, n);
    InvAt(run, m);
    DeliveryTakes(run[n], run[n + 1], t, at, v);
    DeliveryTakes(run[m], run[m + 1], u, at', w);
    hide Inv;
    hide Delivers;
    RunLater(run, n + 1, m);
  }

  // ----- the hand-off between rings

  /** Once `head` has moved past a ring, that ring is closed, issues no further ticket, and every
      item deposited in it at any time, earlier or later, has a ticket drawn by then. */
  lemma HandOff(run: seq<State>, n: nat, m: nat, r: nat, k: nat)
    requires IsRun(run) && n < |run| && m < |run|
    requires r < run[n].head && r < |run[m].rings| && r < |run[n].rings|
    requires k in run[m].rings[r].dep
    ensures run[n].rings[r].closed
    ensures k in run[n].rings[r].issuedTo && k < run[n].rings[r].head
  {
    InvAt(run, n);
    InvAt(run, m);
    hide LogOk;
    assert RingInv(run[m].rings[r]);
    hide RingInv;
    assert k in run[m].rings[r].issuedTo;
    if n <= m {
      RunLater(run, n, m);
    } else {
      RunLater(run, m, n);
    }
  }

  // ----- returning empty

  /** The clock of a run counts its transitions. */
  lemma {:induction false} ClockCounts(run: seq<State>, n: nat)
    requires IsRun(run) && n < |run|
    ensures run[n].clock == n && |run[n].thr| == |run[0].thr|
  {
    hide Step;
    if n > 0 {
      ClockCounts(run, n - 1);
      assert Next(run[n - 1], run[n - 1 + 1]);
      var t :| Step(run[n - 1], run[n], t);
      StepFrame(run[n - 1], run[n], t);
    }
  }

  /** When the operation of a busy thread was invoked. */
  function Began(p: Pc): nat
    requires p != Idle
  {
    match p
    case Enqueue(ep) => ep.e.began
    case Dequeue(cp) => if cp.DStart? || cp.DTicket? || cp.DBts? || cp.DDone? then cp.began else cp.d.began
    case Leaving(xp) => if xp.DCheck? || xp.DRetire? then xp.began else xp.x.began
  }

  /** How the operation of a busy thread started: the item of an enqueue is the one it was called with. */
  function Invocation(p: Pc): Pc
    requires p != Idle
  {
    if p.Enqueue? then Enqueue(EStart(Enq(p.ep.e.item, Began(p), 0))) else Dequeue(DStart(Began(p)))
  }

  /** Thread `t` was idle at time `b` and has been inside one operation since. */
  ghost predicate BusySince(run: seq<State>, t: nat, b: nat) {
    && b < |run|
    && t < |run[b].thr| && run[b].thr[t] == Idle
    && (forall n :: b < n < |run| ==> t < |run[n].thr| && run[n].thr[t] != Idle)
  }

  lemma BeganKept(s: State, s': State, t: nat)
    requires Ready(s, t) && s' == Exec(s, t)
    ensures t < |s'.thr| && (s'.thr[t] != Idle ==> Invocation(s'.thr[t]) == Invocation(s.thr[t]))
  {
    match s.thr[t]
    case Enqueue(_) => EnqBeganKept(s, t);
    case Dequeue(_) => CellBeganKept(s, t);
    case Leaving(_) => ExitBeganKept(s, t);
  }

  lemma EnqBeganKept(s: State, t: nat)
    requires Ready(s, t) && s.thr[t].Enqueue?
    ensures var s' := EnqStep(s, t);
      t < |s'.thr| && (s'.thr[t] != Idle ==> Invocation(s'.thr[t]) == Invocation(s.thr[t]))
  {
    hide EnqStep;
    if AtCell(s.thr[t].ep) {
      EnqCellBegan(s, t);
    } else {
      EnqListBegan(s, t);
    }
  }

  lemma EnqCellBegan(s: State, t: nat)
    requires Ready(s, t) && s.thr[t].Enqueue? && AtCell(s.thr[t].ep)
    ensures var s' := EnqStep(s, t);
      t < |s'.thr| && (s'.thr[t] != Idle ==> Invocation(s'.thr[t]) == Invocation(s.thr[t]))
  {
    hide Deposit, Close;
  }

  lemma EnqListBegan(s: State, t: nat)
    requires Ready(s, t) && s.thr[t].Enqueue? && !AtCell(s.thr[t].ep)
    ensures var s' := EnqStep(s, t);
      t < |s'.thr| && (s'.thr[t] != Idle ==> Invocation(s'.thr[t]) == Invocation(s.thr[t]))
  {
    hide DrawTail, Seeded;
  }

  lemma CellBeganKept(s: State, t: nat)
    requires Ready(s, t) && s.thr[t].Dequeue?
    ensures var s' := CellStep(s, t);
      t < |s'.thr| && (s'.thr[t] != Idle ==> Invocation(s'.thr[t]) == Invocation(s.thr[t]))
  {
    hide CellStep;
    if s.thr[t].cp.DTake? || s.thr[t].cp.DMark? || s.thr[t].cp.DSkip? {
      CasBeganKept(s, t);
    } else {
      LoadBeganKept(s, t);
    }
  }

  lemma CasBeganKept(s: State, t: nat)
    requires Ready(s, t) && s.thr[t].Dequeue? && (s.thr[t].cp.DTake? || s.thr[t].cp.DMark? || s.thr[t].cp.DSkip?)
    ensures var s' := CellStep(s, t);
      t < |s'.thr| && (s'.thr[t] != Idle ==> Invocation(s'.thr[t]) == Invocation(s.thr[t]))
  {
    hide Deliver, Mark, Skip;
  }

  lemma LoadBeganKept(s: State, t: nat)
    requires Ready(s, t) && s.thr[t].Dequeue? && !s.thr[t].cp.DTake? && !s.thr[t].cp.DMark? && !s.thr[t].cp.DSkip?
    ensures var s' := CellStep(s, t);
      t < |s'.thr| && (s'.thr[t] != Idle ==> Invocation(s'.thr[t]) == Invocation(s.thr[t]))
  {
    hide Leave, DrawHead, Close;
  }

  lemma ExitBeganKept(s: State, t: nat)
    requires Ready(s, t) && s.thr[t].Leaving?
    ensures var s' := ExitStep(s, t);
      t < |s'.thr| && (s'.thr[t] != Idle ==> Invocation(s'.thr[t]) == Invocation(s.thr[t]))
  {}

  lemma StepBegan(s: State, s': State, a: nat, t: nat)
    requires Step(s, s', a) && t < |s.thr| == |s'.thr| && s'.thr[t] != Idle
    ensures
      if s.thr[t] == Idle then Began(s'.thr[t]) == s.clock && s'.thr[t] == Invocation(s'.thr[t])
      else Began(s'.thr[t]) == Began(s.thr[t]) && Invocation(s'.thr[t]) == Invocation(s.thr[t])
  {
    StepFrame(s, s', a);
    if a == t && Ready(s, t) && s' == Exec(s, t) {
      BeganKept(s, s', t);
    }
  }

  lemma {:induction false} BusySinceBegan(run: seq<State>, t: nat)
    requires IsRun(run) && t < |Last(run).thr| && Last(run).thr[t] != Idle
    ensures var b := Began(Last(run).thr[t]);
      BusySince(run, t, b) && b + 1 < |run| && run[b + 1].thr[t] == Invocation(Last(run).thr[t])
  {
    hide Step;
    ClockCounts(run, |run| - 1);
    if |run| > 1 {
      var before := run[..|run| - 1];
      ClockCounts(run, |run| - 2);
      assert Next(run[|run| - 2], run[|run| - 2 + 1]);
      var a :| Step(Last(before), Last(run), a);
      StepBegan(Last(before), Last(run), a, t);
      if Last(before).thr[t] != Idle {
        BusySinceBegan(before, t);
      }
    }
  }

  /** The record a leaving dequeuer carries of the instant at which it compared `tail`. */
  function Stamp(p: Pc): Option<Exit> {
    if p.Leaving? && !p.xp.DCheck? && !p.xp.DRetire? then Some(p.xp.x) else None
  }

  /** The record `x` that thread `t` makes in state `s`, when it finds `tail` no further than one past
      its ticket. */
  ghost predicate Stamped(s: State, t: nat, x: Exit) {
    && x.at == s.clock && x.empty == AllDrawn(s)
    && t < |s.thr| && s.thr[t] == Leaving(DCheck(x.began, x.lh, x.h))
    && x.lh < |s.rings| && s.rings[x.lh].tail <= x.h + 1
  }

  lemma StampSet(s: State, s': State, a: nat, t: nat)
    requires Step(s, s', a) && t < |s.thr| == |s'.thr| && Stamp(s'.thr[t]).Some?
    ensures
      || Stamp(s'.thr[t]) == Stamp(s.thr[t])
      || Stamped(s, t, Stamp(s'.thr[t]).value)
  {
    StepFrame(s, s', a);
    hide AllDrawn;
    if a == t && Ready(s, t) && s' == Exec(s, t) {
      match s.thr[t]
      case Enqueue(_) => EnqNoStamp(s, t);
      case Dequeue(_) => CellNoStamp(s, t);
      case Leaving(_) => ExitStamp(s, t);
    }
  }

  lemma EnqNoStamp(s: State, t: nat)
    requires Ready(s, t) && s.thr[t].Enqueue?
    ensures t < |EnqStep(s, t).thr| && Stamp(EnqStep(s, t).thr[t]).None?
  {
    hide Deposit, Close, DrawTail, Seeded;
  }

  lemma CellNoStamp(s: State, t: nat)
    requires Ready(s, t) && s.thr[t].Dequeue?
    ensures t < |CellStep(s, t).thr| && Stamp(CellStep(s, t).thr[t]).None?
  {
    hide Deliver, Mark, Skip, Leave, DrawHead, Close;
  }

  lemma ExitStamp(s: State, t: nat)
    requires Ready(s, t) && s.thr[t].Leaving?
    ensures var s' := ExitStep(s, t);
      && t < |s'.thr|
      && (Stamp(s'.thr[t]).Some? ==>
            || Stamp(s'.thr[t]) == Stamp(s.thr[t])
            || Stamped(s, t, Stamp(s'.thr[t]).value))
  {
    hide AllDrawn;
  }

  lemma {:induction false} StampTrue(run: seq<State>, t: nat)
    requires IsRun(run) && t < |Last(run).thr| && Stamp(Last(run).thr[t]).Some?
    ensures var x := Stamp(Last(run).thr[t]).value;
      x.at < |run| && Stamped(run[x.at], t, x)
  {
    hide Step;
    hide AllDrawn;
    if |run| > 1 {
      var before := run[..|run| - 1];
      ClockCounts(run, |run| - 2);
      ClockCounts(run, |run| - 1);
      assert Next(run[|run| - 2], run[|run| - 2 + 1]);
      var a :| Step(Last(before), Last(run), a);
      StampSet(Last(before), Last(run), a, t);
      if Stamp(Last(before).thr[t]) == Stamp(Last(run).thr[t]) {
        StampTrue(before, t);
      }
    }
  }

  /** A dequeue that is about to return null: at some instant after it was invoked, every item
      deposited in any ring had a ticket already drawn by a dequeuer. */
  lemma NullJustified(run: seq<State>, t: nat, x: Exit)
    requires IsRun(run) && t < |Last(run).thr| && Last(run).thr[t] == Leaving(DNull(x))
    ensures exists b: nat, n: nat ::
      && BusySince(run, t, b)
      && b < n < |run| && AllDrawn(run[n])
  {
    RunInv(run);
    assert ThreadOk(Last(run), t, Last(run).thr[t]);
    hide Inv;
    StampTrue(run, t);
    BusySinceBegan(run, t);
    ClockCounts(run, |run| - 1);
    assert BusySince(run, t, x.began) && x.began < x.at < |run| && AllDrawn(run[x.at]);
  }

  // ----- returns

  lemma EnqReturns(s: State, t: nat)
    requires Ready(s, t) && s.thr[t].Enqueue? && t < |EnqStep(s, t).thr| && EnqStep(s, t).thr[t] == Idle
    ensures Returning(s.thr[t])
  {
    hide Deposit, DrawTail, Close, Seeded;
  }

  lemma CellReturns(s: State, t: nat)
    requires Ready(s, t) && s.thr[t].Dequeue? && t < |CellStep(s, t).thr| && CellStep(s, t).thr[t] == Idle
    ensures Returning(s.thr[t])
  {
    hide Deliver, Mark, Skip, Leave, DrawHead, Close;
  }

  lemma ExitReturns(s: State, t: nat)
    requires Ready(s, t) && s.thr[t].Leaving? && t < |ExitStep(s, t).thr| && ExitStep(s, t).thr[t] == Idle
    ensures Returning(s.thr[t])
  {
    hide AllDrawn;
  }

  lemma StepReturns(s: State, s': State, t: nat)
    requires Step(s, s', t) && t < |s'.thr| && s.thr[t] != Idle && s'.thr[t] == Idle
    ensures Returning(s.thr[t])
  {
    hide EnqStep, CellStep, ExitStep;
    match s.thr[t]
    case Enqueue(_) => EnqReturns(s, t);
    case Dequeue(_) => CellReturns(s, t);
    case Leaving(_) => ExitReturns(s, t);
  }

  // ----- first in, first out

  lemma ReturnIsLogged(s: State, s': State, t: nat, e: Enq, at: Pos)
    requires Inv(s) && t < |s.thr| == |s'.thr| && Next(s, s')
    requires s.thr[t] == Enqueue(EDone(e, at)) && s'.thr[t] == Idle
    ensures at in s'.log && s'.log[at].ended == Some(s.clock)
  {
    hide Inv;
    hide Step;
    var a :| Step(s, s', a);
    StepFrame(s, s', a);
    assert a == t;
    assert Step(s, s', t);
    StepReturn(s, s', t, e, at);
  }

  lemma StepReturn(s: State, s': State, t: nat, e: Enq, at: Pos)
    requires Step(s, s', t) && s.thr[t] == Enqueue(EDone(e, at))
    ensures s'.log == s.log[at := Span(e.began, Some(s.clock))]
  {}

  /** First in, first out, across all rings.  If one enqueue returned in transition `i` and
      another was invoked later, the first one's position comes before the second one's; and
      as soon as the second one's item has been delivered, the first one's ticket is drawn. */
  lemma Fifo(run: seq<State>, i: nat, m: nat, n: nat, t: nat, u: nat, e: Enq, at: Pos, e': Enq, at': Pos)
    requires IsRun(run) && i < |run| - 1 && m < |run| && n < |run| && i < e'.began
    requires t < |run[i].thr| == |run[i + 1].thr| && u < |run[m].thr|
    requires run[i].thr[t] == Enqueue(EDone(e, at)) && run[i + 1].thr[t] == Idle
    requires run[m].thr[u] == Enqueue(EDone(e', at'))
    ensures Before(at, at')
    ensures at'.ring < |run[n].rings| && at'.ticket in run[n].rings[at'.ring].got ==>
      at.ring < |run[n].rings| && at.ticket < run[n].rings[at.ring].head
  {
    InvAt(run, i);
    ClockCounts(run, i);
    EnqueueDeposits(run, i, i, t, e, at);
    ReturnIsLogged(run[i], run[i + 1], t, e, at);
    hide Inv;
    FifoOrder(run, i, m, u, at, e', at');
    if at'.ring < |run[n].rings| && at'.ticket in run[n].rings[at'.ring].got {
      FifoDrawn(run, i, n, at, at');
    }
  }

  lemma FifoOrder(run: seq<State>, i: nat, m: nat, u: nat, at: Pos, e': Enq, at': Pos)
    requires IsRun(run) && i < |run| - 1 && m < |run| && i < e'.began && u < |run[m].thr|
    requires run[m].thr[u] == Enqueue(EDone(e', at'))
    requires at in run[i + 1].log && run[i + 1].log[at].ended == Some(i)
    ensures Before(at, at')
  {
    hide Grown;
    hide ListOk;
    InvAt(run, m);
    ClockCounts(run, m);
    assert ThreadOk(run[m], u, run[m].thr[u]);
    RunLater(run, i + 1, m);
    assert SpanOk(run[m], at');
  }

  /** If `at'` comes after `at` and has been delivered, the ticket of `at` has been drawn. */
  lemma FifoDrawn(run: seq<State>, i: nat, n: nat, at: Pos, at': Pos)
    requires IsRun(run) && i < |run| && n < |run| && Before(at, at')
    requires at.ring < |run[i].rings| && at.ticket in run[i].rings[at.ring].dep
    requires at'.ring < |run[n].rings| && at'.ticket in run[n].rings[at'.ring].got
    ensures at.ring < |run[n].rings| && at.ticket < run[n].rings[at.ring].head
  {
    InvAt(run, n);
    hide LogOk;
    assert RingInv(run[n].rings[at'.ring]);
    assert at'.ticket < run[n].rings[at'.ring].head;
    if at.ring < at'.ring {
      HandOff(run, n, i, at.ring, at.ticket);
    }
  }

  // ----- torn reads

  /** Cell contents never recur: a cell that looks the same at two times was the same in between. */
  lemma NoRecurrence(run: seq<State>, n: nat, i: nat, m: nat, r: nat, j: nat)
    requires IsRun(run) && n <= i <= m < |run| && r < |run[n].rings| && j < |run[n].rings[r].cells|
    ensures r < |run[i].rings| && r < |run[m].rings|
    ensures |run[i].rings[r].cells| == |run[m].rings[r].cells| == |run[n].rings[r].cells|
    ensures run[n].rings[r].cells[j].idx <= run[i].rings[r].cells[j].idx <= run[m].rings[r].cells[j].idx
    ensures Slot(run[i].rings[r], run[i].rings[r].cells[j].idx) == j
    ensures run[n].rings[r].cells[j] == run[m].rings[r].cells[j] ==>
      run[i].rings[r].cells[j] == run[n].rings[r].cells[j]
  {
    RunLater(run, n, i);
    RunLater(run, i, m);
    InvAt(run, i);
    hide LogOk;
    assert Forward(run[n].rings[r].cells[j], run[i].rings[r].cells[j]);
    assert Forward(run[i].rings[r].cells[j], run[m].rings[r].cells[j]);
    assert RingInv(run[i].rings[r]);
  }
}
