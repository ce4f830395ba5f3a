/** Every transition keeps the invariant, so every run does. */
module Preserve {
  import opened Rings
  import opened Queue
  import opened Invariant

  // ----- pointer moves, appending a ring, deposits and returns

  /** A compare-and-swap of the queue's `tail` pointer from `lt` to the ring after it. */
  lemma KeepTailMove(s: State, t: nat, p: Pc, lt: nat)
    requires Inv(s) && t < |s.thr| && lt + 1 < |s.rings| && lt <= s.tail
    ensures
      var s' := Go(s, t, p).(tail := if s.tail == lt then lt + 1 else s.tail);
      ThreadOk(s', t, p) ==> Good(s, s', t)
  {
    var s' := Go(s, t, p).(tail := if s.tail == lt then lt + 1 else s.tail);
    hide ThreadOk;
    hide LogOk;
    hide Stable;
    RingsStable(s, s', t, |s.rings|);
    SameLog(s, s');
    hide RingInv;
    if ThreadOk(s', t, p) {
      Keep(s, s', t);
    }
  }

  /** The compare-and-swap of the queue's `head` pointer off a drained ring. */
  lemma KeepHeadMove(s: State, t: nat, p: Pc)
    requires Inv(s) && t < |s.thr| && s.head + 1 < |s.rings| && Drained(s.rings[s.head])
    ensures
      var s' := Go(s, t, p).(head := s.head + 1);
      ThreadOk(s', t, p) ==> Good(s, s', t)
  {
    hide ThreadOk, LogOk, Stable, RingInv;
    var s' := Go(s, t, p).(head := s.head + 1);
    HeadMoveList(s, s');
    hide ListOk;
    HeadMoveEvolves(s, s', t);
    SameLog(s, s');
    hide Evolves;
    if ThreadOk(s', t, p) {
      Keep(s, s', t);
    }
  }

  lemma HeadMoveList(s: State, s': State)
    requires ListOk(s) && s.head + 1 < |s.rings| && Drained(s.rings[s.head])
    requires s'.rings == s.rings && s'.size == s.size && s'.tail == s.tail && s'.head == s.head + 1
    ensures ListOk(s')
  {
    hide RingInv;
  }

  lemma HeadMoveEvolves(s: State, s': State, t: nat)
    requires ListOk(s) && s'.rings == s.rings && s'.log == s.log
    requires s'.tail == s.tail && s'.head == s.head + 1 && s'.clock == s.clock + 1
    ensures Evolves(s, s', t)
  {
    hide Stable, RingInv;
    RingsStable(s, s', t, |s.rings|);
  }

  /** The compare-and-swap of `next` of the last ring. */
  lemma KeepAppend(s: State, t: nat, e: Enq, lt: nat)
    requires Inv(s) && t < |s.thr| && s.thr[t] == Enqueue(EAppend(e, lt)) && lt + 1 == |s.rings|
    ensures Good(s, EnqStep(s, t), t)
  {
    hide Stable;
    hide RingInv;
    hide LogOk;
    assert ThreadOk(s, t, s.thr[t]);
    var s' := EnqStep(s, t);
    var q := Seeded(s.size, e.item, t);
    assert q.head == 0 && |q.cells| == s.size && q.dep == map[0 := e.item] && q.issuedTo == map[0 := t];
    SeededInv(s.size, e.item, t);
    hide Seeded;
    AppendList(s, s', t, q, lt);
    AppendEvolves(s, s', t, q, lt, Span(e.began, None));
    AppendLog(s, s', e, q, lt);
    Keep(s, s', t);
  }

  lemma AppendList(s: State, s': State, t: nat, q: Ring, lt: nat)
    requires ListOk(s) && lt + 1 == |s.rings| && lt <= s.tail && s.rings[lt].closed
    requires RingInv(q) && q.head == 0 && |q.cells| == s.size
    requires s'.size == s.size && s'.head == s.head && s'.tail == s.tail && s'.rings == s.rings + [q]
    ensures ListOk(s')
  {
    hide RingInv;
  }

  lemma AppendEvolves(s: State, s': State, t: nat, q: Ring, lt: nat, sp: Span)
    requires ListOk(s) && LogOk(s) && lt + 1 == |s.rings| && sp.ended.None?
    requires s'.head == s.head && s'.tail == s.tail && s'.rings == s.rings + [q]
    requires s'.clock == s.clock + 1 && s'.log == s.log[Pos(lt + 1, 0) := sp]
    ensures Evolves(s, s', t)
  {
    hide Stable;
    hide RingInv;
    assert Pos(lt + 1, 0) !in s.log;
    hide LogOk;
    RingsStable(s, s', t, |s.rings|);
    NewSpan(s, s', Pos(lt + 1, 0), sp);
  }

  lemma AppendLog(s: State, s': State, e: Enq, q: Ring, lt: nat)
    requires ListOk(s) && LogOk(s) && AtTail(s, e, lt) && lt + 1 == |s.rings|
    requires q.dep == map[0 := e.item] && s'.rings == s.rings + [q] && s'.tail == s.tail
    requires s'.clock == s.clock + 1 && s'.log == s.log[Pos(lt + 1, 0) := Span(e.began, None)]
    ensures LogOk(s')
  {
    NewLog(s, s', Pos(lt + 1, 0), e.began);
  }

  /** Logging a new deposit that is not before any enqueue that had already returned. */
  lemma NewLog(s: State, s': State, at: Pos, began: nat)
    requires ListOk(s) && LogOk(s) && at !in s.log && began < s.clock
    requires PastTickets(s, began, at)
    requires s'.log == s.log[at := Span(began, None)] && s'.clock == s.clock + 1 && s'.tail == s.tail
    requires |s.rings| <= |s'.rings| && at.ring < |s'.rings|
    requires at.ticket in s'.rings[at.ring].dep
    requires forall r, k: nat :: 0 <= r < |s.rings| && k in s.rings[r].dep ==> k in s'.rings[r].dep
    requires forall r, k: nat :: 0 <= r < |s'.rings| && k in s'.rings[r].dep ==>
      Pos(r, k) == at || (r < |s.rings| && k in s.rings[r].dep)
    ensures LogOk(s')
  {
    hide ListOk;
    assert PastTickets(s', began, at);
    forall p | p in s'.log ensures SpanOk(s', p) {
      assert p != at ==> SpanOk(s, p);
    }
    forall r | 0 <= r < |s'.rings| ensures Logged(s', r) {
      assert r < |s.rings| ==> Logged(s, r);
    }
  }

  /** A deposit by the enqueue CAS2. */
  lemma KeepDeposit(s: State, t: nat, e: Enq, lt: nat, k: nat, i: nat, u: bool)
    requires Inv(s) && t < |s.thr| && s.thr[t] == Enqueue(ECas(e, lt, k, i, u)) && lt < |s.rings|
    requires |s.rings[lt].cells| > 0 && At(s.rings[lt], k) == Cell(None, i, u)
    ensures Good(s, EnqStep(s, t), t)
  {
    hide Stable;
    hide RingInv;
    hide LogOk;
    assert ThreadOk(s, t, s.thr[t]);
    var q := s.rings[lt];
    var q' := Deposit(q, k, e.item);
    Deposited(q, t, k, i, u, e.item);
    assert q'.head == q.head && q'.closed == q.closed && q'.issuedTo == q.issuedTo && |q'.cells| == |q.cells|;
    assert q'.dep == q.dep[k := e.item];
    var s' := EnqStep(s, t);
    hide Deposit;
    DepositEvolves(s, s', t, e, lt, k, q');
    DepositLog(s, s', t, e, lt, k, q');
    Keep(s, s', t);
  }

  lemma DepositEvolves(s: State, s': State, t: nat, e: Enq, lt: nat, k: nat, q': Ring)
    requires ListOk(s) && LogOk(s) && HasTicket(s, t, e, lt, k)
    requires s'.size == s.size && s'.head == s.head && s'.tail == s.tail && s'.rings == s.rings[lt := q']
    requires s'.clock == s.clock + 1 && s'.log == s.log[Pos(lt, k) := Span(e.began, None)]
    requires RingInv(q') && Stable(s.rings[lt], q', t)
    requires q'.head == s.rings[lt].head && q'.closed == s.rings[lt].closed && q'.issuedTo == s.rings[lt].issuedTo
    requires |q'.cells| == |s.rings[lt].cells|
    ensures Evolves(s, s', t) && ListOk(s')
  {
    hide Stable;
    hide RingInv;
    NotLogged(s, t, e, lt, k);
    hide LogOk;
    hide HasTicket;
    RingsStable(s, s', t, lt);
    NewSpan(s, s', Pos(lt, k), Span(e.began, None));
  }

  /** A new entry of the log changes no other, and its enqueue has not returned. */
  lemma NewSpan(s: State, s': State, at: Pos, sp: Span)
    requires at !in s.log && sp.ended.None? && s'.log == s.log[at := sp]
    ensures forall p :: p in s.log ==> p in s'.log && s'.log[p] == s.log[p]
    ensures forall p, b: nat :: p in s'.log && b <= s.clock && EndedBefore(s'.log[p], b) ==>
        p in s.log && EndedBefore(s.log[p], b)
  {}

  lemma DepositLog(s: State, s': State, t: nat, e: Enq, lt: nat, k: nat, q': Ring)
    requires ListOk(s) && LogOk(s) && HasTicket(s, t, e, lt, k)
    requires s'.tail == s.tail && s'.rings == s.rings[lt := q'] && q'.dep == s.rings[lt].dep[k := e.item]
    requires s'.clock == s.clock + 1 && s'.log == s.log[Pos(lt, k) := Span(e.began, None)]
    ensures LogOk(s')
  {
    hide RingInv;
    NotLogged(s, t, e, lt, k);
    NewLog(s, s', Pos(lt, k), e.began);
  }

  lemma NotLogged(s: State, t: nat, e: Enq, lt: nat, k: nat)
    requires LogOk(s) && HasTicket(s, t, e, lt, k)
    ensures Pos(lt, k) !in s.log
  {
  }

  /** The return of an enqueue. */
  lemma KeepReturn(s: State, t: nat, e: Enq, at: Pos)
    requires Inv(s) && t < |s.thr| && s.thr[t] == Enqueue(EDone(e, at)) && Ready(s, t)
    ensures Good(s, EnqStep(s, t), t)
  {
    var s' := EnqStep(s, t);
    assert ThreadOk(s, t, s.thr[t]);
    RingsStable(s, s', t, |s.rings|);
    ReturnLog(s, s', t, e, at);
    Keep(s, s', t);
  }

  lemma ReturnLog(s: State, s': State, t: nat, e: Enq, at: Pos)
    requires Inv(s) && t < |s.thr| && InFlight(s, t, e, at) && at.ring <= s.tail
    requires s' == Go(s, t, Idle).(log := s.log[at := Span(e.began, Some(s.clock))])
    ensures LogOk(s') && ListOk(s')
    ensures forall p :: p in s.log ==> p in s'.log && s'.log[p].began == s.log[p].began
    ensures forall p :: p in s.log ==> s'.log[p] == s.log[p] || MayEnd(s, t, p)
    ensures forall p, b: nat :: p in s'.log && b <= s.clock && EndedBefore(s'.log[p], b) ==>
        p in s.log && EndedBefore(s.log[p], b)
  {
    hide RingInv, ThreadOk;
    assert ListOk(s');
    hide ListOk;
    ReturnSpans(s, s', t, e, at);
    hide LogOk;
  }

  lemma ReturnSpans(s: State, s': State, t: nat, e: Enq, at: Pos)
    requires LogOk(s) && t < |s.thr| && InFlight(s, t, e, at) && at.ring <= s.tail
    requires s' == Go(s, t, Idle).(log := s.log[at := Span(e.began, Some(s.clock))])
    ensures LogOk(s')
  {
    forall p | p in s'.log ensures SpanOk(s', p) {
      assert SpanOk(s, p);
    }
    forall r | 0 <= r < |s'.rings| ensures Logged(s', r) {
      assert Logged(s, r);
    }
  }

  // ----- enqueue

  /** Choosing the tail ring, helping it along, and appending a ring to a closed one. */
  lemma EnqListKeeps(s: State, t: nat)
    requires Inv(s) && Ready(s, t) && s.thr[t].Enqueue?
    requires var p := s.thr[t].ep; p.EStart? || p.ENext? || p.EHelp? || p.EAppend? || p.ESwing?
    ensures Good(s, EnqStep(s, t), t)
  {
    hide Stable;
    hide RingInv;
    hide LogOk;
    hide PastRings;
    assert ThreadOk(s, t, s.thr[t]);
    match s.thr[t].ep {
      case EStart(e) => StartKeeps(s, t, e);
      case ENext(e, lt) => NextKeeps(s, t, e, lt);
      case EHelp(e, lt) => KeepTailMove(s, t, Enqueue(EStart(e)), lt);
      case EAppend(e, lt) =>
        if lt + 1 == |s.rings| {
          KeepAppend(s, t, e, lt);
        } else {
          KeepGo(s, t, Enqueue(EStart(e)));
        }
      case ESwing(e, lt) => KeepTailMove(s, t, Enqueue(EDone(e, Pos(lt + 1, 0))), lt);
    }
  }

  lemma NextKeeps(s: State, t: nat, e: Enq, lt: nat)
    requires Inv(s) && Ready(s, t) && s.thr[t] == Enqueue(ENext(e, lt))
    ensures Good(s, EnqStep(s, t), t)
  {
    hide LogOk;
    hide RingInv;
    assert ThreadOk(s, t, s.thr[t]);
    KeepGo(s, t, Enqueue(if lt + 1 < |s.rings| then EHelp(e, lt) else ETicket(e, lt)));
  }

  lemma StartKeeps(s: State, t: nat, e: Enq)
    requires Inv(s) && Ready(s, t) && s.thr[t] == Enqueue(EStart(e))
    ensures Good(s, EnqStep(s, t), t)
  {
    hide Stable;
    hide RingInv;
    assert ThreadOk(s, t, s.thr[t]);
    assert PastRings(s, e.began, s.tail) by {
      forall p | p in s.log && EndedBefore(s.log[p], e.began) ensures p.ring <= s.tail {
        assert SpanOk(s, p);
      }
    }
    hide LogOk;
    KeepGo(s, t, Enqueue(ENext(e, s.tail)));
  }

  lemma TicketKeeps(s: State, t: nat, e: Enq, lt: nat)
    requires Inv(s) && Ready(s, t) && s.thr[t] == Enqueue(ETicket(e, lt))
    ensures Good(s, EnqStep(s, t), t)
  {
    hide Stable;
    hide LogOk;
    hide RingInv;
    assert AtTail(s, e, lt) by { assert ThreadOk(s, t, s.thr[t]); }
    var q := s.rings[lt];
    TailDrawn(q, t);
    TicketIsLast(s, e, lt);
    hide PastTickets;
    hide PastRings;
    var q' := DrawTail(q, t);
    assert q'.dep == q.dep && q'.head == q.head && (q.closed ==> q'.closed && q'.issuedTo == q.issuedTo);
    hide DrawTail;
    KeepPut(s, t, Enqueue(if q.closed then EAppend(e, lt) else EIdx(e, lt, q.tail)), lt, q');
  }

  /** A fresh ticket lies behind every deposit of an enqueue that returned before this one began. */
  lemma TicketIsLast(s: State, e: Enq, lt: nat)
    requires LogOk(s) && AtTail(s, e, lt) && RingInv(s.rings[lt])
    ensures PastTickets(s, e.began, Pos(lt, s.rings[lt].tail))
  {
    forall p | p in s.log && EndedBefore(s.log[p], e.began) ensures Before(p, Pos(lt, s.rings[lt].tail)) {
      assert SpanOk(s, p);
    }
  }

  /** Reading the cell and depositing into it. */
  lemma EnqCellKeeps(s: State, t: nat)
    requires Inv(s) && Ready(s, t) && s.thr[t].Enqueue?
    requires s.thr[t].ep.EIdx? || s.thr[t].ep.EVal? || s.thr[t].ep.EHead? || s.thr[t].ep.ECas?
    ensures Good(s, EnqStep(s, t), t)
  {
    hide Stable;
    hide LogOk;
    hide RingInv;
    match s.thr[t].ep {
      case EIdx(e, lt, k) =>
        assert ThreadOk(s, t, s.thr[t]);
        var c := At(s.rings[lt], k);
        KeepGo(s, t, Enqueue(EVal(e, lt, k, c.idx, c.unsafe)));
      case EVal(e, lt, k, i, u) => EValKeeps(s, t, e, lt, k, i, u);
      case EHead(e, lt, k, i, u) => EHeadKeeps(s, t, e, lt, k, i, u);
      case ECas(e, lt, k, i, u) =>
        assert ThreadOk(s, t, s.thr[t]);
        if At(s.rings[lt], k) == Cell(None, i, u) {
          KeepDeposit(s, t, e, lt, k, i, u);
        } else {
          KeepGo(s, t, Enqueue(EFull(e, lt, k)));
        }
    }
  }

  /** A safe index word: every abandoned ticket of the slot is behind the cell. */
  lemma SafeMayDeposit(q: Ring, k: nat, i: nat)
    requires RingInv(q) && SawIdx(q, k, i, false) && i <= k
    ensures MayDeposit(q, k, i, false)
  {
    forall h: nat | h in q.left && Slot(q, h) == Slot(q, k) && At(q, k) == Cell(None, i, false) ensures h < k {
      assert LeftOk(q, h);
    }
  }

  /** An unsafe one: the head is still behind the ticket, and abandoned tickets are behind the head. */
  lemma UnsafeMayDeposit(q: Ring, k: nat, i: nat, u: bool)
    requires RingInv(q) && SawIdx(q, k, i, u) && i <= k && q.head < k
    ensures MayDeposit(q, k, i, u)
  {
  }

  lemma EValKeeps(s: State, t: nat, e: Enq, lt: nat, k: nat, i: nat, u: bool)
    requires Inv(s) && Ready(s, t) && s.thr[t] == Enqueue(EVal(e, lt, k, i, u))
    ensures Good(s, EnqStep(s, t), t)
  {
    hide Stable;
    hide LogOk;
    hide RingInv;
    assert ThreadOk(s, t, s.thr[t]);
    if i <= k && !u {
      SafeMayDeposit(s.rings[lt], k, i);
    }
    hide MayDeposit;
    KeepGo(s, t, Enqueue(if At(s.rings[lt], k).val.Some? || i > k then EFull(e, lt, k)
                         else if u then EHead(e, lt, k, i, u)
                         else ECas(e, lt, k, i, u)));
  }

  lemma EHeadKeeps(s: State, t: nat, e: Enq, lt: nat, k: nat, i: nat, u: bool)
    requires Inv(s) && Ready(s, t) && s.thr[t] == Enqueue(EHead(e, lt, k, i, u))
    ensures Good(s, EnqStep(s, t), t)
  {
    hide Stable;
    hide LogOk;
    hide RingInv;
    assert ThreadOk(s, t, s.thr[t]);
    if s.rings[lt].head < k {
      UnsafeMayDeposit(s.rings[lt], k, i, u);
    }
    hide MayDeposit;
    KeepGo(s, t, Enqueue(if s.rings[lt].head < k then ECas(e, lt, k, i, u) else EFull(e, lt, k)));
  }

  lemma EnqKeeps(s: State, t: nat)
    requires Inv(s) && Ready(s, t) && s.thr[t].Enqueue?
    ensures Good(s, EnqStep(s, t), t)
  {
    hide Stable;
    hide LogOk;
    match s.thr[t].ep {
      case ETicket(e, lt) => TicketKeeps(s, t, e, lt);
      case EFull(e, lt, k) =>
        hide RingInv;
        assert ThreadOk(s, t, s.thr[t]);
        KeepGo(s, t, Enqueue(if k - s.rings[lt].head >= s.size then EClose(e.(tries := e.tries + 1), lt, k)
                             else EStart(e)));
      case EClose(e, lt, k) =>
        assert ThreadOk(s, t, s.thr[t]);
        Closed(s.rings[lt], t);
        hide RingInv;
        if e.tries >= POLITE || TailWord(s.rings[lt]) == Word(false, k + 1) {
          KeepPut(s, t, Enqueue(EStart(e)), lt, Close(s.rings[lt]));
        } else {
          KeepGo(s, t, Enqueue(EStart(e)));
        }
      case EDone(e, at) => KeepReturn(s, t, e, at);
      case EIdx(_, _, _) => EnqCellKeeps(s, t);
      case EVal(_, _, _, _, _) => EnqCellKeeps(s, t);
      case EHead(_, _, _, _, _) => EnqCellKeeps(s, t);
      case ECas(_, _, _, _, _) => EnqCellKeeps(s, t);
      case _ => EnqListKeeps(s, t);
    }
  }

  // ----- dequeue

  lemma CellKeeps(s: State, t: nat)
    requires Inv(s) && Ready(s, t) && s.thr[t].Dequeue?
    ensures Good(s, CellStep(s, t), t)
  {
    hide Inv, Good, CellStep;
    match s.thr[t].cp {
      case DStart(began) => DStartKeeps(s, t, began);
      case DTicket(began, lh) => DTicketKeeps(s, t, began, lh);
      case DIdx(d) => DIdxKeeps(s, t, d);
      case DVal(d, i, u) => DValKeeps(s, t, d, i, u);
      case DTail(d, i, u) => DTailKeeps(s, t, d, i, u);
      case DTake(d, v, u) => DTakeKeeps(s, t, d, v, u);
      case DMark(d, v, i, u) => DMarkKeeps(s, t, d, v, i, u);
      case DSkip(d, i, u) => DSkipKeeps(s, t, d, i, u);
      case DBts(began, lh, h) => DBtsKeeps(s, t, began, lh, h);
      case DDone(began, at, v) => DDoneKeeps(s, t, began, at, v);
    }
  }

  lemma DStartKeeps(s: State, t: nat, began: nat)
    requires Inv(s) && Ready(s, t) && s.thr[t] == Dequeue(DStart(began))
    ensures Good(s, CellStep(s, t), t)
  {
    hide Stable, LogOk;
    assert ThreadOk(s, t, s.thr[t]);
    hide RingInv;
    KeepGo(s, t, Dequeue(DTicket(began, s.head)));
  }

  lemma DTicketKeeps(s: State, t: nat, began: nat, lh: nat)
    requires Inv(s) && Ready(s, t) && s.thr[t] == Dequeue(DTicket(began, lh))
    ensures Good(s, CellStep(s, t), t)
  {
    hide Stable, LogOk;
    assert ThreadOk(s, t, s.thr[t]);
    var q := s.rings[lh];
    HeadDrawn(q, t);
    hide RingInv;
    KeepPut(s, t, Dequeue(DIdx(Deq(began, lh, q.head, 0, Word(false, 0)))), lh, DrawHead(q, t));
  }

  lemma DIdxKeeps(s: State, t: nat, d: Deq)
    requires Inv(s) && Ready(s, t) && s.thr[t] == Dequeue(DIdx(d))
    ensures Good(s, CellStep(s, t), t)
  {
    hide Stable, LogOk;
    assert ThreadOk(s, t, s.thr[t]);
    hide RingInv;
    var c := At(s.rings[d.lh], d.h);
    KeepGo(s, t, Dequeue(DVal(d, c.idx, c.unsafe)));
  }

  lemma DTailKeeps(s: State, t: nat, d: Deq, i: nat, u: bool)
    requires Inv(s) && Ready(s, t) && s.thr[t] == Dequeue(DTail(d, i, u))
    ensures Good(s, CellStep(s, t), t)
  {
    hide Stable, LogOk;
    assert ThreadOk(s, t, s.thr[t]);
    hide RingInv;
    KeepGo(s, t, Dequeue(EmptyCell(d.(tt := TailWord(s.rings[d.lh])), i, u)));
  }

  lemma DBtsKeeps(s: State, t: nat, began: nat, lh: nat, h: nat)
    requires Inv(s) && Ready(s, t) && s.thr[t] == Dequeue(DBts(began, lh, h))
    ensures Good(s, CellStep(s, t), t)
  {
    hide Stable, LogOk;
    assert ThreadOk(s, t, s.thr[t]);
    Closed(s.rings[lh], t);
    hide RingInv;
    KeepPut(s, t, Leaving(DCheck(began, lh, h)), lh, Close(s.rings[lh]));
  }

  lemma DDoneKeeps(s: State, t: nat, began: nat, at: Pos, v: Item)
    requires Inv(s) && Ready(s, t) && s.thr[t] == Dequeue(DDone(began, at, v))
    ensures Good(s, CellStep(s, t), t)
  {
    hide Stable, LogOk;
    assert ThreadOk(s, t, s.thr[t]);
    hide RingInv;
    KeepGo(s, t, Idle);
  }

  lemma DValKeeps(s: State, t: nat, d: Deq, i: nat, u: bool)
    requires Inv(s) && Ready(s, t) && s.thr[t] == Dequeue(DVal(d, i, u))
    ensures Good(s, CellStep(s, t), t)
  {
    hide Stable;
    hide LogOk;
    hide RingInv;
    assert ThreadOk(s, t, s.thr[t]);
    var q := s.rings[d.lh];
    var c := At(q, d.h);
    if i > d.h {
      Departed(q, t, d.h);
      GoneAfter(s, t, d, Leave(q, d.h));
      KeepPut(s, t, Leaving(DCheck(d.began, d.lh, d.h)), d.lh, Leave(q, d.h));
    } else if c.val.Some? {
      KeepGo(s, t, Dequeue(if i == d.h then DTake(d, c.val.value, u) else DMark(d, c.val.value, i, u)));
    } else {
      KeepGo(s, t, Dequeue(if d.r % RELOAD == 0 then DTail(d, i, u) else EmptyCell(d, i, u)));
    }
  }

  /** An abandoned ticket was drawn. */
  lemma GoneAfter(s: State, t: nat, d: Deq, q: Ring)
    requires ListOk(s) && InLoop(s, t, d) && RingInv(q) && d.h in q.left
    ensures d.h < q.head
  {
  }

  lemma DTakeKeeps(s: State, t: nat, d: Deq, v: Item, u: bool)
    requires Inv(s) && Ready(s, t) && s.thr[t] == Dequeue(DTake(d, v, u))
    ensures Good(s, CellStep(s, t), t)
  {
    hide Stable;
    hide LogOk;
    hide RingInv;
    assert ThreadOk(s, t, s.thr[t]);
    var q := s.rings[d.lh];
    if At(q, d.h) == Cell(Some(v), d.h, u) {
      Delivered(q, t, d.h);
      KeepPut(s, t, Dequeue(DDone(d.began, Pos(d.lh, d.h), v)), d.lh, Deliver(q, d.h));
    } else {
      KeepGo(s, t, Dequeue(DIdx(d)));
    }
  }

  lemma DMarkKeeps(s: State, t: nat, d: Deq, v: Item, i: nat, u: bool)
    requires Inv(s) && Ready(s, t) && s.thr[t] == Dequeue(DMark(d, v, i, u))
    ensures Good(s, CellStep(s, t), t)
  {
    hide Stable;
    hide LogOk;
    hide RingInv;
    assert ThreadOk(s, t, s.thr[t]);
    var q := s.rings[d.lh];
    if At(q, d.h) == Cell(Some(v), i, u) {
      Marked(q, t, d.h);
      GoneAfter(s, t, d, Mark(q, d.h));
      KeepPut(s, t, Leaving(DCheck(d.began, d.lh, d.h)), d.lh, Mark(q, d.h));
    } else {
      KeepGo(s, t, Dequeue(DIdx(d)));
    }
  }

  lemma DSkipKeeps(s: State, t: nat, d: Deq, i: nat, u: bool)
    requires Inv(s) && Ready(s, t) && s.thr[t] == Dequeue(DSkip(d, i, u))
    ensures Good(s, CellStep(s, t), t)
  {
    hide Stable;
    hide LogOk;
    hide RingInv;
    assert ThreadOk(s, t, s.thr[t]);
    var q := s.rings[d.lh];
    if At(q, d.h) == Cell(None, i, u) {
      Skipped(q, t, d.h);
      GoneAfter(s, t, d, Skip(q, d.h));
      KeepPut(s, t, AfterSkip(d, u, s.size), d.lh, Skip(q, d.h));
    } else {
      KeepGo(s, t, Dequeue(DIdx(d)));
    }
  }

  /** With `tail` at most one past an abandoned ticket of the last ring, nothing is left undrawn. */
  lemma LastRingExhausted(s: State, lh: nat, h: nat)
    requires ListOk(s) && lh + 1 == |s.rings| && lh <= s.head && h < s.rings[lh].head
    requires s.rings[lh].tail <= h + 1
    ensures AllDrawn(s)
  {
  }

  lemma CheckKeeps(s: State, t: nat, began: nat, lh: nat, h: nat)
    requires Inv(s) && Ready(s, t) && s.thr[t] == Leaving(DCheck(began, lh, h))
    ensures Good(s, ExitStep(s, t), t)
  {
    hide Stable;
    hide LogOk;
    hide RingInv;
    assert ThreadOk(s, t, s.thr[t]);
    if s.rings[lh].tail <= h + 1 {
      if lh + 1 == |s.rings| {
        LastRingExhausted(s, lh, h);
      }
      hide AllDrawn;
      KeepGo(s, t, Leaving(FTail(Exit(began, lh, h, s.clock, AllDrawn(s)))));
    } else {
      KeepGo(s, t, Dequeue(DStart(began)));
    }
  }

  lemma AgainKeeps(s: State, t: nat, x: Exit)
    requires Inv(s) && Ready(s, t) && s.thr[t] == Leaving(DAgain(x))
    ensures Good(s, ExitStep(s, t), t)
  {
    hide Stable;
    hide LogOk;
    assert ThreadOk(s, t, s.thr[t]);
    if s.rings[x.lh].tail <= x.h + 1 {
      assert Drained(s.rings[x.lh]);
      hide RingInv;
      KeepGo(s, t, Leaving(DSwing(x)));
    } else {
      hide RingInv;
      KeepGo(s, t, Dequeue(DStart(x.began)));
    }
  }

  lemma FixKeeps(s: State, t: nat)
    requires Inv(s) && Ready(s, t) && s.thr[t].Leaving?
    requires s.thr[t].xp.FTail? || s.thr[t].xp.FHead? || s.thr[t].xp.FAgain? || s.thr[t].xp.FCas?
    ensures Good(s, ExitStep(s, t), t)
  {
    hide Stable;
    hide LogOk;
    hide RingInv;
    assert ThreadOk(s, t, s.thr[t]);
    match s.thr[t].xp {
      case FTail(x) => KeepGo(s, t, Leaving(FHead(x, TailWord(s.rings[x.lh]))));
      case FHead(x, w) => KeepGo(s, t, Leaving(FAgain(x, w, s.rings[x.lh].head)));
      case FAgain(x, w, hs) =>
        KeepGo(s, t, Leaving(if TailWord(s.rings[x.lh]) != w then FTail(x)
                             else if !w.closed && hs > w.idx then FCas(x, w, hs)
                             else DNext(x, hs)));
      case FCas(x, w, hs) =>
        if TailWord(s.rings[x.lh]) == w {
          TailRaised(s.rings[x.lh], hs, t);
          KeepPut(s, t, Leaving(DNext(x, hs)), x.lh, RaiseTail(s.rings[x.lh], hs));
        } else {
          KeepGo(s, t, Leaving(FTail(x)));
        }
    }
  }

  lemma ExitKeeps(s: State, t: nat)
    requires Inv(s) && Ready(s, t) && s.thr[t].Leaving?
    ensures Good(s, ExitStep(s, t), t)
  {
    hide Stable;
    hide LogOk;
    hide RingInv;
    assert ThreadOk(s, t, s.thr[t]);
    match s.thr[t].xp {
      case DCheck(began, lh, h) => CheckKeeps(s, t, began, lh, h);
      case DNext(x, hs) => KeepGo(s, t, Leaving(if x.lh + 1 == |s.rings| then DNull(x) else DAgain(x)));
      case DAgain(x) => AgainKeeps(s, t, x);
      case DSwing(x) =>
        if s.head == x.lh {
          KeepHeadMove(s, t, Leaving(DRetire(x.began, x.lh)));
        } else {
          KeepGo(s, t, Dequeue(DStart(x.began)));
        }
      case DRetire(began, lh) => KeepGo(s, t, Dequeue(DStart(began)));
      case DNull(_) => KeepGo(s, t, Idle);
      case _ => FixKeeps(s, t);
    }
  }

  // ----- all runs

  /** A transition changes only its own thread's program counter and advances the clock by one. */
  lemma StepFrame(s: State, s': State, t: nat)
    requires Step(s, s', t)
    ensures s'.size == s.size && s'.clock == s.clock + 1
    ensures |s'.thr| == |s.thr| && s'.thr == s.thr[t := s'.thr[t]]
  {
    if Ready(s, t) && s' == Exec(s, t) {
      match s.thr[t]
      case Enqueue(_) => EnqFrame(s, t);
      case Dequeue(_) => CellFrame(s, t);
      case Leaving(_) => ExitFrame(s, t);
    }
  }

  predicate AtCell(p: EnqPc) {
    p.EIdx? || p.EVal? || p.EHead? || p.ECas? || p.EFull? || p.EClose?
  }

  lemma EnqFrame(s: State, t: nat)
    requires Ready(s, t) && s.thr[t].Enqueue?
    ensures EnqStep(s, t).size == s.size && EnqStep(s, t).clock == s.clock + 1
    ensures |EnqStep(s, t).thr| == |s.thr| && EnqStep(s, t).thr == s.thr[t := EnqStep(s, t).thr[t]]
  {
    hide EnqStep;
    if AtCell(s.thr[t].ep) {
      EnqCellFrame(s, t);
    } else {
      EnqListFrame(s, t);
    }
  }

  lemma EnqCellFrame(s: State, t: nat)
    requires Ready(s, t) && s.thr[t].Enqueue? && AtCell(s.thr[t].ep)
    ensures EnqStep(s, t).size == s.size && EnqStep(s, t).clock == s.clock + 1
    ensures |EnqStep(s, t).thr| == |s.thr| && EnqStep(s, t).thr == s.thr[t := EnqStep(s, t).thr[t]]
  {
    hide Deposit, Close;
  }

  lemma EnqListFrame(s: State, t: nat)
    requires Ready(s, t) && s.thr[t].Enqueue? && !AtCell(s.thr[t].ep)
    ensures EnqStep(s, t).size == s.size && EnqStep(s, t).clock == s.clock + 1
    ensures |EnqStep(s, t).thr| == |s.thr| && EnqStep(s, t).thr == s.thr[t := EnqStep(s, t).thr[t]]
  {
    hide DrawTail, Seeded;
  }

  lemma CellFrame(s: State, t: nat)
    requires Ready(s, t) && s.thr[t].Dequeue?
    ensures CellStep(s, t).size == s.size && CellStep(s, t).clock == s.clock + 1
    ensures |CellStep(s, t).thr| == |s.thr| && CellStep(s, t).thr == s.thr[t := CellStep(s, t).thr[t]]
  {
    hide Deliver, Mark, Skip, Leave, DrawHead, Close, AfterSkip, EmptyCell;
  }

  lemma ExitFrame(s: State, t: nat)
    requires Ready(s, t) && s.thr[t].Leaving?
    ensures ExitStep(s, t).size == s.size && ExitStep(s, t).clock == s.clock + 1
    ensures |ExitStep(s, t).thr| == |s.thr| && ExitStep(s, t).thr == s.thr[t := ExitStep(s, t).thr[t]]
  {}

  lemma InitInv(s: State)
    requires Init(s)
    ensures Inv(s)
  {
    EmptyInv(s.size);
  }

  /** In a state that satisfies the invariant no thread is stuck. */
  lemma NeverStuck(s: State, t: nat)
    requires Inv(s) && t < |s.thr| && s.thr[t] != Idle
    ensures Ready(s, t)
  {
    hide LogOk;
    assert ThreadOk(s, t, s.thr[t]);
  }

  lemma StepInv(s: State, s': State, t: nat)
    requires Inv(s) && Step(s, s', t)
    ensures Good(s, s', t)
  {
    hide ListOk;
    hide LogOk;
    assert ThreadOk(s, t, s.thr[t]);
    if s.thr[t].Idle? && s' != GoD(s, t, DStart(s.clock)) {
      var item :| s' == GoE(s, t, EStart(Enq(item, s.clock, 0)));
      KeepGo(s, t, Enqueue(EStart(Enq(item, s.clock, 0))));
    } else if s.thr[t].Idle? {
      KeepGo(s, t, Dequeue(DStart(s.clock)));
    } else if AtTop(s.thr[t]) && s' == Go(s, t, s.thr[t]) {
      KeepGo(s, t, s.thr[t]);
    } else {
      match s.thr[t]
      case Enqueue(_) => EnqKeeps(s, t);
      case Dequeue(_) => CellKeeps(s, t);
      case Leaving(_) => ExitKeeps(s, t);
    }
  }

  lemma {:induction false} RunInv(run: seq<State>)
    requires IsRun(run)
    ensures Inv(Last(run))
  {
    hide Inv;
    if |run| == 1 {
      InitInv(run[0]);
    } else {
      var before := run[..|run| - 1];
      RunInv(before);
      var t :| Step(Last(before), Last(run), t);
      StepInv(Last(before), Last(run), t);
    }
  }
}
