/** What every step of the queue keeps. */
module Invariant {
  import opened Rings
  import opened Queue

  // ----- the invariant

  /** Every enqueue ticket of the ring has been drawn by a dequeuer. */
  ghost predicate Drained(q: Ring) {
    forall k: nat :: k in q.issuedTo ==> k < q.head
  }

  /** The list of rings and the two pointers into it. */
  ghost predicate ListOk(s: State) {
    && s.size > 0
    && s.head < |s.rings|
    && s.tail < |s.rings| <= s.tail + 2
    && (forall r :: 0 <= r < |s.rings| ==> RingInv(s.rings[r]) && |s.rings[r].cells| == s.size)
    && (forall r :: 0 <= r < |s.rings| - 1 ==> s.rings[r].closed)
    && (forall r :: 0 <= r < s.head ==> Drained(s.rings[r]))
    && (forall r :: s.head < r < |s.rings| ==> s.rings[r].head == 0)
  }

  predicate Before(p: Pos, p': Pos) {
    p.ring < p'.ring || (p.ring == p'.ring && p.ticket < p'.ticket)
  }

  /** The enqueue of this span had returned when the clock showed `b`. */
  predicate EndedBefore(sp: Span, b: nat) {
    sp.ended.Some? && sp.ended.value < b
  }

  /** Enqueues that had returned by time `b` deposited no later than ring `r`. */
  ghost predicate PastRings(s: State, b: nat, r: nat) {
    forall p :: p in s.log && EndedBefore(s.log[p], b) ==> p.ring <= r
  }

  /** Enqueues that had returned by time `b` deposited before position `at`. */
  ghost predicate PastTickets(s: State, b: nat, at: Pos) {
    forall p :: p in s.log && EndedBefore(s.log[p], b) ==> Before(p, at)
  }

  /** The record of one deposit: it is in its ring, and no enqueue that returned before
      this one began deposited behind it. */
  ghost predicate SpanOk(s: State, p: Pos)
    requires p in s.log
  {
    && p.ring < |s.rings| && p.ticket in s.rings[p.ring].dep
    && s.log[p].began < s.clock
    && (s.log[p].ended.Some? ==> s.log[p].ended.value < s.clock && p.ring <= s.tail)
    && PastTickets(s, s.log[p].began, p)
  }

  ghost predicate Logged(s: State, r: nat)
    requires r < |s.rings|
  {
    forall k: nat :: k in s.rings[r].dep ==> Pos(r, k) in s.log
  }

  ghost predicate LogOk(s: State) {
    && (forall p :: p in s.log ==> SpanOk(s, p))
    && (forall r :: 0 <= r < |s.rings| ==> Logged(s, r))
  }

  /** Enqueuer `t` has chosen ring `lt` as the tail. */
  ghost predicate AtTail(s: State, e: Enq, lt: nat) {
    lt < |s.rings| && lt <= s.tail && e.began < s.clock && PastRings(s, e.began, lt)
  }

  /** Enqueuer `t` holds ticket `k` of ring `lt`. */
  ghost predicate HasTicket(s: State, t: nat, e: Enq, lt: nat, k: nat) {
    && lt < |s.rings| && lt <= s.tail && e.began < s.clock
    && PastTickets(s, e.began, Pos(lt, k))
    && HoldsTail(s.rings[lt], t, k)
  }

  /** Enqueuer `t` has deposited its item at `at` and has not returned. */
  ghost predicate InFlight(s: State, t: nat, e: Enq, at: Pos) {
    && e.began < s.clock
    && at in s.log && s.log[at] == Span(e.began, None)
    && at.ring < |s.rings| && at.ticket in s.rings[at.ring].issuedTo
    && s.rings[at.ring].issuedTo[at.ticket] == t
    && at.ticket in s.rings[at.ring].dep && s.rings[at.ring].dep[at.ticket] == e.item
  }

  /** Dequeuer `t` holds ticket `h` of ring `lh`. */
  ghost predicate InLoop(s: State, t: nat, d: Deq) {
    && d.lh < |s.rings| && d.lh <= s.head && d.began < s.clock
    && HoldsHead(s.rings[d.lh], t, d.h)
  }

  /** A dequeuer has abandoned ticket `h` of ring `lh`. */
  ghost predicate Gone(s: State, began: nat, lh: nat, h: nat) {
    && lh < |s.rings| && lh <= s.head && began < s.clock
    && h in s.rings[lh].left && h < s.rings[lh].head
  }

  /** ... and saw the ring's `tail` no further than one past its ticket. */
  ghost predicate Exhausted(s: State, x: Exit) {
    && Gone(s, x.began, x.lh, x.h)
    && x.began < x.at < s.clock
    && (x.empty || x.lh + 1 < |s.rings|)
  }

  /** The `tail` word `w` was read from ring `q` earlier. */
  ghost predicate SawTail(q: Ring, w: Word) {
    w.idx <= q.tail && (w.closed ==> q.closed)
  }

  /** What fixState promises when it is done. */
  ghost predicate Fixed(q: Ring, hs: nat) {
    q.closed || q.tail >= hs
  }

  ghost predicate EnqOk(s: State, t: nat, p: EnqPc) {
    match p
    case EStart(e) => e.began < s.clock
    case ENext(e, lt) => AtTail(s, e, lt)
    case EHelp(e, lt) => AtTail(s, e, lt) && lt + 1 < |s.rings|
    case ETicket(e, lt) => AtTail(s, e, lt)
    case EAppend(e, lt) => AtTail(s, e, lt) && s.rings[lt].closed
    case ESwing(e, lt) => lt <= s.tail && InFlight(s, t, e, Pos(lt + 1, 0))
    case EIdx(e, lt, k) => HasTicket(s, t, e, lt, k)
    case EVal(e, lt, k, i, u) => HasTicket(s, t, e, lt, k) && SawIdx(s.rings[lt], k, i, u)
    case EHead(e, lt, k, i, u) => HasTicket(s, t, e, lt, k) && SawIdx(s.rings[lt], k, i, u) && i <= k && u
    case ECas(e, lt, k, i, u) => HasTicket(s, t, e, lt, k) && MayDeposit(s.rings[lt], k, i, u)
    case EFull(e, lt, k) => HasTicket(s, t, e, lt, k)
    case EClose(e, lt, k) => HasTicket(s, t, e, lt, k)
    case EDone(e, at) => at.ring <= s.tail && InFlight(s, t, e, at)
  }

  ghost predicate CellOk(s: State, t: nat, p: CellPc) {
    match p
    case DStart(began) => began < s.clock
    case DTicket(began, lh) => began < s.clock && lh < |s.rings| && lh <= s.head
    case DIdx(d) => InLoop(s, t, d)
    case DVal(d, i, u) => InLoop(s, t, d) && SawIdx(s.rings[d.lh], d.h, i, u)
    case DTail(d, i, u) => InLoop(s, t, d) && i <= d.h
    case DTake(d, v, u) => InLoop(s, t, d)
    case DMark(d, v, i, u) => InLoop(s, t, d) && i < d.h
    case DSkip(d, i, u) => InLoop(s, t, d) && i <= d.h
    case DBts(began, lh, h) => Gone(s, began, lh, h)
    case DDone(began, at, v) =>
      && began < s.clock && at.ring < |s.rings| && at.ring <= s.head
      && at.ticket in s.rings[at.ring].got && s.rings[at.ring].got[at.ticket] == v
      && at.ticket in s.rings[at.ring].drawnBy && s.rings[at.ring].drawnBy[at.ticket] == t
  }

  ghost predicate ExitOk(s: State, p: ExitPc) {
    match p
    case DCheck(began, lh, h) => Gone(s, began, lh, h)
    case FTail(x) => Exhausted(s, x)
    case FHead(x, w) => Exhausted(s, x) && SawTail(s.rings[x.lh], w)
    case FAgain(x, w, hs) => Exhausted(s, x) && SawTail(s.rings[x.lh], w) && x.h < hs <= s.rings[x.lh].head
    case FCas(x, w, hs) => Exhausted(s, x) && !w.closed && w.idx < hs && x.h < hs <= s.rings[x.lh].head
    case DNext(x, hs) => Exhausted(s, x) && x.h < hs && Fixed(s.rings[x.lh], hs)
    case DAgain(x) => Exhausted(s, x) && x.lh + 1 < |s.rings|
    case DSwing(x) => Exhausted(s, x) && x.lh + 1 < |s.rings| && Drained(s.rings[x.lh])
    case DRetire(began, lh) => began < s.clock && lh < s.head
    case DNull(x) => Exhausted(s, x) && x.empty
  }

  /** What thread `t` may rely on at program counter `p`. */
  ghost predicate ThreadOk(s: State, t: nat, p: Pc) {
    match p
    case Idle => true
    case Enqueue(ep) => EnqOk(s, t, ep)
    case Dequeue(cp) => CellOk(s, t, cp)
    case Leaving(xp) => ExitOk(s, xp)
  }

  ghost predicate Inv(s: State) {
    && ListOk(s)
    && LogOk(s)
    && (forall t :: 0 <= t < |s.thr| ==> ThreadOk(s, t, s.thr[t]))
  }

  // ----- what the other threads may do meanwhile

  /** The enqueue that deposited at `p` is thread `t`'s and has not returned. */
  ghost predicate MayEnd(s: State, t: nat, p: Pos)
    requires p in s.log
  {
    && s.log[p].ended.None?
    && p.ring < |s.rings| && p.ticket in s.rings[p.ring].issuedTo
    && s.rings[p.ring].issuedTo[p.ticket] == t
  }

  /** Everything a step of thread `t` may change, seen by the other threads. */
  ghost predicate Evolves(s: State, s': State, t: nat) {
    && |s.rings| <= |s'.rings|
    && (forall r :: 0 <= r < |s.rings| ==> Stable(s.rings[r], s'.rings[r], t))
    && s.head <= s'.head
    && s.tail <= s'.tail
    && s.clock < s'.clock
    && (forall p :: p in s.log ==> p in s'.log && s'.log[p].began == s.log[p].began)
    && (forall p :: p in s.log ==> s'.log[p] == s.log[p] || MayEnd(s, t, p))
    && (forall p, b: nat :: p in s'.log && b <= s.clock && EndedBefore(s'.log[p], b) ==>
          p in s.log && EndedBefore(s.log[p], b))
  }

  lemma EnqListStable(s: State, s': State, t: nat, u: nat, p: EnqPc)
    requires Evolves(s, s', t) && t != u && EnqOk(s, u, p)
    requires !p.EIdx? && !p.EVal? && !p.EHead? && !p.ECas? && !p.EFull? && !p.EClose?
    ensures EnqOk(s', u, p)
  {}

  lemma EnqStable(s: State, s': State, t: nat, u: nat, p: EnqPc)
    requires Evolves(s, s', t) && t != u && EnqOk(s, u, p)
    ensures EnqOk(s', u, p)
  {
    hide Stable, RingInv;
    match p {
      case EIdx(e, lt, k) => HoldsTailStable(s.rings[lt], s'.rings[lt], t, u, k);
      case EVal(e, lt, k, i, b) =>
        HoldsTailStable(s.rings[lt], s'.rings[lt], t, u, k);
        SawIdxStable(s.rings[lt], s'.rings[lt], t, k, i, b);
      case EHead(e, lt, k, i, b) =>
        HoldsTailStable(s.rings[lt], s'.rings[lt], t, u, k);
        SawIdxStable(s.rings[lt], s'.rings[lt], t, k, i, b);
      case ECas(e, lt, k, i, b) =>
        HoldsTailStable(s.rings[lt], s'.rings[lt], t, u, k);
        MayDepositStable(s.rings[lt], s'.rings[lt], t, k, i, b);
      case EFull(e, lt, k) => HoldsTailStable(s.rings[lt], s'.rings[lt], t, u, k);
      case EClose(e, lt, k) => HoldsTailStable(s.rings[lt], s'.rings[lt], t, u, k);
      case _ => EnqListStable(s, s', t, u, p);
    }
  }

  lemma CellStable(s: State, s': State, t: nat, u: nat, p: CellPc)
    requires Evolves(s, s', t) && t != u && CellOk(s, u, p)
    ensures CellOk(s', u, p)
  {
    match p {
      case DIdx(d) => HoldsHeadStable(s.rings[d.lh], s'.rings[d.lh], t, u, d.h);
      case DVal(d, i, b) =>
        HoldsHeadStable(s.rings[d.lh], s'.rings[d.lh], t, u, d.h);
        SawIdxStable(s.rings[d.lh], s'.rings[d.lh], t, d.h, i, b);
      case DTail(d, i, b) => HoldsHeadStable(s.rings[d.lh], s'.rings[d.lh], t, u, d.h);
      case DTake(d, v, b) => HoldsHeadStable(s.rings[d.lh], s'.rings[d.lh], t, u, d.h);
      case DMark(d, v, i, b) => HoldsHeadStable(s.rings[d.lh], s'.rings[d.lh], t, u, d.h);
      case DSkip(d, i, b) => HoldsHeadStable(s.rings[d.lh], s'.rings[d.lh], t, u, d.h);
      case _ =>
    }
  }

  lemma ExitStable(s: State, s': State, t: nat, p: ExitPc)
    requires Evolves(s, s', t) && ListOk(s) && ExitOk(s, p)
    ensures ExitOk(s', p)
  {
  }

  lemma ThreadStable(s: State, s': State, t: nat, u: nat, p: Pc)
    requires Evolves(s, s', t) && ListOk(s) && t != u && ThreadOk(s, u, p)
    ensures ThreadOk(s', u, p)
  {
    match p {
      case Idle =>
      case Enqueue(ep) => EnqStable(s, s', t, u, ep);
      case Dequeue(cp) => CellStable(s, s', t, u, cp);
      case Leaving(xp) => ExitStable(s, s', t, xp);
    }
  }

  // ----- the shapes of a step

  /** A step of thread `t` that keeps the invariant and respects the other threads. */
  ghost predicate Good(s: State, s': State, t: nat) {
    Inv(s') && Evolves(s, s', t)
  }

  lemma Keep(s: State, s': State, t: nat)
    requires Inv(s) && t < |s.thr| == |s'.thr| && s'.thr == s.thr[t := s'.thr[t]]
    requires Evolves(s, s', t) && ListOk(s') && LogOk(s') && ThreadOk(s', t, s'.thr[t])
    ensures Good(s, s', t)
  {
    forall u | 0 <= u < |s'.thr| ensures ThreadOk(s', u, s'.thr[u]) {
      if u != t {
        ThreadStable(s, s', t, u, s.thr[u]);
      }
    }
  }

  /** A ring that does not change is stable. */
  lemma RingsStable(s: State, s': State, t: nat, r: nat)
    requires |s.rings| <= |s'.rings|
    requires forall m :: 0 <= m < |s.rings| ==> |s.rings[m].cells| > 0
    requires forall m :: 0 <= m < |s.rings| && m != r ==> s'.rings[m] == s.rings[m]
    requires r < |s.rings| ==> Stable(s.rings[r], s'.rings[r], t)
    ensures forall m :: 0 <= m < |s.rings| ==> Stable(s.rings[m], s'.rings[m], t)
  {
    forall m | 0 <= m < |s.rings| && m != r ensures Stable(s.rings[m], s'.rings[m], t) {
      StableRefl(s.rings[m], t);
    }
  }

  /** The log survives a step that neither logs anything nor moves `tail` back. */
  lemma SameLog(s: State, s': State)
    requires LogOk(s) && s'.log == s.log && s.clock <= s'.clock && s.tail <= s'.tail
    requires |s.rings| == |s'.rings|
    requires forall r :: 0 <= r < |s.rings| ==> s'.rings[r].dep == s.rings[r].dep
    ensures LogOk(s')
  {
    forall p | p in s'.log ensures SpanOk(s', p) {
      assert SpanOk(s, p);
    }
    forall r | 0 <= r < |s'.rings| ensures Logged(s', r) {
      assert Logged(s, r);
    }
  }

  /** A step that changes nothing shared. */
  lemma KeepGo(s: State, t: nat, p: Pc)
    requires Inv(s) && t < |s.thr| && ThreadOk(Go(s, t, p), t, p)
    ensures Good(s, Go(s, t, p), t)
  {
    hide ThreadOk;
    hide LogOk;
    hide Stable;
    var s' := Go(s, t, p);
    RingsStable(s, s', t, |s.rings|);
    SameLog(s, s');
    hide RingInv;
    Keep(s, s', t);
  }

  /** A step that changes one ring without a deposit. */
  lemma KeepPut(s: State, t: nat, p: Pc, r: nat, q: Ring)
    requires Inv(s) && t < |s.thr| && r < |s.rings|
    requires RingInv(q) && Stable(s.rings[r], q, t) && q.dep == s.rings[r].dep
    requires r < s.head ==> q.issuedTo == s.rings[r].issuedTo
    requires r > s.head ==> q.head == 0
    requires ThreadOk(Put(s, t, p, r, q), t, p)
    ensures Good(s, Put(s, t, p, r, q), t)
  {
    hide ThreadOk;
    hide LogOk;
    var s' := Put(s, t, p, r, q);
    assert s.rings[r].head <= q.head && (s.rings[r].closed ==> q.closed) && |q.cells| == |s.rings[r].cells|;
    hide Stable;
    RingsStable(s, s', t, r);
    SameLog(s, s');
    hide RingInv;
    Keep(s, s', t);
  }
}
