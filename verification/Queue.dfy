/** The queue: a list of rings, the two list pointers, and any number of threads
    that enqueue and dequeue concurrently.

    A transition is one atomic access of one thread (a load, a fetch-and-add, a
    compare-and-swap of one or two words, or a bit-test-and-set), together with
    the local computation up to the next access.  The memory is sequentially
    consistent.  Rings are named by their position in the list: ring `r + 1` is
    what `next` of ring `r` points to, and `next` of the last ring is null. */
module Queue {
  import opened Rings

  // ----- state

  /** A value of a ring's `tail` word. */
  datatype Word = Word(closed: bool, idx: nat)

  /** The arguments and loop-carried locals of a running enqueue. */
  datatype Enq = Enq(item: Item, began: nat, tries: nat)

  /** The locals of a running dequeue inside the cell loop. */
  datatype Deq = Deq(began: nat, lh: nat, h: nat, r: nat, tt: Word)

  /** The locals of a dequeue that has left the cell empty-handed; `at` and `empty`
      are history: when `tail` was compared with the ticket, and whether every
      deposit had been drawn at that instant. */
  datatype Exit = Exit(began: nat, lh: nat, h: nat, at: nat, empty: bool)

  /** Program points of enqueue, each with the locals that are live there. */
  datatype EnqPc =
    | EStart(e: Enq)
    | ENext(e: Enq, lt: nat)
    | EHelp(e: Enq, lt: nat)
    | ETicket(e: Enq, lt: nat)
    | EAppend(e: Enq, lt: nat)
    | ESwing(e: Enq, lt: nat)
    | EIdx(e: Enq, lt: nat, k: nat)
    | EVal(e: Enq, lt: nat, k: nat, i: nat, u: bool)
    | EHead(e: Enq, lt: nat, k: nat, i: nat, u: bool)
    | ECas(e: Enq, lt: nat, k: nat, i: nat, u: bool)
    | EFull(e: Enq, lt: nat, k: nat)
    | EClose(e: Enq, lt: nat, k: nat)
    | EDone(e: Enq, at: Pos)

  /** Program points of dequeue until it leaves the cell. */
  datatype CellPc =
    | DStart(began: nat)
    | DTicket(began: nat, lh: nat)
    | DIdx(d: Deq)
    | DVal(d: Deq, i: nat, u: bool)
    | DTail(d: Deq, i: nat, u: bool)
    | DTake(d: Deq, v: Item, u: bool)
    | DMark(d: Deq, v: Item, i: nat, u: bool)
    | DSkip(d: Deq, i: nat, u: bool)
    | DBts(began: nat, lh: nat, h: nat)
    | DDone(began: nat, at: Pos, v: Item)

  /** Program points of dequeue after it left the cell empty-handed: fixState, and the
      attempt to return empty or to move on to the next ring. */
  datatype ExitPc =
    | DCheck(began: nat, lh: nat, h: nat)
    | FTail(x: Exit)
    | FHead(x: Exit, w: Word)
    | FAgain(x: Exit, w: Word, hs: nat)
    | FCas(x: Exit, w: Word, hs: nat)
    | DNext(x: Exit, hs: nat)
    | DAgain(x: Exit)
    | DSwing(x: Exit)
    | DRetire(began: nat, lh: nat)
    | DNull(x: Exit)

  datatype Pc = Idle | Enqueue(ep: EnqPc) | Dequeue(cp: CellPc) | Leaving(xp: ExitPc)

  /** Where an item is deposited. */
  datatype Pos = Pos(ring: nat, ticket: nat)

  /** When the enqueue of a deposit was invoked and when it returned. */
  datatype Span = Span(began: nat, ended: Option<nat>)

  /** `clock` counts transitions and `log` records enqueues; both are history. */
  datatype State = State(
    size: nat,
    rings: seq<Ring>,
    head: nat,
    tail: nat,
    thr: seq<Pc>,
    clock: nat,
    log: map<Pos, Span>)

  /** How often the cell loop re-reads `tail`, when it loses patience, and when an
      enqueuer stops closing politely. */
  const RELOAD: nat := 1024
  const PATIENCE: nat := 200000
  const POLITE: nat := 10

  // ----- transitions

  function Go(s: State, t: nat, p: Pc): State
    requires t < |s.thr|
  {
    s.(thr := s.thr[t := p], clock := s.clock + 1)
  }

  function Put(s: State, t: nat, p: Pc, r: nat, q: Ring): State
    requires t < |s.thr| && r < |s.rings|
  {
    Go(s, t, p).(rings := s.rings[r := q])
  }

  function TailWord(q: Ring): Word {
    Word(q.closed, q.tail)
  }

  /** Every deposit of every ring has a ticket that some dequeuer has drawn. */
  ghost predicate AllDrawn(s: State) {
    forall r, k: nat :: 0 <= r < |s.rings| && k in s.rings[r].dep ==> k < s.rings[r].head
  }

  /** The ring a thread is about to access, if any. */
  function RingOf(p: Pc): Option<nat> {
    match p
    case Idle => None
    case Enqueue(ep) => if ep.EStart? || ep.EDone? then None else Some(ep.lt)
    case Dequeue(DStart(_)) => None
    case Dequeue(DTicket(_, lh)) => Some(lh)
    case Dequeue(DBts(_, lh, _)) => Some(lh)
    case Dequeue(DDone(_, _, _)) => None
    case Dequeue(cp) => Some(cp.d.lh)
    case Leaving(DCheck(_, lh, _)) => Some(lh)
    case Leaving(DRetire(_, _)) => None
    case Leaving(DNull(_)) => None
    case Leaving(xp) => Some(xp.x.lh)
  }

  /** Thread `t` is inside an operation and the ring it is about to access exists. */
  predicate Ready(s: State, t: nat) {
    && t < |s.thr|
    && s.thr[t] != Idle
    && s.size > 0
    && (var r := RingOf(s.thr[t]);
        r.Some? ==> r.value < |s.rings| && |s.rings[r.value].cells| > 0)
  }

  /** What a dequeuer does after it read an empty cell with index word `(i, u)`. */
  function EmptyCell(d: Deq, i: nat, u: bool): CellPc {
    if u || d.tt.idx < d.h + 1 || d.r > PATIENCE || d.tt.closed
    then DSkip(d, i, u)
    else DIdx(d.(r := d.r + 1))
  }

  function GoE(s: State, t: nat, p: EnqPc): State
    requires t < |s.thr|
  {
    Go(s, t, Enqueue(p))
  }

  function GoD(s: State, t: nat, p: CellPc): State
    requires t < |s.thr|
  {
    Go(s, t, Dequeue(p))
  }

  function GoX(s: State, t: nat, p: ExitPc): State
    requires t < |s.thr|
  {
    Go(s, t, Leaving(p))
  }

  /** The accesses of enqueue. */
  function EnqStep(s: State, t: nat): State
    requires Ready(s, t) && s.thr[t].Enqueue?
  {
    match s.thr[t].ep
    case EStart(e) => GoE(s, t, ENext(e, s.tail))
    case ENext(e, lt) =>
      GoE(s, t, if lt + 1 < |s.rings| then EHelp(e, lt) else ETicket(e, lt))
    case EHelp(e, lt) =>
      GoE(s, t, EStart(e)).(tail := if s.tail == lt then lt + 1 else s.tail)
    case ETicket(e, lt) =>
      var q := s.rings[lt];
      Put(s, t, Enqueue(if q.closed then EAppend(e, lt) else EIdx(e, lt, q.tail)), lt, DrawTail(q, t))
    case EAppend(e, lt) =>
      if lt + 1 == |s.rings| then
        GoE(s, t, ESwing(e, lt)).(rings := s.rings + [Seeded(s.size, e.item, t)],
                                  log := s.log[Pos(lt + 1, 0) := Span(e.began, None)])
      else
        GoE(s, t, EStart(e))
    case ESwing(e, lt) =>
      GoE(s, t, EDone(e, Pos(lt + 1, 0))).(tail := if s.tail == lt then lt + 1 else s.tail)
    case EIdx(e, lt, k) =>
      var c := At(s.rings[lt], k);
      GoE(s, t, EVal(e, lt, k, c.idx, c.unsafe))
    case EVal(e, lt, k, i, u) =>
      GoE(s, t,
          if At(s.rings[lt], k).val.Some? || i > k then EFull(e, lt, k)
          else if u then EHead(e, lt, k, i, u)
          else ECas(e, lt, k, i, u))
    case EHead(e, lt, k, i, u) =>
      GoE(s, t, if s.rings[lt].head < k then ECas(e, lt, k, i, u) else EFull(e, lt, k))
    case ECas(e, lt, k, i, u) =>
      if At(s.rings[lt], k) == Cell(None, i, u) then
        Put(s, t, Enqueue(EDone(e, Pos(lt, k))), lt, Deposit(s.rings[lt], k, e.item))
        .(log := s.log[Pos(lt, k) := Span(e.began, None)])
      else
        GoE(s, t, EFull(e, lt, k))
    case EFull(e, lt, k) =>
      GoE(s, t, if k - s.rings[lt].head >= s.size then EClose(e.(tries := e.tries + 1), lt, k) else EStart(e))
    case EClose(e, lt, k) =>
      if e.tries >= POLITE || TailWord(s.rings[lt]) == Word(false, k + 1)
      then Put(s, t, Enqueue(EStart(e)), lt, Close(s.rings[lt]))
      else GoE(s, t, EStart(e))
    case EDone(e, at) =>
      Go(s, t, Idle).(log := s.log[at := Span(e.began, Some(s.clock))])
  }

  /** The accesses of dequeue until it leaves the cell. */
  function CellStep(s: State, t: nat): State
    requires Ready(s, t) && s.thr[t].Dequeue?
  {
    match s.thr[t].cp
    case DStart(began) => GoD(s, t, DTicket(began, s.head))
    case DTicket(began, lh) =>
      var q := s.rings[lh];
      Put(s, t, Dequeue(DIdx(Deq(began, lh, q.head, 0, Word(false, 0)))), lh, DrawHead(q, t))
    case DIdx(d) =>
      var c := At(s.rings[d.lh], d.h);
      GoD(s, t, DVal(d, c.idx, c.unsafe))
    case DVal(d, i, u) =>
      var c := At(s.rings[d.lh], d.h);
      if i > d.h then Put(s, t, Leaving(DCheck(d.began, d.lh, d.h)), d.lh, Leave(s.rings[d.lh], d.h))
      else if c.val.Some? then
        GoD(s, t, if i == d.h then DTake(d, c.val.value, u) else DMark(d, c.val.value, i, u))
      else
        GoD(s, t, if d.r % RELOAD == 0 then DTail(d, i, u) else EmptyCell(d, i, u))
    case DTail(d, i, u) =>
      GoD(s, t, EmptyCell(d.(tt := TailWord(s.rings[d.lh])), i, u))
    case DTake(d, v, u) =>
      if At(s.rings[d.lh], d.h) == Cell(Some(v), d.h, u)
      then Put(s, t, Dequeue(DDone(d.began, Pos(d.lh, d.h), v)), d.lh, Deliver(s.rings[d.lh], d.h))
      else GoD(s, t, DIdx(d))
    case DMark(d, v, i, u) =>
      if At(s.rings[d.lh], d.h) == Cell(Some(v), i, u)
      then Put(s, t, Leaving(DCheck(d.began, d.lh, d.h)), d.lh, Mark(s.rings[d.lh], d.h))
      else GoD(s, t, DIdx(d))
    case DSkip(d, i, u) =>
      if At(s.rings[d.lh], d.h) == Cell(None, i, u)
      then Put(s, t, AfterSkip(d, u, s.size), d.lh, Skip(s.rings[d.lh], d.h))
      else GoD(s, t, DIdx(d))
    case DBts(began, lh, h) =>
      Put(s, t, Leaving(DCheck(began, lh, h)), lh, Close(s.rings[lh]))
    case DDone(_, _, _) => Go(s, t, Idle)
  }

  /** An impatient dequeuer closes the ring before it moves on. */
  function AfterSkip(d: Deq, u: bool, size: nat): Pc {
    if !u && d.r > PATIENCE && (d.tt.closed || d.tt.idx > size)
    then Dequeue(DBts(d.began, d.lh, d.h))
    else Leaving(DCheck(d.began, d.lh, d.h))
  }

  /** The accesses of dequeue after it left the cell empty-handed. */
  ghost function ExitStep(s: State, t: nat): State
    requires Ready(s, t) && s.thr[t].Leaving?
  {
    match s.thr[t].xp
    case DCheck(began, lh, h) =>
      if s.rings[lh].tail <= h + 1
      then GoX(s, t, FTail(Exit(began, lh, h, s.clock, AllDrawn(s))))
      else GoD(s, t, DStart(began))
    case FTail(x) => GoX(s, t, FHead(x, TailWord(s.rings[x.lh])))
    case FHead(x, w) => GoX(s, t, FAgain(x, w, s.rings[x.lh].head))
    case FAgain(x, w, hs) =>
      GoX(s, t, if TailWord(s.rings[x.lh]) != w then FTail(x)
                else if !w.closed && hs > w.idx then FCas(x, w, hs)
                else DNext(x, hs))
    case FCas(x, w, hs) =>
      if TailWord(s.rings[x.lh]) == w
      then Put(s, t, Leaving(DNext(x, hs)), x.lh, RaiseTail(s.rings[x.lh], hs))
      else GoX(s, t, FTail(x))
    case DNext(x, hs) =>
      GoX(s, t, if x.lh + 1 == |s.rings| then DNull(x) else DAgain(x))
    case DAgain(x) =>
      if s.rings[x.lh].tail <= x.h + 1 then GoX(s, t, DSwing(x)) else GoD(s, t, DStart(x.began))
    case DSwing(x) =>
      if s.head == x.lh then GoX(s, t, DRetire(x.began, x.lh)).(head := x.lh + 1)
      else GoD(s, t, DStart(x.began))
    case DRetire(began, lh) => GoD(s, t, DStart(began))
    case DNull(_) => Go(s, t, Idle)
  }

  /** The next access of thread `t`, which is inside an operation. */
  ghost function Exec(s: State, t: nat): State
    requires Ready(s, t)
  {
    match s.thr[t]
    case Enqueue(_) => EnqStep(s, t)
    case Dequeue(_) => CellStep(s, t)
    case Leaving(_) => ExitStep(s, t)
  }

  /** At the top of a retry loop. */
  predicate AtTop(p: Pc) {
    (p.Enqueue? && p.ep.EStart?) || (p.Dequeue? && p.cp.DStart?)
  }

  /** About to return from an operation. */
  predicate Returning(p: Pc) {
    (p.Enqueue? && p.ep.EDone?) || (p.Dequeue? && p.cp.DDone?) || (p.Leaving? && p.xp.DNull?)
  }

  /** What thread `t` may do.  An idle thread may invoke an operation.  A thread at the
      top of a retry loop may also find that the pointer it announced has moved on, and
      try again; module Reclaim has the accesses of that announcement. */
  ghost predicate Step(s: State, s': State, t: nat) {
    && t < |s.thr|
    && (|| (s.thr[t].Idle? && exists item :: s' == GoE(s, t, EStart(Enq(item, s.clock, 0))))
        || (s.thr[t].Idle? && s' == GoD(s, t, DStart(s.clock)))
        || (AtTop(s.thr[t]) && s' == Go(s, t, s.thr[t]))
        || (Ready(s, t) && s' == Exec(s, t)))
  }

  ghost predicate Init(s: State) {
    && s.size > 0
    && s.rings == [Empty(s.size)]
    && s.head == 0 && s.tail == 0
    && (forall t :: 0 <= t < |s.thr| ==> s.thr[t] == Idle)
    && s.clock == 0 && s.log == map[]
  }

  ghost predicate Next(s: State, s': State) {
    exists t :: Step(s, s', t)
  }

  /** A finite run from an initial state; all results below are about runs. */
  ghost predicate IsRun(run: seq<State>) {
    && |run| > 0
    && Init(run[0])
    && (forall n :: 0 <= n < |run| - 1 ==> Next(run[n], run[n + 1]))
  }

  ghost function Last(run: seq<State>): State
    requires |run| > 0
  {
    run[|run| - 1]
  }
}
