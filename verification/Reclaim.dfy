/** Hazard-pointer reclamation of rings, as the queue uses it.

    A state holds the queue together with the address of every ring, one announcement
    slot and one list of retired rings per thread, and the set of rings whose memory has
    been given back.  The address of a freed ring may be used again for a new one, so an
    announcement, which is an address, can come to mean another ring. */
module Reclaim {
  import opened Rings
  import opened Queue
  import opened Invariant
  import opened Preserve

  // ----- state

  /** What a thread is doing besides the queue's own accesses: announcing the pointer it
      loaded, checking that the pointer still holds, or scanning the slots for entry `i` of
      its retired list, of which `k` have been read. */
  datatype Chore = Free | Announce(p: nat) | Recheck(p: nat) | Scan(i: nat, k: nat)

  /** `leftBy` is history: which thread moved `head` off each ring. */
  datatype Heap = Heap(
    q: State,
    addr: seq<nat>,
    slot: seq<Option<nat>>,
    chore: seq<Chore>,
    retired: seq<seq<nat>>,
    freed: set<nat>,
    leftBy: seq<nat>)

  // ----- transitions

  predicate Sized(s: Heap) {
    && |s.addr| == |s.q.rings|
    && |s.slot| == |s.chore| == |s.retired| == |s.q.thr|
    && s.q.head < |s.q.rings| && s.q.tail < |s.q.rings|
  }

  /** The queue pointer that a thread at the top of its loop loads. */
  function Pointer(s: Heap, t: nat): nat
    requires Sized(s) && t < |s.q.thr|
  {
    if s.q.thr[t].Enqueue? then s.q.tail else s.q.head
  }

  predicate AtRetire(p: Pc) {
    p.Leaving? && p.xp.DRetire?
  }

  predicate Appends(s: State, t: nat) {
    t < |s.thr| && s.thr[t].Enqueue? && s.thr[t].ep.EAppend? && s.thr[t].ep.lt + 1 == |s.rings|
  }

  predicate Swings(s: State, t: nat) {
    t < |s.thr| && s.thr[t].Leaving? && s.thr[t].xp.DSwing? && s.thr[t].xp.x.lh == s.head
  }

  /** protectPtr and the validating load. */
  ghost predicate AnnounceStep(s: Heap, s': Heap, t: nat)
    requires Sized(s) && t < |s.q.thr|
  {
    match s.chore[t]
    case Free => s' == s.(chore := s.chore[t := Announce(s.addr[Pointer(s, t)])])
    case Announce(p) => s' == s.(slot := s.slot[t := Some(p)], chore := s.chore[t := Recheck(p)])
    case Recheck(p) =>
      if s.addr[Pointer(s, t)] == p
      then Ready(s.q, t) && s' == s.(q := Exec(s.q, t), chore := s.chore[t := Free])
      else s' == s.(q := Go(s.q, t, s.q.thr[t]), chore := s.chore[t := Free])
    case Scan(_, _) => false
  }

  /** retire: append the ring to the thread's list, then for each entry compare its address
      with every slot; an entry that no slot names is erased and freed. */
  ghost predicate RetireStep(s: Heap, s': Heap, t: nat)
    requires Sized(s) && t < |s.q.thr| && AtRetire(s.q.thr[t])
  {
    match s.chore[t]
    case Free =>
      s' == s.(retired := s.retired[t := s.retired[t] + [s.q.thr[t].xp.lh]], chore := s.chore[t := Scan(0, 0)])
    case Scan(i, k) =>
      if i >= |s.retired[t]| then
        Ready(s.q, t) && s' == s.(q := Exec(s.q, t), chore := s.chore[t := Free])
      else if k >= |s.slot| then
        s' == s.(retired := s.retired[t := s.retired[t][..i] + s.retired[t][i + 1..]],
                 freed := s.freed + {s.retired[t][i]}, chore := s.chore[t := Scan(i, 0)])
      else
        && s.retired[t][i] < |s.addr|
        && s' == s.(chore := s.chore[t :=
                      if s.slot[k] == Some(s.addr[s.retired[t][i]]) then Scan(i + 1, 0) else Scan(i, k + 1)])
    case _ => false
  }

  /** Any other access of the queue.  A new ring gets an address that no live ring has. */
  ghost predicate QueueStep(s: Heap, s': Heap, t: nat)
    requires Sized(s) && t < |s.q.thr|
  {
    && Ready(s.q, t)
    && s'.q == Exec(s.q, t)
    && s'.slot == (if Returning(s.q.thr[t]) then s.slot[t := None] else s.slot)
    && s'.chore == s.chore && s'.retired == s.retired && s'.freed == s.freed
    && s'.leftBy == (if Swings(s.q, t) then s.leftBy + [t] else s.leftBy)
    && (if Appends(s.q, t)
        then exists a :: s'.addr == s.addr + [a] && forall r :: 0 <= r < |s.addr| && r !in s.freed ==> s.addr[r] != a
        else s'.addr == s.addr)
  }

  ghost predicate InvokeStep(s: Heap, s': Heap, t: nat)
    requires t < |s.q.thr|
  {
    || (exists item :: s' == s.(q := GoE(s.q, t, EStart(Enq(item, s.q.clock, 0)))))
    || s' == s.(q := GoD(s.q, t, DStart(s.q.clock)))
  }

  ghost predicate HeapStep(s: Heap, s': Heap, t: nat) {
    && Sized(s) && t < |s.q.thr|
    && (if s.q.thr[t].Idle? then InvokeStep(s, s', t)
        else if AtTop(s.q.thr[t]) then AnnounceStep(s, s', t)
        else if AtRetire(s.q.thr[t]) then RetireStep(s, s', t)
        else QueueStep(s, s', t))
  }

  ghost predicate HeapInit(s: Heap) {
    && Init(s.q) && |s.addr| == 1
    && |s.slot| == |s.chore| == |s.retired| == |s.q.thr|
    && (forall t :: 0 <= t < |s.q.thr| ==> s.slot[t] == None && s.chore[t] == Free && s.retired[t] == [])
    && s.freed == {} && s.leftBy == []
  }

  ghost predicate HeapNext(s: Heap, s': Heap) {
    exists t :: HeapStep(s, s', t)
  }

  ghost predicate IsHeapRun(run: seq<Heap>) {
    && |run| > 0
    && HeapInit(run[0])
    && (forall n :: 0 <= n < |run| - 1 ==> HeapNext(run[n], run[n + 1]))
  }

  // ----- the queue does not notice

  /** Every transition of the heap is a transition of the queue or leaves it alone. */
  lemma HeapRefinesQueue(s: Heap, s': Heap, t: nat)
    requires HeapStep(s, s', t)
    ensures s'.q == s.q || Step(s.q, s'.q, t)
  {
    hide Exec;
  }

  /** Run `q` of the queue shows every state of the heap run, in order: state `i` at index `f[i]`. */
  ghost predicate Shows(run: seq<Heap>, q: seq<State>, f: seq<nat>) {
    && |f| == |run|
    && (forall i :: 0 <= i < |run| ==> f[i] < |q| && q[f[i]] == run[i].q)
    && (forall i, j :: 0 <= i < j < |run| ==> f[i] <= f[j])
  }

  /** Every heap run is a run of the queue, state by state and in the same order: what holds of all
      runs of the queue, of one instant or of several, holds with reclamation and address reuse
      underneath. */
  lemma {:induction false} HeapRunProjects(run: seq<Heap>) returns (q: seq<State>, f: seq<nat>)
    requires IsHeapRun(run)
    ensures IsRun(q) && Shows(run, q, f) && f[|run| - 1] == |q| - 1
  {
    hide HeapStep, Step;
    if |run| == 1 {
      q, f := [run[0].q], [0];
    } else {
      var m := |run| - 1;
      q, f := HeapRunProjects(run[..m]);
      assert HeapNext(run[m - 1], run[m - 1 + 1]);
      var t :| HeapStep(run[m - 1], run[m], t);
      HeapRefinesQueue(run[m - 1], run[m], t);
      if run[m].q != run[m - 1].q {
        var before := q;
        q := q + [run[m].q];
        forall n | 0 <= n < |q| - 1 ensures Next(q[n], q[n + 1]) {
          if n < |before| - 1 {
            assert q[n] == before[n] && q[n + 1] == before[n + 1];
          } else {
            assert Step(q[n], q[n + 1], t);
          }
        }
      }
      f := f + [|q| - 1];
    }
  }

  // ----- the invariant

  /** The ring a thread has announced and validated. */
  function Pinned(p: Pc): Option<nat> {
    if AtRetire(p) then Some(p.xp.lh) else RingOf(p)
  }

  /** Rings given back lie behind both pointers; live rings have different addresses. */
  ghost predicate MemoryOk(s: Heap) {
    && (forall r :: r in s.freed ==> r < s.q.head && r < s.q.tail)
    && (forall r, m :: 0 <= r < m < |s.addr| && r !in s.freed && m !in s.freed ==> s.addr[r] != s.addr[m])
    && |s.leftBy| == s.q.head
  }

  /** A thread's retired rings are live, in list order, and were left behind by that thread. */
  ghost predicate RetiredOk(s: Heap, t: nat)
    requires Sized(s) && t < |s.q.thr|
  {
    && (forall i :: 0 <= i < |s.retired[t]| ==>
          s.retired[t][i] < |s.leftBy| && s.leftBy[s.retired[t][i]] == t && s.retired[t][i] !in s.freed)
    && (forall i, j :: 0 <= i < j < |s.retired[t]| ==> s.retired[t][i] < s.retired[t][j])
    && (AtRetire(s.q.thr[t]) && s.chore[t].Free? ==>
          forall i :: 0 <= i < |s.retired[t]| ==> s.retired[t][i] < s.q.thr[t].xp.lh)
  }

  /** A validated ring is live and the thread's slot names it. */
  ghost predicate PinOk(s: Heap, t: nat)
    requires Sized(s) && t < |s.q.thr|
  {
    var r := Pinned(s.q.thr[t]);
    r.Some? ==> r.value < |s.addr| && r.value !in s.freed && s.slot[t] == Some(s.addr[r.value])
  }

  /** Thread `u` may access ring `r`. */
  ghost predicate Uses(s: Heap, u: nat, r: nat) {
    u < |s.q.thr| && RingOf(s.q.thr[u]) == Some(r)
  }

  ghost predicate ChoreOk(s: Heap, t: nat)
    requires Sized(s) && t < |s.q.thr|
  {
    match s.chore[t]
    case Free => true
    case Announce(_) => AtTop(s.q.thr[t])
    case Recheck(p) => AtTop(s.q.thr[t]) && s.slot[t] == Some(p)
    case Scan(i, k) => AtRetire(s.q.thr[t]) && ScanOk(s, t, i, k)
  }

  /** The scan in progress: the ring just retired is last in the list and is held by the thread's
      own slot; of an older ring, the threads whose slots have been read do not use it. */
  ghost predicate ScanOk(s: Heap, t: nat, i: nat, k: nat)
    requires Sized(s) && t < |s.q.thr| && AtRetire(s.q.thr[t])
  {
    var lh := s.q.thr[t].xp.lh;
    && i <= |s.retired[t]| && k <= |s.slot|
    && lh < s.q.head && lh < |s.leftBy| && s.leftBy[lh] == t
    && (forall j :: 0 <= j < |s.retired[t]| ==> s.retired[t][j] <= lh)
    && (i < |s.retired[t]| ==>
          if s.retired[t][i] == lh then k <= t
          else forall u: nat :: u < k ==> !Uses(s, u, s.retired[t][i]))
  }

  /** The ring about to be retired was left behind by this thread. */
  ghost predicate OwnsRetire(s: Heap, t: nat)
    requires Sized(s) && t < |s.q.thr|
  {
    AtRetire(s.q.thr[t]) ==> s.q.thr[t].xp.lh < |s.leftBy| && s.leftBy[s.q.thr[t].xp.lh] == t
  }

  ghost predicate ThreadSafe(s: Heap, t: nat)
    requires Sized(s) && t < |s.q.thr|
  {
    RetiredOk(s, t) && PinOk(s, t) && ChoreOk(s, t) && OwnsRetire(s, t)
  }

  ghost predicate Safe(s: Heap) {
    && Inv(s.q)
    && Sized(s)
    && MemoryOk(s)
    && (forall t :: 0 <= t < |s.q.thr| ==> ThreadSafe(s, t))
  }

  // ----- what one thread's step means to the others

  ghost predicate Calm(s: Heap, s': Heap, t: nat)
    requires Sized(s) && t < |s.q.thr|
  {
    && Sized(s') && |s'.q.thr| == |s.q.thr|
    && s.addr <= s'.addr
    && s.leftBy <= s'.leftBy
    && s.q.head <= s'.q.head && s.q.tail <= s'.q.tail
    && (forall u :: 0 <= u < |s.q.thr| && u != t ==>
          && s'.q.thr[u] == s.q.thr[u] && s'.slot[u] == s.slot[u]
          && s'.chore[u] == s.chore[u] && s'.retired[u] == s.retired[u])
    && s.freed <= s'.freed
    && (forall r :: r in s'.freed && r !in s.freed ==>
          r < |s.leftBy| && s.leftBy[r] == t && forall u: nat :: u < |s.q.thr| ==> !Uses(s, u, r))
    && (var r := RingOf(s'.q.thr[t]);
        r.None? || r == RingOf(s.q.thr[t]) || r == Some(s.q.tail) || r == Some(s.q.head))
  }

  lemma OthersSafe(s: Heap, s': Heap, t: nat, u: nat)
    requires Safe(s) && t < |s.q.thr| && Calm(s, s', t) && u < |s.q.thr| && u != t
    ensures ThreadSafe(s', u)
  {
    assert s.q.head <= s.q.tail + 1;
    hide Inv;
    hide RingOf;
    assert ThreadSafe(s, u);
    OthersScan(s, s', t, u);
    var r := Pinned(s.q.thr[u]);
    assert r.Some? && !AtRetire(s.q.thr[u]) ==> Uses(s, u, r.value);
  }

  lemma OthersScan(s: Heap, s': Heap, t: nat, u: nat)
    requires Sized(s) && s.q.head <= s.q.tail + 1 && t < |s.q.thr| && Calm(s, s', t) && u < |s.q.thr| && u != t
    requires RetiredOk(s, u) && ChoreOk(s, u)
    ensures ChoreOk(s', u)
  {
    hide RingOf;
    if s.chore[u].Scan? {
      var i, k := s.chore[u].i, s.chore[u].k;
      var lh := s.q.thr[u].xp.lh;
      if i < |s.retired[u]| && s.retired[u][i] != lh {
        var r := s.retired[u][i];
        assert r < lh && lh < s.q.head && r < s.q.tail;
        forall v: nat | v < k ensures !Uses(s', v, r) {
          assert !Uses(s, v, r);
        }
      }
    }
  }

  lemma AllSafe(s: Heap, s': Heap, t: nat)
    requires Safe(s) && t < |s.q.thr| && Calm(s, s', t) && Inv(s'.q) && MemoryOk(s') && ThreadSafe(s', t)
    ensures Safe(s')
  {
    hide Inv;
    hide MemoryOk;
    hide ThreadSafe;
    hide Calm;
    assert |s'.q.thr| == |s.q.thr| && Sized(s') by { CalmSized(s, s', t); }
    forall u | 0 <= u < |s'.q.thr| ensures ThreadSafe(s', u) {
      if u != t {
        OthersSafe(s, s', t, u);
      }
    }
  }

  lemma CalmSized(s: Heap, s': Heap, t: nat)
    requires Sized(s) && t < |s.q.thr| && Calm(s, s', t)
    ensures |s'.q.thr| == |s.q.thr| && Sized(s')
  {}

  // ----- how a queue step moves pins and pointers

  lemma EnqPins(s: State, t: nat)
    requires Ready(s, t) && s.thr[t].Enqueue? && !s.thr[t].ep.EStart?
    ensures var s' := EnqStep(s, t);
      && t < |s'.thr| && !AtRetire(s'.thr[t])
      && (RingOf(s'.thr[t]).None? || RingOf(s'.thr[t]) == RingOf(s.thr[t]))
      && s'.head == s.head
      && |s'.rings| == if Appends(s, t) then |s.rings| + 1 else |s.rings|
  {
    hide EnqStep;
    if AtCell(s.thr[t].ep) {
      EnqCellPins(s, t);
    } else {
      EnqListPins(s, t);
    }
  }

  lemma EnqCellPins(s: State, t: nat)
    requires Ready(s, t) && s.thr[t].Enqueue? && AtCell(s.thr[t].ep)
    ensures var s' := EnqStep(s, t);
      && t < |s'.thr| && !AtRetire(s'.thr[t])
      && (RingOf(s'.thr[t]).None? || RingOf(s'.thr[t]) == RingOf(s.thr[t]))
      && s'.head == s.head && |s'.rings| == |s.rings|
  {
    hide Deposit, Close;
  }

  lemma EnqListPins(s: State, t: nat)
    requires Ready(s, t) && s.thr[t].Enqueue? && !s.thr[t].ep.EStart? && !AtCell(s.thr[t].ep)
    ensures var s' := EnqStep(s, t);
      && t < |s'.thr| && !AtRetire(s'.thr[t])
      && (RingOf(s'.thr[t]).None? || RingOf(s'.thr[t]) == RingOf(s.thr[t]))
      && s'.head == s.head
      && |s'.rings| == if Appends(s, t) then |s.rings| + 1 else |s.rings|
  {
    hide DrawTail, Seeded;
  }

  lemma CellPins(s: State, t: nat)
    requires Ready(s, t) && s.thr[t].Dequeue? && !s.thr[t].cp.DStart?
    ensures var s' := CellStep(s, t);
      && t < |s'.thr| && !AtRetire(s'.thr[t])
      && (RingOf(s'.thr[t]).None? || RingOf(s'.thr[t]) == RingOf(s.thr[t]))
      && s'.head == s.head && |s'.rings| == |s.rings|
  {
    hide Deliver, Mark, Skip, Leave, DrawHead, Close;
  }

  lemma ExitPins(s: State, t: nat)
    requires Ready(s, t) && s.thr[t].Leaving?
    ensures var s' := ExitStep(s, t);
      && t < |s'.thr| && |s'.rings| == |s.rings|
      && (if Swings(s, t) then s'.head == s.head + 1 && s'.thr[t] == Leaving(DRetire(s.thr[t].xp.x.began, s.head))
          else s'.head == s.head && !AtRetire(s'.thr[t]))
      && (RingOf(s'.thr[t]).None? || RingOf(s'.thr[t]) == RingOf(s.thr[t]))
  {
    hide AllDrawn;
  }

  /** An access past the validation keeps the pin or drops it. */
  lemma ExecPins(s: State, t: nat)
    requires Ready(s, t) && !AtTop(s.thr[t]) && !AtRetire(s.thr[t])
    ensures var s' := Exec(s, t);
      && t < |s'.thr|
      && |s'.rings| == (if Appends(s, t) then |s.rings| + 1 else |s.rings|)
      && (if Swings(s, t) then s'.head == s.head + 1 && s'.thr[t] == Leaving(DRetire(s.thr[t].xp.x.began, s.head))
          else s'.head == s.head && !AtRetire(s'.thr[t]))
      && (RingOf(s'.thr[t]).None? || RingOf(s'.thr[t]) == RingOf(s.thr[t]))
  {
    hide EnqStep;
    hide CellStep;
    hide ExitStep;
    match s.thr[t]
    case Enqueue(_) => EnqPins(s, t);
    case Dequeue(_) => CellPins(s, t);
    case Leaving(_) => ExitPins(s, t);
  }

  /** What every step of the queue does to the parts the heap depends on. */
  lemma ExecFrame(s: State, t: nat)
    requires Inv(s) && Ready(s, t)
    ensures var s' := Exec(s, t);
      && Inv(s') && |s'.thr| == |s.thr| && s'.thr == s.thr[t := s'.thr[t]]
      && s.head <= s'.head < |s'.rings| && s.tail <= s'.tail < |s'.rings|
  {
    hide Exec;
    var s' := Exec(s, t);
    assert Step(s, s', t);
    hide Step;
    StepInv(s, s', t);
    StepFrame(s, s', t);
    hide LogOk;
    hide RingInv;
    hide Stable;
  }

  // ----- every step is safe

  lemma InvokeInv(s: Heap, s': Heap, t: nat)
    requires Inv(s.q) && HeapStep(s, s', t) && s.q.thr[t].Idle?
    ensures Inv(s'.q) && |s'.q.thr| == |s.q.thr|
  {
    hide Inv, Evolves;
    HeapRefinesQueue(s, s', t);
    hide HeapStep, Step;
    if s'.q != s.q {
      StepInv(s.q, s'.q, t);
      StepFrame(s.q, s'.q, t);
    }
  }

  lemma InvokeSafe(s: Heap, s': Heap, t: nat)
    requires Safe(s) && HeapStep(s, s', t) && s.q.thr[t].Idle?
    ensures Safe(s')
  {
    hide Inv;
    InvokeInv(s, s', t);
    assert ThreadSafe(s, t);
    AllSafe(s, s', t);
  }

  lemma AnnounceSafe(s: Heap, s': Heap, t: nat)
    requires Safe(s) && HeapStep(s, s', t) && AtTop(s.q.thr[t])
    ensures Safe(s')
  {
    hide Exec;
    assert ThreadSafe(s, t);
    match s.chore[t] {
      case Free =>
        hide Inv;
        AllSafe(s, s', t);
      case Announce(p) =>
        hide Inv;
        AllSafe(s, s', t);
      case Recheck(p) =>
        if s.addr[Pointer(s, t)] == p {
          ValidateSafe(s, s', t, p);
        } else {
          assert Inv(s'.q) by {
            assert Step(s.q, s'.q, t);
            StepInv(s.q, s'.q, t);
          }
          hide Inv;
          AllSafe(s, s', t);
        }
    }
  }

  lemma TopExec(s: State, t: nat)
    requires Ready(s, t) && AtTop(s.thr[t])
    ensures var s' := Exec(s, t);
      && t < |s'.thr| && s'.rings == s.rings && s'.head == s.head && s'.tail == s.tail && !AtRetire(s'.thr[t])
      && RingOf(s'.thr[t]) == Some(if s.thr[t].Enqueue? then s.tail else s.head)
  {}

  lemma ValidateSafe(s: Heap, s': Heap, t: nat, p: nat)
    requires Safe(s) && t < |s.q.thr| && AtTop(s.q.thr[t]) && s.chore[t] == Recheck(p)
    requires s.addr[Pointer(s, t)] == p && Ready(s.q, t)
    requires s' == s.(q := Exec(s.q, t), chore := s.chore[t := Free])
    ensures Safe(s')
  {
    ExecFrame(s.q, t);
    TopExec(s.q, t);
    hide Exec;
    hide Inv;
    assert ThreadSafe(s, t);
    hide RingOf;
    AllSafe(s, s', t);
  }

  /** What a queue access past the validation does to the parts the heap depends on. */
  ghost predicate Effect(q: State, q': State, t: nat) {
    && t < |q.thr| == |q'.thr| && q'.thr == q.thr[t := q'.thr[t]]
    && q.head <= q'.head < |q'.rings| && q.tail <= q'.tail < |q'.rings|
    && |q'.rings| == (if Appends(q, t) then |q.rings| + 1 else |q.rings|)
    && (if Swings(q, t) then q'.head == q.head + 1 && q'.thr[t] == Leaving(DRetire(q.thr[t].xp.x.began, q.head))
        else q'.head == q.head && !AtRetire(q'.thr[t]))
    && (RingOf(q'.thr[t]).None? || RingOf(q'.thr[t]) == RingOf(q.thr[t]))
    && !AtTop(q.thr[t]) && !AtRetire(q.thr[t])
  }

  lemma QueueMemory(s: Heap, s': Heap, t: nat)
    requires Sized(s) && MemoryOk(s) && t < |s.q.thr| && QueueStep(s, s', t) && Effect(s.q, s'.q, t)
    ensures MemoryOk(s') && Sized(s')
  {
    hide Exec;
    hide RingOf;
  }

  lemma QueueCalm(s: Heap, s': Heap, t: nat)
    requires Sized(s) && t < |s.q.thr| && QueueStep(s, s', t) && Effect(s.q, s'.q, t)
    ensures Calm(s, s', t)
  {
    hide Exec;
    hide RingOf;
  }

  lemma QueueThread(s: Heap, s': Heap, t: nat)
    requires Sized(s) && MemoryOk(s) && t < |s.q.thr| && QueueStep(s, s', t) && Effect(s.q, s'.q, t)
    requires ThreadSafe(s, t) && Sized(s') && |s.retired| == |s'.retired|
    ensures ThreadSafe(s', t)
  {
    hide Exec;
    assert Swings(s.q, t) ==> RingOf(s.q.thr[t]) == Some(s.q.head);
    assert Returning(s.q.thr[t]) ==> RingOf(s.q.thr[t]).None?;
    hide RingOf;
  }

  lemma QueueSafe(s: Heap, s': Heap, t: nat)
    requires Safe(s) && HeapStep(s, s', t)
    requires !s.q.thr[t].Idle? && !AtTop(s.q.thr[t]) && !AtRetire(s.q.thr[t])
    ensures Safe(s')
  {
    ExecFrame(s.q, t);
    ExecPins(s.q, t);
    hide Exec;
    hide Inv;
    hide RingOf;
    hide ThreadSafe;
    hide MemoryOk;
    assert Effect(s.q, s'.q, t);
    hide Effect;
    assert QueueStep(s, s', t);
    hide QueueStep;
    QueueMemory(s, s', t);
    QueueCalm(s, s', t);
    QueueThread(s, s', t);
    AllSafe(s, s', t);
  }

  // ----- retiring

  lemma RetireSafe(s: Heap, s': Heap, t: nat)
    requires Safe(s) && HeapStep(s, s', t) && AtRetire(s.q.thr[t])
    ensures Safe(s')
  {
    hide Exec;
    match s.chore[t] {
      case Free =>
        assert ThreadSafe(s, t);
        assert s.q.thr[t].xp.lh < s.q.head by { assert ThreadOk(s.q, t, s.q.thr[t]); }
        hide Inv;
        AllSafe(s, s', t);
      case Scan(i, k) =>
        if i >= |s.retired[t]| {
          RetireDone(s, s', t);
        } else if k >= |s.slot| {
          FreeSafe(s, s', t, i, k);
        } else {
          assert ThreadSafe(s, t);
          hide Inv;
          ScanNext(s, s', t, i, k);
          AllSafe(s, s', t);
        }
      case _ =>
    }
  }

  lemma RetireExec(s: State, t: nat)
    requires Ready(s, t) && AtRetire(s.thr[t])
    ensures var s' := Exec(s, t);
      && t < |s'.thr| && s'.rings == s.rings && s'.head == s.head && s'.tail == s.tail
      && AtTop(s'.thr[t]) && RingOf(s'.thr[t]).None? && !AtRetire(s'.thr[t])
  {}

  lemma RetireDone(s: Heap, s': Heap, t: nat)
    requires Safe(s) && t < |s.q.thr| && AtRetire(s.q.thr[t]) && s.chore[t].Scan? && Ready(s.q, t)
    requires s' == s.(q := Exec(s.q, t), chore := s.chore[t := Free])
    ensures Safe(s')
  {
    ExecFrame(s.q, t);
    RetireExec(s.q, t);
    hide Exec;
    hide Inv;
    assert ThreadSafe(s, t);
    hide RingOf;
    AllSafe(s, s', t);
  }

  /** Reading one more slot. */
  lemma ScanNext(s: Heap, s': Heap, t: nat, i: nat, k: nat)
    requires Sized(s) && MemoryOk(s) && t < |s.q.thr| && AtRetire(s.q.thr[t]) && s.chore[t] == Scan(i, k)
    requires i < |s.retired[t]| && k < |s.slot| && s.retired[t][i] < |s.addr|
    requires s' == s.(chore := s.chore[t :=
                        if s.slot[k] == Some(s.addr[s.retired[t][i]]) then Scan(i + 1, 0) else Scan(i, k + 1)])
    requires forall u :: 0 <= u < |s.q.thr| ==> ThreadSafe(s, u)
    ensures ThreadSafe(s', t) && Calm(s, s', t)
  {
    assert ThreadSafe(s, t) && ThreadSafe(s, k);
    assert forall u: nat, r: nat :: Uses(s', u, r) == Uses(s, u, r);
  }

  /** No slot names the ring: it is not the one just retired, and no thread uses it. */
  lemma FreeSafe(s: Heap, s': Heap, t: nat, i: nat, k: nat)
    requires Safe(s) && t < |s.q.thr| && AtRetire(s.q.thr[t]) && s.chore[t] == Scan(i, k)
    requires i < |s.retired[t]| && k >= |s.slot|
    requires s' == s.(retired := s.retired[t := s.retired[t][..i] + s.retired[t][i + 1..]],
                      freed := s.freed + {s.retired[t][i]}, chore := s.chore[t := Scan(i, 0)])
    ensures Safe(s')
  {
    assert s.q.head <= s.q.tail + 1;
    hide Inv;
    assert ThreadSafe(s, t);
    var r := s.retired[t][i];
    assert r < s.q.thr[t].xp.lh && r < s.q.head && r < s.q.tail;
    assert forall u: nat :: u < |s.q.thr| ==> !Uses(s, u, r);
    hide RingOf;
    AllSafe(s, s', t);
  }

  // ----- all runs

  lemma HeapInitSafe(s: Heap)
    requires HeapInit(s)
    ensures Safe(s)
  {
    InitInv(s.q);
  }

  lemma StepSafe(s: Heap, s': Heap, t: nat)
    requires Safe(s) && HeapStep(s, s', t)
    ensures Safe(s')
  {
    hide Safe;
    if s.q.thr[t].Idle? {
      InvokeSafe(s, s', t);
    } else if AtTop(s.q.thr[t]) {
      AnnounceSafe(s, s', t);
    } else if AtRetire(s.q.thr[t]) {
      RetireSafe(s, s', t);
    } else {
      QueueSafe(s, s', t);
    }
  }

  lemma {:induction false} RunSafe(run: seq<Heap>)
    requires IsHeapRun(run)
    ensures Safe(run[|run| - 1])
  {
    hide Safe;
    hide HeapStep;
    if |run| == 1 {
      HeapInitSafe(run[0]);
    } else {
      var before := run[..|run| - 1];
      RunSafe(before);
      assert HeapNext(run[|run| - 2], run[|run| - 2 + 1]);
      var t :| HeapStep(run[|run| - 2], run[|run| - 1], t);
      StepSafe(run[|run| - 2], run[|run| - 1], t);
    }
  }

  /** No thread ever accesses a ring whose memory has been given back, and neither list pointer
      ever leads to one. */
  lemma NoUseAfterFree(run: seq<Heap>, t: nat)
    requires IsHeapRun(run) && t < |run[|run| - 1].q.thr|
    ensures
      var s := run[|run| - 1];
      && s.q.head !in s.freed && s.q.tail !in s.freed
      && (RingOf(s.q.thr[t]).Some? ==> RingOf(s.q.thr[t]).value !in s.freed)
  {
    RunSafe(run);
    var s := run[|run| - 1];
    assert ThreadSafe(s, t);
  }

  /** Comparing a queue pointer with a validated pointer compares rings, even though addresses are
      used again. */
  lemma PointersIdentify(run: seq<Heap>, t: nat, r: nat)
    requires IsHeapRun(run) && t < |run[|run| - 1].q.thr| && RingOf(run[|run| - 1].q.thr[t]) == Some(r)
    ensures
      var s := run[|run| - 1];
      && |s.addr| == |s.q.rings| && r < |s.addr| && s.q.head < |s.addr| && s.q.tail < |s.addr|
      && (s.addr[s.q.tail] == s.addr[r] <==> s.q.tail == r)
      && (s.addr[s.q.head] == s.addr[r] <==> s.q.head == r)
  {
    RunSafe(run);
    var s := run[|run| - 1];
    assert ThreadSafe(s, t);
    hide Inv;
  }

  /** No ring is freed twice: what the scan frees was still allocated. */
  lemma FreedOnce(run: seq<Heap>, s': Heap, t: nat)
    requires IsHeapRun(run) && HeapStep(run[|run| - 1], s', t)
    requires s'.freed != run[|run| - 1].freed
    ensures
      var s := run[|run| - 1];
      exists r :: r !in s.freed && r < s.q.head && r < s.q.tail && s'.freed == s.freed + {r}
  {
    RunSafe(run);
    var s := run[|run| - 1];
    StepSafe(s, s', t);
    hide Exec;
    assert s.q.thr[t].Leaving?;
    assert ThreadSafe(s, t);
    var r := s.retired[t][s.chore[t].i];
    assert s'.freed == s.freed + {r};
  }
}
