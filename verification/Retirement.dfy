/** No ring is lost: what becomes of every ring that `head` has left behind, and what a scan of the
    announcement slots leaves in the list of retired rings. */
module Retirement {
  import opened Rings
  import opened Queue
  import opened Invariant
  import opened Preserve
  import opened Theorems
  import opened Reclaim

  // ----- every ring left behind is accounted for

  ghost predicate OnList(s: Heap, r: nat) {
    r < |s.leftBy| && s.leftBy[r] < |s.retired| && r in s.retired[s.leftBy[r]]
  }

  /** The thread that moved `head` off ring `r` is about to append it to its list. */
  ghost predicate AboutToRetire(s: Heap, r: nat) {
    && r < |s.leftBy| && s.leftBy[r] < |s.q.thr| && s.leftBy[r] < |s.chore|
    && AtRetire(s.q.thr[s.leftBy[r]]) && s.q.thr[s.leftBy[r]].xp.lh == r && s.chore[s.leftBy[r]].Free?
  }

  ghost predicate Accounted(s: Heap, r: nat) {
    r in s.freed || OnList(s, r) || AboutToRetire(s, r)
  }

  ghost predicate AllAccounted(s: Heap) {
    forall r: nat :: r < s.q.head ==> Accounted(s, r)
  }

  /** A thread outside the operations announces nothing. */
  ghost predicate IdleSilent(s: Heap) {
    forall t :: 0 <= t < |s.q.thr| && s.q.thr[t] == Idle ==> t < |s.slot| && s.slot[t] == None
  }

  lemma InvokeAccounts(s: Heap, s': Heap, t: nat, r: nat)
    requires HeapStep(s, s', t) && s.q.thr[t].Idle? && Accounted(s, r)
    ensures Accounted(s', r)
  {}

  lemma AnnounceAccounts(s: Heap, s': Heap, t: nat, r: nat)
    requires HeapStep(s, s', t) && AtTop(s.q.thr[t]) && Inv(s.q) && Accounted(s, r)
    ensures Accounted(s', r)
  {
    if Ready(s.q, t) {
      ExecFrame(s.q, t);
      TopExec(s.q, t);
    }
    hide Exec, Inv;
  }

  lemma RetireAccounts(s: Heap, s': Heap, t: nat, r: nat)
    requires HeapStep(s, s', t) && AtRetire(s.q.thr[t]) && Inv(s.q) && Accounted(s, r)
    ensures Accounted(s', r)
  {
    if Ready(s.q, t) {
      ExecFrame(s.q, t);
      RetireExec(s.q, t);
    }
    hide Exec, Inv;
    if s.chore[t].Scan? && s.chore[t].i < |s.retired[t]| && s.chore[t].k >= |s.slot| {
      var l, i := s.retired[t], s.chore[t].i;
      assert l == l[..i] + [l[i]] + l[i + 1..];
      assert r in l ==> r == l[i] || r in l[..i] + l[i + 1..];
    }
  }

  lemma QueueAccounts(s: Heap, s': Heap, t: nat, r: nat)
    requires Sized(s) && t < |s.q.thr| && QueueStep(s, s', t) && Effect(s.q, s'.q, t) && |s.leftBy| == s.q.head
    requires r < s.q.head && Accounted(s, r)
    ensures Accounted(s', r)
  {
    hide Exec, RingOf;
  }

  /** The ring that a step moves `head` off is about to be retired. */
  lemma SwingAccounts(s: Heap, s': Heap, t: nat)
    requires Sized(s) && t < |s.q.thr| && QueueStep(s, s', t) && Effect(s.q, s'.q, t) && |s.leftBy| == s.q.head
    requires ChoreOk(s, t) && s'.q.head != s.q.head
    ensures s'.q.head == s.q.head + 1 && Accounted(s', s.q.head)
  {
    hide Exec, RingOf;
  }

  lemma QueueAllAccounted(s: Heap, s': Heap, t: nat)
    requires Safe(s) && HeapStep(s, s', t) && AllAccounted(s)
    requires !s.q.thr[t].Idle? && !AtTop(s.q.thr[t]) && !AtRetire(s.q.thr[t])
    ensures AllAccounted(s')
  {
    ExecFrame(s.q, t);
    ExecPins(s.q, t);
    hide Exec, Inv, RingOf;
    assert ThreadSafe(s, t);
    assert Effect(s.q, s'.q, t) && QueueStep(s, s', t) && ChoreOk(s, t) && |s.leftBy| == s.q.head;
    hide Effect, QueueStep, ChoreOk, Accounted;
    forall r: nat | r < s'.q.head ensures Accounted(s', r) {
      if r < s.q.head {
        QueueAccounts(s, s', t, r);
      } else {
        SwingAccounts(s, s', t);
      }
    }
  }

  lemma StepAccounts(s: Heap, s': Heap, t: nat)
    requires Safe(s) && HeapStep(s, s', t) && AllAccounted(s)
    ensures AllAccounted(s')
  {
    if !s.q.thr[t].Idle? && !AtTop(s.q.thr[t]) && !AtRetire(s.q.thr[t]) {
      QueueAllAccounted(s, s', t);
    } else {
      hide HeapStep, Accounted, Inv, MemoryOk, ThreadSafe;
      HeadStays(s, s', t);
      forall r: nat | r < s'.q.head ensures Accounted(s', r) {
        if s.q.thr[t].Idle? {
          InvokeAccounts(s, s', t, r);
        } else if AtTop(s.q.thr[t]) {
          AnnounceAccounts(s, s', t, r);
        } else {
          RetireAccounts(s, s', t, r);
        }
      }
    }
  }

  lemma HeadStays(s: Heap, s': Heap, t: nat)
    requires HeapStep(s, s', t) && (s.q.thr[t].Idle? || AtTop(s.q.thr[t]) || AtRetire(s.q.thr[t]))
    ensures s'.q.head == s.q.head
  {
    if Ready(s.q, t) && AtTop(s.q.thr[t]) {
      TopExec(s.q, t);
    } else if Ready(s.q, t) && AtRetire(s.q.thr[t]) {
      RetireExec(s.q, t);
    }
    hide Exec;
  }

  // ----- announcements end with the operation

  lemma StepSilent(s: Heap, s': Heap, t: nat)
    requires Safe(s) && HeapStep(s, s', t) && IdleSilent(s)
    ensures IdleSilent(s')
  {
    if Ready(s.q, t) {
      ExecFrame(s.q, t);
      if AtTop(s.q.thr[t]) {
        TopExec(s.q, t);
      } else if AtRetire(s.q.thr[t]) {
        RetireExec(s.q, t);
      } else if Exec(s.q, t).thr[t] == Idle {
        assert Step(s.q, Exec(s.q, t), t);
        StepReturns(s.q, Exec(s.q, t), t);
      }
    }
    hide Exec, Inv, ThreadSafe;
  }

  // ----- all runs

  /** In every run with reclamation, every ring that `head` has left is freed, or on the list of the thread
      that moved `head`, or about to be put there by it, and only one of these; and an idle thread
      announces nothing. */
  lemma {:induction false} NoRingLost(run: seq<Heap>)
    requires IsHeapRun(run)
    ensures AllAccounted(run[|run| - 1]) && IdleSilent(run[|run| - 1])
  {
    hide AllAccounted, IdleSilent, Safe, HeapStep;
    if |run| == 1 {
      InitAccounted(run[0]);
    } else {
      var before := run[..|run| - 1];
      NoRingLost(before);
      RunSafe(before);
      assert HeapNext(run[|run| - 2], run[|run| - 2 + 1]);
      var t :| HeapStep(run[|run| - 2], run[|run| - 1], t);
      StepAccounts(run[|run| - 2], run[|run| - 1], t);
      StepSilent(run[|run| - 2], run[|run| - 1], t);
    }
  }

  lemma InitAccounted(s: Heap)
    requires HeapInit(s)
    ensures AllAccounted(s) && IdleSilent(s)
  {}

  /** The three ways exclude one another. */
  lemma OneFate(run: seq<Heap>, r: nat)
    requires IsHeapRun(run) && r < run[|run| - 1].q.head
    ensures var s := run[|run| - 1];
      && !(r in s.freed && OnList(s, r)) && !(r in s.freed && AboutToRetire(s, r))
      && !(OnList(s, r) && AboutToRetire(s, r))
  {
    RunSafe(run);
    var s := run[|run| - 1];
    hide IsHeapRun, Inv;
    if r < |s.leftBy| && s.leftBy[r] < |s.q.thr| {
      assert ThreadSafe(s, s.leftBy[r]);
    }
  }

  // ----- what a scan leaves in the list

  /** During the scan that thread `t` is making at time `n`, some slot named ring `r`. */
  ghost predicate NamedDuring(run: seq<Heap>, t: nat, n: nat, r: nat) {
    exists m: nat, u: nat :: NamedAt(run, t, n, r, m, u)
  }

  ghost predicate NamedAt(run: seq<Heap>, t: nat, n: nat, r: nat, m: nat, u: nat) {
    && m <= n < |run|
    && (forall l :: m <= l <= n ==> t < |run[l].chore| && run[l].chore[t].Scan?)
    && r < |run[m].addr| && u < |run[m].slot| && run[m].slot[u] == Some(run[m].addr[r])
  }

  /** What a step does to a thread whose scan goes on. */
  lemma ScanStep(s: Heap, s': Heap, a: nat, t: nat, j: nat)
    requires HeapStep(s, s', a) && t < |s.chore| == |s'.chore| == |s.retired| == |s'.retired|
    requires s'.chore[t].Scan? && j < s'.chore[t].i && j < |s'.retired[t]|
    ensures s.chore[t].Scan? && j < |s.retired[t]| && s.retired[t][j] == s'.retired[t][j]
    ensures j < s.chore[t].i || exists u: nat ::
      u < |s.slot| && s.retired[t][j] < |s.addr| && s.slot[u] == Some(s.addr[s.retired[t][j]])
  {
    hide Exec;
  }

  lemma EndStep(s: Heap, s': Heap, a: nat, t: nat)
    requires HeapStep(s, s', a) && t < |s.chore| == |s'.chore| == |s.retired| == |s'.retired|
    requires s.chore[t].Scan? && !s'.chore[t].Scan?
    ensures s'.retired[t] == s.retired[t] && s.chore[t].i >= |s.retired[t]|
  {
    hide Exec;
  }

  lemma SafeAt(run: seq<Heap>, n: nat)
    requires IsHeapRun(run) && n < |run|
    ensures Safe(run[n])
  {
    hide Safe, HeapNext;
    RunSafe(run[..n + 1]);
  }

  /** The thread of one transition, and the sizes it keeps. */
  lemma HeapRunStep(run: seq<Heap>, n: nat) returns (a: nat)
    requires IsHeapRun(run) && n + 1 < |run|
    ensures HeapStep(run[n], run[n + 1], a) && Safe(run[n]) && Sized(run[n]) && Sized(run[n + 1])
    ensures |run[n + 1].q.thr| == |run[n].q.thr|
  {
    SafeAt(run, n);
    SafeAt(run, n + 1);
    hide Inv, ThreadSafe, MemoryOk, HeapStep, Step;
    assert HeapNext(run[n], run[n + 1]);
    a :| HeapStep(run[n], run[n + 1], a);
    HeapRefinesQueue(run[n], run[n + 1], a);
    if run[n + 1].q != run[n].q {
      StepFrame(run[n].q, run[n + 1].q, a);
    }
  }

  /** The rings that a scan has passed over were named while it lasted. */
  lemma {:induction false} PassedOver(run: seq<Heap>, n: nat, t: nat, j: nat)
    requires IsHeapRun(run) && n < |run| && t < |run[n].chore| && t < |run[n].retired|
    requires run[n].chore[t].Scan? && j < run[n].chore[t].i && j < |run[n].retired[t]|
    ensures NamedDuring(run, t, n, run[n].retired[t][j])
  {
    hide HeapStep, Safe, HeapNext;
    assert n > 0;
    var a := HeapRunStep(run, n - 1);
    var s, r := run[n - 1], run[n].retired[t][j];
    ScanStep(s, run[n], a, t, j);
    if j < s.chore[t].i {
      PassedOver(run, n - 1, t, j);
      var m: nat, u: nat :| NamedAt(run, t, n - 1, r, m, u);
      assert NamedAt(run, t, n, r, m, u);
    } else {
      var u: nat :| u < |s.slot| && r < |s.addr| && s.slot[u] == Some(s.addr[r]);
      assert NamedAt(run, t, n, r, n - 1, u);
    }
  }

  /** When a scan has ended, every ring still in the list was named by some slot while it lasted; one of
      them is the ring just retired, which the thread's own slot names throughout. */
  lemma ScanEnds(run: seq<Heap>, n: nat, t: nat)
    requires IsHeapRun(run) && n + 1 < |run| && t < |run[n].chore| && t < |run[n + 1].chore|
    requires run[n].chore[t].Scan? && !run[n + 1].chore[t].Scan?
    ensures t < |run[n + 1].retired| && t < |run[n].q.thr| && AtRetire(run[n].q.thr[t])
    ensures run[n].q.thr[t].xp.lh in run[n + 1].retired[t]
    ensures forall r :: r in run[n + 1].retired[t] ==> NamedDuring(run, t, n, r)
  {
    hide HeapStep, HeapNext, NamedDuring;
    var a := HeapRunStep(run, n);
    EndStep(run[n], run[n + 1], a, t);
    JustRetired(run, n, t);
    hide Safe;
    forall r | r in run[n + 1].retired[t] ensures NamedDuring(run, t, n, r) {
      var j :| 0 <= j < |run[n].retired[t]| && run[n].retired[t][j] == r;
      PassedOver(run, n, t, j);
    }
  }

  lemma JustRetired(run: seq<Heap>, n: nat, t: nat)
    requires IsHeapRun(run) && n < |run| && t < |run[n].chore| && run[n].chore[t].Scan?
    ensures t < |run[n].q.thr| && t < |run[n].retired| && AtRetire(run[n].q.thr[t])
    ensures run[n].q.thr[t].xp.lh in run[n].retired[t]
  {
    SafeAt(run, n);
    assert ThreadSafe(run[n], t);
    NoRingLost(run[..n + 1]);
    assert Accounted(run[n], run[n].q.thr[t].xp.lh);
  }
}
