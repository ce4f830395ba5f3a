/** An operation that runs alone returns, with reclamation: the announcement of a ring, its
    validation, and the scan of the slots are part of the operation. */
module HeapSolo {
  import opened Rings
  import opened Queue
  import opened Invariant
  import opened Preserve
  import opened Reclaim
  import Solo

  // ----- the measure

  /** The measure of the queue, and below it: where the announcement stands, the retired rings not
      yet scanned, and the slots not yet read for the present one. */
  datatype Rank = Rank(q: Solo.Rank, stage: nat, rings: nat, slots: nat)

  predicate Less(x: Rank, y: Rank) {
    || Solo.Less(x.q, y.q)
    || (x.q == y.q && x.stage < y.stage)
    || (x.q == y.q && x.stage == y.stage && x.rings < y.rings)
    || (x.q == y.q && x.stage == y.stage && x.rings == y.rings && x.slots < y.slots)
  }

  /** A stale announcement costs one more round. */
  ghost function Stage(s: Heap, t: nat): nat
    requires Sized(s) && t < |s.q.thr|
  {
    match s.chore[t]
    case Free => if AtTop(s.q.thr[t]) then 3 else 1
    case Announce(p) => if p == s.addr[Pointer(s, t)] then 2 else 5
    case Recheck(p) => if p == s.addr[Pointer(s, t)] then 1 else 4
    case Scan(_, _) => 0
  }

  ghost function HeapMeasure(s: Heap, t: nat): Rank
    requires Sized(s) && t < |s.q.thr|
  {
    var c := s.chore[t];
    Rank(Solo.Measure(s.q, t), Stage(s, t),
         if c.Scan? then Solo.Over(|s.retired[t]|, c.i) else 0,
         if c.Scan? then Solo.Over(|s.slot|, c.k) else 0)
  }

  // ----- every step of the thread lowers it

  /** The measure does not look at the clock. */
  lemma SameMeasure(s: State, t: nat)
    requires t < |s.thr| && |s.rings| > 0 && s.head < |s.rings| && AtTop(s.thr[t])
    ensures Solo.Measure(Go(s, t, s.thr[t]), t) == Solo.Measure(s, t)
  {
    assert Go(s, t, s.thr[t]).thr == s.thr;
  }

  lemma AnnounceFalls(s: Heap, s': Heap, t: nat)
    requires Safe(s) && Safe(s') && HeapStep(s, s', t) && AtTop(s.q.thr[t])
    ensures |s'.q.thr| == |s.q.thr| && s'.q.thr[t] != Idle && Less(HeapMeasure(s', t), HeapMeasure(s, t))
  {
    hide Exec, Solo.Measure, ThreadSafe, MemoryOk;
    if s.chore[t].Recheck? {
      if s.addr[Pointer(s, t)] == s.chore[t].p {
        ExecFrame(s.q, t);
        TopExec(s.q, t);
        Solo.Falls(s.q, t);
      } else {
        SameMeasure(s.q, t);
      }
    }
    hide Inv;
  }

  lemma RetireFalls(s: Heap, s': Heap, t: nat)
    requires Safe(s) && Safe(s') && HeapStep(s, s', t) && AtRetire(s.q.thr[t])
    ensures |s'.q.thr| == |s.q.thr| && s'.q.thr[t] != Idle && Less(HeapMeasure(s', t), HeapMeasure(s, t))
  {
    hide Exec, Solo.Measure, ThreadSafe, MemoryOk;
    if s.chore[t].Scan? && s.chore[t].i >= |s.retired[t]| {
      ExecFrame(s.q, t);
      RetireExec(s.q, t);
      Solo.Falls(s.q, t);
    }
    hide Inv;
  }

  lemma QueueFalls(s: Heap, s': Heap, t: nat)
    requires Safe(s) && Safe(s') && HeapStep(s, s', t)
    requires !s.q.thr[t].Idle? && !AtTop(s.q.thr[t]) && !AtRetire(s.q.thr[t])
    ensures |s'.q.thr| == |s.q.thr|
    ensures s'.q.thr[t] != Idle ==> Less(HeapMeasure(s', t), HeapMeasure(s, t))
  {
    hide Exec, Solo.Measure, ThreadSafe, MemoryOk;
    ExecFrame(s.q, t);
    Solo.Falls(s.q, t);
    hide Inv;
  }

  /** Each access of a thread that runs alone lowers the measure, or is the return. */
  lemma HeapFalls(s: Heap, s': Heap, t: nat)
    requires Safe(s) && HeapStep(s, s', t) && s.q.thr[t] != Idle
    ensures Safe(s') && |s'.q.thr| == |s.q.thr|
    ensures s'.q.thr[t] != Idle ==> Less(HeapMeasure(s', t), HeapMeasure(s, t))
  {
    StepSafe(s, s', t);
    hide Safe, HeapMeasure;
    if AtTop(s.q.thr[t]) {
      AnnounceFalls(s, s', t);
    } else if AtRetire(s.q.thr[t]) {
      RetireFalls(s, s', t);
    } else {
      QueueFalls(s, s', t);
    }
  }

  // ----- and there is always one

  lemma {:induction false} FreshAddress(addr: seq<nat>) returns (a: nat)
    ensures forall r :: 0 <= r < |addr| ==> addr[r] < a
  {
    if addr == [] {
      a := 0;
    } else {
      var b := FreshAddress(addr[1..]);
      a := if b > addr[0] then b else addr[0] + 1;
      forall r | 0 <= r < |addr| ensures addr[r] < a {
        assert r > 0 ==> addr[r] == addr[1..][r - 1];
      }
    }
  }

  lemma NeverStuckInHeap(s: Heap, t: nat) returns (s': Heap)
    requires Safe(s) && t < |s.q.thr| && s.q.thr[t] != Idle
    ensures HeapStep(s, s', t)
  {
    assert ThreadSafe(s, t);
    NeverStuck(s.q, t);
    hide Exec, Inv;
    if AtTop(s.q.thr[t]) {
      s' := match s.chore[t]
        case Free => s.(chore := s.chore[t := Announce(s.addr[Pointer(s, t)])])
        case Announce(p) => s.(slot := s.slot[t := Some(p)], chore := s.chore[t := Recheck(p)])
        case Recheck(p) =>
          s.(q := if s.addr[Pointer(s, t)] == p then Exec(s.q, t) else Go(s.q, t, s.q.thr[t]),
             chore := s.chore[t := Free])
        case Scan(_, _) => s;
    } else if AtRetire(s.q.thr[t]) {
      s' := RetireNext(s, t);
    } else {
      var a := FreshAddress(s.addr);
      s' := Heap(Exec(s.q, t), if Appends(s.q, t) then s.addr + [a] else s.addr,
                 if Returning(s.q.thr[t]) then s.slot[t := None] else s.slot, s.chore, s.retired, s.freed,
                 if Swings(s.q, t) then s.leftBy + [t] else s.leftBy);
    }
  }

  lemma RetireNext(s: Heap, t: nat) returns (s': Heap)
    requires Sized(s) && MemoryOk(s) && t < |s.q.thr| && AtRetire(s.q.thr[t]) && ThreadSafe(s, t) && Ready(s.q, t)
    ensures RetireStep(s, s', t)
  {
    hide Exec;
    if s.chore[t].Free? {
      s' := s.(retired := s.retired[t := s.retired[t] + [s.q.thr[t].xp.lh]], chore := s.chore[t := Scan(0, 0)]);
    } else {
      var i, k := s.chore[t].i, s.chore[t].k;
      if i >= |s.retired[t]| {
        s' := s.(q := Exec(s.q, t), chore := s.chore[t := Free]);
      } else if k >= |s.slot| {
        s' := s.(retired := s.retired[t := s.retired[t][..i] + s.retired[t][i + 1..]],
                 freed := s.freed + {s.retired[t][i]}, chore := s.chore[t := Scan(i, 0)]);
      } else {
        s' := s.(chore := s.chore[t :=
                   if s.slot[k] == Some(s.addr[s.retired[t][i]]) then Scan(i + 1, 0) else Scan(i, k + 1)]);
      }
    }
  }

  // ----- termination

  /** Transitions of thread `t` alone, until its operation has returned. */
  ghost predicate AlonePath(path: seq<Heap>, t: nat) {
    && |path| > 0
    && (forall i :: 0 <= i < |path| ==> t < |path[i].q.thr|)
    && (forall i :: 0 <= i < |path| - 1 ==> path[i].q.thr[t] != Idle && HeapStep(path[i], path[i + 1], t))
  }

  lemma {:induction false} HeapReturns(s: Heap, t: nat) returns (path: seq<Heap>)
    requires Safe(s) && t < |s.q.thr|
    ensures AlonePath(path, t) && path[0] == s && path[|path| - 1].q.thr[t] == Idle
    decreases HeapMeasure(s, t).q.a, HeapMeasure(s, t).q.b, HeapMeasure(s, t).q.c, HeapMeasure(s, t).q.d,
              HeapMeasure(s, t).q.e, HeapMeasure(s, t).q.f,
              HeapMeasure(s, t).stage, HeapMeasure(s, t).rings, HeapMeasure(s, t).slots
  {
    hide HeapMeasure, HeapStep, Safe;
    if s.q.thr[t] == Idle {
      path := [s];
    } else {
      var s' := NeverStuckInHeap(s, t);
      HeapFalls(s, s', t);
      if s'.q.thr[t] == Idle {
        path := [s, s'];
      } else {
        var rest := HeapReturns(s', t);
        path := [s] + rest;
      }
    }
  }

  /** From every state of every run with reclamation, a thread that runs alone completes its
      operation. */
  lemma HeapSoloTermination(run: seq<Heap>, t: nat)
    requires IsHeapRun(run) && t < |run[|run| - 1].q.thr|
    ensures exists path: seq<Heap> ::
      AlonePath(path, t) && path[0] == run[|run| - 1] && path[|path| - 1].q.thr[t] == Idle
  {
    RunSafe(run);
    var path := HeapReturns(run[|run| - 1], t);
  }
}
