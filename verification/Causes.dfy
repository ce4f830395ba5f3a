/** Why an operation gives up: a ring is closed only by an enqueuer that found it full or by a dequeuer that
    lost patience, and a dequeuer moves an empty cell past its ticket only with a reason. */
module Causes {
  import opened Rings
  import opened Queue
  import opened Invariant
  import opened Preserve
  import opened Theorems
  import Accesses

  // ----- an enqueuer that closes a ring

  function One(b: bool): nat {
    if b then 1 else 0
  }

  /** The thread found the ring full, and is about to close it. */
  predicate FindsFull(p: Pc, p': Pc) {
    p.Enqueue? && p'.Enqueue? && p.ep.EFull? && p'.ep.EClose?
  }

  /** How often thread `t` found a ring full between times `b` and `n`. */
  function TimesFull(run: seq<State>, t: nat, b: nat, n: nat): nat
    requires n < |run|
    decreases n
  {
    if n <= b then 0
    else TimesFull(run, t, b, n - 1)
         + One(t < |run[n - 1].thr| && t < |run[n].thr| && FindsFull(run[n - 1].thr[t], run[n].thr[t]))
  }

  lemma TriesStep(s: State, s': State, t: nat)
    requires Step(s, s', t) && t < |s'.thr| && s'.thr[t].Enqueue?
    ensures s.thr[t].Idle? || s.thr[t].Enqueue?
    ensures s.thr[t].Idle? ==> s'.thr[t].ep.e.tries == 0
    ensures s.thr[t].Enqueue? ==> s'.thr[t].ep.e.tries == s.thr[t].ep.e.tries + One(FindsFull(s.thr[t], s'.thr[t]))
  {
    hide CellStep, ExitStep;
    if s.thr[t].Dequeue? {
      CellStaysDequeue(s, t);
    } else if s.thr[t].Leaving? {
      ExitStaysDequeue(s, t);
    }
    hide Deposit, Close, DrawTail, Seeded, At;
  }

  lemma CellStaysDequeue(s: State, t: nat)
    requires Ready(s, t) && s.thr[t].Dequeue?
    ensures t < |CellStep(s, t).thr| && !CellStep(s, t).thr[t].Enqueue?
  {
    hide Deliver, Mark, Skip, Leave, DrawHead, Close;
  }

  lemma ExitStaysDequeue(s: State, t: nat)
    requires Ready(s, t) && s.thr[t].Leaving?
    ensures t < |ExitStep(s, t).thr| && !ExitStep(s, t).thr[t].Enqueue?
  {
    hide AllDrawn;
  }

  /** The counter that decides when an enqueuer stops closing politely. */
  lemma {:induction false} TriesCounts(run: seq<State>, t: nat, n: nat)
    requires IsRun(run) && n < |run| && t < |run[n].thr| && run[n].thr[t].Enqueue?
    ensures run[n].thr[t].ep.e.tries == TimesFull(run, t, run[n].thr[t].ep.e.began, n)
  {
    hide Step;
    assert n > 0;
    ClockCounts(run, n - 1);
    ClockCounts(run, n);
    assert Next(run[n - 1], run[n - 1 + 1]);
    var a :| Step(run[n - 1], run[n], a);
    StepBegan(run[n - 1], run[n], a, t);
    if run[n - 1].thr[t] == run[n].thr[t] {
      TriesCounts(run, t, n - 1);
      InvokedWith(run, n - 1, t);
    } else {
      Accesses.OwnStep(run[n - 1], run[n], t);
      TriesStep(run[n - 1], run[n], t);
      if run[n - 1].thr[t].Enqueue? {
        TriesCounts(run, t, n - 1);
        InvokedWith(run, n - 1, t);
      }
    }
  }

  /** At time `m` the thread had drawn ticket `k` and found it at least a ring's length past `head`. */
  ghost predicate FullAt(run: seq<State>, t: nat, m: nat, r: nat, k: nat) {
    && m < |run| && t < |run[m].thr| && r < |run[m].rings|
    && run[m].thr[t].Enqueue? && run[m].thr[t].ep.EFull? && run[m].thr[t].ep.lt == r && run[m].thr[t].ep.k == k
    && k - run[m].rings[r].head >= run[m].size
  }

  lemma FullStep(s: State, s': State, t: nat)
    requires Step(s, s', t) && t < |s'.thr| && s'.thr[t].Enqueue? && s'.thr[t].ep.EClose? && s'.thr[t] != s.thr[t]
    ensures s.thr[t].Enqueue? && s.thr[t].ep.EFull?
    ensures s.thr[t].ep.lt == s'.thr[t].ep.lt < |s.rings| && s.thr[t].ep.k == s'.thr[t].ep.k
    ensures s.thr[t].ep.k - s.rings[s.thr[t].ep.lt].head >= s.size
  {
    hide CellStep, ExitStep;
    if s.thr[t].Dequeue? {
      CellStaysDequeue(s, t);
    } else if s.thr[t].Leaving? {
      ExitStaysDequeue(s, t);
    }
    hide Deposit, Close, DrawTail, Seeded, At;
  }

  lemma {:induction false} FoundFull(run: seq<State>, t: nat, n: nat) returns (m: nat)
    requires IsRun(run) && n < |run| && t < |run[n].thr| && run[n].thr[t].Enqueue? && run[n].thr[t].ep.EClose?
    ensures run[n].thr[t].ep.e.began < m < n && FullAt(run, t, m, run[n].thr[t].ep.lt, run[n].thr[t].ep.k)
  {
    hide Step;
    assert n > 0;
    ClockCounts(run, n - 1);
    ClockCounts(run, n);
    assert Next(run[n - 1], run[n - 1 + 1]);
    if run[n - 1].thr[t] == run[n].thr[t] {
      m := FoundFull(run, t, n - 1);
    } else {
      Accesses.OwnStep(run[n - 1], run[n], t);
      StepBegan(run[n - 1], run[n], t, t);
      FullStep(run[n - 1], run[n], t);
      InvokedWith(run, n - 1, t);
      m := n - 1;
    }
  }

  // ----- the looks of a dequeuer at its cell

  /** The locals of a dequeuer in the cell loop. */
  function Loop(p: Pc): Option<Deq> {
    if p.Dequeue? && !p.cp.DStart? && !p.cp.DTicket? && !p.cp.DBts? && !p.cp.DDone? then Some(p.cp.d) else None
  }

  /** The thread found its cell empty and goes round the loop once more. */
  predicate LooksAgain(p: Pc, p': Pc) {
    p.Dequeue? && p'.Dequeue? && (p.cp.DVal? || p.cp.DTail?) && p'.cp.DIdx?
  }

  function Looks(run: seq<State>, t: nat, b: nat, n: nat): nat
    requires n < |run|
    decreases n
  {
    if n <= b then 0
    else Looks(run, t, b, n - 1)
         + One(t < |run[n - 1].thr| && t < |run[n].thr| && LooksAgain(run[n - 1].thr[t], run[n].thr[t]))
  }

  /** Reasons to move an empty cell past ticket `h`: it is marked; or the last sample of `tail` shows that the
      ticket has not been issued, or that the ring is closed; or there were too many looks. */
  predicate Reason(d: Deq, u: bool) {
    u || d.tt.idx <= d.h || d.tt.closed || d.r > PATIENCE
  }

  /** How a step arrives at a place in the cell loop. */
  ghost predicate Arrives(s: State, p: Pc, p': Pc)
    requires Loop(p').Some?
  {
    var d' := p'.cp.d;
    || (&& p == Dequeue(DTicket(d'.began, d'.lh)) && d'.lh < |s.rings| && d'.h == s.rings[d'.lh].head
        && d'.r == 0 && p'.cp.DIdx?)
    || (&& Loop(p) == Some(d') && !LooksAgain(p, p')
        && (p'.cp.DTail? ==> d'.r % RELOAD == 0)
        && (p'.cp.DSkip? ==> p.cp.DVal? && d'.r % RELOAD != 0 && Reason(d', p'.cp.u)))
    || (&& Loop(p).Some? && p.cp.DVal? && p.cp.d.r % RELOAD != 0 && !Reason(p.cp.d, p.cp.u)
        && d' == p.cp.d.(r := p.cp.d.r + 1) && p'.cp.DIdx?)
    || (&& Loop(p).Some? && p.cp.DTail? && d'.lh < |s.rings| && d'.lh == p.cp.d.lh && d'.tt == TailWord(s.rings[d'.lh])
        && (|| (p'.cp.DSkip? && d' == p.cp.d.(tt := d'.tt) && Reason(d', p'.cp.u))
            || (&& p'.cp.DIdx? && !Reason(p.cp.d.(tt := d'.tt), p.cp.u)
                && d' == p.cp.d.(r := p.cp.d.r + 1, tt := d'.tt))))
  }

  lemma CellArrives(s: State, t: nat)
    requires Ready(s, t) && s.thr[t].Dequeue? && t < |CellStep(s, t).thr| && Loop(CellStep(s, t).thr[t]).Some?
    ensures Arrives(s, s.thr[t], CellStep(s, t).thr[t])
  {
    hide Deliver, Mark, Skip, Leave, DrawHead, Close, At;
  }

  lemma StepArrives(s: State, s': State, t: nat)
    requires Step(s, s', t) && t < |s'.thr| && Loop(s'.thr[t]).Some?
    ensures Arrives(s, s.thr[t], s'.thr[t])
  {
    hide EnqStep, CellStep, ExitStep, Arrives;
    match s.thr[t] {
      case Idle =>
      case Enqueue(_) => EnqStaysEnqueue(s, t);
      case Dequeue(_) =>
        if Ready(s, t) {
          CellArrives(s, t);
        }
      case Leaving(_) => ExitOutside(s, t);
    }
  }

  lemma EnqStaysEnqueue(s: State, t: nat)
    requires Ready(s, t) && s.thr[t].Enqueue?
    ensures t < |EnqStep(s, t).thr| && Loop(EnqStep(s, t).thr[t]).None?
  {
    hide Deposit, Close, DrawTail, Seeded, At;
  }

  lemma ExitOutside(s: State, t: nat)
    requires Ready(s, t) && s.thr[t].Leaving?
    ensures t < |ExitStep(s, t).thr| && Loop(ExitStep(s, t).thr[t]).None?
  {
    hide AllDrawn;
  }

  /** Thread `t` drew its ticket at time `b`, and has been in the cell loop since. */
  ghost predicate Visit(run: seq<State>, t: nat, b: nat, n: nat, d: Deq) {
    && b < n < |run| && t < |run[b].thr| && run[b].thr[t] == Dequeue(DTicket(d.began, d.lh))
    && d.lh < |run[b].rings| && run[b].rings[d.lh].head == d.h
    && (forall m :: b < m <= n ==> t < |run[m].thr| && Loop(run[m].thr[t]).Some?)
    && d.r == Looks(run, t, b, n) <= PATIENCE + 1
  }

  /** The loop counter is the number of looks at an empty cell, and stays in bounds. */
  lemma {:induction false} LooksCount(run: seq<State>, t: nat, n: nat) returns (b: nat)
    requires IsRun(run) && n < |run| && t < |run[n].thr| && Loop(run[n].thr[t]).Some?
    ensures Visit(run, t, b, n, run[n].thr[t].cp.d)
  {
    hide Step, Arrives;
    assert n > 0;
    ClockCounts(run, n - 1);
    ClockCounts(run, n);
    assert Next(run[n - 1], run[n - 1 + 1]);
    if run[n - 1].thr[t] == run[n].thr[t] {
      b := LooksCount(run, t, n - 1);
    } else {
      Accesses.OwnStep(run[n - 1], run[n], t);
      StepArrives(run[n - 1], run[n], t);
      if Loop(run[n - 1].thr[t]).Some? {
        b := LooksCount(run, t, n - 1);
        LooksStep(run[n - 1], run[n - 1].thr[t], run[n].thr[t]);
      } else {
        b := n - 1;
        Drew(run[n - 1], run[n - 1].thr[t], run[n].thr[t]);
        assert Looks(run, t, b, n - 1) == 0;
      }
    }
  }

  lemma LooksStep(s: State, p: Pc, p': Pc)
    requires Loop(p).Some? && Loop(p').Some? && Arrives(s, p, p')
    ensures var d, d' := p.cp.d, p'.cp.d;
      && d'.began == d.began && d'.lh == d.lh && d'.h == d.h && d'.r == d.r + One(LooksAgain(p, p'))
      && (LooksAgain(p, p') ==> d.r <= PATIENCE)
  {}

  lemma Drew(s: State, p: Pc, p': Pc)
    requires Loop(p').Some? && Loop(p).None? && Arrives(s, p, p')
    ensures var d' := p'.cp.d;
      && p == Dequeue(DTicket(d'.began, d'.lh)) && d'.lh < |s.rings| && d'.h == s.rings[d'.lh].head && d'.r == 0
      && !LooksAgain(p, p')
  {}

  // ----- the samples of tail

  /** In this visit the thread loaded `tail` at time `m`, before look number `r`, and got `d.tt`. */
  ghost predicate SampledAt(run: seq<State>, t: nat, m: nat, d: Deq, r: nat) {
    && m < |run| && t < |run[m].thr| && run[m].thr[t].Dequeue? && run[m].thr[t].cp.DTail?
    && (var d0 := run[m].thr[t].cp.d; d0.began == d.began && d0.lh == d.lh && d0.h == d.h && d0.r == r)
    && d.lh < |run[m].rings| && TailWord(run[m].rings[d.lh]) == d.tt
  }

  ghost predicate Sampled(run: seq<State>, t: nat, n: nat, d: Deq, r: nat) {
    exists m: nat :: m < n && SampledAt(run, t, m, d, r)
  }

  /** The last multiple of RELOAD that is at most `r`. */
  function Round(r: nat): nat {
    r - r % RELOAD
  }

  /** What a thread in the loop knows of `tail`. */
  ghost predicate Knows(run: seq<State>, t: nat, n: nat, p: Pc)
    requires Loop(p).Some?
  {
    var d := p.cp.d;
    && (p.cp.DTail? ==> d.r % RELOAD == 0)
    && (if p.cp.DSkip? then Sampled(run, t, n, d, Round(d.r)) && Reason(d, p.cp.u)
        else d.r > 0 ==> Sampled(run, t, n, d, Round(d.r)) || Sampled(run, t, n, d, Round(d.r - 1)))
  }

  lemma SampleStays(run: seq<State>, t: nat, n: nat, d: Deq, d': Deq, r: nat)
    requires Sampled(run, t, n, d, r) && d' == d.(r := d'.r)
    ensures Sampled(run, t, n + 1, d', r)
  {
    var m: nat :| m < n && SampledAt(run, t, m, d, r);
    assert SampledAt(run, t, m, d', r);
  }

  lemma KnowsStep(run: seq<State>, t: nat, n: nat, p: Pc, p': Pc)
    requires n < |run| && t < |run[n].thr| && run[n].thr[t] == p && Loop(p').Some? && Arrives(run[n], p, p')
    requires Loop(p).Some? ==> Knows(run, t, n, p)
    ensures Knows(run, t, n + 1, p')
  {
    if Loop(p).Some? {
      hide Sampled;
      var d, d' := p.cp.d, p'.cp.d;
      if p.cp.DTail? && (p'.cp.DSkip? || p'.cp.DIdx?) {
        JustSampled(run, t, n, d', d.r);
      } else {
        if Sampled(run, t, n, d, Round(d.r)) {
          SampleStays(run, t, n, d, d', Round(d.r));
        }
        if d.r > 0 && Sampled(run, t, n, d, Round(d.r - 1)) {
          SampleStays(run, t, n, d, d', Round(d.r - 1));
        }
      }
    }
  }

  lemma JustSampled(run: seq<State>, t: nat, n: nat, d: Deq, r: nat)
    requires SampledAt(run, t, n, d, r)
    ensures Sampled(run, t, n + 1, d, r)
  {}

  lemma KnowsLater(run: seq<State>, t: nat, n: nat, p: Pc)
    requires Loop(p).Some? && Knows(run, t, n, p)
    ensures Knows(run, t, n + 1, p)
  {
    hide Sampled;
    var d := p.cp.d;
    if Sampled(run, t, n, d, Round(d.r)) {
      SampleStays(run, t, n, d, d, Round(d.r));
    }
    if d.r > 0 && Sampled(run, t, n, d, Round(d.r - 1)) {
      SampleStays(run, t, n, d, d, Round(d.r - 1));
    }
  }

  lemma {:induction false} KnowsTail(run: seq<State>, t: nat, n: nat)
    requires IsRun(run) && n < |run| && t < |run[n].thr| && Loop(run[n].thr[t]).Some?
    ensures Knows(run, t, n, run[n].thr[t])
  {
    hide Step, Arrives, Knows;
    assert n > 0;
    ClockCounts(run, n - 1);
    ClockCounts(run, n);
    assert Next(run[n - 1], run[n - 1 + 1]);
    if Loop(run[n - 1].thr[t]).Some? {
      KnowsTail(run, t, n - 1);
    }
    if run[n - 1].thr[t] == run[n].thr[t] {
      KnowsLater(run, t, n - 1, run[n].thr[t]);
    } else {
      Accesses.OwnStep(run[n - 1], run[n], t);
      StepArrives(run[n - 1], run[n], t);
      KnowsStep(run, t, n - 1, run[n - 1].thr[t], run[n].thr[t]);
    }
  }

  /** A dequeuer that is about to move an empty cell past its ticket has a reason: the cell is marked; or a
      load of `tail`, made within the last RELOAD looks of this visit, showed that the ticket had not been
      issued or that the ring was closed; or it has looked more than PATIENCE times. */
  lemma SkipsForCause(run: seq<State>, t: nat, n: nat, d: Deq, i: nat, u: bool)
    requires IsRun(run) && n < |run| && t < |run[n].thr| && run[n].thr[t] == Dequeue(DSkip(d, i, u))
    ensures exists b: nat, m: nat ::
      && Visit(run, t, b, n, d) && m < n && SampledAt(run, t, m, d, Round(d.r))
      && (|| u
          || run[m].rings[d.lh].tail <= d.h
          || run[m].rings[d.lh].closed
          || Looks(run, t, b, n) > PATIENCE)
  {
    hide IsRun;
    var b := LooksCount(run, t, n);
    KnowsTail(run, t, n);
    var m: nat :| m < n && SampledAt(run, t, m, d, Round(d.r));
    assert Visit(run, t, b, n, d);
  }

  lemma LookedWhy(s: State, p: Pc, p': Pc)
    requires Loop(p').Some? && Arrives(s, p, p') && LooksAgain(p, p')
    ensures Loop(p).Some? && !p.cp.u && p.cp.d.r <= PATIENCE
    ensures var d, d' := p.cp.d, p'.cp.d;
      && d' == d.(r := d.r + 1, tt := d'.tt) && d'.tt.idx > d.h && !d'.tt.closed
      && (p.cp.DVal? ==> d'.tt == d.tt && d.r % RELOAD != 0)
      && (p.cp.DTail? ==> d.lh < |s.rings| && d'.tt == TailWord(s.rings[d.lh]))
  {}

  /** In the visit since `b` the thread has looked at most PATIENCE times, and its load of `tail`, at time `m`,
      showed the ticket issued and the ring open. */
  ghost predicate NoReason(run: seq<State>, t: nat, n: nat, d: Deq, tt: Word, b: nat, m: nat) {
    && Visit(run, t, b, n, d) && Looks(run, t, b, n) <= PATIENCE
    && m <= n && SampledAt(run, t, m, d.(tt := tt), Round(d.r))
    && run[m].rings[d.lh].tail > d.h && !run[m].rings[d.lh].closed
  }

  /** Conversely, a dequeuer that finds its cell empty and looks again has none of these reasons. */
  lemma LooksForCause(run: seq<State>, t: nat, n: nat) returns (b: nat, m: nat)
    requires IsRun(run) && n + 1 < |run| && t < |run[n].thr| && t < |run[n + 1].thr|
    requires LooksAgain(run[n].thr[t], run[n + 1].thr[t])
    ensures !run[n].thr[t].cp.u
    ensures NoReason(run, t, n, run[n].thr[t].cp.d, run[n + 1].thr[t].cp.d.tt, b, m)
  {
    hide Step, Arrives;
    assert Next(run[n], run[n + 1]);
    Accesses.OwnStep(run[n], run[n + 1], t);
    hide IsRun;
    StepArrives(run[n], run[n + 1], t);
    var p, p' := run[n].thr[t], run[n + 1].thr[t];
    LookedWhy(run[n], p, p');
    var d := p.cp.d;
    b := LooksCount(run, t, n);
    KnowsTail(run, t, n);
    if p.cp.DTail? {
      m := n;
    } else {
      assert Round(d.r - 1) == Round(d.r);
      m :| m < n && SampledAt(run, t, m, d, Round(d.r));
    }
  }

  // ----- a dequeuer that closes a ring

  lemma ImpatientStep(s: State, s': State, t: nat)
    requires Step(s, s', t) && t < |s'.thr| && s'.thr[t].Dequeue? && s'.thr[t].cp.DBts? && s'.thr[t] != s.thr[t]
    ensures s.thr[t].Dequeue? && s.thr[t].cp.DSkip? && s.thr[t].cp.d.lh == s'.thr[t].cp.lh
    ensures s.thr[t].cp.d.began == s'.thr[t].cp.began
    ensures var d := s.thr[t].cp.d; d.r > PATIENCE && !s.thr[t].cp.u && (d.tt.closed || d.tt.idx > s.size)
  {
    hide EnqStep, ExitStep;
    if s.thr[t].Enqueue? {
      EnqNoBts(s, t);
    } else if s.thr[t].Leaving? {
      ExitNoBts(s, t);
    }
    hide Deliver, Mark, Skip, Leave, DrawHead, Close, At;
  }

  lemma EnqNoBts(s: State, t: nat)
    requires Ready(s, t) && s.thr[t].Enqueue?
    ensures t < |EnqStep(s, t).thr| && !EnqStep(s, t).thr[t].Dequeue?
  {
    hide Deposit, Close, DrawTail, Seeded, At;
  }

  lemma ExitNoBts(s: State, t: nat)
    requires Ready(s, t) && s.thr[t].Leaving?
    ensures var s' := ExitStep(s, t); t < |s'.thr| && (s'.thr[t].Dequeue? ==> s'.thr[t].cp.DStart?)
  {
    hide AllDrawn;
  }

  /** At time `m` thread `t` lost patience with the cell of its ticket, and then closed ring `r`. */
  ghost predicate Impatient(run: seq<State>, t: nat, m: nat, r: nat) {
    && m < |run| && t < |run[m].thr| && run[m].thr[t].Dequeue? && run[m].thr[t].cp.DSkip?
    && (var d := run[m].thr[t].cp.d;
        d.lh == r && d.r > PATIENCE && !run[m].thr[t].cp.u && (d.tt.closed || d.tt.idx > run[m].size))
  }

  lemma {:induction false} LostPatience(run: seq<State>, t: nat, n: nat) returns (m: nat)
    requires IsRun(run) && n < |run| && t < |run[n].thr| && run[n].thr[t].Dequeue? && run[n].thr[t].cp.DBts?
    ensures m < n && Impatient(run, t, m, run[n].thr[t].cp.lh)
  {
    hide Step;
    assert n > 0;
    ClockCounts(run, n - 1);
    ClockCounts(run, n);
    assert Next(run[n - 1], run[n - 1 + 1]);
    if run[n - 1].thr[t] == run[n].thr[t] {
      m := LostPatience(run, t, n - 1);
    } else {
      Accesses.OwnStep(run[n - 1], run[n], t);
      ImpatientStep(run[n - 1], run[n], t);
      m := n - 1;
    }
  }

  // ----- the step that closes a ring

  /** Thread `t` closes ring `r` in this step. */
  ghost predicate Closer(s: State, t: nat, r: nat) {
    && t < |s.thr| && r < |s.rings|
    && (|| (&& s.thr[t].Enqueue? && s.thr[t].ep.EClose? && s.thr[t].ep.lt == r
            && (s.thr[t].ep.e.tries >= POLITE || TailWord(s.rings[r]) == Word(false, s.thr[t].ep.k + 1)))
        || (s.thr[t].Dequeue? && s.thr[t].cp.DBts? && s.thr[t].cp.lh == r))
  }

  ghost predicate Closes(s: State, s': State, r: nat) {
    r < |s.rings| && r < |s'.rings| && !s.rings[r].closed && s'.rings[r].closed
  }

  lemma EnqCloses(s: State, t: nat, r: nat)
    requires Ready(s, t) && s.thr[t].Enqueue? && Closes(s, EnqStep(s, t), r)
    ensures Closer(s, t, r)
  {
    hide At;
  }

  lemma CellCloses(s: State, t: nat, r: nat)
    requires Ready(s, t) && s.thr[t].Dequeue? && Closes(s, CellStep(s, t), r)
    ensures Closer(s, t, r)
  {
    hide At;
  }

  lemma ExitCloses(s: State, t: nat, r: nat)
    requires Ready(s, t) && s.thr[t].Leaving?
    ensures !Closes(s, ExitStep(s, t), r)
  {
    hide AllDrawn;
  }

  lemma StepCloses(s: State, s': State, t: nat, r: nat)
    requires Step(s, s', t) && Closes(s, s', r)
    ensures Closer(s, t, r)
  {
    hide EnqStep, CellStep, ExitStep, Closer;
    if Ready(s, t) && s' == Exec(s, t) {
      match s.thr[t]
      case Enqueue(_) => EnqCloses(s, t, r);
      case Dequeue(_) => CellCloses(s, t, r);
      case Leaving(_) => ExitCloses(s, t, r);
    }
  }

  /** An enqueuer of ticket `k` closes ring `r`: its ticket was a ring's length past `head`, at time `m` of its
      operation; and either nobody has drawn a ticket since its own, or it has found rings full POLITE times. */
  ghost predicate ClosedFull(run: seq<State>, n: nat, t: nat, r: nat, k: nat, m: nat, b: nat) {
    && b < m < n < |run| && FullAt(run, t, m, r, k)
    && t < |run[b].thr| && run[b].thr[t] == Idle
    && r < |run[n].rings| && (run[n].rings[r].tail == k + 1 || TimesFull(run, t, b, n) >= POLITE)
  }

  /** A dequeuer closes ring `r`: it has looked more than PATIENCE times at an empty cell that is not marked,
      and its last load of `tail` showed more tickets issued than the ring has cells. */
  ghost predicate ClosedImpatient(run: seq<State>, n: nat, t: nat, r: nat, m: nat, b: nat, l: nat) {
    && m < n < |run| && Impatient(run, t, m, r)
    && (var d := run[m].thr[t].cp.d;
        && Visit(run, t, b, m, d) && Looks(run, t, b, m) > PATIENCE
        && l < m && SampledAt(run, t, l, d, Round(d.r)) && run[l].rings[r].tail > run[l].size)
  }

  ghost predicate HasCause(run: seq<State>, n: nat, t: nat, r: nat) {
    || (exists k: nat, m: nat, b: nat :: ClosedFull(run, n, t, r, k, m, b))
    || (exists m: nat, b: nat, l: nat :: ClosedImpatient(run, n, t, r, m, b, l))
  }

  /** A ring is closed only for cause. */
  lemma ClosedForCause(run: seq<State>, n: nat, r: nat)
    requires IsRun(run) && n + 1 < |run| && Closes(run[n], run[n + 1], r)
    ensures exists t: nat :: HasCause(run, n, t, r)
  {
    hide Step;
    assert Next(run[n], run[n + 1]);
    var t: nat :| Step(run[n], run[n + 1], t);
    StepCloses(run[n], run[n + 1], t, r);
    hide IsRun;
    if run[n].thr[t].Enqueue? {
      FullCause(run, n, t, r);
    } else {
      ImpatientCause(run, n, t, r);
    }
  }

  lemma FullCause(run: seq<State>, n: nat, t: nat, r: nat)
    requires IsRun(run) && n < |run| && Closer(run[n], t, r) && run[n].thr[t].Enqueue?
    ensures HasCause(run, n, t, r)
  {
    hide IsRun;
    var m := FoundFull(run, t, n);
    TriesCounts(run, t, n);
    InvokedWith(run, n, t);
    assert ClosedFull(run, n, t, r, run[n].thr[t].ep.k, m, run[n].thr[t].ep.e.began);
  }

  lemma ImpatientCause(run: seq<State>, n: nat, t: nat, r: nat)
    requires IsRun(run) && n < |run| && Closer(run[n], t, r) && run[n].thr[t].Dequeue? && !run[n].rings[r].closed
    ensures HasCause(run, n, t, r)
  {
    hide IsRun;
    var m := LostPatience(run, t, n);
    var d, i := run[m].thr[t].cp.d, run[m].thr[t].cp.i;
    SkipsForCause(run, t, m, d, i, false);
    var b: nat, l: nat :| Visit(run, t, b, m, d) && l < m && SampledAt(run, t, l, d, Round(d.r));
    RunLater(run, l, n);
    RunLater(run, l, m);
    hide Grown;
    assert ClosedImpatient(run, n, t, r, m, b, l);
  }

  lemma CloseStep(s: State, s': State, t: nat)
    requires Step(s, s', t) && s.thr[t].Enqueue? && s.thr[t].ep.EClose?
    ensures s.thr[t].ep.lt < |s.rings| == |s'.rings|
    ensures s'.rings[s.thr[t].ep.lt].closed <==> s.rings[s.thr[t].ep.lt].closed || Closer(s, t, s.thr[t].ep.lt)
  {}

  /** Conversely, when an enqueuer that found the ring full has tried to close it, the ring is closed exactly
      if it was before, or no ticket was drawn since its own, or it has found rings full POLITE times. */
  lemma ClosesExactly(run: seq<State>, n: nat, t: nat)
    requires IsRun(run) && n + 1 < |run| && t < |run[n].thr| && t < |run[n + 1].thr|
    requires run[n].thr[t].Enqueue? && run[n].thr[t].ep.EClose? && run[n + 1].thr[t] != run[n].thr[t]
    ensures var r, k, b := run[n].thr[t].ep.lt, run[n].thr[t].ep.k, run[n].thr[t].ep.e.began;
      && r < |run[n].rings| && r < |run[n + 1].rings|
      && (run[n + 1].rings[r].closed <==>
            run[n].rings[r].closed || run[n].rings[r].tail == k + 1 || TimesFull(run, t, b, n) >= POLITE)
  {
    hide Step;
    assert Next(run[n], run[n + 1]);
    Accesses.OwnStep(run[n], run[n + 1], t);
    CloseStep(run[n], run[n + 1], t);
    TriesCounts(run, t, n);
  }

  lemma GoesToClose(s: State, s': State, t: nat)
    requires Step(s, s', t) && t < |s'.thr| && s.thr[t].Dequeue? && s.thr[t].cp.DSkip? && Loop(s'.thr[t]).None?
    requires var d := s.thr[t].cp.d; !s.thr[t].cp.u && d.r > PATIENCE && (d.tt.closed || d.tt.idx > s.size)
    ensures var d := s.thr[t].cp.d; s'.thr[t] == Dequeue(DBts(d.began, d.lh, d.h))
  {
    hide Skip, At;
  }

  lemma BtsCloses(s: State, s': State, t: nat)
    requires Step(s, s', t) && s.thr[t].Dequeue? && s.thr[t].cp.DBts?
    ensures s.thr[t].cp.lh < |s'.rings| && s'.rings[s.thr[t].cp.lh].closed
  {}

  /** A dequeuer that lost patience and skipped its cell closes the ring before it does anything else. */
  lemma {:induction false} ImpatientCloses(run: seq<State>, n: nat, t: nat, r: nat, m: nat)
    requires IsRun(run) && n < m < |run| && Impatient(run, t, n, r)
    requires t < |run[n + 1].thr| && Loop(run[n + 1].thr[t]).None? && t < |run[m].thr|
    ensures var d := run[n].thr[t].cp.d;
      || run[m].thr[t] == Dequeue(DBts(d.began, r, d.h))
      || (r < |run[m].rings| && run[m].rings[r].closed)
    decreases m
  {
    hide Step;
    ClockCounts(run, m - 1);
    ClockCounts(run, m);
    assert Next(run[m - 1], run[m - 1 + 1]);
    if m == n + 1 {
      assert run[m - 1 + 1] == run[n + 1];
      Accesses.OwnStep(run[n], run[m], t);
      GoesToClose(run[n], run[m], t);
    } else {
      ImpatientCloses(run, n, t, r, m - 1);
      if r < |run[m - 1].rings| && run[m - 1].rings[r].closed {
        RunLater(run, m - 1, m);
      } else if run[m].thr[t] != run[m - 1].thr[t] {
        Accesses.OwnStep(run[m - 1], run[m], t);
        BtsCloses(run[m - 1], run[m], t);
      }
    }
  }

  // ----- an enqueuer that gives up its ticket

  /** The index word that an enqueuer has loaded. */
  function IndexWord(p: Pc): Option<Word> {
    if p.Enqueue? && (p.ep.EVal? || p.ep.EHead? || p.ep.ECas?) then Some(Word(p.ep.u, p.ep.i)) else None
  }

  /** At time `l` the thread loaded index word `w` of the cell of its ticket. */
  ghost predicate LoadedAt(run: seq<State>, t: nat, l: nat, r: nat, k: nat, w: Word) {
    && l < |run| && t < |run[l].thr| && Accesses.Exists(run[l], r)
    && run[l].thr[t].Enqueue? && run[l].thr[t].ep.EIdx? && run[l].thr[t].ep.lt == r && run[l].thr[t].ep.k == k
    && At(run[l].rings[r], k).idx == w.idx && At(run[l].rings[r], k).unsafe == w.closed
  }

  /** An index word comes from the load of it, or was there before. */
  ghost predicate NewIndex(s: State, p: Pc, p': Pc)
    requires IndexWord(p').Some?
  {
    && p.Enqueue? && !p.ep.EStart? && !p.ep.EDone? && p.ep.lt == p'.ep.lt
    && (p'.ep.EHead? ==> p == p' || p'.ep.u)
    && (|| (IndexWord(p) == IndexWord(p') && p.ep.k == p'.ep.k)
        || (&& p.ep.EIdx? && p.ep.k == p'.ep.k && Accesses.Exists(s, p.ep.lt)
            && IndexWord(p') == Some(Word(At(s.rings[p.ep.lt], p.ep.k).unsafe, At(s.rings[p.ep.lt], p.ep.k).idx))))
  }

  lemma EnqCellIndex(s: State, t: nat)
    requires Ready(s, t) && s.thr[t].Enqueue? && AtCell(s.thr[t].ep)
    ensures var s' := EnqStep(s, t);
      t < |s'.thr| && (IndexWord(s'.thr[t]).Some? ==> NewIndex(s, s.thr[t], s'.thr[t]))
  {
    hide Deposit, Close, At;
  }

  lemma EnqListIndex(s: State, t: nat)
    requires Ready(s, t) && s.thr[t].Enqueue? && !AtCell(s.thr[t].ep)
    ensures t < |EnqStep(s, t).thr| && IndexWord(EnqStep(s, t).thr[t]).None?
  {
    hide DrawTail, Seeded;
  }

  lemma IndexStep(s: State, s': State, t: nat)
    requires Step(s, s', t) && t < |s'.thr| && IndexWord(s'.thr[t]).Some?
    ensures NewIndex(s, s.thr[t], s'.thr[t])
  {
    hide EnqStep, CellStep, ExitStep, NewIndex;
    if s.thr[t].Dequeue? {
      CellStaysDequeue(s, t);
    } else if s.thr[t].Leaving? {
      ExitStaysDequeue(s, t);
    } else if s.thr[t].Enqueue? && AtCell(s.thr[t].ep) {
      EnqCellIndex(s, t);
    } else if Ready(s, t) {
      EnqListIndex(s, t);
    }
  }

  lemma {:induction false} IndexLoaded(run: seq<State>, t: nat, n: nat) returns (l: nat)
    requires IsRun(run) && n < |run| && t < |run[n].thr| && IndexWord(run[n].thr[t]).Some?
    ensures l < n && LoadedAt(run, t, l, run[n].thr[t].ep.lt, run[n].thr[t].ep.k, IndexWord(run[n].thr[t]).value)
    ensures run[n].thr[t].ep.EHead? ==> run[n].thr[t].ep.u
  {
    hide Step;
    assert n > 0;
    ClockCounts(run, n - 1);
    ClockCounts(run, n);
    assert Next(run[n - 1], run[n - 1 + 1]);
    if run[n - 1].thr[t] == run[n].thr[t] {
      l := IndexLoaded(run, t, n - 1);
    } else {
      Accesses.OwnStep(run[n - 1], run[n], t);
      IndexStep(run[n - 1], run[n], t);
      if IndexWord(run[n - 1].thr[t]).Some? {
        l := IndexLoaded(run, t, n - 1);
      } else {
        l := n - 1;
      }
    }
  }

  /** The cell is of no use to ticket `k`, given its index word `w`: it is past the ticket; or marked, and a
      dequeuer may have come and gone; or it is occupied or has changed. */
  ghost predicate Useless(q: Ring, k: nat, w: Word)
    requires |q.cells| > 0
  {
    w.idx > k || (w.closed && q.head >= k) || At(q, k) != Cell(None, w.idx, w.closed)
  }

  ghost predicate GivesUp(s: State, p: Pc, p': Pc)
    requires p'.Enqueue? && p'.ep.EFull?
  {
    && IndexWord(p).Some? && p.ep.lt == p'.ep.lt && p.ep.k == p'.ep.k && Accesses.Exists(s, p.ep.lt)
    && Useless(s.rings[p.ep.lt], p.ep.k, IndexWord(p).value)
  }

  lemma EnqCellGivesUp(s: State, t: nat)
    requires Ready(s, t) && s.thr[t].Enqueue? && AtCell(s.thr[t].ep) && (s.thr[t].ep.EHead? ==> s.thr[t].ep.u)
    ensures var s' := EnqStep(s, t);
      && t < |s'.thr|
      && (s'.thr[t].Enqueue? && s'.thr[t].ep.EFull? ==> GivesUp(s, s.thr[t], s'.thr[t]))
  {
    hide Deposit, Close, At;
  }

  lemma EnqListGivesUp(s: State, t: nat)
    requires Ready(s, t) && s.thr[t].Enqueue? && !AtCell(s.thr[t].ep)
    ensures var s' := EnqStep(s, t); t < |s'.thr| && !(s'.thr[t].Enqueue? && s'.thr[t].ep.EFull?)
  {
    hide DrawTail, Seeded;
  }

  lemma GiveUpStep(s: State, s': State, t: nat)
    requires Step(s, s', t) && t < |s'.thr| && s'.thr[t].Enqueue? && s'.thr[t].ep.EFull? && s.thr[t] != s'.thr[t]
    requires s.thr[t].Enqueue? && s.thr[t].ep.EHead? ==> s.thr[t].ep.u
    ensures GivesUp(s, s.thr[t], s'.thr[t])
  {
    hide EnqStep, CellStep, ExitStep, GivesUp;
    if s.thr[t].Dequeue? {
      CellStaysDequeue(s, t);
    } else if s.thr[t].Leaving? {
      ExitStaysDequeue(s, t);
    } else if s.thr[t].Enqueue? && AtCell(s.thr[t].ep) {
      EnqCellGivesUp(s, t);
    } else if Ready(s, t) {
      EnqListGivesUp(s, t);
    }
  }

  /** At time `m`, after it had loaded the index word at time `l`, the thread found its cell of no use. */
  ghost predicate FoundUseless(run: seq<State>, t: nat, r: nat, k: nat, l: nat, m: nat) {
    && l < m < |run| && Accesses.Exists(run[l], r) && Accesses.Exists(run[m], r)
    && (var c := At(run[l].rings[r], k);
        LoadedAt(run, t, l, r, k, Word(c.unsafe, c.idx)) && Useless(run[m].rings[r], k, Word(c.unsafe, c.idx)))
  }

  /** An enqueuer that has given up its ticket had loaded the index word of its cell, and then found it of no
      use. */
  lemma {:induction false} GivesUpForCause(run: seq<State>, t: nat, n: nat) returns (l: nat, m: nat)
    requires IsRun(run) && n < |run| && t < |run[n].thr| && run[n].thr[t].Enqueue? && run[n].thr[t].ep.EFull?
    ensures m < n && FoundUseless(run, t, run[n].thr[t].ep.lt, run[n].thr[t].ep.k, l, m)
  {
    hide Step;
    assert n > 0;
    ClockCounts(run, n - 1);
    ClockCounts(run, n);
    assert Next(run[n - 1], run[n - 1 + 1]);
    if run[n - 1].thr[t] == run[n].thr[t] {
      l, m := GivesUpForCause(run, t, n - 1);
    } else {
      Accesses.OwnStep(run[n - 1], run[n], t);
      if IndexWord(run[n - 1].thr[t]).Some? {
        l := IndexLoaded(run, t, n - 1);
      }
      GiveUpStep(run[n - 1], run[n], t);
      m := n - 1;
    }
  }
}
