/** `await`: wait until a condition holds.  The condition is code of the caller; each
    evaluation may yield true, yield false, or throw. */
module Await {
  import E = Events

  datatype Verdict = True | False | Throws

  /** How an await ended, for a thread that is outside. */
  datatype Exit = Never | Returned | Threw

  /** Outside; before the first evaluation; before prepareWait; before an evaluation inside the
      try block; inside wait; before cancelWait, on the way to returning or to rethrowing;
      or sending a notification. */
  datatype Client =
    | Outside(last: Exit)
    | Fast
    | Loop
    | Test
    | InWait
    | Undo(thrown: bool)
    | Notifying(last: Exit)

  /** `seen` is history: the verdicts of the evaluations in each thread's present or last await. */
  datatype State = State(ev: E.State, thr: seq<Client>, seen: seq<seq<Verdict>>)

  /** The first evaluation is outside the try block. */
  function FastPath(v: Verdict): Client {
    match v
    case True => Outside(Returned)
    case False => Loop
    case Throws => Outside(Threw)
  }

  /** Thread `t` evaluates the condition, with verdict `v`. */
  function Evaluated(s: State, t: nat, v: Verdict): seq<seq<Verdict>>
    requires t < |s.seen|
  {
    s.seen[t := s.seen[t] + [v]]
  }

  ghost predicate Step(s: State, s': State, t: nat) {
    && t < |s.thr| == |s.ev.pc| == |s.seen|
    && match s.thr[t]
       case Outside(last) =>
         || s' == s.(thr := s.thr[t := Fast], seen := s.seen[t := []])
         || (exists n: nat :: n > 0 && E.MayCall(s.ev.pc[t], E.CallNotify(n))
               && s' == s.(ev := E.DoCall(s.ev, t, E.CallNotify(n)), thr := s.thr[t := Notifying(last)]))
       case Notifying(last) =>
         && E.Inside(s.ev, s'.ev, t) && t < |s'.ev.pc|
         && s' == s.(ev := s'.ev, thr := s.thr[t := if s'.ev.pc[t].Out? then Outside(last) else Notifying(last)])
       case Fast =>
         exists v :: s' == s.(thr := s.thr[t := FastPath(v)], seen := Evaluated(s, t, v))
       case Loop =>
         && E.MayCall(s.ev.pc[t], E.PrepareWait)
         && s' == s.(ev := E.DoCall(s.ev, t, E.PrepareWait), thr := s.thr[t := Test])
       case Test =>
         || s' == s.(thr := s.thr[t := Undo(false)], seen := Evaluated(s, t, True))
         || s' == s.(thr := s.thr[t := Undo(true)], seen := Evaluated(s, t, Throws))
         || (E.MayCall(s.ev.pc[t], E.CallWait)
             && s' == State(E.DoCall(s.ev, t, E.CallWait), s.thr[t := InWait], Evaluated(s, t, False)))
       case InWait =>
         && E.Inside(s.ev, s'.ev, t) && t < |s'.ev.pc|
         && s' == s.(ev := s'.ev, thr := s.thr[t := if s'.ev.pc[t].Out? then Loop else InWait])
       case Undo(thrown) =>
         && E.MayCall(s.ev.pc[t], E.CancelWait)
         && s' == s.(ev := E.DoCall(s.ev, t, E.CancelWait),
                     thr := s.thr[t := Outside(if thrown then Threw else Returned)])
  }

  ghost predicate Init(s: State) {
    && E.Init(s.ev) && |s.ev.pc| == |s.thr| == |s.seen| < E.HALF
    && forall t :: 0 <= t < |s.thr| ==> s.thr[t] == Outside(Never)
  }

  ghost predicate Next(s: State, s': State) {
    exists t :: Step(s, s', t)
  }

  ghost predicate IsRun(run: seq<State>) {
    && |run| > 0 && Init(run[0])
    && (forall n :: 0 <= n < |run| - 1 ==> Next(run[n], run[n + 1]))
  }

  predicate Agree(c: Client, p: E.Pc) {
    match c
    case Outside(_) | Fast | Loop => p.Out?
    case Notifying(_) => p.Bump? || p.Wake?
    case Test | Undo(_) => p.Held?
    case InWait => p.Load? || p.Futex? || p.Asleep? || p.Leave?
  }

  ghost predicate Inv(s: State) {
    && |s.thr| == |s.ev.pc|
    && E.WordOk(s.ev)
    && (forall t :: 0 <= t < |s.thr| ==> Agree(s.thr[t], s.ev.pc[t]))
  }

  lemma StepInv(s: State, s': State, t: nat)
    requires Inv(s) && Step(s, s', t)
    ensures Inv(s')
  {
    hide E.WordOk;
    assert Agree(s.thr[t], s.ev.pc[t]);
    match s.thr[t] {
      case Outside(_) =>
        if s'.thr[t].Notifying? {
          E.CallKeepsWord(s.ev, t, E.CallNotify(s'.ev.pc[t].n));
        }
      case Loop => E.CallKeepsWord(s.ev, t, E.PrepareWait);
      case Test =>
        if s'.thr[t].InWait? {
          E.CallKeepsWord(s.ev, t, E.CallWait);
        }
      case Undo(_) => E.CallKeepsWord(s.ev, t, E.CancelWait);
      case Fast =>
      case _ => E.InsideKeepsWord(s.ev, s'.ev, t);
    }
  }

  /** The threads inside await that are registered as waiters. */
  predicate Registered(c: Client) {
    c.Test? || c.InWait? || c.Undo?
  }

  lemma {:induction false} RunInv(run: seq<State>)
    requires IsRun(run)
    ensures Inv(run[|run| - 1])
  {
    if |run| == 1 {
      E.InitWord(run[0].ev);
    } else {
      hide Step;
      RunInv(run[..|run| - 1]);
      assert Next(run[|run| - 2], run[|run| - 2 + 1]);
      var t :| Step(run[|run| - 2], run[|run| - 1], t);
      StepInv(run[|run| - 2], run[|run| - 1], t);
    }
  }

  /** However an await ends, by returning or by rethrowing, its thread is registered exactly from
      prepareWait to its one matching cancelWait or end of wait. */
  lemma AwaitBalanced(run: seq<State>)
    requires IsRun(run)
    ensures var s := run[|run| - 1];
      && |s.thr| == |s.ev.pc|
      && E.Waiters32(s.ev.word) == E.Waiters(s.ev.pc)
      && E.Epoch32(s.ev.word) == s.ev.epoch % E.HALF
      && (forall t :: 0 <= t < |s.thr| ==> (E.IsWaiter(s.ev.pc[t]) <==> Registered(s.thr[t])))
  {
    RunInv(run);
    hide IsRun;
    var s := run[|run| - 1];
    E.WaitersBound(s.ev.pc);
    E.PackedHalves(s.ev.epoch, E.Waiters(s.ev.pc));
    forall t | 0 <= t < |s.thr| ensures E.IsWaiter(s.ev.pc[t]) <==> Registered(s.thr[t]) {
      assert Agree(s.thr[t], s.ev.pc[t]);
    }
  }

  // ----- what an await has seen

  /** The verdicts `vs` are all False but the last, which is `v`. */
  predicate EndsWith(vs: seq<Verdict>, v: Verdict) {
    && vs != [] && vs[|vs| - 1] == v
    && (forall i :: 0 <= i < |vs| - 1 ==> vs[i] == False)
  }

  predicate ExitJustified(last: Exit, vs: seq<Verdict>) {
    match last
    case Never => true
    case Returned => EndsWith(vs, True)
    case Threw => EndsWith(vs, Throws)
  }

  /** Where a thread is, by what its evaluations have yielded. */
  predicate Justified(c: Client, vs: seq<Verdict>) {
    match c
    case Outside(last) => ExitJustified(last, vs)
    case Notifying(last) => ExitJustified(last, vs)
    case Fast => vs == []
    case Undo(thrown) => EndsWith(vs, if thrown then Throws else True)
    case Loop | Test | InWait => EndsWith(vs, False)
  }

  lemma StepJustified(s: State, s': State, a: nat, t: nat)
    requires Step(s, s', a) && t < |s.thr| && Justified(s.thr[t], s.seen[t])
    ensures t < |s'.thr| == |s'.seen| && Justified(s'.thr[t], s'.seen[t])
  {}

  /** An await returns only when its last evaluation yielded true and all earlier ones false, and rethrows
      only when its last evaluation threw; it waits only when all evaluations so far yielded false. */
  lemma {:induction false} AwaitJustified(run: seq<State>, t: nat, n: nat)
    requires IsRun(run) && n < |run| && t < |run[0].thr|
    ensures t < |run[n].thr| == |run[n].seen|
    ensures Justified(run[n].thr[t], run[n].seen[t])
  {
    if n > 0 {
      hide Step, Justified;
      AwaitJustified(run, t, n - 1);
      assert Next(run[n - 1], run[n - 1 + 1]);
      var a :| Step(run[n - 1], run[n], a);
      StepJustified(run[n - 1], run[n], a, t);
    }
  }
}
