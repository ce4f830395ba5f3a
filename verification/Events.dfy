/** The event count: one 64-bit word that packs an epoch and a number of waiters, and a
    futex on the epoch half.

    Any number of threads announce that they may wait, then cancel or wait, and notify.
    A transition is one access to the word or one action of the futex. */
module Events {

  const HALF: nat := 0x1_0000_0000
  const WHOLE: nat := HALF * HALF

  /** Where a thread is.  `key` is the 32-bit epoch it read in prepareWait; `since`, the
      number of notifications at that time, is history.

      Held: between prepareWait and cancelWait or wait.  Load, Futex, Asleep, Leave: in wait,
      about to load the word, about to enter the futex, asleep in it, about to deregister.
      Bump(n), Wake(n): in a notification of `n` threads, before the increment, and before
      the wake-up of `n` more threads. */
  datatype Pc =
    | Out
    | Held(key: nat, since: nat)
    | Load(key: nat, since: nat)
    | Futex(key: nat, since: nat)
    | Asleep(key: nat, since: nat)
    | Leave(key: nat, since: nat)
    | Bump(n: nat)
    | Wake(n: nat)

  /** `word` is the memory; `epoch`, the number of notifications so far, is history. */
  datatype State = State(word: nat, epoch: nat, pc: seq<Pc>)

  function FetchAdd(w: nat, d: nat): nat {
    (w + d) % WHOLE
  }

  /** Adding kSubWaiter, which is the largest 64-bit number. */
  const SUB_WAITER: nat := WHOLE - 1

  function Epoch32(w: nat): nat {
    w / HALF
  }

  function Waiters32(w: nat): nat {
    w % HALF
  }

  // ----- transitions

  function Goto(s: State, t: nat, p: Pc): State
    requires t < |s.pc|
  {
    s.(pc := s.pc[t := p])
  }

  /** The actions a client starts: prepareWait and cancelWait, and the calls of wait and notify. */
  datatype Call = PrepareWait | CancelWait | CallWait | CallNotify(n: nat)

  predicate MayCall(p: Pc, c: Call) {
    match c
    case PrepareWait => p.Out?
    case CancelWait => p.Held?
    case CallWait => p.Held?
    case CallNotify(n) => p.Out? && n > 0
  }

  function DoCall(s: State, t: nat, c: Call): State
    requires t < |s.pc| && MayCall(s.pc[t], c)
  {
    match c
    case PrepareWait => Goto(s, t, Held(Epoch32(s.word), s.epoch)).(word := FetchAdd(s.word, 1))
    case CancelWait => Goto(s, t, Out).(word := FetchAdd(s.word, SUB_WAITER))
    case CallWait => Goto(s, t, Load(s.pc[t].key, s.pc[t].since))
    case CallNotify(n) => Goto(s, t, Bump(n))
  }

  /** The accesses inside wait and notify.  The futex puts a thread to sleep only if the epoch
      half still equals its key; a sleeper may wake for no reason; waking `n` threads wakes one
      sleeper at a time, and stops when there is none left. */
  ghost predicate Inside(s: State, s': State, t: nat) {
    && t < |s.pc|
    && match s.pc[t]
       case Load(key, since) =>
         s' == Goto(s, t, if Epoch32(s.word) == key then Futex(key, since) else Leave(key, since))
       case Futex(key, since) =>
         s' == Goto(s, t, if Epoch32(s.word) == key then Asleep(key, since) else Load(key, since))
       case Asleep(key, since) => s' == Goto(s, t, Load(key, since))
       case Leave(key, since) => s' == Goto(s, t, Out).(word := FetchAdd(s.word, SUB_WAITER))
       case Bump(n) =>
         s' == Goto(s, t, if Waiters32(s.word) != 0 then Wake(n) else Out)
               .(word := FetchAdd(s.word, HALF), epoch := s.epoch + 1)
       case Wake(n) =>
         if SomeAsleep(s) then exists u: nat :: Wakes(s, s', t, u)
         else s' == Goto(s, t, Out)
       case _ => false
  }

  ghost predicate SomeAsleep(s: State) {
    exists u :: 0 <= u < |s.pc| && s.pc[u].Asleep?
  }

  ghost predicate Wakes(s: State, s': State, t: nat, u: nat) {
    && t < |s.pc| && u < |s.pc| && s.pc[t].Wake? && s.pc[u].Asleep?
    && s' == Goto(Goto(s, u, Load(s.pc[u].key, s.pc[u].since)), t,
                  if s.pc[t].n <= 1 then Out else Wake(s.pc[t].n - 1))
  }

  ghost predicate Step(s: State, s': State, t: nat) {
    && t < |s.pc|
    && (Inside(s, s', t) || exists c :: MayCall(s.pc[t], c) && s' == DoCall(s, t, c))
  }

  ghost predicate Init(s: State) {
    s.word == 0 && s.epoch == 0 && forall t :: 0 <= t < |s.pc| ==> s.pc[t] == Out
  }

  // ----- counting threads

  predicate IsWaiter(p: Pc) {
    p.Held? || p.Load? || p.Futex? || p.Asleep? || p.Leave?
  }

  /** The number of threads between prepareWait and their cancelWait or the end of wait. */
  function Waiters(pc: seq<Pc>): nat {
    if pc == [] then 0 else (if IsWaiter(pc[0]) then 1 else 0) + Waiters(pc[1..])
  }

  lemma {:induction false} WaitersUpdate(pc: seq<Pc>, t: nat, p: Pc)
    requires t < |pc|
    ensures Waiters(pc[t := p]) + (if IsWaiter(pc[t]) then 1 else 0)
         == Waiters(pc) + (if IsWaiter(p) then 1 else 0)
  {
    if t == 0 {
      assert pc[t := p][1..] == pc[1..];
    } else {
      assert pc[t := p][1..] == pc[1..][t - 1 := p];
      WaitersUpdate(pc[1..], t - 1, p);
    }
  }

  lemma {:induction false} WaitersBound(pc: seq<Pc>)
    ensures Waiters(pc) <= |pc|
  {
    if pc != [] {
      WaitersBound(pc[1..]);
    }
  }

  lemma {:induction false} WaiterCounts(pc: seq<Pc>, t: nat)
    requires t < |pc| && IsWaiter(pc[t])
    ensures Waiters(pc) > 0
  {
    if t > 0 {
      WaiterCounts(pc[1..], t - 1);
    }
  }

  lemma {:induction false} NoWaiters(pc: seq<Pc>)
    requires forall t :: 0 <= t < |pc| ==> !IsWaiter(pc[t])
    ensures Waiters(pc) == 0
  {
    if pc != [] {
      NoWaiters(pc[1..]);
    }
  }

  // ----- the packed word

  /** The 64-bit word with epoch `e` (modulo 2^32) and `w` waiters. */
  function Pack(e: nat, w: nat): nat {
    (e % HALF) * HALF + w
  }

  lemma PackedHalves(e: nat, w: nat)
    requires w < HALF
    ensures Epoch32(Pack(e, w)) == e % HALF && Waiters32(Pack(e, w)) == w && Pack(e, w) < WHOLE
  {}

  lemma AddWaiter(e: nat, w: nat)
    requires w + 1 < HALF
    ensures FetchAdd(Pack(e, w), 1) == Pack(e, w + 1)
  {
    PackedHalves(e, w + 1);
  }

  /** Subtracting a waiter by adding 2^64 - 1 does not borrow from the epoch. */
  lemma SubWaiter(e: nat, w: nat)
    requires 0 < w < HALF
    ensures FetchAdd(Pack(e, w), SUB_WAITER) == Pack(e, w - 1)
  {
    PackedHalves(e, w);
    assert Pack(e, w) + SUB_WAITER == Pack(e, w - 1) + WHOLE;
  }

  lemma AddEpoch(e: nat, w: nat)
    requires w < HALF
    ensures FetchAdd(Pack(e, w), HALF) == Pack(e + 1, w)
  {
    PackedHalves(e, w);
    PackedHalves(e + 1, w);
    if e % HALF == HALF - 1 {
      assert (e + 1) % HALF == 0;
      assert Pack(e, w) + HALF == Pack(e + 1, w) + WHOLE;
    } else {
      assert (e + 1) % HALF == e % HALF + 1;
      assert Pack(e, w) + HALF == Pack(e + 1, w);
    }
  }

  /** The word packs the notifications so far and the exact number of waiting threads; every
      outstanding key is the epoch its thread saw; and a thread leaves wait only after a notification. */
  ghost predicate WordOk(s: State) {
    && |s.pc| < HALF
    && s.word == Pack(s.epoch, Waiters(s.pc))
    && (forall t :: 0 <= t < |s.pc| && IsWaiter(s.pc[t]) ==>
          s.pc[t].since <= s.epoch && s.pc[t].key == s.pc[t].since % HALF)
    && (forall t :: 0 <= t < |s.pc| && s.pc[t].Leave? ==> s.pc[t].since < s.epoch)
  }

  lemma CallKeepsWord(s: State, t: nat, c: Call)
    requires WordOk(s) && t < |s.pc| && MayCall(s.pc[t], c)
    ensures WordOk(DoCall(s, t, c))
  {
    var s' := DoCall(s, t, c);
    WaitersUpdate(s.pc, t, s'.pc[t]);
    WaitersBound(s.pc);
    WaitersBound(s'.pc);
    PackedHalves(s.epoch, Waiters(s.pc));
    match c
    case PrepareWait => AddWaiter(s.epoch, Waiters(s.pc));
    case CancelWait =>
      WaiterCounts(s.pc, t);
      SubWaiter(s.epoch, Waiters(s.pc));
    case CallWait =>
    case CallNotify(_) =>
  }

  lemma WakeKeepsWord(s: State, s': State, t: nat, u: nat)
    requires WordOk(s) && Wakes(s, s', t, u)
    ensures WordOk(s') && |s'.pc| == |s.pc|
  {
    var load := Load(s.pc[u].key, s.pc[u].since);
    WaitersUpdate(s.pc, u, load);
    WaitersUpdate(s.pc[u := load], t, s'.pc[t]);
  }

  lemma InsideKeepsWord(s: State, s': State, t: nat)
    requires WordOk(s) && Inside(s, s', t)
    ensures WordOk(s') && |s'.pc| == |s.pc|
  {
    if s.pc[t].Wake? && SomeAsleep(s) {
      var u: nat :| Wakes(s, s', t, u);
      WakeKeepsWord(s, s', t, u);
    } else {
      WaitersBound(s.pc);
      PackedHalves(s.epoch, Waiters(s.pc));
      WaitersUpdate(s.pc, t, s'.pc[t]);
      if s.pc[t].Leave? {
        WaiterCounts(s.pc, t);
        SubWaiter(s.epoch, Waiters(s.pc));
      } else if s.pc[t].Bump? {
        AddEpoch(s.epoch, Waiters(s.pc));
      }
    }
  }

  lemma StepKeepsWord(s: State, s': State, t: nat)
    requires WordOk(s) && Step(s, s', t)
    ensures WordOk(s') && |s'.pc| == |s.pc|
  {
    if Inside(s, s', t) {
      InsideKeepsWord(s, s', t);
    } else {
      var c :| MayCall(s.pc[t], c) && s' == DoCall(s, t, c);
      CallKeepsWord(s, t, c);
    }
  }

  ghost predicate IsRun(run: seq<State>) {
    && |run| > 0 && Init(run[0]) && |run[0].pc| < HALF
    && (forall n :: 0 <= n < |run| - 1 ==> Next(run[n], run[n + 1]))
  }

  ghost predicate Next(s: State, s': State) {
    exists t :: Step(s, s', t)
  }

  lemma InitWord(s: State)
    requires Init(s) && |s.pc| < HALF
    ensures WordOk(s)
  {
    NoWaiters(s.pc);
  }

  /** In every run, for every interleaving, the low half of the word is the number of threads
      between prepareWait and cancelWait or the end of wait, and the high half is the number of
      notifications modulo 2^32. */
  lemma {:induction false} WordRefinesPair(run: seq<State>)
    requires IsRun(run)
    ensures WordOk(run[|run| - 1])
    ensures Waiters32(run[|run| - 1].word) == Waiters(run[|run| - 1].pc)
    ensures Epoch32(run[|run| - 1].word) == run[|run| - 1].epoch % HALF
  {
    if |run| == 1 {
      InitWord(run[0]);
    } else {
      WordRefinesPair(run[..|run| - 1]);
      assert Next(run[|run| - 2], run[|run| - 2 + 1]);
      var t :| Step(run[|run| - 2], run[|run| - 1], t);
      StepKeepsWord(run[|run| - 2], run[|run| - 1], t);
    }
    var s := run[|run| - 1];
    WaitersBound(s.pc);
    PackedHalves(s.epoch, Waiters(s.pc));
  }

  // ----- what a wait and a notification achieve

  lemma {:induction false} RunSize(run: seq<State>, n: nat)
    requires IsRun(run) && n < |run|
    ensures |run[n].pc| == |run[0].pc| && WordOk(run[n])
  {
    if n == 0 {
      InitWord(run[0]);
    } else {
      RunSize(run, n - 1);
      assert Next(run[n - 1], run[n - 1 + 1]);
      var t :| Step(run[n - 1], run[n], t);
      StepKeepsWord(run[n - 1], run[n], t);
    }
  }

  /** A step changes the program counter of its own thread, and that of a sleeper it wakes. */
  lemma StepPc(s: State, s': State, a: nat, t: nat)
    requires Step(s, s', a) && t < |s.pc| && |s'.pc| == |s.pc|
    ensures a != t ==> s'.pc[t] == s.pc[t] || (s.pc[t].Asleep? && s'.pc[t] == Load(s.pc[t].key, s.pc[t].since))
  {}

  /** Thread `t` registered in transition `b`, when there had been `since` notifications, and has been
      registered from then until time `n`. */
  ghost predicate RegisteredAt(run: seq<State>, t: nat, b: nat, n: nat) {
    && b < n < |run| && t < |run[b].pc| && t < |run[n].pc| && run[b].pc[t].Out? && IsWaiter(run[n].pc[t])
    && run[b].epoch == run[n].pc[t].since && Epoch32(run[b].word) == run[n].pc[t].key
    && (forall m :: b < m <= n ==> t < |run[m].pc| && IsWaiter(run[m].pc[t]))
  }

  lemma WaiterStep(s: State, s': State, a: nat, t: nat)
    requires Step(s, s', a) && t < |s.pc| == |s'.pc| && IsWaiter(s'.pc[t])
    ensures if IsWaiter(s.pc[t]) then s'.pc[t].since == s.pc[t].since && s'.pc[t].key == s.pc[t].key
            else s.pc[t].Out? && s'.pc[t] == Held(Epoch32(s.word), s.epoch)
  {
    StepPc(s, s', a, t);
  }

  /** The key of a registered thread is the epoch at its prepareWait. */
  lemma {:induction false} KeySince(run: seq<State>, t: nat, n: nat) returns (b: nat)
    requires IsRun(run) && n < |run| && t < |run[n].pc| && IsWaiter(run[n].pc[t])
    ensures RegisteredAt(run, t, b, n)
  {
    hide Step;
    assert n > 0;
    RunSize(run, n);
    RunSize(run, n - 1);
    assert Next(run[n - 1], run[n - 1 + 1]);
    var a :| Step(run[n - 1], run[n], a);
    WaiterStep(run[n - 1], run[n], a, t);
    if IsWaiter(run[n - 1].pc[t]) {
      b := KeySince(run, t, n - 1);
    } else {
      b := n - 1;
    }
  }

  lemma LeaveStep(s: State, s': State, a: nat, t: nat)
    requires Step(s, s', a) && t < |s.pc| == |s'.pc| && s'.pc[t].Leave?
    ensures s.pc[t] == s'.pc[t] || (s.pc[t] == Load(s'.pc[t].key, s'.pc[t].since) && Epoch32(s.word) != s'.pc[t].key)
  {
    StepPc(s, s', a, t);
  }

  /** Thread `t` has been registered from time `m` to time `n`. */
  ghost predicate StaysWaiter(run: seq<State>, t: nat, m: nat, n: nat) {
    n < |run| && forall j :: m <= j <= n ==> t < |run[j].pc| && IsWaiter(run[j].pc[t])
  }

  /** It left the loop of wait after a load that showed another epoch than its key. */
  lemma {:induction false} LeftLoop(run: seq<State>, t: nat, n: nat) returns (m: nat)
    requires IsRun(run) && n < |run| && t < |run[n].pc| && run[n].pc[t].Leave?
    ensures m < n && t < |run[m].pc| && run[m].pc[t] == Load(run[n].pc[t].key, run[n].pc[t].since)
    ensures Epoch32(run[m].word) != run[n].pc[t].key && StaysWaiter(run, t, m, n)
  {
    hide Step;
    assert n > 0;
    RunSize(run, n);
    RunSize(run, n - 1);
    assert Next(run[n - 1], run[n - 1 + 1]);
    var a :| Step(run[n - 1], run[n], a);
    LeaveStep(run[n - 1], run[n], a, t);
    if run[n - 1].pc[t] == run[n].pc[t] {
      m := LeftLoop(run, t, n - 1);
    } else {
      m := n - 1;
    }
  }

  /** A wait returns only after a notification: since its thread registered, the epoch has been raised,
      and the thread has loaded a word that shows it. */
  lemma WaitReturns(run: seq<State>, t: nat, n: nat)
    requires IsRun(run) && n < |run| && t < |run[n].pc| && run[n].pc[t].Leave?
    ensures exists b: nat, m: nat ::
      && RegisteredAt(run, t, b, n) && run[b].epoch < run[n].epoch
      && b < m < n && Epoch32(run[m].word) != Epoch32(run[b].word)
  {
    RunSize(run, n);
    var b := KeySince(run, t, n);
    var m := LeftLoop(run, t, n);
    hide IsRun;
    assert !IsWaiter(run[b].pc[t]);
  }

  /** How many accesses a thread in wait has left once its epoch has passed. */
  function Rank(p: Pc): nat {
    match p
    case Asleep(_, _) => 4
    case Futex(_, _) => 3
    case Load(_, _) => 2
    case Leave(_, _) => 1
    case _ => 0
  }

  /** A wait whose epoch has passed returns after at most four accesses of its own, whatever the other
      threads do meanwhile: it has an access to make, each of them brings it nearer to its end, and no
      transition of another thread takes it away from there. */
  lemma NotifiedReturns(s: State, s': State, a: nat, t: nat)
    requires WordOk(s) && t < |s.pc| && Rank(s.pc[t]) > 0
    requires s.pc[t].since < s.epoch < s.pc[t].since + HALF
    ensures exists next :: Inside(s, next, t)
    ensures Step(s, s', a) ==> t < |s'.pc| && Rank(s'.pc[t]) <= Rank(s.pc[t])
    ensures Step(s, s', t) ==> Rank(s'.pc[t]) < Rank(s.pc[t])
  {
    WaitersBound(s.pc);
    PackedHalves(s.epoch, Waiters(s.pc));
    OtherResidue(s.pc[t].since, s.epoch);
    var key, since := s.pc[t].key, s.pc[t].since;
    var next :=
      if s.pc[t].Load? then Goto(s, t, Leave(key, since))
      else if s.pc[t].Leave? then Goto(s, t, Out).(word := FetchAdd(s.word, SUB_WAITER))
      else Goto(s, t, Load(key, since));
    assert Inside(s, next, t);
  }

  lemma OtherResidue(a: nat, b: nat)
    requires a < b < a + HALF
    ensures a % HALF != b % HALF
  {}

  /** Thread `t` woke a sleeper in this transition. */
  ghost predicate WokeOne(s: State, s': State, t: nat) {
    exists u: nat :: Wakes(s, s', t, u)
  }

  /** How many sleepers thread `t` woke between times `b` and `n`. */
  ghost function Woken(run: seq<State>, t: nat, b: nat, n: nat): nat
    requires n < |run|
  {
    if n <= b then 0
    else Woken(run, t, b, n - 1) + if WokeOne(run[n - 1], run[n], t) then 1 else 0
  }

  /** At time `b` thread `t` raised the epoch for a notification of `k` threads, which it is still
      sending at time `n`, with `left` threads to wake. */
  ghost predicate Sending(run: seq<State>, t: nat, b: nat, n: nat, k: nat, left: nat) {
    && b < n < |run| && t < |run[b].pc| && run[b].pc[t] == Bump(k)
    && t < |run[n].pc| && run[n].pc[t] == Wake(left)
    && k == Woken(run, t, b, n) + left
  }

  /** A notification under way has somebody left to wake. */
  predicate HasTarget(p: Pc) {
    p.Bump? || p.Wake? ==> p.n > 0
  }

  lemma TargetStep(s: State, s': State, a: nat, t: nat)
    requires Step(s, s', a) && t < |s.pc| == |s'.pc| && HasTarget(s.pc[t])
    ensures HasTarget(s'.pc[t])
  {
    StepPc(s, s', a, t);
  }

  lemma {:induction false} Targets(run: seq<State>, t: nat, n: nat)
    requires IsRun(run) && n < |run| && t < |run[n].pc|
    ensures HasTarget(run[n].pc[t])
  {
    if n > 0 {
      hide Step;
      RunSize(run, n);
      RunSize(run, n - 1);
      assert Next(run[n - 1], run[n - 1 + 1]);
      var a :| Step(run[n - 1], run[n], a);
      Targets(run, t, n - 1);
      TargetStep(run[n - 1], run[n], a, t);
    }
  }

  lemma WakeStep(s: State, s': State, a: nat, t: nat)
    requires Step(s, s', a) && t < |s.pc| == |s'.pc| && s'.pc[t].Wake?
    ensures
      || (s'.pc[t] == s.pc[t] && !WokeOne(s, s', t))
      || (s.pc[t] == Wake(s'.pc[t].n + 1) && WokeOne(s, s', t))
      || (s.pc[t] == Bump(s'.pc[t].n) && !WokeOne(s, s', t))
  {
    StepPc(s, s', a, t);
  }

  lemma {:induction false} SendingSince(run: seq<State>, t: nat, n: nat) returns (b: nat, k: nat)
    requires IsRun(run) && n < |run| && t < |run[n].pc| && run[n].pc[t].Wake?
    ensures Sending(run, t, b, n, k, run[n].pc[t].n)
  {
    hide Step, WokeOne;
    assert n > 0;
    RunSize(run, n);
    RunSize(run, n - 1);
    assert Next(run[n - 1], run[n - 1 + 1]);
    var a :| Step(run[n - 1], run[n], a);
    WakeStep(run[n - 1], run[n], a, t);
    if run[n - 1].pc[t].Bump? {
      b, k := n - 1, run[n - 1].pc[t].n;
      assert Woken(run, t, b, n - 1) == 0;
    } else {
      b, k := SendingSince(run, t, n - 1);
    }
  }

  lemma SentStep(s: State, s': State, a: nat, t: nat)
    requires WordOk(s) && Step(s, s', a) && t < |s.pc| == |s'.pc| && (s.pc[t].Bump? || s.pc[t].Wake?) && s'.pc[t].Out?
    ensures !SomeAsleep(s) || (s.pc[t].Wake? && s.pc[t].n <= 1 && WokeOne(s, s', t))
  {
    StepPc(s, s', a, t);
    if s.pc[t].Bump? {
      NobodyAsleep(s);
    }
  }

  /** A word that counts no waiters leaves nobody asleep. */
  lemma NobodyAsleep(s: State)
    requires WordOk(s) && Waiters32(s.word) == 0
    ensures forall u :: 0 <= u < |s.pc| ==> !s.pc[u].Asleep?
  {
    WaitersBound(s.pc);
    PackedHalves(s.epoch, Waiters(s.pc));
    forall u | 0 <= u < |s.pc| ensures !s.pc[u].Asleep? {
      if s.pc[u].Asleep? {
        WaiterCounts(s.pc, u);
      }
    }
  }

  /** A notification of `k` threads returns only when nobody is asleep or when it has woken `k` sleepers
      since it raised the epoch. */
  lemma NotifyReturns(run: seq<State>, t: nat, n: nat)
    requires IsRun(run) && n + 1 < |run| && t < |run[n].pc| && t < |run[n + 1].pc|
    requires (run[n].pc[t].Bump? || run[n].pc[t].Wake?) && run[n + 1].pc[t].Out?
    ensures !SomeAsleep(run[n]) || exists b: nat, k: nat ::
      b < n && t < |run[b].pc| && run[b].pc[t] == Bump(k) && Woken(run, t, b, n + 1) == k
  {
    hide Step, WordOk, SomeAsleep;
    RunSize(run, n);
    RunSize(run, n + 1);
    assert Next(run[n], run[n + 1]);
    var a :| Step(run[n], run[n + 1], a);
    SentStep(run[n], run[n + 1], a, t);
    if SomeAsleep(run[n]) {
      var b, k := SendingSince(run, t, n);
      Targets(run, t, n);
    }
  }
}
