/** The blocking queue: producers notify one waiter after each enqueue; a consumer that finds
    the queue empty announces itself, looks again, and only then sleeps.  Enqueue and dequeue
    of the underlying queue are atomic here. */
module Blocking {
  import E = Events
  import R = Rings

  const MAX_PATIENCE: nat := 1000

  /** What the last operation of an idle thread returned. */
  datatype Exit = Fresh | Enqueued | Dequeued(res: R.Option<R.Item>)

  /** Where a client thread is: between operations; in enqueue, before the item is in the queue,
      and notifying after that; or in dequeue, before the first look, before prepareWait, before
      the second look, inside wait, before cancelWait. */
  datatype Client =
    | Idle(last: Exit)
    | Putting(item: R.Item)
    | Notifying
    | First
    | Top(patience: nat)
    | Recheck(patience: nat)
    | Waiting(patience: nat)
    | Cancel(res: R.Option<R.Item>)

  datatype State = State(ev: E.State, items: seq<R.Item>, thr: seq<Client>)

  // ----- transitions

  ghost predicate Step(s: State, s': State, t: nat) {
    && t < |s.thr| == |s.ev.pc|
    && match s.thr[t]
       case Idle(_) =>
         || (exists item :: s' == s.(thr := s.thr[t := Putting(item)]))
         || s' == s.(thr := s.thr[t := First])
       case Putting(item) =>
         && E.MayCall(s.ev.pc[t], E.CallNotify(1))
         && s' == State(E.DoCall(s.ev, t, E.CallNotify(1)), s.items + [item], s.thr[t := Notifying])
       case Notifying =>
         && E.Inside(s.ev, s'.ev, t) && t < |s'.ev.pc|
         && s' == s.(ev := s'.ev, thr := s.thr[t := if s'.ev.pc[t].Out? then Idle(Enqueued) else Notifying])
       case First =>
         if s.items != [] then
           s' == s.(items := s.items[1..], thr := s.thr[t := Idle(Dequeued(R.Some(s.items[0])))])
         else s' == s.(thr := s.thr[t := Top(0)])
       case Top(p) =>
         && E.MayCall(s.ev.pc[t], E.PrepareWait)
         && s' == s.(ev := E.DoCall(s.ev, t, E.PrepareWait), thr := s.thr[t := Recheck(p)])
       case Recheck(p) =>
         if s.items != [] then
           s' == s.(items := s.items[1..], thr := s.thr[t := Cancel(R.Some(s.items[0]))])
         else if p < MAX_PATIENCE then
           && E.MayCall(s.ev.pc[t], E.CallWait)
           && s' == s.(ev := E.DoCall(s.ev, t, E.CallWait), thr := s.thr[t := Waiting(p + 1)])
         else
           s' == s.(thr := s.thr[t := Cancel(R.None)])
       case Waiting(p) =>
         && E.Inside(s.ev, s'.ev, t) && t < |s'.ev.pc|
         && s' == s.(ev := s'.ev, thr := s.thr[t := if s'.ev.pc[t].Out? then Top(p) else Waiting(p)])
       case Cancel(res) =>
         && E.MayCall(s.ev.pc[t], E.CancelWait)
         && s' == s.(ev := E.DoCall(s.ev, t, E.CancelWait), thr := s.thr[t := Idle(Dequeued(res))])
  }

  ghost predicate Init(s: State) {
    && E.Init(s.ev) && |s.ev.pc| == |s.thr| < E.HALF
    && s.items == []
    && forall t :: 0 <= t < |s.thr| ==> s.thr[t] == Idle(Fresh)
  }

  /** No thread holds its key over 2^32 or more notifications. */
  ghost predicate NoWrap(s: State) {
    forall t :: 0 <= t < |s.ev.pc| && E.IsWaiter(s.ev.pc[t]) ==> s.ev.epoch - s.ev.pc[t].since < E.HALF
  }

  ghost predicate Next(s: State, s': State) {
    exists t :: Step(s, s', t)
  }

  ghost predicate IsRun(run: seq<State>) {
    && |run| > 0 && Init(run[0])
    && (forall n :: 0 <= n < |run| ==> NoWrap(run[n]))
    && (forall n :: 0 <= n < |run| - 1 ==> Next(run[n], run[n + 1]))
  }

  // ----- counting threads by what they are about to do

  /** Bumping: has enqueued, has not yet raised the epoch.  Waking: has raised it, has not yet
      woken anybody.  Checking: awake, and will look at the queue again before it sleeps. */
  datatype Role = Bumping | Waking | Checking

  predicate Plays(r: Role, c: Client, p: E.Pc, epoch: nat) {
    match r
    case Bumping => p.Bump?
    case Waking => p.Wake?
    case Checking =>
      || c.First? || c.Top? || c.Recheck?
      || (c.Waiting? && (p.Leave? || ((p.Load? || p.Futex?) && p.since != epoch)))
  }

  function One(b: bool): nat {
    if b then 1 else 0
  }

  function Count(r: Role, cs: seq<Client>, ps: seq<E.Pc>, epoch: nat): nat
    requires |cs| == |ps|
  {
    if cs == [] then 0
    else One(Plays(r, cs[0], ps[0], epoch)) + Count(r, cs[1..], ps[1..], epoch)
  }

  lemma {:induction false} CountUpdate(r: Role, cs: seq<Client>, ps: seq<E.Pc>, epoch: nat, t: nat, c: Client, p: E.Pc)
    requires t < |cs| == |ps|
    ensures Count(r, cs[t := c], ps[t := p], epoch) + One(Plays(r, cs[t], ps[t], epoch))
         == Count(r, cs, ps, epoch) + One(Plays(r, c, p, epoch))
  {
    if t == 0 {
      assert cs[t := c][1..] == cs[1..] && ps[t := p][1..] == ps[1..];
    } else {
      assert cs[t := c][1..] == cs[1..][t - 1 := c] && ps[t := p][1..] == ps[1..][t - 1 := p];
      CountUpdate(r, cs[1..], ps[1..], epoch, t - 1, c, p);
    }
  }

  /** A new epoch sends nobody back to sleep. */
  lemma {:induction false} CountNewEpoch(r: Role, cs: seq<Client>, ps: seq<E.Pc>, epoch: nat)
    requires |cs| == |ps|
    requires forall t :: 0 <= t < |ps| && E.IsWaiter(ps[t]) ==> ps[t].since <= epoch
    ensures Count(r, cs, ps, epoch) <= Count(r, cs, ps, epoch + 1)
    ensures r != Checking ==> Count(r, cs, ps, epoch) == Count(r, cs, ps, epoch + 1)
  {
    if cs != [] {
      CountNewEpoch(r, cs[1..], ps[1..], epoch);
    }
  }

  function CountIn(s: State, r: Role): nat
    requires |s.thr| == |s.ev.pc|
  {
    Count(r, s.thr, s.ev.pc, s.ev.epoch)
  }

  // ----- the invariant

  /** A client and its event count agree on where it is. */
  predicate Agree(c: Client, p: E.Pc) {
    match c
    case Idle(_) | Putting(_) | First | Top(_) => p.Out?
    case Notifying => p == E.Bump(1) || p == E.Wake(1)
    case Recheck(_) | Cancel(_) => p.Held?
    case Waiting(_) => p.Load? || p.Futex? || p.Asleep? || p.Leave?
  }

  ghost predicate Shape(s: State) {
    && |s.thr| == |s.ev.pc|
    && E.WordOk(s.ev)
    && (forall t :: 0 <= t < |s.thr| ==> Agree(s.thr[t], s.ev.pc[t]))
  }

  /** A thread that will sleep, or sleeps, under the current epoch. */
  predicate Current(p: E.Pc, epoch: nat) {
    (p.Load? || p.Futex? || p.Asleep?) && p.since == epoch
  }

  /** If a thread settles down under the current epoch, every queued item has a producer that has
      not raised the epoch yet. */
  ghost predicate SettledOk(s: State)
    requires |s.thr| == |s.ev.pc|
  {
    (exists t :: 0 <= t < |s.ev.pc| && Current(s.ev.pc[t], s.ev.epoch)) ==> |s.items| <= CountIn(s, Bumping)
  }

  /** If a thread sleeps, every queued item has an awake consumer or an unfinished notification. */
  ghost predicate SleepersOk(s: State)
    requires |s.thr| == |s.ev.pc|
  {
    E.SomeAsleep(s.ev) ==> |s.items| <= CountIn(s, Checking) + CountIn(s, Bumping) + CountIn(s, Waking)
  }

  ghost predicate Inv(s: State) {
    Shape(s) && SettledOk(s) && SleepersOk(s)
  }

  // ----- steps

  /** The number of threads in role `r` changes as the role of thread `t` does. */
  ghost predicate Moves(s: State, s': State, t: nat, r: Role)
    requires t < |s.thr| == |s.ev.pc| && t < |s'.thr| == |s'.ev.pc|
  {
    CountIn(s', r) + One(Plays(r, s.thr[t], s.ev.pc[t], s.ev.epoch))
    == CountIn(s, r) + One(Plays(r, s'.thr[t], s'.ev.pc[t], s'.ev.epoch))
  }

  lemma Move(s: State, s': State, t: nat)
    requires t < |s.thr| == |s.ev.pc| && |s'.thr| == |s.thr| && |s'.ev.pc| == |s.ev.pc|
    requires s'.thr == s.thr[t := s'.thr[t]] && s'.ev.pc == s.ev.pc[t := s'.ev.pc[t]] && s'.ev.epoch == s.ev.epoch
    ensures Moves(s, s', t, Bumping) && Moves(s, s', t, Waking) && Moves(s, s', t, Checking)
  {
    CountUpdate(Bumping, s.thr, s.ev.pc, s.ev.epoch, t, s'.thr[t], s'.ev.pc[t]);
    CountUpdate(Waking, s.thr, s.ev.pc, s.ev.epoch, t, s'.thr[t], s'.ev.pc[t]);
    CountUpdate(Checking, s.thr, s.ev.pc, s.ev.epoch, t, s'.thr[t], s'.ev.pc[t]);
  }

  lemma KeyIsCurrent(s: State, t: nat)
    requires Shape(s) && NoWrap(s) && t < |s.ev.pc| && E.IsWaiter(s.ev.pc[t])
    ensures E.Epoch32(s.ev.word) == s.ev.pc[t].key <==> s.ev.pc[t].since == s.ev.epoch
  {
    E.WaitersBound(s.ev.pc);
    E.PackedHalves(s.ev.epoch, E.Waiters(s.ev.pc));
    SameResidue(s.ev.pc[t].since, s.ev.epoch);
  }

  lemma SameResidue(a: nat, b: nat)
    requires a <= b < a + E.HALF
    ensures a % E.HALF == b % E.HALF <==> a == b
  {}

  /** The start of an operation, and the enqueue. */
  lemma StartStepInv(s: State, s': State, t: nat)
    requires Inv(s) && Step(s, s', t) && (s.thr[t].Idle? || s.thr[t].Putting?)
    ensures Inv(s')
  {
    assert Agree(s.thr[t], s.ev.pc[t]);
    if s.thr[t].Putting? {
      E.CallKeepsWord(s.ev, t, E.CallNotify(1));
    }
    Move(s, s', t);
  }

  /** The first and the second look. */
  lemma LookStepInv(s: State, s': State, t: nat)
    requires Inv(s) && Step(s, s', t) && (s.thr[t].First? || s.thr[t].Recheck?)
    ensures Inv(s')
  {
    assert Agree(s.thr[t], s.ev.pc[t]);
    if s.thr[t].Recheck? && s.items == [] && s.thr[t].patience < MAX_PATIENCE {
      E.CallKeepsWord(s.ev, t, E.CallWait);
    }
    Move(s, s', t);
  }

  /** prepareWait and cancelWait. */
  lemma RegisterStepInv(s: State, s': State, t: nat)
    requires Inv(s) && Step(s, s', t) && (s.thr[t].Top? || s.thr[t].Cancel?)
    ensures Inv(s')
  {
    assert Agree(s.thr[t], s.ev.pc[t]);
    E.CallKeepsWord(s.ev, t, if s.thr[t].Top? then E.PrepareWait else E.CancelWait);
    Move(s, s', t);
  }

  /** Inside wait, or a notification that finds nobody asleep. */
  lemma QuietStepInv(s: State, s': State, t: nat)
    requires Inv(s) && NoWrap(s) && Step(s, s', t)
    requires s.thr[t].Waiting? || (s.thr[t].Notifying? && s.ev.pc[t].Wake? && !E.SomeAsleep(s.ev))
    ensures Inv(s')
  {
    assert Agree(s.thr[t], s.ev.pc[t]);
    E.InsideKeepsWord(s.ev, s'.ev, t);
    if s.thr[t].Waiting? {
      KeyIsCurrent(s, t);
    }
    Move(s, s', t);
  }

  /** Raising the epoch: with no waiter registered nobody can be asleep. */
  lemma BumpStepInv(s: State, s': State, t: nat)
    requires Inv(s) && Step(s, s', t) && s.thr[t].Notifying? && s.ev.pc[t].Bump?
    ensures Inv(s')
  {
    assert Agree(s.thr[t], s.ev.pc[t]);
    E.InsideKeepsWord(s.ev, s'.ev, t);
    hide E.WordOk;
    CountNewEpoch(Bumping, s.thr, s.ev.pc, s.ev.epoch);
    CountNewEpoch(Waking, s.thr, s.ev.pc, s.ev.epoch);
    CountNewEpoch(Checking, s.thr, s.ev.pc, s.ev.epoch);
    Move(s.(ev := s.ev.(epoch := s'.ev.epoch)), s', t);
    if E.Waiters32(s.ev.word) == 0 {
      E.NobodyAsleep(s.ev);
    }
  }

  /** Waking a sleeper takes this notification off the count and, unless the sleeper fell asleep under
      the current epoch, puts the sleeper on it. */
  lemma WakeCounts(s: State, s': State, t: nat, u: nat)
    requires Shape(s) && Shape(s') && E.Wakes(s.ev, s'.ev, t, u)
    requires s.thr[t].Notifying? && s'.thr == s.thr[t := Idle(Enqueued)]
    ensures CountIn(s', Bumping) == CountIn(s, Bumping) && CountIn(s', Waking) + 1 == CountIn(s, Waking)
    ensures CountIn(s', Checking) == CountIn(s, Checking) + One(s.ev.pc[u].since != s.ev.epoch)
  {
    assert Agree(s.thr[t], s.ev.pc[t]) && Agree(s.thr[u], s.ev.pc[u]);
    var mid := s.(ev := s.ev.(pc := s.ev.pc[u := E.Load(s.ev.pc[u].key, s.ev.pc[u].since)]));
    assert mid.thr == s.thr[u := mid.thr[u]];
    Move(s, mid, u);
    Move(mid, s', t);
  }

  /** Waking a sleeper: it looks again, unless it fell asleep under the current epoch, and then
      no item depends on this notification. */
  lemma WakeStepInv(s: State, s': State, t: nat, u: nat)
    requires Inv(s) && Step(s, s', t) && s.thr[t].Notifying? && E.Wakes(s.ev, s'.ev, t, u)
    ensures Inv(s')
  {
    assert Agree(s.thr[t], s.ev.pc[t]) && Agree(s.thr[u], s.ev.pc[u]);
    E.WakeKeepsWord(s.ev, s'.ev, t, u);
    assert Shape(s') by {
      hide E.WordOk;
    }
    hide E.WordOk, CountIn;
    WakeCounts(s, s', t, u);
    if s.ev.pc[u].since == s.ev.epoch {
      assert Current(s.ev.pc[u], s.ev.epoch);
    }
  }

  lemma StepInv(s: State, s': State, t: nat)
    requires Inv(s) && NoWrap(s) && Step(s, s', t)
    ensures Inv(s')
  {
    if s.thr[t].Notifying? {
      assert Agree(s.thr[t], s.ev.pc[t]);
      if s.ev.pc[t].Bump? {
        BumpStepInv(s, s', t);
      } else if E.SomeAsleep(s.ev) {
        var u: nat :| E.Wakes(s.ev, s'.ev, t, u);
        WakeStepInv(s, s', t, u);
      } else {
        QuietStepInv(s, s', t);
      }
    } else if s.thr[t].Waiting? {
      QuietStepInv(s, s', t);
    } else if s.thr[t].Top? || s.thr[t].Cancel? {
      RegisterStepInv(s, s', t);
    } else if s.thr[t].Idle? || s.thr[t].Putting? {
      StartStepInv(s, s', t);
    } else {
      LookStepInv(s, s', t);
    }
  }

  // ----- no lost wake-up

  lemma InitInv(s: State)
    requires Init(s)
    ensures Inv(s)
  {
    E.InitWord(s.ev);
  }

  lemma {:induction false} RunInv(run: seq<State>)
    requires IsRun(run)
    ensures Inv(run[|run| - 1])
  {
    if |run| == 1 {
      InitInv(run[0]);
    } else {
      RunInv(run[..|run| - 1]);
      assert Next(run[|run| - 2], run[|run| - 2 + 1]);
      var t :| Step(run[|run| - 2], run[|run| - 1], t);
      hide Step;
      hide Inv;
      StepInv(run[|run| - 2], run[|run| - 1], t);
    }
  }

  /** While some consumer is asleep, the queue holds no more items than there are awake consumers
      that will look again and producers that have not finished notifying.  So once those are
      gone, a sleeper means that the queue is empty. */
  lemma NoLostWakeUp(run: seq<State>)
    requires IsRun(run) && E.SomeAsleep(run[|run| - 1].ev)
    ensures var s := run[|run| - 1];
      && |s.thr| == |s.ev.pc|
      && |s.items| <= CountIn(s, Checking) + CountIn(s, Bumping) + CountIn(s, Waking)
      && (CountIn(s, Checking) == CountIn(s, Bumping) == CountIn(s, Waking) == 0 ==> s.items == [])
  {
    RunInv(run);
  }

  // ----- what the operations return

  /** The schedule of a run: which thread makes each transition. */
  ghost predicate IsSchedule(run: seq<State>, who: seq<nat>) {
    && IsRun(run) && |who| == |run| - 1
    && forall n :: 0 <= n < |who| ==> Step(run[n], run[n + 1], who[n])
  }

  /** What an observer of one thread sees in one transition, from where the thread is before and after:
      the item of an enqueue at its call and when it is in the queue; the item that a look at the queue
      found; and the item that a dequeue returns. */
  datatype Sight = Call | Add | Take | Return

  function Seen(c: Client, c': Client, k: Sight): seq<R.Item> {
    match k
    case Call => if c.Idle? && c'.Putting? then [c'.item] else []
    case Add => if c.Putting? && c'.Notifying? then [c.item] else []
    case Take =>
      if c.First? && c'.Idle? && c'.last.Dequeued? then Held(c'.last.res)
      else if c.Recheck? && c'.Cancel? then Held(c'.res)
      else []
    case Return => if !c.Idle? && c'.Idle? && c'.last.Dequeued? then Held(c'.last.res) else []
  }

  function Held(o: R.Option<R.Item>): seq<R.Item> {
    if o.Some? then [o.value] else []
  }

  /** Everything of one kind seen in the first `n` transitions, in order. */
  ghost function Trace(run: seq<State>, who: seq<nat>, k: Sight, n: nat): seq<R.Item>
    requires IsSchedule(run, who) && n < |run|
    decreases n
  {
    if n == 0 then [] else
      var t := who[n - 1];
      assert Step(run[n - 1], run[n - 1 + 1], t);
      StepSize(run[n - 1], run[n], t);
      Trace(run, who, k, n - 1) + Seen(run[n - 1].thr[t], run[n].thr[t], k)
  }

  lemma StepSize(s: State, s': State, t: nat)
    requires Step(s, s', t)
    ensures t < |s.thr| == |s'.thr| && s'.thr == s.thr[t := s'.thr[t]]
  {}

  lemma Traced(run: seq<State>, who: seq<nat>, n: nat)
    requires IsSchedule(run, who) && 0 < n < |run|
    ensures who[n - 1] < |run[n - 1].thr| == |run[n].thr|
    ensures var t := who[n - 1];
      && Step(run[n - 1], run[n], t)
      && (forall k :: Trace(run, who, k, n) == Trace(run, who, k, n - 1) + Seen(run[n - 1].thr[t], run[n].thr[t], k))
  {
    assert Step(run[n - 1], run[n - 1 + 1], who[n - 1]);
    StepSize(run[n - 1], run[n], who[n - 1]);
  }

  /** The items of enqueues that are not in the queue yet, and of dequeues that have not returned yet. */
  function Underway(c: Client): seq<R.Item> {
    if c.Putting? then [c.item] else []
  }

  function Carried(c: Client): seq<R.Item> {
    if c.Cancel? then Held(c.res) else []
  }

  function AllUnderway(cs: seq<Client>): multiset<R.Item> {
    if cs == [] then multiset{} else multiset(Underway(cs[0])) + AllUnderway(cs[1..])
  }

  function AllCarried(cs: seq<Client>): multiset<R.Item> {
    if cs == [] then multiset{} else multiset(Carried(cs[0])) + AllCarried(cs[1..])
  }

  /** Replacing one summand, first or not. */
  lemma Exchange(a: multiset<R.Item>, b: multiset<R.Item>, c: multiset<R.Item>, d: multiset<R.Item>,
                 e: multiset<R.Item>)
    ensures (a + b) + c == (c + b) + a
    ensures b + c == d + e ==> (a + b) + c == (a + d) + e
  {
    if b + c == d + e {
      assert (a + b) + c == a + (b + c) == a + (d + e) == (a + d) + e;
    }
  }

  lemma {:induction false} UnderwayUpdate(cs: seq<Client>, t: nat, c: Client)
    requires t < |cs|
    ensures AllUnderway(cs[t := c]) + multiset(Underway(cs[t])) == AllUnderway(cs) + multiset(Underway(c))
  {
    if t == 0 {
      assert cs[t := c][1..] == cs[1..];
      Exchange(multiset(Underway(c)), AllUnderway(cs[1..]), multiset(Underway(cs[0])), multiset{}, multiset{});
    } else {
      var rest := cs[1..];
      assert cs[t := c][1..] == rest[t - 1 := c];
      UnderwayUpdate(rest, t - 1, c);
      Exchange(multiset(Underway(cs[0])), AllUnderway(rest[t - 1 := c]), multiset(Underway(rest[t - 1])),
               AllUnderway(rest), multiset(Underway(c)));
    }
  }

  lemma {:induction false} CarriedUpdate(cs: seq<Client>, t: nat, c: Client)
    requires t < |cs|
    ensures AllCarried(cs[t := c]) + multiset(Carried(cs[t])) == AllCarried(cs) + multiset(Carried(c))
  {
    if t == 0 {
      assert cs[t := c][1..] == cs[1..];
      Exchange(multiset(Carried(c)), AllCarried(cs[1..]), multiset(Carried(cs[0])), multiset{}, multiset{});
    } else {
      var rest := cs[1..];
      assert cs[t := c][1..] == rest[t - 1 := c];
      CarriedUpdate(rest, t - 1, c);
      Exchange(multiset(Carried(cs[0])), AllCarried(rest[t - 1 := c]), multiset(Carried(rest[t - 1])),
               AllCarried(rest), multiset(Carried(c)));
    }
  }

  lemma {:induction false} NobodyBusy(cs: seq<Client>)
    requires forall t :: 0 <= t < |cs| ==> cs[t].Idle?
    ensures AllUnderway(cs) == multiset{} && AllCarried(cs) == multiset{}
  {
    if cs != [] {
      NobodyBusy(cs[1..]);
    }
  }

  /** One transition takes from the front of the queue what it sees taken, and adds at the end what it
      sees added; an enqueue adds the item of its call, and a dequeue returns the item it took. */
  lemma StepItems(s: State, s': State, t: nat)
    requires Step(s, s', t)
    ensures t < |s.thr| == |s'.thr|
    ensures Seen(s.thr[t], s'.thr[t], Take) + s'.items == s.items + Seen(s.thr[t], s'.thr[t], Add)
    ensures Underway(s.thr[t]) + Seen(s.thr[t], s'.thr[t], Call)
         == Seen(s.thr[t], s'.thr[t], Add) + Underway(s'.thr[t])
    ensures Carried(s.thr[t]) + Seen(s.thr[t], s'.thr[t], Take)
         == Seen(s.thr[t], s'.thr[t], Return) + Carried(s'.thr[t])
  {}

  lemma Balance(from: seq<R.Item>, into: seq<R.Item>, at: multiset<R.Item>, at': multiset<R.Item>,
                held: seq<R.Item>, held': seq<R.Item>, enters: seq<R.Item>, leaves: seq<R.Item>)
    requires multiset(from) == multiset(into) + at
    requires held + enters == leaves + held'
    requires at' + multiset(held) == at + multiset(held')
    ensures multiset(from + enters) == multiset(into + leaves) + at'
  {
    assert multiset(held) + multiset(enters) == multiset(held + enters) == multiset(leaves) + multiset(held');
    forall v ensures multiset(from + enters)[v] == (multiset(into + leaves) + at')[v] {
      assert (at' + multiset(held))[v] == (at + multiset(held'))[v];
      assert (multiset(held) + multiset(enters))[v] == (multiset(leaves) + multiset(held'))[v];
    }
  }

  /** The items taken so far followed by those in the queue are the items added, in order; the items of the
      enqueues called are those added and those about to be; and the items taken are those returned by
      dequeues and those about to be. */
  ghost predicate Conserved(run: seq<State>, who: seq<nat>, n: nat)
    requires IsSchedule(run, who) && n < |run|
  {
    && Trace(run, who, Take, n) + run[n].items == Trace(run, who, Add, n)
    && multiset(Trace(run, who, Call, n)) == multiset(Trace(run, who, Add, n)) + AllUnderway(run[n].thr)
    && multiset(Trace(run, who, Take, n)) == multiset(Trace(run, who, Return, n)) + AllCarried(run[n].thr)
  }

  lemma ConservedStep(run: seq<State>, who: seq<nat>, n: nat)
    requires IsSchedule(run, who) && 0 < n < |run| && Conserved(run, who, n - 1)
    ensures Conserved(run, who, n)
  {
    hide Step, Trace, Seen, Underway, Carried, AllUnderway, AllCarried;
    Traced(run, who, n);
    var s, s', t := run[n - 1], run[n], who[n - 1];
    StepSize(s, s', t);
    StepItems(s, s', t);
    UnderwayUpdate(s.thr, t, s'.thr[t]);
    CarriedUpdate(s.thr, t, s'.thr[t]);
    var call, add := Seen(s.thr[t], s'.thr[t], Call), Seen(s.thr[t], s'.thr[t], Add);
    var take, ret := Seen(s.thr[t], s'.thr[t], Take), Seen(s.thr[t], s'.thr[t], Return);
    Balance(Trace(run, who, Call, n - 1), Trace(run, who, Add, n - 1), AllUnderway(s.thr), AllUnderway(s'.thr),
            Underway(s.thr[t]), Underway(s'.thr[t]), call, add);
    Balance(Trace(run, who, Take, n - 1), Trace(run, who, Return, n - 1), AllCarried(s.thr), AllCarried(s'.thr),
            Carried(s.thr[t]), Carried(s'.thr[t]), take, ret);
    calc {
      (Trace(run, who, Take, n - 1) + take) + s'.items;
      Trace(run, who, Take, n - 1) + (take + s'.items);
      Trace(run, who, Take, n - 1) + (s.items + add);
      Trace(run, who, Add, n - 1) + add;
    }
  }

  /** Items are conserved and kept in order in every run. */
  lemma {:induction false} ItemsConserved(run: seq<State>, who: seq<nat>, n: nat)
    requires IsSchedule(run, who) && n < |run|
    ensures Conserved(run, who, n)
  {
    if n == 0 {
      NobodyBusy(run[0].thr);
    } else {
      hide Step, Conserved;
      ItemsConserved(run, who, n - 1);
      ConservedStep(run, who, n);
    }
  }

  /** When nobody is in an operation, the items of the enqueues called are those that dequeues have
      returned and those in the queue. */
  lemma QuietlyConserved(run: seq<State>, who: seq<nat>, n: nat)
    requires IsSchedule(run, who) && n < |run| && forall t :: 0 <= t < |run[n].thr| ==> run[n].thr[t].Idle?
    ensures multiset(Trace(run, who, Call, n)) == multiset(Trace(run, who, Return, n)) + multiset(run[n].items)
  {
    ItemsConserved(run, who, n);
    NobodyBusy(run[n].thr);
    hide Step, Trace, IsSchedule;
    assert multiset(Trace(run, who, Add, n)) == multiset(Trace(run, who, Take, n)) + multiset(run[n].items);
  }

  // ----- the looks and the waits of one dequeue

  predicate InLoop(c: Client) {
    c.Top? || c.Recheck? || c.Waiting? || c.Cancel?
  }

  /** The first item of the queue, or None. */
  function Front(s: State): R.Option<R.Item> {
    if s.items == [] then R.None else R.Some(s.items[0])
  }

  /** Thread `t` starts a wait. */
  predicate StartsWait(s: State, s': State, t: nat) {
    t < |s.thr| && t < |s'.thr| && s.thr[t].Recheck? && s'.thr[t].Waiting?
  }

  /** How many waits thread `t` has started between times `b` and `n`. */
  function Waits(run: seq<State>, t: nat, b: nat, n: nat): nat
    requires n < |run|
    decreases n
  {
    if n <= b then 0 else Waits(run, t, b, n - 1) + One(StartsWait(run[n - 1], run[n], t))
  }

  /** Thread `t` found the queue empty at its first look, at time `b`, and has been in the loop of dequeue
      since, with `p` waits started. */
  ghost predicate LoopSince(run: seq<State>, t: nat, b: nat, n: nat, p: nat) {
    && b < n < |run| && t < |run[b].thr| && run[b].thr[t].First? && run[b].items == []
    && (forall m :: b < m <= n ==> t < |run[m].thr| && InLoop(run[m].thr[t]))
    && Waits(run, t, b, n) == p <= MAX_PATIENCE
  }

  /** What a step does to a thread that is then in the loop. */
  lemma LoopStep(s: State, s': State, a: nat, t: nat)
    requires Step(s, s', a) && t < |s.thr| == |s'.thr| && InLoop(s'.thr[t])
    ensures
      || s'.thr[t] == s.thr[t]
      || (s.thr[t].First? && s.items == [] && s'.thr[t] == Top(0))
      || (s.thr[t].Top? && s'.thr[t] == Recheck(s.thr[t].patience))
      || (s.thr[t].Waiting? && s'.thr[t] == Top(s.thr[t].patience))
      || (s.thr[t].Recheck? && s.items == [] && s.thr[t].patience < MAX_PATIENCE
          && s'.thr[t] == Waiting(s.thr[t].patience + 1))
      || (s.thr[t].Recheck? && s'.thr[t] == Cancel(Front(s)) && (s.items == [] ==> s.thr[t].patience >= MAX_PATIENCE))
    ensures s.thr[t].Recheck? && s'.thr[t].Cancel? ==> s'.items == (if s.items == [] then [] else s.items[1..])
  {}

  /** The thread of one transition of a run. */
  lemma RunStep(run: seq<State>, n: nat) returns (a: nat)
    requires IsRun(run) && 0 < n < |run|
    ensures Step(run[n - 1], run[n], a) && |run[n - 1].thr| == |run[n].thr|
  {
    assert Next(run[n - 1], run[n - 1 + 1]);
    a :| Step(run[n - 1], run[n], a);
    StepSize(run[n - 1], run[n], a);
  }

  /** The patience of a dequeue is the number of waits it has started. */
  lemma {:induction false} PatienceCounts(run: seq<State>, t: nat, n: nat) returns (b: nat)
    requires IsRun(run) && n < |run| && t < |run[n].thr| && InLoop(run[n].thr[t]) && !run[n].thr[t].Cancel?
    ensures LoopSince(run, t, b, n, run[n].thr[t].patience)
  {
    hide Step;
    assert n > 0;
    var a := RunStep(run, n);
    LoopStep(run[n - 1], run[n], a, t);
    if run[n - 1].thr[t].First? {
      b := n - 1;
      assert Waits(run, t, b, n - 1) == 0;
    } else {
      b := PatienceCounts(run, t, n - 1);
    }
  }

  /** At time `m` thread `t`, in the loop since `b`, looked at the queue the last time: it took the front
      item, or found the queue empty with all its waits spent.  It has been about to return that until `n`. */
  ghost predicate LastLook(run: seq<State>, t: nat, b: nat, m: nat, n: nat, res: R.Option<R.Item>) {
    && m < n < |run| && (forall j :: m < j <= n ==> t < |run[j].thr| && run[j].thr[t] == Cancel(res))
    && t < |run[m].thr| && run[m].thr[t].Recheck? && LoopSince(run, t, b, m, run[m].thr[t].patience)
    && res == Front(run[m])
    && run[m + 1].items == (if res.Some? then run[m].items[1..] else [])
    && (res.None? ==> Waits(run, t, b, m) == MAX_PATIENCE)
  }

  lemma {:induction false} LookedLast(run: seq<State>, t: nat, n: nat) returns (b: nat, m: nat)
    requires IsRun(run) && n < |run| && t < |run[n].thr| && run[n].thr[t].Cancel?
    ensures LastLook(run, t, b, m, n, run[n].thr[t].res)
  {
    hide Step;
    assert n > 0;
    var a := RunStep(run, n);
    LoopStep(run[n - 1], run[n], a, t);
    if run[n - 1].thr[t].Cancel? {
      b, m := LookedLast(run, t, n - 1);
    } else {
      m := n - 1;
      b := PatienceCounts(run, t, m);
      assert run[m + 1] == run[n];
    }
  }

  lemma ReturnStep(s: State, s': State, a: nat, t: nat)
    requires Step(s, s', a) && t < |s.thr| == |s'.thr| && !s.thr[t].Idle? && s'.thr[t].Idle? && s'.thr[t].last.Dequeued?
    ensures
      || (s.thr[t].First? && s.items != [] && s'.thr[t].last.res == R.Some(s.items[0]) && s'.items == s.items[1..])
      || (s.thr[t] == Cancel(s'.thr[t].last.res))
  {}

  /** A dequeue that returns an item took it from the front of the queue, at its first look or at its last;
      one that returns null found the queue empty at its first look, and again at its last, after exactly
      MAX_PATIENCE waits. */
  lemma DequeueReturns(run: seq<State>, t: nat, n: nat)
    requires IsRun(run) && n + 1 < |run| && t < |run[n].thr| && t < |run[n + 1].thr|
    requires !run[n].thr[t].Idle? && run[n + 1].thr[t].Idle? && run[n + 1].thr[t].last.Dequeued?
    ensures var res := run[n + 1].thr[t].last.res;
      || (run[n].thr[t].First? && run[n].items != [] && res == R.Some(run[n].items[0])
          && run[n + 1].items == run[n].items[1..])
      || exists b: nat, m: nat :: LastLook(run, t, b, m, n, res)
  {
    hide Step;
    var a := RunStep(run, n + 1);
    ReturnStep(run[n], run[n + 1], a, t);
    if run[n].thr[t].Cancel? {
      var b, m := LookedLast(run, t, n);
    }
  }
}
