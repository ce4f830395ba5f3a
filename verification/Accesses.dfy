/** Torn reads and the discipline of the `tail` word, over all runs. */
module Accesses {
  import opened Rings
  import opened Queue
  import opened Invariant
  import opened Preserve
  import opened Theorems

  // ----- a cell's two words are loaded one after the other

  /** The cell of ticket `k` in ring `r`, at some time of a run. */
  ghost function CellAt(s: State, r: nat, k: nat): Cell
    requires r < |s.rings| && |s.rings[r].cells| > 0
  {
    At(s.rings[r], k)
  }

  ghost predicate Exists(s: State, r: nat) {
    r < |s.rings| && |s.rings[r].cells| > 0
  }

  /** Between two times a cell never moves back. */
  lemma CellForward(run: seq<State>, n: nat, m: nat, r: nat, k: nat)
    requires IsRun(run) && n <= m < |run| && Exists(run[n], r)
    ensures Exists(run[m], r) && Forward(CellAt(run[n], r, k), CellAt(run[m], r, k))
  {
    RunLater(run, n, m);
  }

  /** If a cell's index word was `(i, u)` at time `n` and the cell is empty with that same word at
      time `m`, it was so at every time in between. */
  lemma EmptyUnchanged(run: seq<State>, n: nat, j: nat, m: nat, r: nat, k: nat)
    requires IsRun(run) && n <= j <= m < |run| && Exists(run[n], r) && Exists(run[m], r)
    requires CellAt(run[n], r, k).idx == CellAt(run[m], r, k).idx
    requires CellAt(run[n], r, k).unsafe == CellAt(run[m], r, k).unsafe
    requires CellAt(run[m], r, k).val.None?
    ensures Exists(run[j], r) && CellAt(run[j], r, k) == CellAt(run[m], r, k)
  {
    CellForward(run, n, j, r, k);
    CellForward(run, j, m, r, k);
  }

  /** The step that changes a thread's program counter is that thread's own. */
  lemma OwnStep(s: State, s': State, t: nat)
    requires Next(s, s') && t < |s.thr| && t < |s'.thr| && s.thr[t] != s'.thr[t]
    ensures Step(s, s', t)
  {
    hide Step;
    var a :| Step(s, s', a);
    StepFrame(s, s', a);
  }

  lemma IdxLoadedByEnqueue(s: State, s': State, t: nat, e: Enq, lt: nat, k: nat, i: nat, u: bool)
    requires Next(s, s') && t < |s.thr| && t < |s'.thr|
    requires s.thr[t] == Enqueue(EIdx(e, lt, k)) && s'.thr[t] == Enqueue(EVal(e, lt, k, i, u))
    ensures Exists(s, lt) && CellAt(s, lt, k).idx == i && CellAt(s, lt, k).unsafe == u
  {
    OwnStep(s, s', t);
  }

  /** A successful enqueue CAS2 finds the cell exactly as it was when its index word was loaded,
      whatever happened in between. */
  lemma EnqueueCas2(run: seq<State>, n: nat, j: nat, m: nat, t: nat, e: Enq, lt: nat, k: nat, i: nat, u: bool)
    requires IsRun(run) && n <= j <= m < |run| && n + 1 < |run|
    requires t < |run[n].thr| && t < |run[n + 1].thr|
    requires run[n].thr[t] == Enqueue(EIdx(e, lt, k)) && run[n + 1].thr[t] == Enqueue(EVal(e, lt, k, i, u))
    requires Exists(run[m], lt) && CellAt(run[m], lt, k) == Cell(None, i, u)
    ensures Exists(run[j], lt) && CellAt(run[j], lt, k) == Cell(None, i, u)
  {
    hide Next;
    IdxLoadedByEnqueue(run[n], run[n + 1], t, e, lt, k, i, u);
    EmptyUnchanged(run, n, j, m, lt, k);
  }

  lemma IdxLoadedByDequeue(s: State, s': State, t: nat, d: Deq, i: nat, u: bool)
    requires Next(s, s') && t < |s.thr| && t < |s'.thr|
    requires s.thr[t] == Dequeue(DIdx(d)) && s'.thr[t] == Dequeue(DVal(d, i, u))
    ensures Exists(s, d.lh) && CellAt(s, d.lh, d.h).idx == i && CellAt(s, d.lh, d.h).unsafe == u
  {
    OwnStep(s, s', t);
  }

  /** The same holds for a dequeuer that moves an empty cell past its ticket. */
  lemma SkipCas2(run: seq<State>, n: nat, j: nat, m: nat, t: nat, d: Deq, i: nat, u: bool)
    requires IsRun(run) && n <= j <= m < |run| && n + 1 < |run|
    requires t < |run[n].thr| && t < |run[n + 1].thr|
    requires run[n].thr[t] == Dequeue(DIdx(d)) && run[n + 1].thr[t] == Dequeue(DVal(d, i, u))
    requires Exists(run[m], d.lh) && CellAt(run[m], d.lh, d.h) == Cell(None, i, u)
    ensures Exists(run[j], d.lh) && CellAt(run[j], d.lh, d.h) == Cell(None, i, u)
  {
    hide Next;
    IdxLoadedByDequeue(run[n], run[n + 1], t, d, i, u);
    EmptyUnchanged(run, n, j, m, d.lh, d.h);
  }

  lemma ValLoaded(s: State, s': State, t: nat, d: Deq, v: Item, i: nat, u: bool)
    requires Inv(s) && Next(s, s') && t < |s.thr| && t < |s'.thr| && s.thr[t] == Dequeue(DVal(d, i, u))
    requires s'.thr[t] == Dequeue(DTake(d, v, u)) || s'.thr[t] == Dequeue(DMark(d, v, i, u))
    ensures Exists(s, d.lh) && CellAt(s, d.lh, d.h).val == Some(v) && CellAt(s, d.lh, d.h).idx >= i
    ensures s'.thr[t].cp.DTake? ==> i == d.h
  {
    hide LogOk;
    assert ThreadOk(s, t, s.thr[t]);
    OwnStep(s, s', t);
  }

  /** A successful CAS2 on an occupied cell finds the item and the index that were there when the
      item was loaded; and if the bit in the loaded index word was clear, the whole cell.  */
  lemma OccupiedCas2(run: seq<State>, n: nat, j: nat, m: nat, t: nat, d: Deq, v: Item, i: nat, u: bool)
    requires IsRun(run) && n <= j <= m < |run| && n + 1 < |run|
    requires t < |run[n].thr| && t < |run[n + 1].thr| && run[n].thr[t] == Dequeue(DVal(d, i, u))
    requires run[n + 1].thr[t] == Dequeue(DTake(d, v, u)) || run[n + 1].thr[t] == Dequeue(DMark(d, v, i, u))
    requires Exists(run[m], d.lh) && CellAt(run[m], d.lh, d.h) == Cell(Some(v), i, u)
    ensures Exists(run[j], d.lh)
    ensures CellAt(run[j], d.lh, d.h).val == Some(v) && CellAt(run[j], d.lh, d.h).idx == i
    ensures !u ==> CellAt(run[j], d.lh, d.h) == CellAt(run[m], d.lh, d.h)
  {
    InvAt(run, n);
    ValLoaded(run[n], run[n + 1], t, d, v, i, u);
    hide Inv;
    hide Next;
    CellForward(run, n, j, d.lh, d.h);
    CellForward(run, j, m, d.lh, d.h);
  }

  /** The exact condition for the whole cell to be as it was when the item was loaded, and ever since:
      the bit was clear in the loaded index word, or it was set in the cell at the load of the item. */
  lemma OccupiedExactly(run: seq<State>, n: nat, m: nat, t: nat, d: Deq, v: Item, i: nat, u: bool)
    requires IsRun(run) && n <= m < |run| && n + 1 < |run|
    requires t < |run[n].thr| && t < |run[n + 1].thr| && run[n].thr[t] == Dequeue(DVal(d, i, u))
    requires run[n + 1].thr[t] == Dequeue(DTake(d, v, u)) || run[n + 1].thr[t] == Dequeue(DMark(d, v, i, u))
    requires Exists(run[m], d.lh) && CellAt(run[m], d.lh, d.h) == Cell(Some(v), i, u)
    ensures Exists(run[n], d.lh)
    ensures
      (forall j :: n <= j <= m ==> Exists(run[j], d.lh) && CellAt(run[j], d.lh, d.h) == CellAt(run[m], d.lh, d.h))
      <==> !u || CellAt(run[n], d.lh, d.h).unsafe
  {
    InvAt(run, n);
    ValLoaded(run[n], run[n + 1], t, d, v, i, u);
    hide Inv;
    hide Next;
    if !u || CellAt(run[n], d.lh, d.h).unsafe {
      forall j | n <= j <= m
        ensures Exists(run[j], d.lh) && CellAt(run[j], d.lh, d.h) == CellAt(run[m], d.lh, d.h)
      {
        CellForward(run, n, j, d.lh, d.h);
        CellForward(run, j, m, d.lh, d.h);
      }
    }
  }

  /** If the cell was occupied already when the index word was loaded, it is the whole cell whatever
      the bit, and since that load. */
  lemma OccupiedSinceIdx(run: seq<State>, n: nat, j: nat, m: nat, t: nat, d: Deq, v: Item, i: nat, u: bool)
    requires IsRun(run) && n <= j <= m < |run| && n + 1 < |run|
    requires t < |run[n].thr| && t < |run[n + 1].thr|
    requires run[n].thr[t] == Dequeue(DIdx(d)) && run[n + 1].thr[t] == Dequeue(DVal(d, i, u))
    requires Exists(run[n], d.lh) && CellAt(run[n], d.lh, d.h).val.Some?
    requires Exists(run[m], d.lh) && CellAt(run[m], d.lh, d.h) == Cell(Some(v), i, u)
    ensures Exists(run[j], d.lh) && CellAt(run[j], d.lh, d.h) == Cell(Some(v), i, u)
  {
    hide Next;
    IdxLoadedByDequeue(run[n], run[n + 1], t, d, i, u);
    CellForward(run, n, j, d.lh, d.h);
    CellForward(run, j, m, d.lh, d.h);
  }

  // ----- the tail word

  /** The index in `tail` never falls, the closed bit is permanent, a closed ring issues no ticket,
      and a ring has a successor only when it is closed. */
  lemma TailDiscipline(run: seq<State>, n: nat, m: nat, r: nat)
    requires IsRun(run) && n <= m < |run| && r < |run[n].rings|
    ensures r < |run[m].rings|
    ensures run[n].rings[r].tail <= run[m].rings[r].tail
    ensures run[n].rings[r].closed ==>
      run[m].rings[r].closed && run[m].rings[r].issuedTo == run[n].rings[r].issuedTo
    ensures r + 1 < |run[n].rings| ==> run[n].rings[r].closed
  {
    InvAt(run, n);
    hide LogOk;
    hide RingInv;
    RunLater(run, n, m);
  }

  /** The step in which thread `t` draws enqueue ticket `k` of ring `lt`. */
  ghost predicate Issues(s: State, s': State, t: nat, lt: nat, k: nat) {
    && Next(s, s') && t < |s.thr| && t < |s'.thr|
    && s.thr[t].Enqueue? && s.thr[t].ep == ETicket(s.thr[t].ep.e, lt)
    && s'.thr[t] == Enqueue(EIdx(s.thr[t].ep.e, lt, k))
  }

  lemma IssuedNow(s: State, s': State, t: nat, lt: nat, k: nat)
    requires Inv(s) && Issues(s, s', t, lt, k)
    ensures lt < |s.rings| == |s'.rings|
    ensures k !in s.rings[lt].issuedTo && k in s'.rings[lt].issuedTo && s'.rings[lt].issuedTo[k] == t
  {
    hide LogOk;
    assert ThreadOk(s, t, s.thr[t]);
    OwnStep(s, s', t);
    assert RingInv(s.rings[lt]);
  }

  /** No enqueue ticket of a ring is issued twice. */
  lemma TicketsUnique(run: seq<State>, n: nat, m: nat, t: nat, u: nat, lt: nat, k: nat, lt': nat, k': nat)
    requires IsRun(run) && n < m < |run| - 1
    requires Issues(run[n], run[n + 1], t, lt, k) && Issues(run[m], run[m + 1], u, lt', k')
    ensures (lt, k) != (lt', k')
  {
    InvAt(run, n);
    InvAt(run, m);
    IssuedNow(run[n], run[n + 1], t, lt, k);
    IssuedNow(run[m], run[m + 1], u, lt', k');
    hide Inv;
    hide Issues;
    RunLater(run, n + 1, m);
  }

  /** The value of `head` that a thread inside fixState, or just done with it, has sampled. */
  function Sampled(p: Pc): Option<nat> {
    if p.Leaving? && (p.xp.FAgain? || p.xp.FCas? || p.xp.DNext?) then Some(p.xp.hs) else None
  }

  ghost predicate HeadWas(run: seq<State>, x: Exit, hs: nat, n: nat) {
    x.at < n < |run| && x.lh < |run[n].rings| && run[n].rings[x.lh].head == hs
  }

  lemma SampleSet(s: State, s': State, t: nat)
    requires Next(s, s') && t < |s.thr| && t < |s'.thr| && Sampled(s'.thr[t]).Some?
    ensures s.thr[t].Leaving?
    ensures
      || (Sampled(s.thr[t]) == Sampled(s'.thr[t]) && s.thr[t].xp.x == s'.thr[t].xp.x)
      || (s.thr[t].xp.FHead? && s.thr[t].xp.x == s'.thr[t].xp.x && s.thr[t].xp.x.lh < |s.rings|
          && Sampled(s'.thr[t]) == Some(s.rings[s.thr[t].xp.x.lh].head))
  {
    hide AllDrawn;
    if s.thr[t] != s'.thr[t] {
      OwnStep(s, s', t);
      SampleStep(s, s', t);
    }
  }

  lemma SampleStep(s: State, s': State, t: nat)
    requires Step(s, s', t) && t < |s'.thr| && Sampled(s'.thr[t]).Some? && s.thr[t] != s'.thr[t]
    ensures s.thr[t].Leaving?
    ensures
      || (Sampled(s.thr[t]) == Sampled(s'.thr[t]) && s.thr[t].xp.x == s'.thr[t].xp.x)
      || (s.thr[t].xp.FHead? && s.thr[t].xp.x == s'.thr[t].xp.x && s.thr[t].xp.x.lh < |s.rings|
          && Sampled(s'.thr[t]) == Some(s.rings[s.thr[t].xp.x.lh].head))
  {
    hide AllDrawn;
    if s.thr[t].Enqueue? {
      EnqNoStamp(s, t);
    } else if s.thr[t].Dequeue? {
      CellNoStamp(s, t);
    }
  }

  /** The sample was taken in this call: after the caller compared `tail` with its ticket. */
  lemma {:induction false} SampleTrue(run: seq<State>, t: nat) returns (n: nat)
    requires IsRun(run) && t < |Last(run).thr| && Sampled(Last(run).thr[t]).Some?
    ensures HeadWas(run, Last(run).thr[t].xp.x, Sampled(Last(run).thr[t]).value, n)
  {
    hide Step;
    assert |run| > 1;
    var before := run[..|run| - 1];
    ClockCounts(run, |run| - 2);
    ClockCounts(run, |run| - 1);
    assert Next(run[|run| - 2], run[|run| - 2 + 1]);
    SampleSet(Last(before), Last(run), t);
    if Last(before).thr[t].xp.FHead? {
      RunInv(before);
      assert ThreadOk(Last(before), t, Last(before).thr[t]);
      n := |run| - 2;
    } else {
      n := SampleTrue(before, t);
    }
  }

  /** When fixState is done, the ring is closed or `tail` has caught up with a value that `head` had
      during the call and that lies past the caller's ticket. */
  lemma FixStateDone(run: seq<State>, t: nat, x: Exit, hs: nat)
    requires IsRun(run) && t < |Last(run).thr| && Last(run).thr[t] == Leaving(DNext(x, hs))
    ensures x.lh < |Last(run).rings| && x.h < hs
    ensures Last(run).rings[x.lh].closed || Last(run).rings[x.lh].tail >= hs
    ensures exists n :: HeadWas(run, x, hs, n)
  {
    RunInv(run);
    assert ThreadOk(Last(run), t, Last(run).thr[t]);
    hide Inv;
    var n := SampleTrue(run, t);
  }
}
