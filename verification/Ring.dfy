/** One ring of the queue: its cells, its two ticket counters, and what each
    atomic access of the protocol does to it.

    A ring position is a ticket.  The cell of ticket `k` is cell `k % R`, where
    `R` is the number of cells.  The packed words of the program (bit 63 of a
    cell index and of `tail`) are modelled as a number and a flag; module Words
    shows that this is what the bit operations compute. */
module Rings {

  /** The address of an enqueued item; items are never null. */
  type Item = int

  datatype Option<+T> = None | Some(value: T)

  datatype Cell = Cell(val: Option<Item>, idx: nat, unsafe: bool)

  /** `head`, `tail`, `closed` and `cells` are the ring's memory.  The remaining
      fields are history: which thread drew which ticket, what was deposited and
      delivered under which ticket, and which dequeue tickets were abandoned. */
  datatype Ring = Ring(
    head: nat,
    tail: nat,
    closed: bool,
    cells: seq<Cell>,
    issuedTo: map<nat, nat>,
    drawnBy: map<nat, nat>,
    dep: map<nat, Item>,
    got: map<nat, Item>,
    left: set<nat>)

  // ----- cells and tickets

  /** The remainder of `k` by `n`; see Words.ResidueIsRemainder. */
  function Residue(k: nat, n: nat): (j: nat)
    requires n > 0
    ensures j < n
    ensures k < n ==> j == k
  {
    if k < n then k else Residue(k - n, n)
  }

  function Slot(q: Ring, k: nat): (j: nat)
    requires |q.cells| > 0
    ensures j < |q.cells|
  {
    Residue(k, |q.cells|)
  }

  function At(q: Ring, k: nat): Cell
    requires |q.cells| > 0
  {
    q.cells[Slot(q, k)]
  }

  function Write(q: Ring, k: nat, c: Cell): (q': Ring)
    requires |q.cells| > 0
  {
    q.(cells := q.cells[Slot(q, k) := c])
  }

  lemma SlotWraps(q: Ring, k: nat)
    requires |q.cells| > 0
    ensures Slot(q, k + |q.cells|) == Slot(q, k)
  {}

  // ----- what the atomic accesses do

  /** A ring as its constructor leaves it. */
  function Empty(size: nat): Ring
    requires size > 0
  {
    Ring(0, 0, false, seq(size, j requires 0 <= j => Cell(None, j, false)),
         map[], map[], map[], map[], {})
  }

  /** The ring an enqueuer appends: its own item already sits under ticket 0. */
  function Seeded(size: nat, item: Item, t: nat): Ring
    requires size > 0
  {
    var q := Empty(size);
    q.(tail := 1, cells := q.cells[0 := Cell(Some(item), 0, false)],
       issuedTo := map[0 := t], dep := map[0 := item])
  }

  /** fetch_add(1) on `head`. */
  function DrawHead(q: Ring, t: nat): Ring {
    q.(head := q.head + 1, drawnBy := q.drawnBy[q.head := t])
  }

  /** fetch_add(1) on `tail`; a ticket is issued only while the ring is open. */
  function DrawTail(q: Ring, t: nat): Ring {
    q.(tail := q.tail + 1,
       issuedTo := if q.closed then q.issuedTo else q.issuedTo[q.tail := t])
  }

  /** Setting bit 63 of `tail`. */
  function Close(q: Ring): Ring {
    q.(closed := true)
  }

  /** The jump of `tail` made by fixState. */
  function RaiseTail(q: Ring, h: nat): Ring {
    q.(tail := h)
  }

  /** A successful enqueue CAS2. */
  function Deposit(q: Ring, k: nat, item: Item): Ring
    requires |q.cells| > 0
  {
    Write(q, k, Cell(Some(item), k, false)).(dep := q.dep[k := item])
  }

  /** A successful CAS2 of the dequeuer that finds its own item. */
  function Deliver(q: Ring, h: nat): Ring
    requires |q.cells| > 0 && At(q, h).val.Some?
  {
    Write(q, h, Cell(None, h + |q.cells|, At(q, h).unsafe)).(got := q.got[h := At(q, h).val.value])
  }

  /** A successful CAS2 that only sets the unsafe bit; the dequeuer gives up its ticket. */
  function Mark(q: Ring, h: nat): Ring
    requires |q.cells| > 0
  {
    Write(q, h, At(q, h).(unsafe := true)).(left := q.left + {h})
  }

  /** A successful CAS2 that moves an empty cell past the dequeuer's ticket. */
  function Skip(q: Ring, h: nat): Ring
    requires |q.cells| > 0
  {
    Write(q, h, Cell(None, h + |q.cells|, At(q, h).unsafe)).(left := q.left + {h})
  }

  /** The dequeuer found the cell already past its ticket. */
  function Leave(q: Ring, h: nat): Ring {
    q.(left := q.left + {h})
  }

  // ----- the ring invariant

  ghost predicate TicketsOk(q: Ring) {
    && (forall k: nat :: k in q.issuedTo ==> k < q.tail)
    && (forall h: nat :: h in q.drawnBy <==> h < q.head)
    && (forall k: nat :: k in q.dep ==> k in q.issuedTo)
    && (forall h: nat :: h in q.got ==> h in q.dep && q.got[h] == q.dep[h])
    && (forall h: nat :: h in q.got ==> h in q.drawnBy)
    && (forall h: nat :: h in q.left ==> h in q.drawnBy)
  }

  /** A deposit stays in its cell until it is delivered, and then the cell has moved on. */
  ghost predicate DepositOk(q: Ring, k: nat)
    requires |q.cells| > 0 && k in q.dep
  {
    if k in q.got then At(q, k).idx > k
    else At(q, k).val == Some(q.dep[k]) && At(q, k).idx == k
  }

  /** An abandoned ticket never held an item, and its cell is past it or unsafe. */
  ghost predicate LeftOk(q: Ring, h: nat)
    requires |q.cells| > 0
  {
    h !in q.dep && (At(q, h).idx > h || At(q, h).unsafe)
  }

  /** An occupied cell holds an undelivered deposit of its own slot. */
  ghost predicate CellsOk(q: Ring)
    requires |q.cells| > 0
  {
    forall j :: 0 <= j < |q.cells| ==>
      && Slot(q, q.cells[j].idx) == j
      && (q.cells[j].val.Some? ==> q.cells[j].idx in q.dep && q.cells[j].idx !in q.got)
  }

  ghost predicate RingInv(q: Ring) {
    && |q.cells| > 0
    && TicketsOk(q)
    && CellsOk(q)
    && (forall k: nat :: k in q.dep ==> DepositOk(q, k))
    && (forall h: nat :: h in q.left ==> LeftOk(q, h))
  }

  // ----- how a ring may change in one step of thread t

  /** A cell only moves forward: its index never falls; at one index it goes from
      empty to occupied, from safe to unsafe, and never back. */
  ghost predicate Forward(c: Cell, d: Cell) {
    || c.idx < d.idx
    || c == d
    || (c.idx == d.idx && c.val.None? && d.val.Some?)
    || (c.idx == d.idx && c.val == d.val && c.val.Some? && !c.unsafe && d.unsafe)
  }

  ghost predicate Stable(q: Ring, q': Ring, t: nat) {
    && |q.cells| == |q'.cells| > 0
    && q.head <= q'.head
    && q.tail <= q'.tail
    && (q.closed ==> q'.closed && q'.issuedTo == q.issuedTo)
    && (forall k: nat :: k in q.issuedTo ==> k in q'.issuedTo && q'.issuedTo[k] == q.issuedTo[k])
    && (forall k: nat :: k in q'.issuedTo && k !in q.issuedTo ==> k >= q.tail)
    && (forall h: nat :: h in q.drawnBy ==> h in q'.drawnBy && q'.drawnBy[h] == q.drawnBy[h])
    && (forall j :: 0 <= j < |q.cells| ==> Forward(q.cells[j], q'.cells[j]))
    && (forall k: nat :: k in q.dep ==> k in q'.dep && q'.dep[k] == q.dep[k])
    && (forall h: nat :: h in q.got ==> h in q'.got && q'.got[h] == q.got[h])
    && q.left <= q'.left
    && (forall k: nat :: k in q'.dep && k !in q.dep ==> k in q'.issuedTo && q'.issuedTo[k] == t)
    && (forall h: nat :: h in q'.got && h !in q.got ==> h in q'.drawnBy && q'.drawnBy[h] == t)
    && (forall h: nat :: h in q'.left && h !in q.left ==>
          && h in q'.drawnBy && q'.drawnBy[h] == t
          && (At(q', h).idx > h || At(q', h).val.Some?))
  }

  // ----- what a thread knows about a ring between two of its accesses

  /** Thread `t` holds enqueue ticket `k` and has not deposited under it. */
  ghost predicate HoldsTail(q: Ring, t: nat, k: nat) {
    k in q.issuedTo && q.issuedTo[k] == t && k !in q.dep
  }

  /** Thread `t` holds dequeue ticket `h` and has neither taken nor abandoned it. */
  ghost predicate HoldsHead(q: Ring, t: nat, h: nat) {
    h in q.drawnBy && q.drawnBy[h] == t && h !in q.got && h !in q.left
  }

  /** The index word `(i, u)` was read from the cell of ticket `k` at some earlier time. */
  ghost predicate SawIdx(q: Ring, k: nat, i: nat, u: bool) {
    && |q.cells| > 0
    && At(q, k).idx >= i
    && (At(q, k).idx == i && At(q, k).val.None? ==> At(q, k).unsafe == u)
  }

  /** If the enqueue CAS2 were to succeed now, no abandoned ticket would be overtaken. */
  ghost predicate MayDeposit(q: Ring, k: nat, i: nat, u: bool) {
    && SawIdx(q, k, i, u)
    && i <= k
    && (At(q, k) == Cell(None, i, u) ==> forall h: nat :: h in q.left && Slot(q, h) == Slot(q, k) ==> h < k)
  }

  lemma HoldsTailStable(q: Ring, q': Ring, actor: nat, t: nat, k: nat)
    requires Stable(q, q', actor) && actor != t && HoldsTail(q, t, k)
    ensures HoldsTail(q', t, k)
  {}

  lemma HoldsHeadStable(q: Ring, q': Ring, actor: nat, t: nat, h: nat)
    requires Stable(q, q', actor) && actor != t && HoldsHead(q, t, h)
    ensures HoldsHead(q', t, h)
  {}

  lemma SawIdxStable(q: Ring, q': Ring, actor: nat, k: nat, i: nat, u: bool)
    requires Stable(q, q', actor) && SawIdx(q, k, i, u)
    ensures SawIdx(q', k, i, u)
  {
    assert Forward(At(q, k), At(q', k));
  }

  lemma MayDepositStable(q: Ring, q': Ring, actor: nat, k: nat, i: nat, u: bool)
    requires Stable(q, q', actor) && MayDeposit(q, k, i, u)
    ensures MayDeposit(q', k, i, u)
  {
    SawIdxStable(q, q', actor, k, i, u);
    assert Forward(At(q, k), At(q', k));
  }

  // ----- every access keeps the ring invariant, and is stable

  lemma EmptyInv(size: nat)
    requires size > 0
    ensures RingInv(Empty(size))
  {}

  lemma SeededInv(size: nat, item: Item, t: nat)
    requires size > 0
    ensures RingInv(Seeded(size, item, t))
  {}

  /** A step that changes neither the cells nor what was deposited and delivered. */
  lemma TicketInv(q: Ring, q': Ring)
    requires RingInv(q) && q'.cells == q.cells && q'.dep == q.dep && q'.got == q.got && TicketsOk(q')
    requires forall h: nat :: h in q'.left && h !in q.left ==> LeftOk(q, h)
    ensures RingInv(q')
  {
    hide TicketsOk;
    forall h: nat | h in q'.left ensures LeftOk(q', h) {
      assert LeftOk(q, h);
    }
    forall k: nat | k in q'.dep ensures DepositOk(q', k) {
      assert DepositOk(q, k);
    }
  }

  lemma InvTickets(q: Ring)
    requires RingInv(q)
    ensures |q.cells| > 0 && TicketsOk(q)
  {}

  lemma HeadDrawn(q: Ring, t: nat)
    requires RingInv(q)
    ensures RingInv(DrawHead(q, t)) && Stable(q, DrawHead(q, t), t)
    ensures HoldsHead(DrawHead(q, t), t, q.head)
  {
    hide RingInv;
    InvTickets(q);
    TicketInv(q, DrawHead(q, t));
  }

  lemma TailDrawn(q: Ring, t: nat)
    requires RingInv(q)
    ensures RingInv(DrawTail(q, t)) && Stable(q, DrawTail(q, t), t)
    ensures !q.closed ==> HoldsTail(DrawTail(q, t), t, q.tail)
  {
    hide RingInv;
    InvTickets(q);
    TicketInv(q, DrawTail(q, t));
  }

  lemma Closed(q: Ring, t: nat)
    requires RingInv(q)
    ensures RingInv(Close(q)) && Stable(q, Close(q), t)
  {
    hide RingInv;
    InvTickets(q);
    TicketInv(q, Close(q));
  }

  lemma TailRaised(q: Ring, h: nat, t: nat)
    requires RingInv(q) && q.tail <= h
    ensures RingInv(RaiseTail(q, h)) && Stable(q, RaiseTail(q, h), t)
  {
    hide RingInv;
    InvTickets(q);
    TicketInv(q, RaiseTail(q, h));
  }

  /** Overwriting the cell of ticket `k` concerns only the tickets of its slot. */
  lemma WriteInv(q: Ring, q': Ring, k: nat, c: Cell)
    requires RingInv(q) && q'.cells == Write(q, k, c).cells
    requires TicketsOk(q') && Slot(q, c.idx) == Slot(q, k)
    requires c.val.Some? ==> c.idx in q'.dep && c.idx !in q'.got
    requires forall m: nat :: m in q'.dep && Slot(q, m) == Slot(q, k) ==> DepositOk(q', m)
    requires forall m: nat :: m in q'.left && Slot(q, m) == Slot(q, k) ==> LeftOk(q', m)
    requires forall m: nat :: Slot(q, m) != Slot(q, k) ==>
      && (m in q'.dep <==> m in q.dep) && (m in q.dep ==> q'.dep[m] == q.dep[m])
      && (m in q'.got <==> m in q.got)
      && (m in q'.left <==> m in q.left)
    ensures RingInv(q')
  {
    forall m: nat | m in q'.dep ensures DepositOk(q', m) {
      assert Slot(q, m) != Slot(q, k) ==> DepositOk(q, m);
    }
    forall m: nat | m in q'.left ensures LeftOk(q', m) {
      assert Slot(q, m) != Slot(q, k) ==> LeftOk(q, m);
    }
    forall j | 0 <= j < |q'.cells|
      ensures Slot(q', q'.cells[j].idx) == j
      ensures q'.cells[j].val.Some? ==> q'.cells[j].idx in q'.dep && q'.cells[j].idx !in q'.got
    {
      assert Slot(q', q'.cells[j].idx) == Slot(q, q'.cells[j].idx);
    }
  }

  lemma DepositedInv(q: Ring, t: nat, k: nat, i: nat, u: bool, item: Item)
    requires RingInv(q) && HoldsTail(q, t, k) && MayDeposit(q, k, i, u)
    requires At(q, k) == Cell(None, i, u)
    ensures RingInv(Deposit(q, k, item))
    ensures k !in q.left
  {
    var q' := Deposit(q, k, item);
    WriteInv(q, q', k, Cell(Some(item), k, false));
  }

  lemma Deposited(q: Ring, t: nat, k: nat, i: nat, u: bool, item: Item)
    requires RingInv(q) && HoldsTail(q, t, k) && MayDeposit(q, k, i, u)
    requires At(q, k) == Cell(None, i, u)
    ensures RingInv(Deposit(q, k, item)) && Stable(q, Deposit(q, k, item), t)
    ensures k !in q.left
  {
    hide RingInv;
    DepositedInv(q, t, k, i, u, item);
  }

  lemma DeliveredInv(q: Ring, t: nat, h: nat)
    requires RingInv(q) && HoldsHead(q, t, h)
    requires At(q, h).val.Some? && At(q, h).idx == h
    ensures RingInv(Deliver(q, h))
    ensures h in q.dep && At(q, h).val.value == q.dep[h]
  {
    var q' := Deliver(q, h);
    SlotWraps(q, h);
    assert h in q.dep && DepositOk(q, h);
    WriteInv(q, q', h, Cell(None, h + |q.cells|, At(q, h).unsafe));
  }

  lemma Delivered(q: Ring, t: nat, h: nat)
    requires RingInv(q) && HoldsHead(q, t, h)
    requires At(q, h).val.Some? && At(q, h).idx == h
    ensures RingInv(Deliver(q, h)) && Stable(q, Deliver(q, h), t)
    ensures h in q.dep && At(q, h).val.value == q.dep[h]
  {
    hide RingInv;
    DeliveredInv(q, t, h);
  }

  lemma MarkedInv(q: Ring, t: nat, h: nat)
    requires RingInv(q) && HoldsHead(q, t, h)
    requires At(q, h).val.Some? && At(q, h).idx < h
    ensures RingInv(Mark(q, h))
  {
    var q' := Mark(q, h);
    WriteInv(q, q', h, At(q, h).(unsafe := true));
  }

  lemma Marked(q: Ring, t: nat, h: nat)
    requires RingInv(q) && HoldsHead(q, t, h)
    requires At(q, h).val.Some? && At(q, h).idx < h
    ensures RingInv(Mark(q, h)) && Stable(q, Mark(q, h), t)
  {
    hide RingInv;
    MarkedInv(q, t, h);
  }

  lemma SkippedInv(q: Ring, t: nat, h: nat)
    requires RingInv(q) && HoldsHead(q, t, h)
    requires At(q, h).val.None? && At(q, h).idx <= h
    ensures RingInv(Skip(q, h))
  {
    var q' := Skip(q, h);
    SlotWraps(q, h);
    WriteInv(q, q', h, Cell(None, h + |q.cells|, At(q, h).unsafe));
  }

  lemma Skipped(q: Ring, t: nat, h: nat)
    requires RingInv(q) && HoldsHead(q, t, h)
    requires At(q, h).val.None? && At(q, h).idx <= h
    ensures RingInv(Skip(q, h)) && Stable(q, Skip(q, h), t)
  {
    hide RingInv;
    SkippedInv(q, t, h);
  }

  lemma Departed(q: Ring, t: nat, h: nat)
    requires RingInv(q) && HoldsHead(q, t, h)
    requires At(q, h).idx > h
    ensures RingInv(Leave(q, h)) && Stable(q, Leave(q, h), t)
  {
    assert h !in q.dep by {
      assert h in q.dep ==> DepositOk(q, h);
    }
    hide RingInv;
    InvTickets(q);
    TicketInv(q, Leave(q, h));
  }

  lemma StableRefl(q: Ring, t: nat)
    requires |q.cells| > 0
    ensures Stable(q, q, t)
  {}
}
