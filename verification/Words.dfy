/** The 64-bit words in which the program keeps a number and a flag (bit 63): the index word of
    a cell and the `tail` word of a ring.  Every operation the program performs on such a word
    is what the rest of the model does to a number and a flag, as long as numbers stay below
    2^63. */
module Words {
  import opened Rings
  import opened Queue

  const TOP: nat := 0x8000_0000_0000_0000
  const RANGE: nat := 2 * TOP

  // ----- the program's bit operations, as arithmetic on 64-bit numbers

  function Index(w: nat): nat {
    w % TOP
  }

  function Flag(w: nat): bool {
    w / TOP % 2 == 1
  }

  /** Or-ing with bit 63. */
  function SetFlag(w: nat): nat {
    Index(w) + TOP
  }

  function FetchAdd(w: nat, d: nat): nat {
    (w + d) % RANGE
  }

  /** A 64-bit word read as a signed number. */
  function Signed(w: nat): int {
    if w < TOP then w else w - RANGE
  }

  /** Masking bit 63 off is a remainder, testing it is a quotient, and setting it is adding it
      to the masked word. */
  lemma BitOperations(w: bv64)
    ensures w & !(1 << 63) == w % 0x8000_0000_0000_0000
    ensures (w & (1 << 63) != 0) == (w / 0x8000_0000_0000_0000 == 1)
    ensures w | (1 << 63) == (w & !(1 << 63)) + 0x8000_0000_0000_0000
    ensures w & 1023 == w % 1024
  {}

  // ----- packing

  function Pack(flag: bool, idx: nat): nat {
    if flag then idx + TOP else idx
  }

  lemma PackParts(flag: bool, idx: nat)
    requires idx < TOP
    ensures Pack(flag, idx) < RANGE && Index(Pack(flag, idx)) == idx && Flag(Pack(flag, idx)) == flag
    ensures SetFlag(Pack(flag, idx)) == Pack(true, idx)
  {}

  /** Comparing packed words compares the pairs. */
  lemma PackInjective(flag: bool, idx: nat, flag': bool, idx': nat)
    requires idx < TOP && idx' < TOP
    ensures Pack(flag, idx) == Pack(flag', idx') <==> flag == flag' && idx == idx'
  {
    PackParts(flag, idx);
    PackParts(flag', idx');
  }

  // ----- the tail word of a ring

  function TailBits(q: Ring): nat {
    Pack(q.closed, q.tail)
  }

  /** Adding one, setting the bit, and the jump of fixState, on the word and on the ring. */
  lemma TailOperations(q: Ring, t: nat, h: nat)
    requires q.tail + 1 < TOP && h < TOP
    ensures FetchAdd(TailBits(q), 1) == TailBits(DrawTail(q, t))
    ensures FetchAdd(TailBits(q), 0) == TailBits(q)
    ensures SetFlag(TailBits(q)) == TailBits(Close(q))
    ensures !q.closed ==> h == TailBits(RaiseTail(q, h))
    ensures Flag(TailBits(q)) == q.closed && Index(TailBits(q)) == q.tail
  {
    PackParts(q.closed, q.tail);
    PackParts(q.closed, q.tail + 1);
  }

  /** The expected value of the closing compare-and-swap. */
  lemma PoliteClose(q: Ring, k: nat)
    requires q.tail < TOP && k + 1 < TOP
    ensures TailBits(q) == k + 1 <==> TailWord(q) == Word(false, k + 1)
    ensures TailWord(q) == Word(false, k + 1) ==> SetFlag(k + 1) == TailBits(Close(q))
  {
    PackInjective(q.closed, q.tail, false, k + 1);
    PackParts(false, k + 1);
  }

  /** The unsigned comparisons the program makes with a raw `tail` word. */
  lemma TailComparisons(closed: bool, idx: nat, h: nat)
    requires idx < TOP && h < TOP
    ensures h > Pack(closed, idx) <==> !closed && h > idx
    ensures Pack(closed, idx) > h <==> closed || idx > h
  {}

  /** The signed difference that tells an enqueuer that the ring is full. */
  lemma SignedDifference(k: nat, h: nat)
    requires k < TOP && h < TOP
    ensures Signed((k - h + RANGE) % RANGE) == k - h
  {}

  // ----- the index word of a cell

  function CellBits(c: Cell): nat {
    Pack(c.unsafe, c.idx)
  }

  /** What the three dequeue CAS2s and the enqueue CAS2 store in the index word. */
  lemma CellOperations(q: Ring, k: nat, item: Item)
    requires |q.cells| > 0 && At(q, k).idx < TOP && k + |q.cells| < TOP
    ensures CellBits(At(Deposit(q, k, item), k)) == k
    ensures At(q, k).val.Some? ==> CellBits(At(Mark(q, k), k)) == SetFlag(CellBits(At(q, k)))
    ensures CellBits(At(Skip(q, k), k)) == Pack(Flag(CellBits(At(q, k))), k + |q.cells|)
    ensures At(q, k).val.Some? ==>
      CellBits(At(Deliver(q, k), k)) == Pack(Flag(CellBits(At(q, k))), k + |q.cells|)
  {
    PackParts(At(q, k).unsafe, At(q, k).idx);
  }

  /** The slot of a ticket is its remainder by the ring size: what is left is a multiple. */
  lemma {:induction false} ResidueIsRemainder(k: nat, n: nat) returns (d: nat)
    requires n > 0
    ensures k == n * d + Residue(k, n)
  {
    if k < n {
      d := 0;
    } else {
      var e := ResidueIsRemainder(k - n, n);
      d := e + 1;
    }
  }
}
