/** The size classes of the allocator, on a machine with 8-byte pointers and 4096-byte pages. */
module Classes {

  const PAGESIZE := 4096
  const NUMSMALL := 9

  function Pow2(n: nat): (r: nat)
    ensures r > 0
  {
    if n == 0 then 1 else 2 * Pow2(n - 1)
  }

  /** The index of the highest set bit. */
  function HighBit(x: nat): nat
    requires x > 0
  {
    if x == 1 then 0 else 1 + HighBit(x / 2)
  }

  /** The bytes of a chunk of class `l`. */
  function Size(l: nat): nat {
    8 * Pow2(l)
  }

  /** The chunks of a page. */
  function PerPage(l: nat): nat {
    Shift(PAGESIZE / 8, l)
  }

  /** `x >> l`. */
  function Shift(x: nat, l: nat): nat {
    if l == 0 then x else Shift(x / 2, l - 1)
  }

  /** The chunks a thread takes from, and gives back to, the shared pages at a time. */
  function Target(l: nat): nat
    requires l < NUMSMALL
  {
    2 * Pow2((NUMSMALL - 1 - l) / 2)
  }

  /** The values of a 32-bit word. */
  const WORD: nat := 0x1_0000_0000

  /** `(sz - 1) | 1`, as the bit scan reads it, where the int `sz` is what is left of `size`. */
  function Scanned(size: nat): (x: nat)
    ensures x > 0
  {
    var x := (size % WORD + WORD - 1) % WORD;
    if x % 2 == 0 then x + 1 else x
  }

  /** SMLIST: the class for a request of `size` bytes, or -1 when it takes whole pages. */
  function Smlist(size: nat): int {
    var bit := HighBit(Scanned(size));
    var rv := if bit < 2 then 0 else bit - 2;
    if rv >= NUMSMALL then -1 else rv
  }

  lemma SmlistRange(size: nat)
    ensures -1 <= Smlist(size) < NUMSMALL
  {}

  lemma {:induction false} HighBitBounds(x: nat)
    requires x > 0
    ensures Pow2(HighBit(x)) <= x < 2 * Pow2(HighBit(x))
  {
    if x > 1 {
      HighBitBounds(x / 2);
    }
  }

  lemma {:induction false} Pow2Mono(a: nat, b: nat)
    requires a <= b
    ensures Pow2(a) <= Pow2(b)
  {
    if a < b {
      Pow2Mono(a, b - 1);
    }
  }

  lemma Doubled(n: nat)
    ensures Pow2(n + 1) == 2 * Pow2(n)
  {}

  /** The bit scan finds the least power of two, from 8 up, that holds the request. */
  lemma ScanLeast(size: nat, l: nat)
    requires 0 < size < WORD
    ensures var bit := HighBit(Scanned(size));
      && size <= 2 * Pow2(bit)
      && (size <= Size(l) ==> bit < l + 3)
  {
    var x := Scanned(size);
    assert x == if (size - 1) % 2 == 0 then size else size - 1;
    HighBitBounds(x);
    Doubled(l + 2);
    Doubled(l + 1);
    Doubled(l);
    if size <= Size(l) && l + 3 <= HighBit(x) {
      Pow2Mono(l + 3, HighBit(x));
    }
  }

  /** The class is the least whose chunks hold what the cast to int leaves of the request; whole pages
      serve more than half a page, and, with this bit scan, a request of no bytes. */
  lemma SmlistLeast(size: nat)
    ensures var sz := size % WORD;
      && (Smlist(size) == -1 <==> sz == 0 || sz > PAGESIZE / 2)
      && (0 < sz <= PAGESIZE / 2 ==> 0 <= Smlist(size) < NUMSMALL && sz <= Size(Smlist(size)))
      && (forall l: nat :: 0 < sz <= Size(l) ==> Smlist(size) <= l)
  {
    var sz := size % WORD;
    assert Scanned(size) == Scanned(sz);
    EightClasses();
    if sz == 0 {
      NoBytes();
    } else {
      SmlistOfInt(sz);
    }
  }

  lemma NoBytes()
    ensures Smlist(0) == -1
  {
    var bit := HighBit(WORD - 1);
    HighBitBounds(WORD - 1);
    EightClasses();
    if bit <= 10 {
      Pow2Mono(bit, 10);
    }
  }

  lemma SmlistOfInt(size: nat)
    requires 0 < size < WORD
    ensures Smlist(size) == -1 <==> size > PAGESIZE / 2
    ensures size <= PAGESIZE / 2 ==> 0 <= Smlist(size) < NUMSMALL && size <= Size(Smlist(size))
    ensures forall l: nat :: size <= Size(l) ==> Smlist(size) <= l
  {
    var bit := HighBit(Scanned(size));
    forall l: nat ensures size <= Size(l) ==> bit < l + 3 {
      ScanLeast(size, l);
    }
    ScanLeast(size, 0);
    EightClasses();
    hide Scanned;
    assert size <= Size(8) ==> bit < 11;
    if bit < 11 {
      Pow2Mono(bit, 10);
      if bit >= 2 {
        Doubled(bit - 2);
        Doubled(bit - 1);
      }
    }
  }

  /** A chunk of the class holds the request just when the cast loses nothing of it. */
  lemma SmlistHolds(size: nat)
    requires Smlist(size) >= 0
    ensures size <= Size(Smlist(size)) <==> size < WORD
  {
    SmlistLeast(size);
    EightClasses();
    var l := Smlist(size);
    Pow2Mono(l, 8);
  }

  /** A request of 2^32 + 8 bytes gets a chunk of 8. */
  lemma CastLosesRequest()
    ensures Smlist(WORD + 8) == 0 && Size(0) == 8
  {
    SmlistLeast(WORD + 8);
    EightClasses();
  }

  lemma EightClasses()
    ensures Pow2(0) == 1 && Pow2(1) == 2 && Pow2(8) == 256 && Size(8) == 2048 && Pow2(9) == 512 && Pow2(10) == 1024
  {
    assert Pow2(4) == 16 && Pow2(8) == 256;
  }

  lemma Twice(x: nat, y: nat)
    ensures x * (2 * y) == 2 * (x * y)
  {}

  lemma {:induction false} ShiftPower(a: nat, l: nat)
    requires l <= a
    ensures Shift(Pow2(a), l) == Pow2(a - l) && Pow2(a - l) * Pow2(l) == Pow2(a)
  {
    if l > 0 {
      Doubled(a - 1);
      Doubled(l - 1);
      ShiftPower(a - 1, l - 1);
      Twice(Pow2(a - l), Pow2(l - 1));
    }
  }

  /** The chunks of a class fill a page exactly. */
  lemma ChunksFillPage(l: nat)
    requires l < NUMSMALL
    ensures PerPage(l) * Size(l) == PAGESIZE && PerPage(l) > 1 && 0 < Target(l) <= 32
  {
    EightClasses();
    ShiftPower(9, l);
    Pow2Mono(1, 9 - l);
    Pow2Mono((NUMSMALL - 1 - l) / 2, 4);
    assert Pow2(4) == 16;
  }
}
