/**
  The parity bit of a packet header: the driver's table lookup gives the bit that makes the
  number of set bits odd.
 */
module Parity {
  import opened Pm4

  /** The expression the driver computes the parity bit with. */
  function ParityByTable(v: bv32): bv32 {
    var nibble := 0xf & (v ^ (v >> 4) ^ (v >> 8) ^ (v >> 12) ^ (v >> 16) ^ (v >> 20) ^ (v >> 24) ^ (v >> 28));
    (0x9669 >> (nibble as int)) & 1
  }

  /** The table lookup is the complement of the exclusive or of all 32 bits. */
  lemma ParityTableIsOddParity(v: bv32)
    ensures var a := v ^ (v >> 16); var b := a ^ (a >> 8); var c := b ^ (b >> 4);
      var d := c ^ (c >> 2); var e := d ^ (d >> 1);
      ParityByTable(v) == 1 ^ (e & 1)
  {
    var nibble := 0xf & (v ^ (v >> 4) ^ (v >> 8) ^ (v >> 12) ^ (v >> 16) ^ (v >> 20) ^ (v >> 24) ^ (v >> 28));
    var d := nibble ^ (nibble >> 2);
    var e := d ^ (d >> 1);
    assert (0x9669 >> (nibble as int)) & 1 == 1 ^ (e & 1) by {
      assert nibble <= 15;
    }
  }

  // -------------------------------------------------------- numbers and their nibbles

  function Nibble0(v: bv32): bv32 { v & 0xf }
  function Nibble1(v: bv32): bv32 { (v >> 4) & 0xf }

  /** A byte of `v`. */
  function Byte0(v: bv32): bv32 { v & 0xff }
  function Byte1(v: bv32): bv32 { (v >> 8) & 0xff }
  function Byte2(v: bv32): bv32 { (v >> 16) & 0xff }
  function Byte3(v: bv32): bv32 { (v >> 24) & 0xff }

  lemma TopByte(v: bv32)
    ensures v as nat == 0x100_0000 * (Byte3(v) as nat) + (v & 0xff_ffff) as nat
  {
    assert v as nat == (v & 0xff00_0000) as nat + (v & 0xff_ffff) as nat;
    ShiftUp(Byte3(v));
    assert Byte3(v) << 24 == v & 0xff00_0000;
  }

  lemma ShiftUp(h: bv32)
    requires h < 0x100
    ensures (h << 24) as nat == 0x100_0000 * (h as nat)
  {
  }

  lemma ThirdByte(v: bv32)
    ensures (v & 0xff_ffff) as nat == 0x1_0000 * (Byte2(v) as nat) + (v & 0xffff) as nat
  {
    SplitThird(v & 0xff_ffff);
    assert (v & 0xff_ffff) >> 16 == Byte2(v) && (v & 0xff_ffff) & 0xffff == v & 0xffff;
  }

  lemma SplitThird(w: bv32)
    requires w < 0x100_0000
    ensures w as nat == 0x1_0000 * ((w >> 16) as nat) + (w & 0xffff) as nat
  {
  }

  lemma SecondByte(v: bv32)
    ensures (v & 0xffff) as nat == 0x100 * (Byte1(v) as nat) + Byte0(v) as nat
  {
    SplitSecond(v & 0xffff);
    assert (v & 0xffff) >> 8 == Byte1(v) && (v & 0xffff) & 0xff == Byte0(v);
  }

  lemma SplitSecond(w: bv32)
    requires w < 0x1_0000
    ensures w as nat == 0x100 * ((w >> 8) as nat) + (w & 0xff) as nat
  {
  }

  lemma ByteNibbles(b: bv32)
    requires b < 0x100
    ensures b as nat == 0x10 * (Nibble1(b) as nat) + Nibble0(b) as nat
  {
    assert b as nat == 0x10 * ((b >> 4) as nat) + (b & 0xf) as nat;
    assert b >> 4 == Nibble1(b);
  }

  // ------------------------------------------------------------------- counting bits

  lemma BitCountHalf(a: nat, bit: nat)
    requires bit < 2
    ensures BitCount(2 * a + bit) == BitCount(a) + bit
  {
    assert (2 * a + bit) / 2 == a && (2 * a + bit) % 2 == bit;
  }

  lemma BitCountPair(a: nat, n: nat)
    requires n < 4
    ensures BitCount(4 * a + n) == BitCount(a) + BitCount(n)
  {
    BitCountHalf(2 * a + n / 2, n % 2);
    BitCountHalf(a, n / 2);
    BitCountHalf(n / 2, n % 2);
    BitCountHalf(0, n / 2);
  }

  lemma BitCountNibble(a: nat, n: nat)
    requires n < 16
    ensures BitCount(16 * a + n) == BitCount(a) + BitCount(n)
  {
    BitCountPair(4 * a + n / 4, n % 4);
    BitCountPair(a, n / 4);
    BitCountPair(n / 4, n % 4);
  }

  lemma BitCountByte(a: nat, hi: nat, lo: nat)
    requires hi < 16 && lo < 16
    ensures BitCount(0x100 * a + (0x10 * hi + lo)) == BitCount(a) + BitCount(hi) + BitCount(lo)
  {
    BitCountNibble(16 * a + hi, lo);
    BitCountNibble(a, hi);
  }

  /** A 16-bit half, counted nibble by nibble. */
  lemma BitCountHalfWord(a: nat, h3: nat, h2: nat, h1: nat, h0: nat)
    requires h3 < 16 && h2 < 16 && h1 < 16 && h0 < 16
    ensures BitCount(0x1_0000 * a + 0x100 * (0x10 * h3 + h2) + (0x10 * h1 + h0))
         == BitCount(a) + BitCount(h3) + BitCount(h2) + BitCount(h1) + BitCount(h0)
  {
    BitCountByte(0x100 * a + (0x10 * h3 + h2), h1, h0);
    BitCountByte(a, h3, h2);
  }

  /** The set bits of a byte, counted nibble by nibble. */
  function ByteCount(b: bv32): nat { BitCount(Nibble1(b) as nat) + BitCount(Nibble0(b) as nat) }

  lemma UpperBytes(v: bv32)
    ensures v as nat == 0x1_0000 * (0x100 * (Byte3(v) as nat) + Byte2(v) as nat)
                        + 0x100 * (Byte1(v) as nat) + Byte0(v) as nat
  {
    TopByte(v);
    ThirdByte(v);
    SecondByte(v);
  }

  lemma TwoBytes(a: nat, hi: bv32, lo: bv32)
    requires hi < 0x100 && lo < 0x100
    ensures BitCount(0x1_0000 * a + 0x100 * (hi as nat) + lo as nat) == BitCount(a) + ByteCount(hi) + ByteCount(lo)
  {
    ByteNibbles(hi);
    ByteNibbles(lo);
    BitCountHalfWord(a, Nibble1(hi) as nat, Nibble0(hi) as nat, Nibble1(lo) as nat, Nibble0(lo) as nat);
  }

  lemma BytesCount(v: bv32)
    ensures BitCount(v as nat)
         == ByteCount(Byte3(v)) + ByteCount(Byte2(v)) + ByteCount(Byte1(v)) + ByteCount(Byte0(v))
  {
    UpperBytes(v);
    TopBytes(Byte3(v), Byte2(v));
    TwoBytes(0x100 * (Byte3(v) as nat) + Byte2(v) as nat, Byte1(v), Byte0(v));
  }

  lemma TopBytes(hi: bv32, lo: bv32)
    requires hi < 0x100 && lo < 0x100
    ensures BitCount(0x100 * (hi as nat) + lo as nat) == ByteCount(hi) + ByteCount(lo)
  {
    TwoBytes(0, hi, lo);
  }

  /** The exclusive or of a nibble's bits. */
  function Fold(n: bv32): bv32 { (n ^ (n >> 1) ^ (n >> 2) ^ (n >> 3)) & 1 }

  lemma FoldCounts(n: bv32)
    requires n < 16
    ensures BitCount(n as nat) % 2 == Fold(n) as nat
  {
    assert n == 0 || n == 1 || n == 2 || n == 3 || n == 4 || n == 5 || n == 6 || n == 7 || n == 8 || n == 9
        || n == 10 || n == 11 || n == 12 || n == 13 || n == 14 || n == 15;
    SmallCounts();
  }

  lemma SmallCounts()
    ensures BitCount(0) == 0 && BitCount(1) == 1 && BitCount(2) == 1 && BitCount(3) == 2
    ensures BitCount(4) == 1 && BitCount(5) == 2 && BitCount(6) == 2 && BitCount(7) == 3
    ensures BitCount(8) == 1 && BitCount(9) == 2 && BitCount(10) == 2 && BitCount(11) == 3
    ensures BitCount(12) == 2 && BitCount(13) == 3 && BitCount(14) == 3 && BitCount(15) == 4
  {
  }

  /** The table, at one nibble. */
  function ParityOf(n: bv32): bv32
    requires n < 16
  {
    (0x9669 >> (n as int)) & 1
  }

  lemma TableFolds(n: bv32)
    requires n < 16
    ensures ParityOf(n) == 1 ^ Fold(n)
  {
    var d := n ^ (n >> 2);
    var e := d ^ (d >> 1);
    assert (0x9669 >> (n as int)) & 1 == 1 ^ (e & 1) by {
      assert n <= 15;
    }
    assert e & 1 == Fold(n);
  }

  lemma FoldXor(a: bv32, b: bv32)
    ensures Fold(a ^ b) == Fold(a) ^ Fold(b) && Fold(a) < 2
  {
  }

  lemma XorCounts(p: bv32, q: bv32, m: nat, n: nat)
    requires p < 2 && q < 2 && m % 2 == p as nat && n % 2 == q as nat
    ensures p ^ q < 2 && (m + n) % 2 == (p ^ q) as nat
  {
    assert (p == 0 || p == 1) && (q == 0 || q == 1);
  }

  /** Two nibbles folded into one count as both. */
  lemma FoldBoth(a: bv32, b: bv32, m: nat)
    requires b < 16 && m % 2 == Fold(a) as nat
    ensures (m + BitCount(b as nat)) % 2 == Fold(a ^ b) as nat
  {
    FoldCounts(b);
    FoldXor(a, b);
    FoldXor(b, a);
    XorCounts(Fold(a), Fold(b), m, BitCount(b as nat));
  }

  /** A byte's nibbles, folded onto `a`. */
  function Onto(a: bv32, b: bv32): bv32 { a ^ Nibble1(b) ^ Nibble0(b) }

  lemma FoldByte(a: bv32, b: bv32, m: nat)
    requires m % 2 == Fold(a) as nat
    ensures (m + ByteCount(b)) % 2 == Fold(Onto(a, b)) as nat
  {
    FoldNibbles(a, Nibble1(b), Nibble0(b), m);
  }

  lemma FoldNibbles(a: bv32, hi: bv32, lo: bv32, m: nat)
    requires hi < 16 && lo < 16 && m % 2 == Fold(a) as nat
    ensures (m + BitCount(hi as nat) + BitCount(lo as nat)) % 2 == Fold(a ^ hi ^ lo) as nat
  {
    FoldBoth(a, hi, m);
    FoldBoth(a ^ hi, lo, m + BitCount(hi as nat));
  }

  lemma FoldFour(b3: bv32, b2: bv32, b1: bv32, b0: bv32)
    ensures (ByteCount(b3) + ByteCount(b2) + ByteCount(b1) + ByteCount(b0)) % 2
         == Fold(Onto(Onto(Onto(Onto(0, b3), b2), b1), b0)) as nat
  {
    var c3 := ByteCount(b3);
    var c2 := c3 + ByteCount(b2);
    FoldByte(0, b3, 0);
    FoldByte(Onto(0, b3), b2, c3);
    FoldByte(Onto(Onto(0, b3), b2), b1, c2);
    FoldByte(Onto(Onto(Onto(0, b3), b2), b1), b0, c2 + ByteCount(b1));
  }

  /** All eight nibbles, folded into one. */
  function AllNibbles(v: bv32): bv32 {
    Onto(Onto(Onto(Onto(0, Byte3(v)), Byte2(v)), Byte1(v)), Byte0(v))
  }

  lemma NibblesCount(v: bv32)
    ensures BitCount(v as nat) % 2 == Fold(AllNibbles(v)) as nat
  {
    BytesCount(v);
    FoldFour(Byte3(v), Byte2(v), Byte1(v), Byte0(v));
  }

  lemma AllNibblesIsTheIndex(v: bv32)
    ensures AllNibbles(v) < 16 && ParityByTable(v) == ParityOf(AllNibbles(v))
  {
    var nibble := 0xf & (v ^ (v >> 4) ^ (v >> 8) ^ (v >> 12) ^ (v >> 16) ^ (v >> 20) ^ (v >> 24) ^ (v >> 28));
    assert AllNibbles(v) == nibble;
  }

  lemma OtherBit(f: bv32)
    requires f < 2
    ensures (1 ^ f) as nat == 1 - f as nat
  {
    assert f == 0 || f == 1;
  }

  /** The driver's expression is the odd parity bit of the number. */
  lemma TableIsOddParity(v: bv32)
    ensures ParityByTable(v) as nat == OddParityBit(v as nat)
  {
    var n := AllNibbles(v);
    AllNibblesIsTheIndex(v);
    TableFolds(n);
    NibblesCount(v);
    FoldXor(n, 0);
    OtherBit(Fold(n));
  }
}
