/**
  The PM4 packet format: headers as the driver builds them, the header tests and field
  extractors it publishes, and a parser that walks a word stream packet by packet.

  Words are numbers below 2^32.  The fields of a header do not overlap, so joining them
  with OR is addition.
 */
module Pm4 {
  import opened Basics

  // ------------------------------------------------------------------- headers

  function BitCount(v: nat): nat {
    if v == 0 then 0 else v % 2 + BitCount(v / 2)
  }

  /** pm4_calc_odd_parity_bit: 1 makes the number of set bits, this one included, odd. */
  function OddParityBit(v: nat): (b: nat)
    ensures b <= 1 && (b + BitCount(v)) % 2 == 1
  {
    if BitCount(v) % 2 == 0 then 1 else 0
  }

  datatype Packet =
    | Type0(reg: nat, payload: seq<word>)
    | Type3(op: nat, payload: seq<word>)
    | Type4(reg: nat, payload: seq<word>)
    | Type7(op: nat, payload: seq<word>)

  /** The packets whose header fields are wide enough for them. */
  predicate Valid(p: Packet) {
    match p
    case Type0(reg, pl) => reg < 0x8000 && 1 <= |pl| <= 0x4000
    case Type3(op, pl) => op < 0x80 && 1 <= |pl| <= 0x4000
    case Type4(reg, pl) => reg < 0x4_0000 && |pl| <= 0x7F
    case Type7(op, pl) => op < 0x80 && |pl| <= 0x3FFF
  }

  /** cp_type0_packet */
  function Type0Header(reg: nat, cnt: nat): word
    requires reg < 0x8000 && 1 <= cnt <= 0x4000
  {
    (cnt - 1) * 0x1_0000 + reg
  }

  /** cp_type3_packet */
  function Type3Header(op: nat, cnt: nat): word
    requires op < 0x100 && 1 <= cnt <= 0x4000
  {
    0xC000_0000 + (cnt - 1) * 0x1_0000 + op * 0x100
  }

  /** cp_type4_packet */
  function Type4Header(reg: nat, cnt: nat): word
    requires reg < 0x4_0000 && cnt <= 0x7F
  {
    0x4000_0000 + cnt + OddParityBit(cnt) * 0x80 + reg * 0x100 + OddParityBit(reg) * 0x800_0000
  }

  /** cp_type7_packet */
  function Type7Header(op: nat, cnt: nat): word
    requires op < 0x80 && cnt <= 0x3FFF
  {
    0x7000_0000 + cnt + OddParityBit(cnt) * 0x8000 + op * 0x1_0000 + OddParityBit(op) * 0x80_0000
  }

  function Header(p: Packet): word
    requires Valid(p)
  {
    match p
    case Type0(reg, pl) => Type0Header(reg, |pl|)
    case Type3(op, pl) => Type3Header(op, |pl|)
    case Type4(reg, pl) => Type4Header(reg, |pl|)
    case Type7(op, pl) => Type7Header(op, |pl|)
  }

  // The header tests: pkt_is_type0, pkt_is_type3, pkt_is_type4, pkt_is_type7.

  predicate IsType0(h: word) { h / 0x4000_0000 == 0 }

  predicate IsType3(h: word) {
    h / 0x4000_0000 == 3 && h / 2 % 0x80 == 0 && h / 0x8000 % 2 == 0
  }

  predicate IsType4(h: word) {
    && h / 0x1000_0000 == 4
    && h / 0x800_0000 % 2 == OddParityBit(h / 0x100 % 0x8_0000)
    && h / 0x80 % 2 == OddParityBit(h % 0x80)
  }

  predicate IsType7(h: word) {
    && h / 0x1000_0000 == 7 && h / 0x100_0000 % 0x10 == 0
    && h / 0x80_0000 % 2 == OddParityBit(h / 0x1_0000 % 0x80)
    && h / 0x8000 % 2 == OddParityBit(h % 0x4000)
  }

  /** The size fields: type0_pkt_size and its siblings. */
  function PayloadSize(h: word): Option<nat> {
    if IsType0(h) || IsType3(h) then Some(h / 0x1_0000 % 0x4000 + 1)
    else if IsType4(h) then Some(h % 0x80)
    else if IsType7(h) then Some(h % 0x4000)
    else None
  }

  /** The packet that header `h` starts, given its payload. */
  function Rebuild(h: word, payload: seq<word>): Packet {
    if IsType0(h) then Type0(h % 0x8000, payload)
    else if IsType3(h) then Type3(h / 0x100 % 0x100, payload)
    else if IsType4(h) then Type4(h / 0x100 % 0x8_0000, payload)
    else Type7(h / 0x1_0000 % 0x80, payload)
  }

  lemma Split(x: nat, base: nat, hi: nat, lo: nat)
    requires lo < base && x == hi * base + lo
    ensures x / base == hi && x % base == lo
  {
    var q, r := x / base, x % base;
    assert x == base * q + r;
    if q > hi {
      Multiples(base, hi, q);
    } else if q < hi {
      Multiples(base, q, hi);
    }
  }

  lemma {:induction false} Multiples(base: nat, m: nat, n: nat)
    requires m < n
    ensures base * m + base <= base * n
  {
    if m + 1 < n {
      Multiples(base, m, n - 1);
    }
    assert base * n == base * (n - 1) + base;
  }

  lemma Type0RoundTrip(reg: nat, pl: seq<word>)
    requires Valid(Type0(reg, pl))
    ensures PayloadSize(Type0Header(reg, |pl|)) == Some(|pl|)
    ensures Rebuild(Type0Header(reg, |pl|), pl) == Type0(reg, pl)
  {
    var h := Type0Header(reg, |pl|);
    Split(h, 0x1_0000, |pl| - 1, reg);
    Split(h, 0x8000, (|pl| - 1) * 2, reg);
  }

  lemma Type3RoundTrip(op: nat, pl: seq<word>)
    requires Valid(Type3(op, pl))
    ensures PayloadSize(Type3Header(op, |pl|)) == Some(|pl|)
    ensures Rebuild(Type3Header(op, |pl|), pl) == Type3(op, pl)
  {
    var cnt := |pl|;
    var h := Type3Header(op, cnt);
    Split(h, 0x1_0000, 0xC000 + cnt - 1, op * 0x100);
    Split(0xC000 + cnt - 1, 0x4000, 3, cnt - 1);
    Split(h, 0x100, 0xC0_0000 + (cnt - 1) * 0x100 + op, 0);
    Split(0xC0_0000 + (cnt - 1) * 0x100 + op, 0x100, 0xC000 + cnt - 1, op);
    Split(h, 2, 0x6000_0000 + (cnt - 1) * 0x8000 + op * 0x80, 0);
    Split(h / 2, 0x80, 0xC0_0000 + (cnt - 1) * 0x100 + op, 0);
    Split(h, 0x8000, 0x1_8000 + (cnt - 1) * 2, op * 0x100);
    Split(h / 0x8000, 2, 0xC000 + cnt - 1, 0);
    assert !IsType0(h) && IsType3(h);
  }

  lemma Type4RoundTrip(reg: nat, pl: seq<word>)
    requires Valid(Type4(reg, pl))
    ensures PayloadSize(Type4Header(reg, |pl|)) == Some(|pl|)
    ensures Rebuild(Type4Header(reg, |pl|), pl) == Type4(reg, pl)
  {
    var cnt := |pl|;
    var h := Type4Header(reg, cnt);
    var p, q := OddParityBit(cnt), OddParityBit(reg);
    Split(h, 0x80, 0x80_0000 + p + reg * 2 + q * 0x10_0000, cnt);
    Split(h / 0x80, 2, 0x40_0000 + reg + q * 0x8_0000, p);
    Split(h, 0x100, 0x40_0000 + reg + q * 0x8_0000, cnt + p * 0x80);
    Split(h / 0x100, 0x8_0000, 8 + q, reg);
    Split(h, 0x800_0000, 8 + q, cnt + p * 0x80 + reg * 0x100);
    Split(8 + q, 2, 4, q);
    assert !IsType0(h) && !IsType3(h) && IsType4(h);
  }

  lemma Type7RoundTrip(op: nat, pl: seq<word>)
    requires Valid(Type7(op, pl))
    ensures PayloadSize(Type7Header(op, |pl|)) == Some(|pl|)
    ensures Rebuild(Type7Header(op, |pl|), pl) == Type7(op, pl)
  {
    var cnt := |pl|;
    var h := Type7Header(op, cnt);
    var p, q := OddParityBit(cnt), OddParityBit(op);
    Split(h, 0x4000, 0x1_C000 + 2 * p + 4 * op + 0x200 * q, cnt);
    Split(h, 0x8000, 0xE000 + p + 2 * op + 0x100 * q, cnt);
    Split(h / 0x8000, 2, 0x7000 + op + 0x80 * q, p);
    Split(h, 0x1_0000, 0x7000 + op + 0x80 * q, cnt + p * 0x8000);
    Split(h / 0x1_0000, 0x80, 0xE0 + q, op);
    Split(h, 0x80_0000, 0xE0 + q, cnt + p * 0x8000 + op * 0x1_0000);
    Split(0xE0 + q, 2, 0x70, q);
    Split(h, 0x100_0000, 0x70, cnt + p * 0x8000 + op * 0x1_0000 + q * 0x80_0000);
    assert !IsType0(h) && !IsType3(h) && !IsType4(h) && IsType7(h);
  }

  /** Every valid header is recognised, with its own size, opcode and register. */
  lemma HeaderRoundTrip(p: Packet)
    requires Valid(p)
    ensures PayloadSize(Header(p)) == Some(|p.payload|) && Rebuild(Header(p), p.payload) == p
  {
    match p
    case Type0(reg, pl) => Type0RoundTrip(reg, pl);
    case Type3(op, pl) => Type3RoundTrip(op, pl);
    case Type4(reg, pl) => Type4RoundTrip(reg, pl);
    case Type7(op, pl) => Type7RoundTrip(op, pl);
  }

  // -------------------------------------------------------------------- streams

  function Words(p: Packet): seq<word>
    requires Valid(p)
  {
    [Header(p)] + p.payload
  }

  /** `x`, then whatever `y` is, if it is anything. */
  function Then<T>(x: seq<T>, y: Option<seq<T>>): Option<seq<T>> {
    if y.None? then None else Some(x + y.value)
  }

  lemma ThenThen<T>(x: seq<T>, y: seq<T>, z: Option<seq<T>>)
    ensures Then(x, Then(y, z)) == Then(x + y, z)
    ensures Then([], z) == z
  {
    if z.Some? {
      assert x + (y + z.value) == x + y + z.value;
      assert [] + z.value == z.value;
    }
  }

  /** Walks a stream packet by packet; a stray header or a cut packet is no parse. */
  function Parse(ws: seq<word>): Option<seq<Packet>> {
    if ws == [] then Some([])
    else
      var n := PayloadSize(ws[0]);
      if n.None? || |ws| < 1 + n.value then None
      else Then([Rebuild(ws[0], ws[1..1 + n.value])], Parse(ws[1 + n.value..]))
  }

  lemma ParsePacket(p: Packet, rest: seq<word>)
    requires Valid(p)
    ensures Parse(Words(p) + rest) == Then([p], Parse(rest))
  {
    HeaderRoundTrip(p);
    var ws := Words(p) + rest;
    assert ws[0] == Header(p);
    assert ws[1..1 + |p.payload|] == p.payload;
    assert ws[1 + |p.payload|..] == rest;
  }

  lemma ParseStep(a: seq<word>, b: seq<word>, n: nat)
    requires a != [] && PayloadSize(a[0]) == Some(n) && 1 + n <= |a|
    ensures Parse(a + b) == Then([Rebuild(a[0], a[1..1 + n])], Parse(a[1 + n..] + b))
  {
    assert (a + b)[1 + n..] == a[1 + n..] + b;
    assert (a + b)[1..1 + n] == a[1..1 + n];
  }

  /** A whole stream followed by another parses as one after the other. */
  lemma {:induction false} ParseConcat(a: seq<word>, b: seq<word>)
    requires Parse(a).Some?
    ensures Parse(a + b) == Then(Parse(a).value, Parse(b))
    decreases |a|
  {
    if a == [] {
      assert a + b == b;
      ThenThen([], [], Parse(b));
    } else {
      var n := PayloadSize(a[0]).value;
      var t := a[1 + n..];
      ParseConcat(t, b);
      ParseStep(a, b, n);
      ThenThen([Rebuild(a[0], a[1..1 + n])], Parse(t).value, Parse(b));
    }
  }
}
