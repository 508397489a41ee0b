/**
  The AHB timeout exponent, computed from the hub clock and the GPU's NOC timeout.
 */
module AhbTimeout {
  import opened Basics

  const HZ_PER_MHZ := 1000000
  const ADRENO_AHB_MIN_TIMEOUT_VAL_USEC := 1000

  function Pow2(n: nat): nat {
    if n == 0 then 1 else 2 * Pow2(n - 1)
  }

  /** ilog2 of a non-zero value */
  function Log2(n: nat): nat
    requires n > 0
  {
    if n == 1 then 0 else 1 + Log2(n / 2)
  }

  lemma {:induction false} Log2Bounds(n: nat)
    requires n > 0
    ensures Pow2(Log2(n)) <= n < 2 * Pow2(Log2(n))
  {
    if n > 1 {
      Log2Bounds(n / 2);
    }
  }

  lemma {:induction false} Pow2Monotone(a: nat, b: nat)
    requires a < b
    ensures 2 * Pow2(a) <= Pow2(b)
  {
    if a + 1 < b {
      Pow2Monotone(a, b - 1);
    }
  }

  predicate IsPowerOf2(n: nat) { n != 0 && n == Pow2(Log2(n)) }

  /** `1 << n` is an int: bit 31 is its sign, and widening to 64 bits copies it upwards. */
  function ShiftedOne(n: nat): nat
    requires n <= 31
  {
    if n == 31 then U64 - 0x8000_0000 else Pow2(n)
  }

  function HubMhz(hubHz: qword): nat { hubHz / HZ_PER_MHZ }

  function Cycles(hubHz: qword, nocUs: word): qword { HubMhz(hubHz) * nocUs % U64 }

  /** adreno_get_ahb_timeout_val; ilog2 of zero is minus one, which as a u32 is out of range. */
  function TimeoutVal(hubHz: qword, nocUs: word): int
  {
    var cycles := Cycles(hubHz, nocUs);
    if nocUs == 0 then 0
    else
      var c := if IsPowerOf2(cycles) then cycles - 1 else cycles;
      if c == 0 then 0
      else
        var t := Log2(c);
        if t > 31 || ADRENO_AHB_MIN_TIMEOUT_VAL_USEC * HubMhz(hubHz) > ShiftedOne(t) then 0 else t - 1
  }

  /** The cycles of a NOC timeout before any 64-bit wrap. */
  function TrueCycles(hubHz: qword, nocUs: word): nat { HubMhz(hubHz) * nocUs }

  /** `t` is the largest exponent of a power of two below `cycles`. */
  predicate LargestBelow(t: nat, cycles: nat) { Pow2(t) < cycles <= Pow2(t + 1) }

  lemma LogIsLargestBelow(cycles: nat)
    requires cycles > 1
    ensures LargestBelow(Log2(if IsPowerOf2(cycles) then cycles - 1 else cycles), cycles)
  {
    Log2Bounds(cycles);
    Log2Bounds(if IsPowerOf2(cycles) then cycles - 1 else cycles);
    if IsPowerOf2(cycles) {
      var m, t := Log2(cycles), Log2(cycles - 1);
      if t < m - 1 {
        Pow2Monotone(t + 1, m);
        Pow2Monotone(t, t + 1);
      } else if t > m - 1 && t > m {
        Pow2Monotone(m, t);
      }
    }
  }

  /** The last subtraction never goes below zero: an exponent of zero is always rejected. */
  lemma NoUnderflow(hubHz: qword, nocUs: word)
    ensures TimeoutVal(hubHz, nocUs) >= 0
  {
    if HubMhz(hubHz) == 0 {
      assert Cycles(hubHz, nocUs) == 0;
    }
  }

  /**
    A non-zero result programs the longest power-of-two timeout, 2 ^ (r + 1) cycles, that is
    still shorter than the NOC timeout.
   */
  lemma TimeoutIsLargest(hubHz: qword, nocUs: word)
    requires TrueCycles(hubHz, nocUs) < U64 && TimeoutVal(hubHz, nocUs) != 0
    ensures var r := TimeoutVal(hubHz, nocUs);
      0 < r <= 30 && LargestBelow(r + 1, TrueCycles(hubHz, nocUs))
  {
    var cycles := Cycles(hubHz, nocUs);
    assert cycles == TrueCycles(hubHz, nocUs);
    NoUnderflow(hubHz, nocUs);
    assert Log2(1) == 0 && IsPowerOf2(1);
    LogIsLargestBelow(cycles);
  }

  /**
    It is also at least a millisecond, 1000 cycles for each MHz, if and only if these are at
    most 2 ^ 31: with a faster hub clock the sign bit of the shift decides the comparison.
   */
  lemma TimeoutIsLongEnough(hubHz: qword, nocUs: word)
    requires TimeoutVal(hubHz, nocUs) != 0
    ensures var r := TimeoutVal(hubHz, nocUs);
      r > 0 && (Pow2(r + 1) >= ADRENO_AHB_MIN_TIMEOUT_VAL_USEC * HubMhz(hubHz)
                <==> ADRENO_AHB_MIN_TIMEOUT_VAL_USEC * HubMhz(hubHz) <= 0x8000_0000)
  {
    NoUnderflow(hubHz, nocUs);
    PowerOf31();
    var r := TimeoutVal(hubHz, nocUs);
    if r < 30 {
      Pow2Monotone(r + 1, 31);
    }
  }

  /** There is only one such exponent. */
  lemma OneLargest(t: nat, u: nat, cycles: nat)
    requires LargestBelow(t, cycles) && LargestBelow(u, cycles)
    ensures t == u
  {
    if t < u {
      Pow2Monotone(t, u);
    } else if u < t {
      Pow2Monotone(u, t);
    }
  }

  /**
    What is programmed, for any clock and timeout whose cycles, in 64 bits, lie between the
    `t`-th power of two and the next: one less than `t` if that power is a millisecond at
    least, and nothing if it is not; 30 without that test if `t` is 31, and nothing above.
   */
  lemma TimeoutExact(hubHz: qword, nocUs: word, t: nat)
    requires LargestBelow(t, TrueCycles(hubHz, nocUs) % U64)
    ensures TimeoutVal(hubHz, nocUs)
         == if t > 31 then 0
            else if t == 31 then 30
            else if ADRENO_AHB_MIN_TIMEOUT_VAL_USEC * HubMhz(hubHz) <= Pow2(t) then t - 1
            else 0
  {
    CyclesAndClock(hubHz, nocUs);
    hide Cycles, TrueCycles, HubMhz, LargestBelow, IsPowerOf2;
    var cycles := Cycles(hubHz, nocUs);
    LargestOfSome(t, cycles);
    LogIsLargestBelow(cycles);
    OneLargest(t, Log2(if IsPowerOf2(cycles) then cycles - 1 else cycles), cycles);
  }

  /** No clock is so fast that its milliseconds reach a sign-extended shift. */
  lemma CyclesAndClock(hubHz: qword, nocUs: word)
    ensures Cycles(hubHz, nocUs) == TrueCycles(hubHz, nocUs) % U64 && (nocUs == 0 ==> Cycles(hubHz, nocUs) == 0)
    ensures ADRENO_AHB_MIN_TIMEOUT_VAL_USEC * HubMhz(hubHz) <= ShiftedOne(31)
  {
  }

  lemma LargestOfSome(t: nat, cycles: nat)
    requires LargestBelow(t, cycles)
    ensures cycles > 1 && (IsPowerOf2(cycles) ==> cycles - 1 != 0)
  {
    Pow2Positive(t);
  }

  /** The clock and the timeout of a GPU on the driver's list. */
  lemma ListedTimeout()
    ensures TimeoutVal(200000000, 6800) == 19
  {
    assert TrueCycles(200000000, 6800) % U64 == 1360000;
    assert Pow2(8) == 0x100 && Pow2(16) == 0x1_0000 && Pow2(20) == 0x10_0000;
    TimeoutExact(200000000, 6800, 20);
  }

  lemma {:induction false} Pow2Positive(n: nat)
    ensures Pow2(n) >= 1
  {
    if n > 0 {
      Pow2Positive(n - 1);
    }
  }

  /** With no more than one cycle there is nothing to program. */
  lemma NothingToTime(hubHz: qword, nocUs: word)
    requires TrueCycles(hubHz, nocUs) % U64 <= 1
    ensures TimeoutVal(hubHz, nocUs) == 0
  {
    assert Log2(1) == 0 && IsPowerOf2(1);
  }

  lemma PowerOf31()
    ensures Pow2(31) == 0x8000_0000
  {
    assert Pow2(8) == 0x100;
    assert Pow2(16) == 0x1_0000;
    assert Pow2(24) == 0x100_0000;
  }

  /** An input for which it is not: the comparison is with a negative number. */
  lemma TooShortIsAccepted()
    ensures var hubHz: qword := 2147484000000; var r := TimeoutVal(hubHz, 1000);
      r == 30 && Pow2(r + 1) < ADRENO_AHB_MIN_TIMEOUT_VAL_USEC * HubMhz(hubHz)
  {
    var c := Cycles(2147484000000, 1000);
    assert c == 2147484000;
    PowerOf31();
    Log2Bounds(c);
    var t := Log2(c);
    if t < 31 {
      Pow2Monotone(t, 31);
    } else if t > 31 {
      Pow2Monotone(31, t);
    }
    assert !IsPowerOf2(c);
  }
}
