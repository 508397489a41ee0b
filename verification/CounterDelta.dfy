/**
  Accumulating a 32-bit performance counter from successive readings.
 */
module CounterDelta {
  import opened Basics

  const UINT_MAX := 0xFFFF_FFFF

  /** What counter_delta reports when `stored` was read last time and `val` now. */
  function Delta(stored: word, val: word): word {
    if stored == 0 then 0
    else if val >= stored then val - stored
    else UINT_MAX - stored + val
  }

  class Counter {
    var stored: word

    constructor ()
      ensures stored == 0
    {
      stored := 0;
    }

    /** counter_delta; without a register nothing is read. */
    method Sample(reg: word, val: word) returns (ret: word)
      modifies this
      ensures reg == 0 ==> ret == 0 && stored == old(stored)
      ensures reg != 0 ==> ret == Delta(old(stored), val) && stored == val
    {
      ret := 0;
      if reg == 0 {
        return;
      }
      if stored != 0 {
        if val >= stored {
          ret := val - stored;
        } else {
          ret := UINT_MAX - stored + val;
        }
      }
      stored := val;
    }
  }

  /** The true count at each reading: it never goes back, nor round more than once in between. */
  predicate Ticks(ts: seq<nat>) {
    forall i | 0 < i < |ts| :: ts[i - 1] <= ts[i] < ts[i - 1] + U32
  }

  function Reading(t: nat): word { t % U32 }

  /** The sum of the reported deltas. */
  function Reported(ts: seq<nat>): nat
    decreases |ts|
  {
    if |ts| <= 1 then 0
    else Reported(ts[..|ts| - 1]) + Delta(Reading(ts[|ts| - 2]), Reading(ts[|ts| - 1]))
  }

  /** How often the counter wrapped in an interval that did not start at a stored zero. */
  function Wraps(ts: seq<nat>): nat
    decreases |ts|
  {
    if |ts| <= 1 then 0
    else
      var a, b := ts[|ts| - 2], ts[|ts| - 1];
      Wraps(ts[..|ts| - 1]) + if Reading(a) != 0 && a / U32 != b / U32 then 1 else 0
  }

  /** The ticks of intervals that started at a stored zero. */
  function FromZero(ts: seq<nat>): nat
    requires Ticks(ts)
    decreases |ts|
  {
    if |ts| <= 1 then 0
    else
      var a, b := ts[|ts| - 2], ts[|ts| - 1];
      FromZero(ts[..|ts| - 1]) + if Reading(a) == 0 then b - a else 0
  }

  lemma DeltaOfInterval(a: nat, b: nat)
    requires a <= b < a + U32 && Reading(a) != 0
    ensures Delta(Reading(a), Reading(b)) + (if a / U32 != b / U32 then 1 else 0) == b - a
  {
    assert a == a / U32 * U32 + Reading(a) && b == b / U32 * U32 + Reading(b);
    assert b / U32 == a / U32 || b / U32 == a / U32 + 1;
  }

  /**
    What is reported never exceeds the true ticks, and falls short of them by exactly one
    for each wrap and by every interval that started at a stored zero.
   */
  lemma {:induction false} Accounting(ts: seq<nat>)
    requires ts != [] && Ticks(ts)
    ensures ts[0] + Reported(ts) + Wraps(ts) + FromZero(ts) == ts[|ts| - 1]
    decreases |ts|
  {
    if |ts| > 1 {
      var a, b := ts[|ts| - 2], ts[|ts| - 1];
      Accounting(ts[..|ts| - 1]);
      if Reading(a) != 0 {
        DeltaOfInterval(a, b);
      }
    }
  }

  /** So the sum is exact if and only if nothing wrapped and no interval from a zero saw a tick. */
  lemma ExactSum(ts: seq<nat>)
    requires ts != [] && Ticks(ts)
    ensures ts[0] + Reported(ts) <= ts[|ts| - 1]
    ensures ts[0] + Reported(ts) == ts[|ts| - 1] <==> Wraps(ts) == 0 && FromZero(ts) == 0
  {
    Accounting(ts);
  }
}
