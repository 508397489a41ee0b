/**
  A command's list of indirect buffers, the check it passes before it is queued, and the
  abstract list of buffers a GPU is to run.
 */
module IndirectBuffers {
  import opened Basics
  import Sequences
  import opened CommandProcessor

  /** struct kgsl_memobj_node, with MEMOBJ_SKIP and KGSL_CMDLIST_CTXTSWITCH_PREAMBLE as booleans. */
  datatype Ib = Ib(gpuaddr: qword, size: qword, skip: bool, ctxPreamble: bool)

  predicate Skipped(ib: Ib, preamble: bool) {
    ib.skip || (ib.ctxPreamble && !preamble)
  }

  // ---------------------------------------------------------------------- checks

  /** kgsl_mmu_gpuaddr_in_range for the process's pagetable. */
  type Ranges = (qword, qword) -> bool

  /** _verify_ib */
  predicate VerifyIb(ib: Ib, inRange: Ranges) {
    && ib.size != 0 && ib.size / 4 <= 0xF_FFFF
    && inRange(ib.gpuaddr, ib.size) && ib.gpuaddr % 4 == 0
  }

  /** A draw object; `list` is present on a command. */
  datatype DrawObject = DrawObject(list: Option<seq<Ib>>, profiling: bool)

  datatype Verdict = Accepted | EINVAL | EOPNOTSUPP

  predicate ListVerified(list: seq<Ib>, inRange: Ranges) {
    forall i | 0 <= i < |list| :: VerifyIb(list[i], inRange)
  }

  predicate IbsVerified(o: DrawObject, inRange: Ranges) {
    o.list.Some? ==> ListVerified(o.list.value, inRange)
  }

  predicate Supported(o: DrawObject, a3xx: bool) { !(a3xx && o.profiling) }

  predicate Good(o: DrawObject, a3xx: bool, inRange: Ranges) {
    IbsVerified(o, inRange) && Supported(o, a3xx)
  }

  /** A command among the first `n` objects passed its buffer check. */
  predicate CommandSeen(objs: seq<DrawObject>, n: nat, inRange: Ranges)
    requires n <= |objs|
  {
    exists i | 0 <= i < n :: objs[i].list.Some? && IbsVerified(objs[i], inRange)
  }

  /**
    adreno_verify_cmdobj.  The first object that is not good decides the error, buffers
    before profiling, and `wake` (wake_on_touch) is cleared by any command checked before that.
   */
  method VerifyCmdobj(objs: seq<DrawObject>, a3xx: bool, inRange: Ranges, wake: bool)
    returns (verdict: Verdict, wake': bool)
    ensures verdict == Accepted <==> forall i | 0 <= i < |objs| :: Good(objs[i], a3xx, inRange)
    ensures verdict == EOPNOTSUPP ==> a3xx && exists i | 0 <= i < |objs| :: objs[i].profiling
    ensures a3xx && (exists i | 0 <= i < |objs| :: objs[i].profiling) ==> verdict != Accepted
    ensures verdict == Accepted ==> wake' == (wake && !CommandSeen(objs, |objs|, inRange))
    ensures verdict != Accepted ==> exists k | 0 <= k < |objs| ::
      && (forall i | 0 <= i < k :: Good(objs[i], a3xx, inRange))
      && (verdict == EINVAL <==> !IbsVerified(objs[k], inRange))
      && (verdict == EOPNOTSUPP <==> IbsVerified(objs[k], inRange) && !Supported(objs[k], a3xx))
      && wake' == (wake && !CommandSeen(objs, k + 1, inRange))
  {
    wake' := wake;
    for i := 0 to |objs|
      invariant forall j | 0 <= j < i :: Good(objs[j], a3xx, inRange)
      invariant wake' == (wake && !CommandSeen(objs, i, inRange))
    {
      if objs[i].list.Some? {
        var list := objs[i].list.value;
        for k := 0 to |list|
          invariant forall j | 0 <= j < k :: VerifyIb(list[j], inRange)
        {
          if !VerifyIb(list[k], inRange) {
            assert !IbsVerified(objs[i], inRange);
            return EINVAL, wake';
          }
        }
        wake' := false;
      }
      if a3xx && objs[i].profiling {
        return EOPNOTSUPP, wake';
      }
    }
    return Accepted, wake';
  }

  // ------------------------------------------------------- what is to be executed

  /** The addresses and dword counts to run, in list order, without the skipped buffers. */
  function Plan(list: seq<Ib>, preamble: bool): seq<(qword, nat)>
    decreases |list|
  {
    if list == [] then []
    else
      var ib := list[|list| - 1];
      Plan(list[..|list| - 1], preamble) + if Skipped(ib, preamble) then [] else [(ib.gpuaddr, ib.size / 4)]
  }

  lemma {:induction false} PlanConcat(a: seq<Ib>, b: seq<Ib>, preamble: bool)
    ensures Plan(a + b, preamble) == Plan(a, preamble) + Plan(b, preamble)
    decreases |b|
  {
    if b == [] {
      assert a + b == a;
    } else {
      PlanConcat(a, b[..|b| - 1], preamble);
      assert (a + b)[..|a + b| - 1] == a + b[..|b| - 1];
    }
  }

  /** Every buffer of the list, in order. */
  function Whole(list: seq<Ib>): seq<(qword, nat)> {
    seq(|list|, i requires 0 <= i < |list| => (list[i].gpuaddr, list[i].size / 4))
  }

  /**
    Of buffers that are all marked alike: those to be skipped never run, preambles run in a
    command that follows a context switch and not in another, and all others always do.
   */
  lemma {:induction false} MarkedAlike(list: seq<Ib>, skip: bool, ctxPreamble: bool)
    requires forall i | 0 <= i < |list| :: list[i].skip == skip && list[i].ctxPreamble == ctxPreamble
    ensures Plan(list, true) == if skip then [] else Whole(list)
    ensures Plan(list, false) == if skip || ctxPreamble then [] else Whole(list)
    decreases |list|
  {
    if list != [] {
      MarkedAlike(list[..|list| - 1], skip, ctxPreamble);
      assert Whole(list) == Whole(list[..|list| - 1]) + [Whole(list)[|list| - 1]];
    }
  }

  /** The range of the process that a planned buffer lies in. */
  ghost predicate InRange(run: (qword, nat), size: qword, inRange: Ranges) {
    0 < size && 4 * run.1 <= size < 4 * run.1 + 4 && run.1 <= 0xF_FFFF && run.0 % 4 == 0 && inRange(run.0, size)
  }

  /** Whatever of an accepted list runs is an aligned, non-empty part of the process's memory that the CP can count. */
  lemma {:induction false} PlanInRange(list: seq<Ib>, preamble: bool, inRange: Ranges, k: nat)
    requires ListVerified(list, inRange) && k < |Plan(list, preamble)|
    ensures exists size :: InRange(Plan(list, preamble)[k], size, inRange)
    decreases |list|
  {
    var n := |list| - 1;
    if k < |Plan(list[..n], preamble)| {
      PlanInRange(list[..n], preamble, inRange, k);
      assert Plan(list, preamble)[k] == Plan(list[..n], preamble)[k];
    } else {
      assert VerifyIb(list[n], inRange);
      assert InRange(Plan(list, preamble)[k], list[n].size, inRange);
    }
  }

  function RunOf(e: Event): seq<(qword, nat)> {
    if e.RunIb? then [(e.addr, e.dwords)] else []
  }

  /** The buffers a stream runs. */
  function Runs(es: seq<Event>): seq<(qword, nat)> {
    Sequences.FlatMap(RunOf, es)
  }

  lemma RunsConcat(a: seq<Event>, b: seq<Event>)
    ensures Runs(a + b) == Runs(a) + Runs(b)
  {
    Sequences.FlatMapConcat(RunOf, a, b);
  }

  lemma RunsOne(e: Event)
    ensures Runs([e]) == RunOf(e)
  {
    Sequences.FlatMapOne(RunOf, e);
  }

  /** These events run no buffer. */
  predicate Silent(es: seq<Event>) {
    forall i | 0 <= i < |es| :: !es[i].RunIb?
  }

  lemma {:induction false} RunsNothing(es: seq<Event>)
    requires Silent(es)
    ensures Runs(es) == []
  {
    if es != [] {
      RunsNothing(es[1..]);
    }
  }

  lemma RunsSilent(a: seq<Event>, b: seq<Event>)
    requires Silent(b)
    ensures Runs(a + b) == Runs(a)
  {
    RunsConcat(a, b);
    RunsNothing(b);
  }
}
