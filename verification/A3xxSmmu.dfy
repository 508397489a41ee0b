/**
  The A3XX pagetable switch, written by the CP itself: the words, and what the memory
  interface must look like at each of them.
 */
module A3xxSmmu {
  import opened Basics
  import opened CommandProcessor
  import opened A3xxPackets

  const A3XX_CP_WFI_PEND_CTR: word := 0x1F5
  const A3XX_HALT_CTRL0: word := 0x3800
  const A3XX_HALT_CTRL1: word := 0x3801
  const KGSL_IOMMU_CTX_TTBR0 := 0x20
  const KGSL_IOMMU_CTX_TLBIALL := 0x618
  const KGSL_IOMMU_CTX_TLBSYNC := 0x7f0
  const KGSL_IOMMU_CTX_TLBSTATUS := 0x7f4
  const TLBSTATUS_SACTIVE: word := 1
  const ALL_BITS: word := 0xFFFF_FFFF
  const NOT_HALT: word := 0xFFFF_FFFE        // ~VBIF_RECOVERABLE_HALT_CTRL

  // ------------------------------------------------------------ memory interface

  /** How far the TLB is behind TTBR0. */
  datatype Tlb = Clean | Stale | Flushing | Syncing

  /** The VBIF halt request and its acknowledgment, the TLB, and TTBR0. */
  datatype Smmu = Smmu(halt: bool, acked: bool, tlb: Tlb, ttbr0: qword)

  function Calm(ttbr0: qword): Smmu { Smmu(false, false, Clean, ttbr0) }

  /**
    What an event does to the memory interface; None is a hazard: a buffer or a memory
    write while traffic is halted, a buffer while the TLB is behind TTBR0, a TTBR0 write
    while traffic flows, or a wait for an acknowledgment nobody asked for.
   */
  function Step(g: Smmu, e: Event): Option<Smmu> {
    match e
    case RunIb(_, _) => if g.tlb == Clean && !g.halt then Some(g) else None
    case MemWrite(_, _) => if g.halt then None else Some(g)
    case EventWrite(_, _, _) => if g.halt then None else Some(g)
    case RegRmw(reg, andMask, orMask) =>
      if reg != A3XX_HALT_CTRL0 then Some(g)
      else
        var halt := orMask % 2 == 1 || (g.halt && andMask % 2 == 1);
        Some(g.(halt := halt, acked := g.acked && halt))
    case WaitReg(reg, value, mask) =>
      if reg == A3XX_HALT_CTRL1 && value % 2 == 1 && mask % 2 == 1 then
        if g.halt then Some(g.(acked := true)) else None
      else if reg == SmmuReg(KGSL_IOMMU_CTX_TLBSTATUS) && value % 2 == 0 && mask % 2 == 1 then
        Some(if g.tlb == Syncing then g.(tlb := Clean) else g)
      else Some(g)
    case RegWrite(reg, values) =>
      if reg == SmmuReg(KGSL_IOMMU_CTX_TTBR0) && |values| == 2 then
        if g.halt && g.acked then Some(g.(tlb := Stale, ttbr0 := Join(values[0], values[1]))) else None
      else if reg == SmmuReg(KGSL_IOMMU_CTX_TLBIALL) then
        Some(if g.tlb == Stale then g.(tlb := Flushing) else g)
      else if reg == SmmuReg(KGSL_IOMMU_CTX_TLBSYNC) then
        Some(if g.tlb == Flushing then g.(tlb := Syncing) else g)
      else Some(g)
    case _ => Some(g)
  }

  function Drive(g: Smmu, es: seq<Event>): Option<Smmu>
    decreases |es|
  {
    if es == [] then Some(g)
    else
      var before := Drive(g, es[..|es| - 1]);
      if before.None? then None else Step(before.value, es[|es| - 1])
  }

  lemma {:induction false} DriveConcat(g: Smmu, a: seq<Event>, b: seq<Event>)
    ensures Drive(g, a + b) == if Drive(g, a).None? then None else Drive(Drive(g, a).value, b)
    decreases |b|
  {
    if b == [] {
      assert a + b == a;
    } else {
      DriveConcat(g, a, b[..|b| - 1]);
      assert (a + b)[..|a + b| - 1] == a + b[..|b| - 1];
    }
  }

  lemma DriveOne(g: Smmu, e: Event)
    ensures Drive(g, [e]) == Step(g, e)
  {
    assert [e][..0] == [];
  }

  lemma DriveThen(g: Smmu, h: Smmu, a: seq<Event>, e: Event)
    requires Drive(g, a) == Some(h)
    ensures Drive(g, a + [e]) == Step(h, e)
  {
    DriveConcat(g, a, [e]);
    DriveOne(h, e);
  }

  /** A stream without hazards has none in any prefix, whatever event comes next there. */
  lemma HazardFree(g: Smmu, es: seq<Event>, i: nat)
    requires Drive(g, es).Some? && i < |es|
    ensures Drive(g, es[..i]).Some?
    ensures var h := Drive(g, es[..i]).value;
      && (es[i].RunIb? ==> h.tlb == Clean && !h.halt)
      && (es[i].RegWrite? && es[i].reg == SmmuReg(KGSL_IOMMU_CTX_TTBR0) && |es[i].values| == 2 ==> h.halt && h.acked)
  {
    assert es == es[..i] + ([es[i]] + es[i + 1..]);
    DriveConcat(g, es[..i], [es[i]] + es[i + 1..]);
    var h := Drive(g, es[..i]).value;
    DriveConcat(h, [es[i]], es[i + 1..]);
    DriveOne(h, es[i]);
  }

  // ------------------------------------------------------------------- the switch

  function LockEvents(): seq<Event> {
    [WaitReg(A3XX_CP_WFI_PEND_CTR, 1, ALL_BITS)]
    + [RegRmw(A3XX_HALT_CTRL0, NOT_HALT, 1)]
    + [WaitReg(A3XX_HALT_CTRL1, 1, ALL_BITS)]
  }

  function UnlockEvents(): seq<Event> {
    [RegRmw(A3XX_HALT_CTRL0, NOT_HALT, 0)]
    + [Other(CP_WAIT_FOR_ME, [0])]
  }

  function TlbiEvents(): seq<Event> {
    [RegWrite(SmmuReg(KGSL_IOMMU_CTX_TLBIALL), [1])]
    + [RegWrite(SmmuReg(KGSL_IOMMU_CTX_TLBSYNC), [0])]
    + [WaitReg(SmmuReg(KGSL_IOMMU_CTX_TLBSTATUS), 0, TLBSTATUS_SACTIVE)]
  }

  /** Stall prefetch behind a NOP buffer and drain. */
  function StallEvents(setstate: qword): seq<Event> {
    [Other(CP_WAIT_FOR_ME, [0])]
    + [RunIb(Lo(setstate), 2)]
    + [Other(CP_WAIT_FOR_IDLE, [0])]
    + [Other(CP_WAIT_FOR_ME, [0])]
  }

  function SettleEvents(): seq<Event> {
    [Other(CP_WAIT_FOR_ME, [0])]
    + [Other(CP_WAIT_FOR_IDLE, [0])]
    + [Other(CP_INVALIDATE_STATE, [0x7ffff])]
  }

  function PagetableEvents(setstate: qword, ttbr0: qword): seq<Event> {
    StallEvents(setstate) + LockEvents()
    + [RegWrite(SmmuReg(KGSL_IOMMU_CTX_TTBR0), [Lo(ttbr0), Hi(ttbr0)])]
    + UnlockEvents() + TlbiEvents() + SettleEvents()
  }

  /** a3xx_vbif_lock */
  method PutVbifLock(cmds: seq<word>, ghost events: seq<Event>) returns (out: seq<word>)
    requires Causes(cmds, events)
    ensures |out| == |cmds| + 14 && Causes(out, events + LockEvents())
  {
    ghost var a, b := [WaitReg(A3XX_CP_WFI_PEND_CTR, 1, ALL_BITS)], [RegRmw(A3XX_HALT_CTRL0, NOT_HALT, 1)];
    out := PutWaitReg(cmds, A3XX_CP_WFI_PEND_CTR, 1, ALL_BITS, 0xF, events);
    out := PutRegRmw(out, A3XX_HALT_CTRL0, NOT_HALT, 1, events + a);
    out := PutWaitReg(out, A3XX_HALT_CTRL1, 1, ALL_BITS, 0xF, events + a + b);
    Regroup(events, a, b, [WaitReg(A3XX_HALT_CTRL1, 1, ALL_BITS)]);
  }

  lemma Regroup(x: seq<Event>, a: seq<Event>, b: seq<Event>, c: seq<Event>)
    ensures x + a + b == x + (a + b) && x + a + b + c == x + (a + b + c)
  {
  }

  /** a3xx_vbif_unlock */
  method PutVbifUnlock(cmds: seq<word>, ghost events: seq<Event>) returns (out: seq<word>)
    requires Causes(cmds, events)
    ensures |out| == |cmds| + 6 && Causes(out, events + UnlockEvents())
  {
    ghost var a := [RegRmw(A3XX_HALT_CTRL0, NOT_HALT, 0)];
    out := PutRegRmw(cmds, A3XX_HALT_CTRL0, NOT_HALT, 0, events);
    out := PutPlain(out, CP_WAIT_FOR_ME, [0], events + a);
    Regroup(events, a, [Other(CP_WAIT_FOR_ME, [0])], []);
  }

  /** a3xx_tlbiall */
  method PutTlbiAll(cmds: seq<word>, ghost events: seq<Event>) returns (out: seq<word>)
    requires Causes(cmds, events)
    ensures |out| == |cmds| + 11 && Causes(out, events + TlbiEvents())
  {
    ghost var a := [RegWrite(SmmuReg(KGSL_IOMMU_CTX_TLBIALL), [1])];
    ghost var b := [RegWrite(SmmuReg(KGSL_IOMMU_CTX_TLBSYNC), [0])];
    out := PutSmmuReg(cmds, KGSL_IOMMU_CTX_TLBIALL, [1], events);
    out := PutSmmuReg(out, KGSL_IOMMU_CTX_TLBSYNC, [0], events + a);
    out := PutWaitReg(out, SmmuReg(KGSL_IOMMU_CTX_TLBSTATUS), 0, TLBSTATUS_SACTIVE, 0xF, events + a + b);
    Regroup(events, a, b, [WaitReg(SmmuReg(KGSL_IOMMU_CTX_TLBSTATUS), 0, TLBSTATUS_SACTIVE)]);
  }

  method PutStall(setstate: qword) returns (out: seq<word>)
    ensures |out| == 9 && Causes(out, StallEvents(setstate))
  {
    CausesNothing();
    ghost var e := [Other(CP_WAIT_FOR_ME, [0])];
    assert [] + e == e;
    out := PutPlain([], CP_WAIT_FOR_ME, [0], []);
    out := PutIb(out, setstate, 2, e);
    e := e + [RunIb(Lo(setstate), 2)];
    out := PutPlain(out, CP_WAIT_FOR_IDLE, [0], e);
    e := e + [Other(CP_WAIT_FOR_IDLE, [0])];
    out := PutPlain(out, CP_WAIT_FOR_ME, [0], e);
  }

  method PutSettle(cmds: seq<word>, ghost events: seq<Event>) returns (out: seq<word>)
    requires Causes(cmds, events)
    ensures |out| == |cmds| + 6 && Causes(out, events + SettleEvents())
  {
    ghost var a, b := [Other(CP_WAIT_FOR_ME, [0])], [Other(CP_WAIT_FOR_IDLE, [0])];
    out := PutPlain(cmds, CP_WAIT_FOR_ME, [0], events);
    out := PutPlain(out, CP_WAIT_FOR_IDLE, [0], events + a);
    out := PutPlain(out, CP_INVALIDATE_STATE, [0x7ffff], events + a + b);
    Regroup(events, a, b, [Other(CP_INVALIDATE_STATE, [0x7ffff])]);
  }

  /** a3xx_rb_pagetable_switch for a table that is not the default one. */
  method WritePagetableSwitch(setstate: qword, ttbr0: qword) returns (cmds: seq<word>)
    ensures |cmds| == 50 && Causes(cmds, PagetableEvents(setstate, ttbr0))
  {
    cmds := PutStall(setstate);
    ghost var e := StallEvents(setstate);
    cmds := PutVbifLock(cmds, e);
    e := e + LockEvents();
    cmds := PutSmmuReg(cmds, KGSL_IOMMU_CTX_TTBR0, [Lo(ttbr0), Hi(ttbr0)], e);
    e := e + [RegWrite(SmmuReg(KGSL_IOMMU_CTX_TTBR0), [Lo(ttbr0), Hi(ttbr0)])];
    cmds := PutVbifUnlock(cmds, e);
    e := e + UnlockEvents();
    cmds := PutTlbiAll(cmds, e);
    e := e + TlbiEvents();
    cmds := PutSettle(cmds, e);
  }

  // ------------------------------------------------------------------ it is safe

  /** Halting from a calm interface: TTBR0 may be written. */
  lemma LockHalts(t: qword)
    ensures Drive(Calm(t), LockEvents()) == Some(Smmu(true, true, Clean, t))
  {
    var a := [WaitReg(A3XX_CP_WFI_PEND_CTR, 1, ALL_BITS)];
    var b := a + [RegRmw(A3XX_HALT_CTRL0, NOT_HALT, 1)];
    DriveOne(Calm(t), a[0]);
    DriveThen(Calm(t), Calm(t), a, RegRmw(A3XX_HALT_CTRL0, NOT_HALT, 1));
    DriveThen(Calm(t), Smmu(true, false, Clean, t), b, WaitReg(A3XX_HALT_CTRL1, 1, ALL_BITS));
  }

  lemma UnlockFlows(t: qword)
    ensures Drive(Smmu(true, true, Stale, t), UnlockEvents()) == Some(Smmu(false, false, Stale, t))
  {
    var g := Smmu(true, true, Stale, t);
    var a := [RegRmw(A3XX_HALT_CTRL0, NOT_HALT, 0)];
    DriveOne(g, a[0]);
    DriveThen(g, Smmu(false, false, Stale, t), a, Other(CP_WAIT_FOR_ME, [0]));
  }

  lemma TlbiCleans(t: qword)
    ensures Drive(Smmu(false, false, Stale, t), TlbiEvents()) == Some(Calm(t))
  {
    var g := Smmu(false, false, Stale, t);
    var a := [RegWrite(SmmuReg(KGSL_IOMMU_CTX_TLBIALL), [1])];
    var b := a + [RegWrite(SmmuReg(KGSL_IOMMU_CTX_TLBSYNC), [0])];
    DriveOne(g, a[0]);
    DriveThen(g, Smmu(false, false, Flushing, t), a, RegWrite(SmmuReg(KGSL_IOMMU_CTX_TLBSYNC), [0]));
    DriveThen(g, Smmu(false, false, Syncing, t), b, WaitReg(SmmuReg(KGSL_IOMMU_CTX_TLBSTATUS), 0, TLBSTATUS_SACTIVE));
  }

  /** These events neither halt traffic nor touch the SMMU. */
  predicate Harmless(es: seq<Event>) {
    forall i | 0 <= i < |es| ::
      && !es[i].RegRmw? && !es[i].WaitReg?
      && (es[i].RegWrite? ==> es[i].reg !in {SmmuReg(KGSL_IOMMU_CTX_TTBR0), SmmuReg(KGSL_IOMMU_CTX_TLBIALL),
                                            SmmuReg(KGSL_IOMMU_CTX_TLBSYNC)})
  }

  lemma {:induction false} HarmlessIsSafe(t: qword, es: seq<Event>)
    requires Harmless(es)
    ensures Drive(Calm(t), es) == Some(Calm(t))
    decreases |es|
  {
    if es != [] {
      HarmlessIsSafe(t, es[..|es| - 1]);
    }
  }

  lemma DriveOn(g: Smmu, h: Smmu, a: seq<Event>, b: seq<Event>)
    requires Drive(g, a) == Some(h)
    ensures Drive(g, a + b) == Drive(h, b)
  {
    DriveConcat(g, a, b);
  }

  /**
    From a calm interface the switch meets no hazard: TTBR0 is written while traffic is
    halted, and afterwards traffic flows again and the TLB is clean.
   */
  lemma PagetableSwitchIsSafe(setstate: qword, t: qword, ttbr0: qword)
    ensures Drive(Calm(t), PagetableEvents(setstate, ttbr0)) == Some(Calm(ttbr0))
  {
    var g := Calm(t);
    var a := StallEvents(setstate);
    var b := a + LockEvents();
    var w := RegWrite(SmmuReg(KGSL_IOMMU_CTX_TTBR0), [Lo(ttbr0), Hi(ttbr0)]);
    var c := b + [w];
    var d := c + UnlockEvents();
    HarmlessIsSafe(t, a);
    DriveOn(g, g, a, LockEvents());
    LockHalts(t);
    DriveThen(g, Smmu(true, true, Clean, t), b, w);
    assert Join(Lo(ttbr0), Hi(ttbr0)) == ttbr0;
    DriveOn(g, Smmu(true, true, Stale, ttbr0), c, UnlockEvents());
    UnlockFlows(ttbr0);
    DriveOn(g, Smmu(false, false, Stale, ttbr0), d, TlbiEvents());
    TlbiCleans(ttbr0);
    DriveOn(g, Calm(ttbr0), d + TlbiEvents(), SettleEvents());
    HarmlessIsSafe(ttbr0, SettleEvents());
  }
}
