/**
  A5XX commands: switching a ring to a context, and submitting a context's list of
  indirect buffers.
 */
module A5xxSubmit {
  import opened Basics
  import opened Pm4
  import opened Sequences
  import opened CommandProcessor
  import opened A5xxPackets
  import opened Adreno
  import opened A5xxRingbuffer
  import opened IndirectBuffers

  // ------------------------------------------------------------ context switches

  function IdleEvents(): seq<Event> {
    [Other(CP_WAIT_FOR_IDLE, [])] + [Other(CP_WAIT_FOR_ME, [])]
  }

  function PagetableEvents(d: Device, id: nat, ctx: DrawContext): seq<Event>
    requires ValidDevice(d) && id < RB_LEVELS
  {
    var ttbr0 := ctx.pagetable.ttbr0;
    [TableUpdate(ttbr0, ctx.id)]
    + IdleEvents()
    + [RegWrite(A5XX_CP_CNTL, [1])]
    + [MemWrite(ScratchTtbr0(d, id), [Lo(ttbr0), Hi(ttbr0), ctx.id])]
    + IdleEvents()
    + [RegWrite(A5XX_CP_CNTL, [0])]
  }

  function SwitchEvents(d: Device, id: nat, active: Option<DrawContext>, ctx: DrawContext): seq<Event>
    requires ValidDevice(d) && id < RB_LEVELS
  {
    (if NeedsTable(d, active, ctx) then PagetableEvents(d, id, ctx) else [])
    + [MemWrite(CurrentContext(d, RbIndex(id)), [ctx.id])]
    + [MemWrite(CurrentContext(d, KGSL_MEMSTORE_GLOBAL), [ctx.id])]
    + [RegWrite(A5XX_UCHE_INVALIDATE0, [0x12])]
  }

  /** a5xx_rb_pagetable_switch for a table that is not the default one: 18 words. */
  method WritePagetableSwitch(d: Device, id: nat, ctx: DrawContext) returns (cmds: seq<word>)
    requires ValidDevice(d) && id < RB_LEVELS
    ensures |cmds| == 18 && Causes(cmds, PagetableEvents(d, id, ctx))
  {
    var ttbr0 := ctx.pagetable.ttbr0;
    CausesNothing();
    ghost var e := [TableUpdate(ttbr0, ctx.id)];
    assert [] + e == e;
    cmds := PutTableUpdate([], ttbr0, ctx.id, []);
    cmds := PutIdle(cmds, e);
    e := e + IdleEvents();
    cmds := PutReg(cmds, A5XX_CP_CNTL, 1, e);
    e := e + [RegWrite(A5XX_CP_CNTL, [1])];
    cmds := PutMemWrite(cmds, ScratchTtbr0(d, id), [Lo(ttbr0), Hi(ttbr0), ctx.id], e);
    e := e + [MemWrite(ScratchTtbr0(d, id), [Lo(ttbr0), Hi(ttbr0), ctx.id])];
    cmds := PutIdle(cmds, e);
    e := e + IdleEvents();
    cmds := PutReg(cmds, A5XX_CP_CNTL, 0, e);
  }

  method PutIdle(cmds: seq<word>, ghost events: seq<Event>) returns (out: seq<word>)
    requires Causes(cmds, events)
    ensures |out| == |cmds| + 2 && Causes(out, events + IdleEvents())
  {
    out := PutPlain(cmds, CP_WAIT_FOR_IDLE, [], events);
    ghost var e := events + [Other(CP_WAIT_FOR_IDLE, [])];
    out := PutPlain(out, CP_WAIT_FOR_ME, [], e);
    Associative(events, [Other(CP_WAIT_FOR_IDLE, [])], [Other(CP_WAIT_FOR_ME, [])]);
  }

  /** The words of a context switch. */
  function SwitchWords(d: Device, active: Option<DrawContext>, ctx: DrawContext): nat {
    if NeedsTable(d, active, ctx) then 30 else 12
  }

  /** The words of a5xx_rb_context_switch fit the 32 words on its stack. */
  method WriteContextSwitch(d: Device, id: nat, active: Option<DrawContext>, ctx: DrawContext)
    returns (cmds: seq<word>)
    requires ValidDevice(d) && id < RB_LEVELS
    ensures |cmds| == SwitchWords(d, active, ctx) <= 32
    ensures Causes(cmds, SwitchEvents(d, id, active, ctx))
  {
    CausesNothing();
    cmds := [];
    ghost var e := if NeedsTable(d, active, ctx) then PagetableEvents(d, id, ctx) else [];
    if !(active.Some? && active.value.pagetable == ctx.pagetable) {
      if ctx.pagetable != d.defaultTable {
        cmds := WritePagetableSwitch(d, id, ctx);
      }
    }
    cmds := PutNop(cmds, CONTEXT_TO_MEM_IDENTIFIER, e);
    cmds := PutMemWrite(cmds, CurrentContext(d, RbIndex(id)), [ctx.id], e);
    e := e + [MemWrite(CurrentContext(d, RbIndex(id)), [ctx.id])];
    cmds := PutMemWrite(cmds, CurrentContext(d, KGSL_MEMSTORE_GLOBAL), [ctx.id], e);
    e := e + [MemWrite(CurrentContext(d, KGSL_MEMSTORE_GLOBAL), [ctx.id])];
    cmds := PutReg(cmds, A5XX_UCHE_INVALIDATE0, 0x12, e);
  }

  // ---------------------------------------------------------------- user commands

  /** What the profiling flags need to know. */
  datatype Profiling = Profiling(
    kernelStarted: qword, kernelRetired: qword,      // addresses in the kernel profile buffer
    userDesc: Option<qword>, userIndex: nat          // rb->profile_desc and profile_index
  )

  const PROFILE_IB_SLOTS := 256
  const A5XX_COMMAND_DWORDS := 32

  predicate ValidProfiling(p: Profiling) {
    && p.userIndex < PROFILE_IB_SLOTS
    && (p.userDesc.Some? ==> p.userDesc.value + 0x1000 <= 0x1_0000_0000_0000_0000)
  }

  /** The register word of a5xx_get_alwayson_counter. */
  function AlwaysOnWord(d: Device): word {
    A5XX_RBBM_ALWAYSON_COUNTER_LO + (if d.lateAlwaysOn then 0x4000_0000 + 0x8_0000 else 0)
  }

  function KernelProfileEvents(d: Device, on: bool, addr: qword): seq<Event> {
    When(on, Other(CP_REG_TO_MEM, [AlwaysOnWord(d), Lo(addr), Hi(addr)]))
  }

  function SlotAddr(desc: qword, index: nat): qword
    requires index < PROFILE_IB_SLOTS && desc + 0x1000 <= 0x1_0000_0000_0000_0000
  {
    desc + index * 16
  }

  function UserProfileEvents(p: Profiling, on: bool, k: nat): seq<Event>
    requires ValidProfiling(p)
  {
    if on && p.userDesc.Some? then [RunIb(SlotAddr(p.userDesc.value, (p.userIndex + k) % PROFILE_IB_SLOTS), 4)] else []
  }

  /** What a command runs: profiling, the kept buffers in order, the render mode, profiling. */
  function CommandEvents(d: Device, p: Profiling, list: seq<Ib>, flags: Flags): seq<Event>
    requires ValidProfiling(p)
  {
    KernelProfileEvents(d, flags.kernelProfile, p.kernelStarted)
    + UserProfileEvents(p, flags.userProfile, 0)
    + KeptEvents(if flags.skip then [] else list, flags.preamble)
    + [Other(CP_SET_RENDER_MODE, [0, 0, 0, 0, 0])]
    + [Other(CP_YIELD_ENABLE, [1])]
    + KernelProfileEvents(d, flags.kernelProfile, p.kernelRetired)
    + UserProfileEvents(p, flags.userProfile, 1)
  }

  /** `(ib->size >> 2) & 0xfffff` */
  function IbDwords(size: qword): word { size / 4 % 0x10_0000 }

  function KeptEvents(list: seq<Ib>, preamble: bool): seq<Event>
    decreases |list|
  {
    if list == [] then []
    else
      var ib := list[|list| - 1];
      KeptEvents(list[..|list| - 1], preamble) + ListedEvents(ib, preamble)
  }

  function ListedEvents(ib: Ib, preamble: bool): seq<Event> {
    When(!Skipped(ib, preamble), RunIb(ib.gpuaddr, IbDwords(ib.size)))
  }

  method PutKernelProfile(cmds: seq<word>, d: Device, on: bool, addr: qword, ghost events: seq<Event>)
    returns (out: seq<word>)
    requires Causes(cmds, events)
    ensures |out| == |cmds| + (if on then 4 else 0) && Causes(out, events + KernelProfileEvents(d, on, addr))
  {
    assert events + [] == events;
    out := cmds;
    if on {
      out := PutPlain(cmds, CP_REG_TO_MEM, [AlwaysOnWord(d), Lo(addr), Hi(addr)], events);
    }
  }

  /** a5xx_get_user_profiling_ib, the `k`-th of this command. */
  method PutUserProfile(cmds: seq<word>, p: Profiling, on: bool, k: nat, ghost events: seq<Event>)
    returns (out: seq<word>)
    requires ValidProfiling(p) && Causes(cmds, events)
    ensures |out| == |cmds| + (if on && p.userDesc.Some? then 4 else 0)
    ensures Causes(out, events + UserProfileEvents(p, on, k))
  {
    hide Causes, SlotAddr;
    assert events + [] == events;
    out := cmds;
    if on {
      if p.userDesc.Some? {
        out := PutIb(cmds, SlotAddr(p.userDesc.value, (p.userIndex + k) % PROFILE_IB_SLOTS), 4, events);
      }
    }
  }

  /** One buffer of the list; a skipped one is still written, inside a NOP that swallows it. */
  method PutListed(cmds: seq<word>, ib: Ib, preamble: bool, ghost events: seq<Event>) returns (out: seq<word>)
    requires Causes(cmds, events)
    ensures |out| == |cmds| + ListedLength(ib, preamble)
    ensures Causes(out, events + ListedEvents(ib, preamble))
  {
    out := cmds;
    if Skipped(ib, preamble) {
      out := out + [Type7Header(CP_NOP, 4)];
    }
    var ibWords := [Type7Header(CP_INDIRECT_BUFFER_PFE, 3), Lo(ib.gpuaddr), Hi(ib.gpuaddr), IbDwords(ib.size)];
    out := out + ibWords;
    ListedCauses(cmds, ib, Skipped(ib, preamble), events);
  }

  function ListedLength(ib: Ib, preamble: bool): nat { if Skipped(ib, preamble) then 5 else 4 }

  function ListLength(list: seq<Ib>, preamble: bool): nat
    decreases |list|
  {
    if list == [] then 0
    else ListLength(list[..|list| - 1], preamble) + ListedLength(list[|list| - 1], preamble)
  }

  lemma {:induction false} ListFits(list: seq<Ib>, preamble: bool)
    ensures 4 * |list| <= ListLength(list, preamble) <= 5 * |list|
    decreases |list|
  {
    if list != [] {
      ListFits(list[..|list| - 1], preamble);
    }
  }

  /** The words of a command: its two markers, the render mode, its profiling and its list. */
  function CommandLength(p: Profiling, list: seq<Ib>, flags: Flags): nat {
    12
    + (if flags.kernelProfile then 8 else 0)
    + (if flags.userProfile && p.userDesc.Some? then 8 else 0)
    + ListLength(if flags.skip then [] else list, flags.preamble)
  }

  function ListedWords(ib: Ib): seq<word> {
    [Type7Header(CP_INDIRECT_BUFFER_PFE, 3), Lo(ib.gpuaddr), Hi(ib.gpuaddr), IbDwords(ib.size)]
  }

  /** Behind a NOP header for four words the packet is payload; without it, it runs. */
  lemma ListedCauses(cmds: seq<word>, ib: Ib, skipped: bool, events: seq<Event>)
    requires Causes(cmds, events)
    ensures var w := ListedWords(ib);
      Causes(if skipped then cmds + [Type7Header(CP_NOP, 4)] + w else cmds + w,
             events + When(!skipped, RunIb(ib.gpuaddr, IbDwords(ib.size))))
  {
    var w := ListedWords(ib);
    if skipped {
      var p := Type7(CP_NOP, w);
      assert cmds + [Type7Header(CP_NOP, 4)] + w == cmds + Words(p);
      NopEvents(w);
      CausesPacket(p);
      CausesConcat(cmds, events, Words(p), []);
    } else {
      var p := Type7(CP_INDIRECT_BUFFER_PFE, [Lo(ib.gpuaddr), Hi(ib.gpuaddr), IbDwords(ib.size)]);
      assert w == Words(p);
      IbEvents(ib.gpuaddr, IbDwords(ib.size));
      CausesPacket(p);
      CausesConcat(cmds, events, w, PacketEvents(p));
    }
  }

  /** The words of a5xx_ringbuffer_submitcmd, in the space its allocation leaves. */
  method BuildCommand(d: Device, p: Profiling, list: seq<Ib>, flags: Flags) returns (cmds: seq<word>)
    requires ValidProfiling(p)
    ensures |cmds| == CommandLength(p, list, flags)
    ensures |cmds| <= A5XX_COMMAND_DWORDS + 5 * (if flags.skip then 0 else |list|)
    ensures Causes(cmds, CommandEvents(d, p, list, flags))
  {
    hide Causes, KernelProfileEvents, UserProfileEvents, KeptEvents;
    CausesNothing();
    var numibs := if flags.skip then 0 else |list|;
    cmds := PutNop([], START_IB_IDENTIFIER, []);
    cmds := PutKernelProfile(cmds, d, flags.kernelProfile, p.kernelStarted, []);
    ghost var e := KernelProfileEvents(d, flags.kernelProfile, p.kernelStarted);
    assert [] + e == e;
    cmds := PutUserProfile(cmds, p, flags.userProfile, 0, e);
    e := e + UserProfileEvents(p, flags.userProfile, 0);
    cmds := PutList(cmds, list[..numibs], flags.preamble, e);
    assert list[..numibs] == if flags.skip then [] else list;
    ListFits(list[..numibs], flags.preamble);
    e := e + KeptEvents(if flags.skip then [] else list, flags.preamble);
    cmds := PutEnd(cmds, d, p, flags, e);
  }

  /** The end of a command: the render mode, and profiling again. */
  method PutEnd(cmds: seq<word>, d: Device, p: Profiling, flags: Flags, ghost events: seq<Event>)
    returns (out: seq<word>)
    requires ValidProfiling(p) && Causes(cmds, events)
    ensures |out| == |cmds| + 10 + (if flags.kernelProfile then 4 else 0)
                     + (if flags.userProfile && p.userDesc.Some? then 4 else 0)
    ensures Causes(out, events + [Other(CP_SET_RENDER_MODE, [0, 0, 0, 0, 0])] + [Other(CP_YIELD_ENABLE, [1])]
                        + KernelProfileEvents(d, flags.kernelProfile, p.kernelRetired)
                        + UserProfileEvents(p, flags.userProfile, 1))
  {
    out := PutPlain(cmds, CP_SET_RENDER_MODE, [0, 0, 0, 0, 0], events);
    ghost var e := events + [Other(CP_SET_RENDER_MODE, [0, 0, 0, 0, 0])];
    out := PutPlain(out, CP_YIELD_ENABLE, [1], e);
    e := e + [Other(CP_YIELD_ENABLE, [1])];
    out := PutKernelProfile(out, d, flags.kernelProfile, p.kernelRetired, e);
    e := e + KernelProfileEvents(d, flags.kernelProfile, p.kernelRetired);
    out := PutUserProfile(out, p, flags.userProfile, 1, e);
    e := e + UserProfileEvents(p, flags.userProfile, 1);
    out := PutNop(out, END_IB_IDENTIFIER, e);
  }

  /** The loop over the command's list. */
  method PutList(cmds: seq<word>, list: seq<Ib>, preamble: bool, ghost events: seq<Event>) returns (out: seq<word>)
    requires Causes(cmds, events)
    ensures |out| == |cmds| + ListLength(list, preamble)
    ensures Causes(out, events + KeptEvents(list, preamble))
  {
    out := cmds;
    assert events + [] == events;
    for i := 0 to |list|
      invariant |out| == |cmds| + ListLength(list[..i], preamble)
      invariant Causes(out, events + KeptEvents(list[..i], preamble))
    {
      out := PutListed(out, list[i], preamble, events + KeptEvents(list[..i], preamble));
      assert list[..i + 1][..i] == list[..i];
      Associative(events, KeptEvents(list[..i], preamble), ListedEvents(list[i], preamble));
    }
    assert list[..|list|] == list;
  }

  /** A command's stream in pieces, for any way `f` of looking at events that sees neither clocks nor modes. */
  lemma CommandPieces<B>(f: Event -> seq<B>, a: seq<Event>, b: seq<Event>, kept: seq<Event>, x: seq<Event>,
                         y: seq<Event>)
    requires f(Other(CP_SET_RENDER_MODE, [0, 0, 0, 0, 0])) == f(Other(CP_YIELD_ENABLE, [1])) == []
    requires FlatMap(f, a) == FlatMap(f, x) == []
    ensures FlatMap(f, a + b + kept + [Other(CP_SET_RENDER_MODE, [0, 0, 0, 0, 0])] + [Other(CP_YIELD_ENABLE, [1])]
                       + x + y)
         == FlatMap(f, b) + FlatMap(f, kept) + FlatMap(f, y)
  {
    var k := a + b + kept;
    var m := k + [Other(CP_SET_RENDER_MODE, [0, 0, 0, 0, 0])];
    FlatMapThree(f, a, b, kept);
    FlatMapWhen(f, k, true, Other(CP_SET_RENDER_MODE, [0, 0, 0, 0, 0]));
    FlatMapWhen(f, m, true, Other(CP_YIELD_ENABLE, [1]));
    FlatMapThree(f, m + [Other(CP_YIELD_ENABLE, [1])], x, y);
  }

  lemma KeptPieces<B>(f: Event -> seq<B>, a: seq<Event>, b: seq<Event>, kept: seq<Event>, x: seq<Event>, y: seq<Event>)
    requires f(Other(CP_SET_RENDER_MODE, [0, 0, 0, 0, 0])) == f(Other(CP_YIELD_ENABLE, [1])) == []
    requires FlatMap(f, a) == FlatMap(f, b) == FlatMap(f, x) == FlatMap(f, y) == []
    ensures FlatMap(f, a + b + kept + [Other(CP_SET_RENDER_MODE, [0, 0, 0, 0, 0])] + [Other(CP_YIELD_ENABLE, [1])]
                       + x + y)
         == FlatMap(f, kept)
  {
    CommandPieces(f, a, b, kept, x, y);
    assert [] + FlatMap(f, kept) + [] == FlatMap(f, kept);
  }
}
