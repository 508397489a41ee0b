/**
  What the A3XX and A5XX submission code shares: the shared memory's layout, contexts and
  pagetables, the profiler's buffers and the status codes.
 */
module Adreno {
  import opened Basics
  import opened CommandProcessor
  import opened Reservations

  const CMD_IDENTIFIER: word := 0x2EEDFACE
  const CMD_INTERNAL_IDENTIFIER: word := 0x2EEDD00D
  const CONTEXT_TO_MEM_IDENTIFIER: word := 0x2EADBEEF
  const START_IB_IDENTIFIER: word := 0x2EADEABE
  const END_IB_IDENTIFIER: word := 0x2ABEDEAD

  // ------------------------------------------------------------------ addresses

  const MEMSTORE_ENTRY := 40         // sizeof(struct kgsl_devmemstore)
  const KGSL_MEMSTORE_MAX := 813     // 8 pages of entries, less two, less one for each ring
  const KGSL_MEMSTORE_GLOBAL := 0
  const RB_LEVELS := 4
  const RB_SHADOW := 32              // sizeof(struct adreno_rb_shadow)

  datatype Device = Device(
    memstore: qword, scratch: qword,
    preemption: bool,                // adreno_is_preemption_enabled
    waitMemWrites: bool,             // not A510, and GPU-halting page faults enabled
    lateAlwaysOn: bool,              // newer than A530
    defaultTable: Pagetable,         // device->mmu.defaultpagetable
    setstate: qword,                 // A3XX: the NOP buffer that stalls prefetch
    pwronFixup: qword, pwronFixupDwords: word
  )

  /** The memstore and scratch buffers lie in the address space and do not overlap. */
  predicate ValidDevice(d: Device) {
    && d.memstore + 0x8000 <= 0x1_0000_0000_0000_0000
    && d.scratch + 0x1000 <= 0x1_0000_0000_0000_0000
    && (d.memstore + 0x8000 <= d.scratch || d.scratch + 0x1000 <= d.memstore)
  }

  /** MEMSTORE_ID_GPU_ADDR */
  function Memstore(d: Device, index: nat, offset: nat): qword
    requires ValidDevice(d) && index < KGSL_MEMSTORE_MAX + RB_LEVELS && offset < MEMSTORE_ENTRY
  {
    d.memstore + index * MEMSTORE_ENTRY + offset
  }

  function Sop(d: Device, index: nat): qword
    requires ValidDevice(d) && index < KGSL_MEMSTORE_MAX + RB_LEVELS
  {
    Memstore(d, index, 0)
  }

  function Eop(d: Device, index: nat): qword
    requires ValidDevice(d) && index < KGSL_MEMSTORE_MAX + RB_LEVELS
  {
    Memstore(d, index, 8)
  }

  function CurrentContext(d: Device, index: nat): qword
    requires ValidDevice(d) && index < KGSL_MEMSTORE_MAX + RB_LEVELS
  {
    Memstore(d, index, 32)
  }

  function RefWaitTs(d: Device): qword
    requires ValidDevice(d)
  {
    Memstore(d, KGSL_MEMSTORE_GLOBAL, 24)
  }

  function RbIndex(id: nat): nat { KGSL_MEMSTORE_MAX + id }

  /** SCRATCH_RB_GPU_ADDR of the ttbr0 field; contextidr follows it. */
  function ScratchTtbr0(d: Device, id: nat): qword
    requires ValidDevice(d) && id < RB_LEVELS
  {
    d.scratch + id * RB_SHADOW + 16
  }

  function ScratchRptr(d: Device, id: nat): qword
    requires ValidDevice(d) && id < RB_LEVELS
  {
    d.scratch + id * RB_SHADOW
  }

  // -------------------------------------------------------------------- entities

  datatype Pagetable = Pagetable(name: nat, ttbr0: qword)

  /** `flags` are drawctxt->base.flags. */
  datatype DrawContext = DrawContext(id: word, flags: word, pagetable: Pagetable)

  predicate ValidContext(c: DrawContext) { 0 < c.id < KGSL_MEMSTORE_MAX }

  /** An indirect buffer the profiler asked for. */
  datatype ProfileIb = ProfileIb(addr: qword, dwords: word)

  /** The flags of a submission. */
  datatype Flags = Flags(notProtected: bool, wfi: bool, secure: bool, skip: bool, userProfile: bool,
                         kernelProfile: bool, preamble: bool, pwronFixup: bool)

  const F_NOTPROTECTED := Flags(true, false, false, false, false, false, false, false)

  /** A context switch has a pagetable to load: not the active context's, nor the default one. */
  predicate NeedsTable(d: Device, active: Option<DrawContext>, ctx: DrawContext) {
    && !(active.Some? && active.value.pagetable == ctx.pagetable)
    && ctx.pagetable != d.defaultTable
  }

  /** What one addcmds call reads from outside the ring. */
  datatype Outside = Outside(
    sequence: word,                                       // A5XX: the next value of the static counter
    pre: Option<ProfileIb>, post: Option<ProfileIb>,      // the profiler's buffers
    rptr: nat,                                            // the read pointer at the allocation
    again: nat,                                           // A5XX: and at that of the position report
    faulted: bool,                                        // adreno_gpu_fault
    detached: bool                                        // adreno_drawctxt_detached, for its context
  )

  predicate ValidOutside(o: Outside) { o.rptr < RB_DWORDS && o.again < RB_DWORDS }

  /** drawctxt_switch lets a command of this context through; `held` is whether it could take a reference. */
  predicate Entered(active: Option<DrawContext>, ctx: DrawContext, detached: bool, held: bool) {
    active == Some(ctx) || (!detached && held)
  }

  datatype Status = OK | ENOENT | EPROTO | ENOSPC

  function When(c: bool, e: Event): seq<Event> {
    if c then [e] else []
  }
}
