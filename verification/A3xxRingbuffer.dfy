/**
  A3XX submission: the words around a payload, and those of a context switch and of a user
  command.
 */
module A3xxRingbuffer {
  import opened Basics
  import opened Pm4
  import opened CommandProcessor
  import opened Reservations
  import opened Ringbuffer
  import opened RingLife
  import opened Adreno
  import opened A3xxPackets
  import opened A3xxSmmu
  import opened IndirectBuffers

  const A3XX_SUBMIT_MAX := 55
  const A3XX_COMMAND_DWORDS := 4
  const PWRON_FIXUP_IDENTIFIER: word := 0x2AFAFAFA
  const A3XX_UCHE_CACHE_INVALIDATE0 := 0xEA0
  const A3XX_HLSQ_CL_KERNEL_GROUP_X := 0x2215
  const HLSQ_FLUSH: word := 7

  // ------------------------------------------------------- what a submission does

  function ProfileEvents(p: Option<ProfileIb>): seq<Event> {
    if p.None? then [] else [RunIb(Lo(p.value.addr), p.value.dwords)]
  }

  /** Both mode writes say 0. */
  function FixupEvents(d: Device, on: bool): seq<Event> {
    if !on then []
    else [SetProtected(false)] + [RunIb(Lo(d.pwronFixup), d.pwronFixupDwords)] + [SetProtected(false)]
  }

  function StartEvents(d: Device, id: nat, ctx: Option<DrawContext>, ts: word, rbTs: word): seq<Event>
    requires ValidDevice(d) && id < RB_LEVELS && (ctx.Some? ==> ValidContext(ctx.value))
  {
    (if ctx.None? then [] else [MemWrite(Lo(Sop(d, ctx.value.id)), [ts])])
    + [MemWrite(Lo(Sop(d, RbIndex(id))), [rbTs])]
  }

  function BeforePayload(d: Device, id: nat, ctx: Option<DrawContext>, flags: Flags, ts: word, rbTs: word,
                         profile: Option<ProfileIb>): seq<Event>
    requires ValidDevice(d) && id < RB_LEVELS && (ctx.Some? ==> ValidContext(ctx.value))
  {
    FixupEvents(d, flags.pwronFixup)
    + ProfileEvents(profile)
    + StartEvents(d, id, ctx, ts, rbTs)
    + When(flags.notProtected, SetProtected(false))
  }

  function RetireEvents(d: Device, id: nat, ctx: Option<DrawContext>, ts: word, rbTs: word): seq<Event>
    requires ValidDevice(d) && id < RB_LEVELS && (ctx.Some? ==> ValidContext(ctx.value))
  {
    if ctx.None? then [EventWrite(CACHE_FLUSH_TS + IRQ, Lo(Eop(d, RbIndex(id))), rbTs)]
    else [EventWrite(CACHE_FLUSH_TS + IRQ, Lo(Eop(d, ctx.value.id)), ts)]
         + [EventWrite(CACHE_FLUSH_TS, Lo(Eop(d, RbIndex(id))), rbTs)]
  }

  /** The word that names HLSQ_CL_KERNEL_GROUP_X to CP_SET_CONSTANT. */
  const ROLLOVER: word := 0x4_0000 + (A3XX_HLSQ_CL_KERNEL_GROUP_X - 0x2000)

  function AfterPayload(d: Device, id: nat, ctx: Option<DrawContext>, flags: Flags, ts: word, rbTs: word,
                        profile: Option<ProfileIb>): seq<Event>
    requires ValidDevice(d) && id < RB_LEVELS && (ctx.Some? ==> ValidContext(ctx.value))
  {
    When(flags.notProtected, SetProtected(true))
    + [Other(CP_EVENT_WRITE, [HLSQ_FLUSH])]
    + [Other(CP_WAIT_FOR_IDLE, [0])]
    + ProfileEvents(profile)
    + RetireEvents(d, id, ctx, ts, rbTs)
    + [Other(CP_SET_CONSTANT, [ROLLOVER, 0])]
    + When(flags.wfi, Other(CP_WAIT_FOR_IDLE, [0]))
  }

  // ------------------------------------------------------------------- the writers

  method PutProfile(cmds: seq<word>, profile: Option<ProfileIb>, ghost events: seq<Event>) returns (out: seq<word>)
    requires Causes(cmds, events)
    ensures |out| <= |cmds| + 3 && Causes(out, events + ProfileEvents(profile))
  {
    assert events + [] == events;
    out := cmds;
    if profile.Some? {
      out := PutIb(cmds, profile.value.addr, profile.value.dwords, events);
    }
  }

  /** The power-on fixup buffer, with register protection off. */
  method WriteFixup(cmds: seq<word>, d: Device, on: bool, ghost events: seq<Event>) returns (out: seq<word>)
    requires Causes(cmds, events)
    ensures |out| <= |cmds| + 9 && Causes(out, events + FixupEvents(d, on))
  {
    out := cmds;
    if !on {
      assert events + [] == events;
      return;
    }
    ghost var a, b := [SetProtected(false)], [RunIb(Lo(d.pwronFixup), d.pwronFixupDwords)];
    out := PutProtected(out, false, events);
    out := PutNop(out, PWRON_FIXUP_IDENTIFIER, events + a);
    out := PutIb(out, d.pwronFixup, d.pwronFixupDwords, events + a);
    out := PutProtected(out, false, events + a + b);
    Regroup(events, a, b, [SetProtected(false)]);
  }

  method WriteStart(cmds: seq<word>, d: Device, id: nat, ctx: Option<DrawContext>, ts: word, rbTs: word,
                    ghost events: seq<Event>) returns (out: seq<word>)
    requires ValidDevice(d) && id < RB_LEVELS && (ctx.Some? ==> ValidContext(ctx.value))
    requires Causes(cmds, events)
    ensures |out| <= |cmds| + 6 && Causes(out, events + StartEvents(d, id, ctx, ts, rbTs))
  {
    out := cmds;
    ghost var own := if ctx.None? then [] else [MemWrite(Lo(Sop(d, ctx.value.id)), [ts])];
    assert events + [] == events;
    if ctx.Some? {
      out := PutMemWrite(out, Sop(d, ctx.value.id), ts, events);
    }
    out := PutMemWrite(out, Sop(d, RbIndex(id)), rbTs, events + own);
    Regroup(events, own, [MemWrite(Lo(Sop(d, RbIndex(id))), [rbTs])], []);
  }

  method WriteRetire(cmds: seq<word>, d: Device, id: nat, ctx: Option<DrawContext>, ts: word, rbTs: word,
                     ghost events: seq<Event>) returns (out: seq<word>)
    requires ValidDevice(d) && id < RB_LEVELS && (ctx.Some? ==> ValidContext(ctx.value))
    requires Causes(cmds, events)
    ensures |out| <= |cmds| + 8 && Causes(out, events + RetireEvents(d, id, ctx, ts, rbTs))
  {
    if ctx.None? {
      out := PutTimestamp(cmds, CACHE_FLUSH_TS + IRQ, Eop(d, RbIndex(id)), rbTs, events);
    } else {
      ghost var own := [EventWrite(CACHE_FLUSH_TS + IRQ, Lo(Eop(d, ctx.value.id)), ts)];
      out := PutTimestamp(cmds, CACHE_FLUSH_TS + IRQ, Eop(d, ctx.value.id), ts, events);
      out := PutTimestamp(out, CACHE_FLUSH_TS, Eop(d, RbIndex(id)), rbTs, events + own);
      Regroup(events, own, [EventWrite(CACHE_FLUSH_TS, Lo(Eop(d, RbIndex(id))), rbTs)], []);
    }
  }

  /** The words of a3xx_ringbuffer_addcmds before the payload. */
  method WriteBefore(d: Device, id: nat, ctx: Option<DrawContext>, flags: Flags, ts: word, rbTs: word,
                     profile: Option<ProfileIb>) returns (cmds: seq<word>)
    requires ValidDevice(d) && id < RB_LEVELS && (ctx.Some? ==> ValidContext(ctx.value))
    ensures |cmds| <= 22 && Causes(cmds, BeforePayload(d, id, ctx, flags, ts, rbTs, profile))
  {
    CausesNothing();
    cmds := PutNop([], if ctx.Some? then CMD_IDENTIFIER else CMD_INTERNAL_IDENTIFIER, []);
    cmds := WriteFixup(cmds, d, flags.pwronFixup, []);
    ghost var e := FixupEvents(d, flags.pwronFixup);
    assert [] + e == e;
    cmds := PutProfile(cmds, profile, e);
    e := e + ProfileEvents(profile);
    cmds := WriteStart(cmds, d, id, ctx, ts, rbTs, e);
    e := e + StartEvents(d, id, ctx, ts, rbTs);
    assert e + [] == e;
    if flags.notProtected {
      cmds := PutProtected(cmds, false, e);
    }
  }

  /** The words of a3xx_ringbuffer_addcmds after the payload. */
  method WriteAfter(d: Device, id: nat, ctx: Option<DrawContext>, flags: Flags, ts: word, rbTs: word,
                    profile: Option<ProfileIb>) returns (cmds: seq<word>)
    requires ValidDevice(d) && id < RB_LEVELS && (ctx.Some? ==> ValidContext(ctx.value))
    ensures |cmds| <= 22 && Causes(cmds, AfterPayload(d, id, ctx, flags, ts, rbTs, profile))
  {
    CausesNothing();
    cmds := [];
    ghost var e := When(flags.notProtected, SetProtected(true));
    assert [] + e == e;
    if flags.notProtected {
      cmds := PutProtected(cmds, true, []);
    }
    cmds := PutPlain(cmds, CP_EVENT_WRITE, [HLSQ_FLUSH], e);
    e := e + [Other(CP_EVENT_WRITE, [HLSQ_FLUSH])];
    cmds := PutPlain(cmds, CP_WAIT_FOR_IDLE, [0], e);
    e := e + [Other(CP_WAIT_FOR_IDLE, [0])];
    cmds := PutProfile(cmds, profile, e);
    e := e + ProfileEvents(profile);
    cmds := WriteRetire(cmds, d, id, ctx, ts, rbTs, e);
    e := e + RetireEvents(d, id, ctx, ts, rbTs);
    cmds := PutPlain(cmds, CP_SET_CONSTANT, [ROLLOVER, 0], e);
    e := e + [Other(CP_SET_CONSTANT, [ROLLOVER, 0])];
    assert e + [] == e;
    if flags.wfi {
      cmds := PutPlain(cmds, CP_WAIT_FOR_IDLE, [0], e);
    }
  }

  // ------------------------------------------------------------------ into the ring

  function SubmissionEvents(d: Device, id: nat, ctx: Option<DrawContext>, flags: Flags, ts: word, rbTs: word,
                            o: Outside, payload: seq<Event>): seq<Event>
    requires ValidDevice(d) && id < RB_LEVELS && (ctx.Some? ==> ValidContext(ctx.value))
  {
    BeforePayload(d, id, ctx, flags, ts, rbTs, o.pre) + payload + AfterPayload(d, id, ctx, flags, ts, rbTs, o.post)
  }

  /** `ws` is now behind whatever a CP had still to read; `size` words had been reserved for it. */
  ghost predicate Landed(buf: seq<word>, wptr: nat, buf': seq<word>, wptr': nat, rptr: nat, size: word, ws: seq<word>)
    requires |buf| == |buf'| == RB_DWORDS && wptr <= RB_DWORDS - 2 && wptr' <= RB_DWORDS - 2
  {
    var g := Reserve(rptr, wptr, size);
    && g.Space?
    && forall r: nat | Behind(rptr, r, wptr) && r < RB_DWORDS ::
         Appended(buf, wptr, buf', wptr', r, true, g.wrapped, ws)
  }

  /** The ring went from one state to the next by delivering a stream that causes `events`. */
  ghost predicate Delivers(buf: seq<word>, wptr: nat, buf': seq<word>, wptr': nat, rptr: nat, size: word,
                           events: seq<Event>)
    requires |buf| == |buf'| == RB_DWORDS && wptr <= RB_DWORDS - 2 && wptr' <= RB_DWORDS - 2
  {
    exists ws :: Causes(ws, events) && Landed(buf, wptr, buf', wptr', rptr, size, ws)
  }

  /** Whatever the CP still had to execute, `events` now follow. */
  lemma DeliversMeaning(buf: seq<word>, wptr: nat, buf': seq<word>, wptr': nat, rptr: nat, size: word,
                        events: seq<Event>, r: nat)
    requires |buf| == |buf'| == RB_DWORDS && wptr <= RB_DWORDS - 2 && wptr' <= RB_DWORDS - 2 && r < RB_DWORDS
    requires Behind(rptr, r, wptr) && Delivers(buf, wptr, buf', wptr', rptr, size, events)
    ensures Continues(buf, wptr, buf', wptr', r, events)
  {
    var ws :| Causes(ws, events) && Landed(buf, wptr, buf', wptr', rptr, size, ws);
    CausesMeaning(ws, events);
    if Meaning(Unread(buf, r, wptr)).Some? {
      AppendedMeaning(buf, wptr, buf', wptr', r, true, Reserve(rptr, wptr, size).wrapped, ws);
    }
  }

  method WriteFrame(d: Device, id: nat, ctx: Option<DrawContext>, flags: Flags, payload: seq<word>, ts: word,
                    rbTs: word, o: Outside, ghost events: seq<Event>) returns (ws: seq<word>)
    requires ValidDevice(d) && id < RB_LEVELS && (ctx.Some? ==> ValidContext(ctx.value)) && Causes(payload, events)
    ensures |ws| <= 44 + |payload| && Causes(ws, SubmissionEvents(d, id, ctx, flags, ts, rbTs, o, events))
  {
    var first := WriteBefore(d, id, ctx, flags, ts, rbTs, o.pre);
    var last := WriteAfter(d, id, ctx, flags, ts, rbTs, o.post);
    ghost var b := BeforePayload(d, id, ctx, flags, ts, rbTs, o.pre);
    CausesConcat(first, b, payload, events);
    CausesConcat(first + payload, b + events, last, AfterPayload(d, id, ctx, flags, ts, rbTs, o.post));
    ws := first + payload + last;
  }

  // ---------------------------------------------------------------- context switches

  function SwitchEvents(d: Device, id: nat, active: Option<DrawContext>, ctx: DrawContext): seq<Event>
    requires ValidDevice(d) && id < RB_LEVELS
  {
    (if NeedsTable(d, active, ctx) then PagetableEvents(d.setstate, ctx.pagetable.ttbr0) else [])
    + [MemWrite(Lo(CurrentContext(d, RbIndex(id))), [ctx.id])]
    + [MemWrite(Lo(CurrentContext(d, KGSL_MEMSTORE_GLOBAL)), [ctx.id])]
    + [RegWrite(A3XX_UCHE_CACHE_INVALIDATE0, [0, 0x9000_0000])]
  }

  /** The words of a context switch. */
  function SwitchWords(d: Device, active: Option<DrawContext>, ctx: DrawContext): nat {
    if NeedsTable(d, active, ctx) then 61 else 11
  }

  /** The submission of a3xx_rb_context_switch, from `active` to `ctx`. */
  function SwitchSubmission(d: Device, id: nat, active: Option<DrawContext>, ctx: DrawContext, rbTs: word,
                            o: Outside): seq<Event>
    requires ValidDevice(d) && id < RB_LEVELS
  {
    SubmissionEvents(d, id, None, F_NOTPROTECTED, 0, rbTs, o, SwitchEvents(d, id, active, ctx))
  }

  /** The words of a3xx_rb_context_switch fit the 64 words on its stack. */
  method WriteContextSwitch(d: Device, id: nat, active: Option<DrawContext>, ctx: DrawContext)
    returns (cmds: seq<word>)
    requires ValidDevice(d) && id < RB_LEVELS
    ensures |cmds| == SwitchWords(d, active, ctx) <= 64
    ensures Causes(cmds, SwitchEvents(d, id, active, ctx))
  {
    CausesNothing();
    cmds := [];
    ghost var e := if NeedsTable(d, active, ctx) then PagetableEvents(d.setstate, ctx.pagetable.ttbr0) else [];
    if !(active.Some? && active.value.pagetable == ctx.pagetable) {
      if ctx.pagetable != d.defaultTable {
        cmds := WritePagetableSwitch(d.setstate, ctx.pagetable.ttbr0);
      }
    }
    cmds := PutNop(cmds, CONTEXT_TO_MEM_IDENTIFIER, e);
    cmds := PutMemWrite(cmds, CurrentContext(d, RbIndex(id)), ctx.id, e);
    e := e + [MemWrite(Lo(CurrentContext(d, RbIndex(id))), [ctx.id])];
    cmds := PutMemWrite(cmds, CurrentContext(d, KGSL_MEMSTORE_GLOBAL), ctx.id, e);
    e := e + [MemWrite(Lo(CurrentContext(d, KGSL_MEMSTORE_GLOBAL)), [ctx.id])];
    cmds := PutRegs(cmds, A3XX_UCHE_CACHE_INVALIDATE0, [0, 0x9000_0000], e);
  }

  // ------------------------------------------------------------------- user commands

  /** `ib->size >> 2`, cut to the 32 bits of a command word. */
  function IbDwords(size: qword): word { size / 4 % 0x1_0000_0000 }

  function ListedEvents(ib: Ib, preamble: bool): seq<Event> {
    When(!Skipped(ib, preamble), RunIb(Lo(ib.gpuaddr), IbDwords(ib.size)))
  }

  function KeptEvents(list: seq<Ib>, preamble: bool): seq<Event>
    decreases |list|
  {
    if list == [] then []
    else KeptEvents(list[..|list| - 1], preamble) + ListedEvents(list[|list| - 1], preamble)
  }

  function CommandEvents(list: seq<Ib>, flags: Flags): seq<Event> {
    KeptEvents(if flags.skip then [] else list, flags.preamble)
  }

  function ListedLength(ib: Ib, preamble: bool): nat { if Skipped(ib, preamble) then 4 else 3 }

  function ListLength(list: seq<Ib>, preamble: bool): nat
    decreases |list|
  {
    if list == [] then 0
    else ListLength(list[..|list| - 1], preamble) + ListedLength(list[|list| - 1], preamble)
  }

  lemma {:induction false} ListFits(list: seq<Ib>, preamble: bool)
    ensures 3 * |list| <= ListLength(list, preamble) <= 4 * |list|
    decreases |list|
  {
    if list != [] {
      ListFits(list[..|list| - 1], preamble);
    }
  }

  /** The words of a command: its two markers and its list. */
  function CommandLength(list: seq<Ib>, flags: Flags): nat {
    4 + ListLength(if flags.skip then [] else list, flags.preamble)
  }

  function ListedWords(ib: Ib): seq<word> {
    [Type3Header(CP_INDIRECT_BUFFER_PFE, 2), Lo(ib.gpuaddr), IbDwords(ib.size)]
  }

  /** Behind a NOP header for three words the packet is payload; without it, it runs. */
  lemma ListedCauses(cmds: seq<word>, ib: Ib, skipped: bool, events: seq<Event>)
    requires Causes(cmds, events)
    ensures var w := ListedWords(ib);
      Causes(if skipped then cmds + [Type3Header(CP_NOP, 3)] + w else cmds + w,
             events + When(!skipped, RunIb(Lo(ib.gpuaddr), IbDwords(ib.size))))
  {
    var w := ListedWords(ib);
    if skipped {
      var p := Type3(CP_NOP, w);
      assert cmds + [Type3Header(CP_NOP, 3)] + w == cmds + Words(p);
      CausesPacket(p);
      CausesConcat(cmds, events, Words(p), []);
    } else {
      var p := Type3(CP_INDIRECT_BUFFER_PFE, [Lo(ib.gpuaddr), IbDwords(ib.size)]);
      assert w == Words(p);
      CausesPacket(p);
      CausesConcat(cmds, events, w, PacketEvents(p));
    }
  }

  method PutListed(cmds: seq<word>, ib: Ib, preamble: bool, ghost events: seq<Event>) returns (out: seq<word>)
    requires Causes(cmds, events)
    ensures |out| == |cmds| + ListedLength(ib, preamble) && Causes(out, events + ListedEvents(ib, preamble))
  {
    out := cmds;
    if Skipped(ib, preamble) {
      out := out + [Type3Header(CP_NOP, 3)];
    }
    out := out + [Type3Header(CP_INDIRECT_BUFFER_PFE, 2), Lo(ib.gpuaddr), IbDwords(ib.size)];
    ListedCauses(cmds, ib, Skipped(ib, preamble), events);
  }

  /** The words of a3xx_ringbuffer_submitcmd exactly fit their allocation when every buffer is skipped. */
  method BuildCommand(list: seq<Ib>, flags: Flags) returns (cmds: seq<word>)
    ensures |cmds| == CommandLength(list, flags)
    ensures |cmds| <= A3XX_COMMAND_DWORDS + 4 * (if flags.skip then 0 else |list|)
    ensures Causes(cmds, CommandEvents(list, flags))
  {
    hide Causes;
    CausesNothing();
    var numibs := if flags.skip then 0 else |list|;
    cmds := PutNop([], START_IB_IDENTIFIER, []);
    for i := 0 to numibs
      invariant |cmds| == 2 + ListLength(list[..i], flags.preamble)
      invariant Causes(cmds, KeptEvents(list[..i], flags.preamble))
    {
      cmds := PutListed(cmds, list[i], flags.preamble, KeptEvents(list[..i], flags.preamble));
      assert list[..i + 1][..i] == list[..i];
    }
    assert list[..numibs] == if flags.skip then [] else list;
    ListFits(list[..numibs], flags.preamble);
    cmds := PutNop(cmds, END_IB_IDENTIFIER, CommandEvents(list, flags));
  }

}
