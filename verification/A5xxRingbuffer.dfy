/**
  A5XX submission: the words a5xx_ringbuffer_addcmds puts around a payload, how they get
  into the ring, and the modes they leave the CP in.
 */
module A5xxRingbuffer {
  import opened Basics
  import opened Pm4
  import opened Sequences
  import opened CommandProcessor
  import opened Reservations
  import opened Ringbuffer
  import opened Adreno
  import opened A5xxPackets

  const STYLE_RINGBUFFER := 1
  const STYLE_FINEGRAIN := 2

  /** The preemption style: a secure context is only preempted between ring commands. */
  function PreemptStyle(ctx: Option<DrawContext>): nat {
    if ctx.None? then 0
    else if ctx.value.flags / 0x2_0000 % 2 == 1 then STYLE_RINGBUFFER
    else ctx.value.flags / 0x200_0000 % 8
  }

  // ------------------------------------------------------- what a submission does

  function ProfileEvents(p: Option<ProfileIb>): seq<Event> {
    if p.None? then [] else [RunIb(p.value.addr, p.value.dwords)]
  }

  function PreIbEvents(d: Device, record: qword, ctx: Option<DrawContext>): seq<Event> {
    if !d.preemption then []
    else
      var fine := PreemptStyle(ctx) == STYLE_FINEGRAIN;
      [Other(CP_PREEMPT_ENABLE_GLOBAL, [if fine then 2 else 0])]
      + [SetProtected(false)]
      + [RegWrite(A5XX_CP_CONTEXT_SWITCH_SAVE_ADDR_LO, [Lo(record)])]
      + [RegWrite(A5XX_CP_CONTEXT_SWITCH_SAVE_ADDR_HI, [Hi(record)])]
      + [SetProtected(true)]
      + [Other(CP_PREEMPT_ENABLE_LOCAL, [if fine then 1 else 0])]
      + [Other(CP_YIELD_ENABLE, [2])]
  }

  function PostIbEvents(d: Device): seq<Event> {
    if d.preemption then [ContextYield] else []
  }

  function StartEvents(d: Device, id: nat, ctx: Option<DrawContext>, ts: word, rbTs: word): seq<Event>
    requires ValidDevice(d) && id < RB_LEVELS && (ctx.Some? ==> ValidContext(ctx.value))
  {
    if ctx.None? then [MemWrite(Sop(d, RbIndex(id)), [rbTs])]
    else [MemWrite(Sop(d, ctx.value.id), [ts]), MemWrite(Sop(d, RbIndex(id)), [rbTs])]
  }

  /** Everything before the payload. */
  function BeforePayload(d: Device, id: nat, record: qword, ctx: Option<DrawContext>, flags: Flags,
                         ts: word, rbTs: word, profile: Option<ProfileIb>): seq<Event>
    requires ValidDevice(d) && id < RB_LEVELS && (ctx.Some? ==> ValidContext(ctx.value))
  {
    PreIbEvents(d, record, ctx)
    + ProfileEvents(profile)
    + StartEvents(d, id, ctx, ts, rbTs)
    + When(flags.secure, SetSecure(true))
    + When(flags.notProtected, SetProtected(false))
  }

  function RetireEvents(d: Device, id: nat, ctx: Option<DrawContext>, ts: word, rbTs: word): seq<Event>
    requires ValidDevice(d) && id < RB_LEVELS && (ctx.Some? ==> ValidContext(ctx.value))
  {
    if ctx.None? then
      [EventWrite(CACHE_FLUSH_TS + IRQ, Eop(d, RbIndex(id)), rbTs)]
    else
      [EventWrite(CACHE_FLUSH_TS + IRQ, Eop(d, ctx.value.id), ts),
       EventWrite(CACHE_FLUSH_TS, Eop(d, RbIndex(id)), rbTs)]
  }

  /** Everything after the payload. */
  function AfterPayload(d: Device, id: nat, ctx: Option<DrawContext>, flags: Flags,
                        ts: word, rbTs: word, sequence: word, profile: Option<ProfileIb>): seq<Event>
    requires ValidDevice(d) && id < RB_LEVELS && (ctx.Some? ==> ValidContext(ctx.value))
  {
    When(flags.notProtected, SetProtected(true))
    + ProfileEvents(profile)
    + When(d.waitMemWrites, Other(CP_WAIT_MEM_WRITES, []))
    + [MemWrite(RefWaitTs(d), [sequence])]
    + RetireEvents(d, id, ctx, ts, rbTs)
    + When(flags.wfi, Other(CP_WAIT_FOR_IDLE, []))
    + When(flags.secure, SetSecure(false))
    + PostIbEvents(d)
  }

  // ----------------------------------------------------------------- the writers

  /** a5xx_preemption_pre_ibsubmit */
  method PreIbsubmit(cmds: seq<word>, d: Device, record: qword, ctx: Option<DrawContext>,
                     ghost events: seq<Event>) returns (out: seq<word>)
    requires Causes(cmds, events)
    ensures |out| <= |cmds| + 14 && Causes(out, events + PreIbEvents(d, record, ctx))
  {
    if !d.preemption {
      assert events + [] == events;
      return cmds;
    }
    var fine := PreemptStyle(ctx) == STYLE_FINEGRAIN;
    CausesNothing();
    ghost var e := [Other(CP_PREEMPT_ENABLE_GLOBAL, [if fine then 2 else 0])];
    assert [] + e == e;
    var pre := PutPlain([], CP_PREEMPT_ENABLE_GLOBAL, [if fine then 2 else 0], []);
    pre := PutProtected(pre, false, e);
    e := e + [SetProtected(false)];
    pre := PutReg(pre, A5XX_CP_CONTEXT_SWITCH_SAVE_ADDR_LO, Lo(record), e);
    e := e + [RegWrite(A5XX_CP_CONTEXT_SWITCH_SAVE_ADDR_LO, [Lo(record)])];
    pre := PutReg(pre, A5XX_CP_CONTEXT_SWITCH_SAVE_ADDR_HI, Hi(record), e);
    e := e + [RegWrite(A5XX_CP_CONTEXT_SWITCH_SAVE_ADDR_HI, [Hi(record)])];
    pre := PutProtected(pre, true, e);
    e := e + [SetProtected(true)];
    pre := PutPlain(pre, CP_PREEMPT_ENABLE_LOCAL, [if fine then 1 else 0], e);
    e := e + [Other(CP_PREEMPT_ENABLE_LOCAL, [if fine then 1 else 0])];
    pre := PutPlain(pre, CP_YIELD_ENABLE, [2], e);
    CausesConcat(cmds, events, pre, PreIbEvents(d, record, ctx));
    out := cmds + pre;
  }

  /** a5xx_preemption_post_ibsubmit */
  method PostIbsubmit(cmds: seq<word>, d: Device, ghost events: seq<Event>) returns (out: seq<word>)
    requires Causes(cmds, events)
    ensures |out| <= |cmds| + 5 && Causes(out, events + PostIbEvents(d))
  {
    if !d.preemption {
      assert events + [] == events;
      return cmds;
    }
    out := PutYield(cmds, events);
  }

  /** An optional profiler buffer. */
  method PutProfile(cmds: seq<word>, profile: Option<ProfileIb>, ghost events: seq<Event>) returns (out: seq<word>)
    requires Causes(cmds, events)
    ensures |out| <= |cmds| + 4 && Causes(out, events + ProfileEvents(profile))
  {
    if profile.None? {
      assert events + [] == events;
      return cmds;
    }
    out := PutIb(cmds, profile.value.addr, profile.value.dwords, events);
  }

  /** The words of a5xx_ringbuffer_addcmds before the payload. */
  method WriteBefore(d: Device, id: nat, record: qword, ctx: Option<DrawContext>, flags: Flags,
                     ts: word, rbTs: word, profile: Option<ProfileIb>) returns (cmds: seq<word>)
    requires ValidDevice(d) && id < RB_LEVELS && (ctx.Some? ==> ValidContext(ctx.value))
    ensures |cmds| <= 32
    ensures Causes(cmds, BeforePayload(d, id, record, ctx, flags, ts, rbTs, profile))
  {
    CausesNothing();
    cmds := PutNop([], if ctx.Some? then CMD_IDENTIFIER else CMD_INTERNAL_IDENTIFIER, []);
    cmds := PreIbsubmit(cmds, d, record, ctx, []);
    ghost var e := PreIbEvents(d, record, ctx);
    assert [] + e == e;
    cmds := PutProfile(cmds, profile, e);
    e := e + ProfileEvents(profile);
    cmds := WriteStart(cmds, d, id, ctx, ts, rbTs, e);
    e := e + StartEvents(d, id, ctx, ts, rbTs);
    cmds := PutSecureIf(cmds, flags.secure, true, e);
    e := e + When(flags.secure, SetSecure(true));
    cmds := PutProtectedIf(cmds, flags.notProtected, false, e);
  }

  /** The words of a5xx_ringbuffer_addcmds after the payload. */
  method WriteAfter(d: Device, id: nat, ctx: Option<DrawContext>, flags: Flags, ts: word, rbTs: word,
                    sequence: word, profile: Option<ProfileIb>) returns (cmds: seq<word>)
    requires ValidDevice(d) && id < RB_LEVELS && (ctx.Some? ==> ValidContext(ctx.value))
    ensures |cmds| <= 29
    ensures Causes(cmds, AfterPayload(d, id, ctx, flags, ts, rbTs, sequence, profile))
  {
    CausesNothing();
    cmds := PutProtectedIf([], flags.notProtected, true, []);
    ghost var e := When(flags.notProtected, SetProtected(true));
    assert [] + e == e;
    cmds := PutProfile(cmds, profile, e);
    e := e + ProfileEvents(profile);
    cmds := PutPlainIf(cmds, d.waitMemWrites, CP_WAIT_MEM_WRITES, e);
    e := e + When(d.waitMemWrites, Other(CP_WAIT_MEM_WRITES, []));
    cmds := PutMemWrite(cmds, RefWaitTs(d), [sequence], e);
    e := e + [MemWrite(RefWaitTs(d), [sequence])];
    cmds := WriteRetire(cmds, d, id, ctx, ts, rbTs, e);
    e := e + RetireEvents(d, id, ctx, ts, rbTs);
    cmds := PutPlainIf(cmds, flags.wfi, CP_WAIT_FOR_IDLE, e);
    e := e + When(flags.wfi, Other(CP_WAIT_FOR_IDLE, []));
    cmds := PutSecureIf(cmds, flags.secure, false, e);
    e := e + When(flags.secure, SetSecure(false));
    cmds := PostIbsubmit(cmds, d, e);
  }

  method PutSecureIf(cmds: seq<word>, c: bool, on: bool, ghost events: seq<Event>) returns (out: seq<word>)
    requires Causes(cmds, events)
    ensures |out| <= |cmds| + 2 && Causes(out, events + When(c, SetSecure(on)))
  {
    assert events + [] == events;
    out := cmds;
    if c {
      out := PutSecure(cmds, on, events);
    }
  }

  method PutProtectedIf(cmds: seq<word>, c: bool, on: bool, ghost events: seq<Event>) returns (out: seq<word>)
    requires Causes(cmds, events)
    ensures |out| <= |cmds| + 2 && Causes(out, events + When(c, SetProtected(on)))
  {
    assert events + [] == events;
    out := cmds;
    if c {
      out := PutProtected(cmds, on, events);
    }
  }

  method PutPlainIf(cmds: seq<word>, c: bool, op: nat, ghost events: seq<Event>) returns (out: seq<word>)
    requires Plain(op) && Causes(cmds, events)
    ensures |out| <= |cmds| + 1 && Causes(out, events + When(c, Other(op, [])))
  {
    assert events + [] == events;
    out := cmds;
    if c {
      out := PutPlain(cmds, op, [], events);
    }
  }

  /** The start-of-pipe timestamps: the context's, if there is one, and the ring's. */
  method WriteStart(cmds: seq<word>, d: Device, id: nat, ctx: Option<DrawContext>, ts: word, rbTs: word,
                    ghost events: seq<Event>) returns (out: seq<word>)
    requires ValidDevice(d) && id < RB_LEVELS && (ctx.Some? ==> ValidContext(ctx.value))
    requires Causes(cmds, events)
    ensures |out| <= |cmds| + 8 && Causes(out, events + StartEvents(d, id, ctx, ts, rbTs))
  {
    out := cmds;
    ghost var e := events;
    if ctx.Some? {
      out := PutMemWrite(out, Sop(d, ctx.value.id), [ts], e);
      e := e + [MemWrite(Sop(d, ctx.value.id), [ts])];
    }
    out := PutMemWrite(out, Sop(d, RbIndex(id)), [rbTs], e);
    assert e + [MemWrite(Sop(d, RbIndex(id)), [rbTs])] == events + StartEvents(d, id, ctx, ts, rbTs);
  }

  /** The end-of-pipe timestamps: the ring's alone, or the context's and the ring's. */
  method WriteRetire(cmds: seq<word>, d: Device, id: nat, ctx: Option<DrawContext>, ts: word, rbTs: word,
                     ghost events: seq<Event>) returns (out: seq<word>)
    requires ValidDevice(d) && id < RB_LEVELS && (ctx.Some? ==> ValidContext(ctx.value))
    requires Causes(cmds, events)
    ensures |out| <= |cmds| + 10 && Causes(out, events + RetireEvents(d, id, ctx, ts, rbTs))
  {
    if ctx.None? {
      out := PutTimestamp(cmds, CACHE_FLUSH_TS + IRQ, Eop(d, RbIndex(id)), rbTs, events);
    } else {
      out := PutTimestamp(cmds, CACHE_FLUSH_TS + IRQ, Eop(d, ctx.value.id), ts, events);
      ghost var e := events + [EventWrite(CACHE_FLUSH_TS + IRQ, Eop(d, ctx.value.id), ts)];
      out := PutTimestamp(out, CACHE_FLUSH_TS, Eop(d, RbIndex(id)), rbTs, e);
      assert e + [EventWrite(CACHE_FLUSH_TS, Eop(d, RbIndex(id)), rbTs)]
          == events + RetireEvents(d, id, ctx, ts, rbTs);
    }
  }

  // ------------------------------------------------------------- into the ring

  /** a5xx_ringbuffer_submit, up to the register write that PreemptDevice models. */
  method Submit(rb: Ring, d: Device, sync: bool, rptr: nat) returns (status: Status)
    requires rb.Valid() && rptr < RB_DWORDS && ValidDevice(d) && rb.id < RB_LEVELS
    modifies rb`pending, rb`wptr, rb.buffer
    ensures rb.Valid()
    ensures status == ENOSPC <==> sync && Reserve(rptr, old(rb.pending), 3).NoSpace?
    ensures status == OK || status == ENOSPC
    ensures status == ENOSPC ==> rb.wptr == old(rb.wptr)
    ensures status == OK ==> rb.wptr == rb.pending
    ensures !sync || status == ENOSPC ==> rb.pending == old(rb.pending) && rb.buffer[..] == old(rb.buffer[..])
    ensures sync && status == OK ==>
      forall r: nat | Behind(rptr, r, old(rb.pending)) && r < RB_DWORDS ::
        Appended(old(rb.buffer[..]), old(rb.pending), rb.buffer[..], rb.pending, r, false,
                 Reserve(rptr, old(rb.pending), 3).wrapped, WhereAmI(d, rb.id))
  {
    if sync {
      var granted := rb.Insert(3, WhereAmI(d, rb.id), rptr, false);
      if !granted {
        return ENOSPC;
      }
    }
    rb.wptr := rb.pending;
    return OK;
  }

  /** Makes the CP report where it is. */
  function WhereAmI(d: Device, id: nat): seq<word>
    requires ValidDevice(d) && id < RB_LEVELS
  {
    Words(Type7(CP_WHERE_AM_I, [Lo(ScratchRptr(d, id)), Hi(ScratchRptr(d, id))]))
  }

  /** The words around the payload. */
  ghost predicate Frames(d: Device, id: nat, record: qword, ctx: Option<DrawContext>, flags: Flags, ts: word,
                         rbTs: word, o: Outside, first: seq<word>, last: seq<word>)
    requires ValidDevice(d) && id < RB_LEVELS && (ctx.Some? ==> ValidContext(ctx.value))
  {
    && Causes(first, BeforePayload(d, id, record, ctx, flags, ts, rbTs, o.pre))
    && Causes(last, AfterPayload(d, id, ctx, flags, ts, rbTs, o.sequence, o.post))
  }

  method WriteFrame(d: Device, id: nat, record: qword, ctx: Option<DrawContext>, flags: Flags, ts: word, rbTs: word,
                    o: Outside) returns (first: seq<word>, last: seq<word>)
    requires ValidDevice(d) && id < RB_LEVELS && (ctx.Some? ==> ValidContext(ctx.value))
    ensures |first| + |last| <= A5XX_SUBMIT_MAX
    ensures Frames(d, id, record, ctx, flags, ts, rbTs, o, first, last)
  {
    first := WriteBefore(d, id, record, ctx, flags, ts, rbTs, o.pre);
    last := WriteAfter(d, id, ctx, flags, ts, rbTs, o.sequence, o.post);
  }

  // ---------------------------------------------------------------- what is delivered

  /** A position report follows a submission that ends at `at`, unless the device preempts or it finds no space. */
  predicate Reports(d: Device, again: nat, at: nat) { !d.preemption && Reserve(again, at, 3).Space? }

  function ReportEvents(d: Device, id: nat, again: nat, at: nat): seq<Event>
    requires ValidDevice(d) && id < RB_LEVELS
  {
    if Reports(d, again, at) then [Other(CP_WHERE_AM_I, [Lo(ScratchRptr(d, id)), Hi(ScratchRptr(d, id))])] else []
  }

  /** A CP at `r` reads what it had to read before, the gap, `ws` and `tail`. */
  ghost predicate Extended(buf: seq<word>, wptr: nat, buf': seq<word>, wptr': nat, r: nat, wrapped: bool,
                           ws: seq<word>, tail: seq<word>)
    requires |buf| == |buf'| == RB_DWORDS && wptr <= RB_DWORDS - 2 && wptr' <= RB_DWORDS - 2 && r < RB_DWORDS
  {
    Unread(buf', r, wptr') == Unread(buf, r, wptr) + Gap(buf, wptr, false, wrapped) + ws + tail
  }

  /** Where the CP can be: behind the write pointer, and also behind the submission if a report was reserved. */
  predicate Follows(d: Device, rptr: nat, again: nat, r: nat, wptr: nat, at: nat) {
    r < RB_DWORDS && Behind(rptr, r, wptr) && (d.preemption || Behind(again, r, at))
  }

  /**
    What a CP that is anywhere behind has to read after `ws` went into `size` reserved words,
    up to `at`: what it had, the gap, `ws`, and the position report, if there is one.
   */
  ghost predicate Delivered(d: Device, id: nat, buf: seq<word>, wptr: nat, buf': seq<word>, wptr': nat,
                            rptr: nat, again: nat, size: word, ws: seq<word>, at: nat)
    requires |buf| == |buf'| == RB_DWORDS && wptr <= RB_DWORDS - 2 && wptr' <= RB_DWORDS - 2
    requires ValidDevice(d) && id < RB_LEVELS
  {
    var g := Reserve(rptr, wptr, size);
    && g.Space? && at == g.at + |ws|
    && exists tail :: Causes(tail, ReportEvents(d, id, again, at))
         && forall r: nat | Follows(d, rptr, again, r, wptr, at) ::
              Extended(buf, wptr, buf', wptr', r, g.wrapped, ws, tail)
  }

  lemma NoReport(d: Device, id: nat, buf: seq<word>, wptr: nat, buf': seq<word>, rptr: nat, again: nat,
                 size: word, ws: seq<word>, at: nat)
    requires |buf| == |buf'| == RB_DWORDS && wptr <= RB_DWORDS - 2 && at <= RB_DWORDS - 2
    requires ValidDevice(d) && id < RB_LEVELS && !Reports(d, again, at)
    requires var g := Reserve(rptr, wptr, size);
      && g.Space? && at == g.at + |ws|
      && forall r: nat | Behind(rptr, r, wptr) && r < RB_DWORDS ::
           Appended(buf, wptr, buf', at, r, false, g.wrapped, ws)
    ensures Delivered(d, id, buf, wptr, buf', at, rptr, again, size, ws, at)
  {
    var g := Reserve(rptr, wptr, size);
    var tail: seq<word> := [];
    CausesNothing();
    assert Causes(tail, ReportEvents(d, id, again, at));
    forall r: nat | Follows(d, rptr, again, r, wptr, at)
      ensures Extended(buf, wptr, buf', at, r, g.wrapped, ws, tail)
    {
      assert Appended(buf, wptr, buf', at, r, false, g.wrapped, ws);
    }
  }

  lemma ThenReport(d: Device, id: nat, buf: seq<word>, wptr: nat, mid: seq<word>, buf': seq<word>, wptr': nat,
                   rptr: nat, again: nat, size: word, ws: seq<word>, at: nat)
    requires |buf| == |mid| == |buf'| == RB_DWORDS
    requires wptr <= RB_DWORDS - 2 && at <= RB_DWORDS - 2 && wptr' <= RB_DWORDS - 2
    requires ValidDevice(d) && id < RB_LEVELS && Reports(d, again, at)
    requires var g := Reserve(rptr, wptr, size);
      && g.Space? && at == g.at + |ws|
      && forall r: nat | Behind(rptr, r, wptr) && r < RB_DWORDS ::
           Appended(buf, wptr, mid, at, r, false, g.wrapped, ws)
    requires forall r: nat | Behind(again, r, at) && r < RB_DWORDS ::
               Appended(mid, at, buf', wptr', r, false, Reserve(again, at, 3).wrapped, WhereAmI(d, id))
    ensures Delivered(d, id, buf, wptr, buf', wptr', rptr, again, size, ws, at)
  {
    var g, h := Reserve(rptr, wptr, size), Reserve(again, at, 3);
    var tail := Gap(mid, at, false, h.wrapped) + WhereAmI(d, id);
    ReportCauses(d, id, mid, at, h.wrapped);
    assert Causes(tail, ReportEvents(d, id, again, at));
    forall r: nat | Follows(d, rptr, again, r, wptr, at)
      ensures Extended(buf, wptr, buf', wptr', r, g.wrapped, ws, tail)
    {
      assert Appended(buf, wptr, mid, at, r, false, g.wrapped, ws);
      assert Appended(mid, at, buf', wptr', r, false, h.wrapped, WhereAmI(d, id));
      Associative(Unread(mid, r, at), Gap(mid, at, false, h.wrapped), WhereAmI(d, id));
    }
  }

  lemma ReportCauses(d: Device, id: nat, buf: seq<word>, at: nat, wrapped: bool)
    requires |buf| == RB_DWORDS && at <= RB_DWORDS - 2 && ValidDevice(d) && id < RB_LEVELS
    ensures Causes(Gap(buf, at, false, wrapped) + WhereAmI(d, id),
                   [Other(CP_WHERE_AM_I, [Lo(ScratchRptr(d, id)), Hi(ScratchRptr(d, id))])])
  {
    var p := Type7(CP_WHERE_AM_I, [Lo(ScratchRptr(d, id)), Hi(ScratchRptr(d, id))]);
    CausesNothing();
    GapIsSkipped(buf, at, false);
    CausesPacket(p);
    CausesConcat(Gap(buf, at, false, wrapped), [], WhereAmI(d, id), PacketEvents(p));
  }

  /** Reserve, write, give back, publish; the submission ends at `at`. */
  method Deliver(rb: Ring, d: Device, size: word, ws: seq<word>, rptr: nat, again: nat)
    returns (granted: bool, ghost at: nat)
    requires rb.Valid() && rptr < RB_DWORDS && again < RB_DWORDS && ValidDevice(d) && rb.id < RB_LEVELS
    requires |ws| <= size && RB_DWORDS + size < U32
    modifies rb`pending, rb`wptr, rb.buffer
    ensures rb.Valid()
    ensures granted <==> Reserve(rptr, old(rb.pending), size).Space?
    ensures !granted ==>
      rb.pending == old(rb.pending) && rb.wptr == old(rb.wptr) && rb.buffer[..] == old(rb.buffer[..])
    ensures granted ==>
      Delivered(d, rb.id, old(rb.buffer[..]), old(rb.pending), rb.buffer[..], rb.pending, rptr, again, size, ws, at)
    ensures granted ==> Published(d, old(rb.wptr), rb.wptr, rb.pending, again, at)
  {
    granted := rb.Insert(size, ws, rptr, false);
    at := rb.pending;
    if granted {
      ghost var mid := rb.buffer[..];
      var ignored := Submit(rb, d, !d.preemption, again);
      if Reports(d, again, at) {
        ThenReport(d, rb.id, old(rb.buffer[..]), old(rb.pending), mid, rb.buffer[..], rb.pending,
                   rptr, again, size, ws, at);
      } else {
        NoReport(d, rb.id, old(rb.buffer[..]), old(rb.pending), mid, rptr, again, size, ws, at);
      }
    }
  }

  /** What was written is published, except that without preemption the report must have found space. */
  predicate Published(d: Device, before: nat, wptr: nat, pending: nat, again: nat, at: nat) {
    && (d.preemption || Reports(d, again, at) ==> wptr == pending)
    && (!d.preemption && !Reports(d, again, at) ==> wptr == before)
    && (!Reports(d, again, at) ==> pending == at)
  }

  /**
    a5xx_ringbuffer_addcmds for any payload words.  `first` and `last` frame the payload;
    what is given back never exceeds what was reserved.  As in the source, the result of
    publishing is ignored: it fails only without preemption, when the position report finds
    no space.
   */
  method AddCmds(rb: Ring, d: Device, record: qword, ctx: Option<DrawContext>, flags: Flags, payload: seq<word>,
                 ts: word, o: Outside)
    returns (status: Status, ghost at: nat, ghost first: seq<word>, ghost last: seq<word>)
    requires rb.Valid() && ValidOutside(o) && ValidDevice(d) && rb.id < RB_LEVELS
    requires (ctx.Some? ==> ValidContext(ctx.value)) && |payload| <= 0xFFFF_0000
    modifies rb, rb.buffer
    ensures rb.Valid()
    ensures status == StatusOf(ctx, o, old(rb.pending), |payload|)
    ensures rb.timestamp == if status in {OK, ENOSPC} then (old(rb.timestamp) + 1) % U32 else old(rb.timestamp)
    ensures status != OK ==>
      rb.pending == old(rb.pending) && rb.wptr == old(rb.wptr) && rb.buffer[..] == old(rb.buffer[..])
    ensures status == OK ==>
      && |first| + |last| <= A5XX_SUBMIT_MAX
      && Frames(d, rb.id, record, ctx, flags, ts, rb.timestamp, o, first, last)
    ensures status == OK ==>
      Delivered(d, rb.id, old(rb.buffer[..]), old(rb.pending), rb.buffer[..], rb.pending, o.rptr, o.again,
                A5XX_SUBMIT_MAX + |payload|, first + payload + last, at)
    ensures status == OK ==> Published(d, old(rb.wptr), rb.wptr, rb.pending, o.again, at)
  {
    at, first, last := 0, [], [];
    if ctx.Some? && o.detached {
      return ENOENT, at, first, last;
    }
    if o.faulted {
      return EPROTO, at, first, last;
    }
    rb.timestamp := (rb.timestamp + 1) % U32;
    var head, tail := WriteFrame(d, rb.id, record, ctx, flags, ts, rb.timestamp, o);
    var granted;
    granted, at := Deliver(rb, d, A5XX_SUBMIT_MAX + |payload|, head + payload + tail, o.rptr, o.again);
    if !granted {
      return ENOSPC, at, first, last;
    }
    return OK, at, head, tail;
  }

  /** The status of a submission: a detached context, a GPU fault, no space, in this order. */
  function StatusOf(ctx: Option<DrawContext>, o: Outside, pending: nat, dwords: nat): Status
    requires dwords <= 0xFFFF_0000
  {
    if ctx.Some? && o.detached then ENOENT
    else if o.faulted then EPROTO
    else if Reserve(o.rptr, pending, A5XX_SUBMIT_MAX + dwords).NoSpace? then ENOSPC
    else OK
  }

  /** The wrapping ring delivers the submission, and a report, behind everything the CP had still to execute. */
  lemma RingDelivers(d: Device, id: nat, buf: seq<word>, wptr: nat, buf': seq<word>, wptr': nat, rptr: nat, again: nat,
                     size: word, ws: seq<word>, at: nat, r: nat)
    requires |buf| == |buf'| == RB_DWORDS && wptr <= RB_DWORDS - 2 && wptr' <= RB_DWORDS - 2
    requires ValidDevice(d) && id < RB_LEVELS && Follows(d, rptr, again, r, wptr, at)
    requires Delivered(d, id, buf, wptr, buf', wptr', rptr, again, size, ws, at)
    requires Meaning(Unread(buf, r, wptr)).Some? && Meaning(ws).Some?
    ensures Meaning(Unread(buf', r, wptr'))
         == Some(Meaning(Unread(buf, r, wptr)).value + Meaning(ws).value + ReportEvents(d, id, again, at))
  {
    var g := Reserve(rptr, wptr, size);
    var tail :| Causes(tail, ReportEvents(d, id, again, at))
      && forall r: nat | Follows(d, rptr, again, r, wptr, at) ::
           Extended(buf, wptr, buf', wptr', r, g.wrapped, ws, tail);
    assert Extended(buf, wptr, buf', wptr', r, g.wrapped, ws, tail);
    CausesMeaning(tail, ReportEvents(d, id, again, at));
    GapThenMeaning(buf, wptr, r, g.wrapped, ws);
    MeaningConcat(Unread(buf, r, wptr) + Gap(buf, wptr, false, g.wrapped) + ws, tail);
  }

  lemma GapThenMeaning(buf: seq<word>, wptr: nat, r: nat, wrapped: bool, ws: seq<word>)
    requires |buf| == RB_DWORDS && wptr <= RB_DWORDS - 2 && r < RB_DWORDS
    requires Meaning(Unread(buf, r, wptr)).Some? && Meaning(ws).Some?
    ensures Meaning(Unread(buf, r, wptr) + Gap(buf, wptr, false, wrapped) + ws)
         == Some(Meaning(Unread(buf, r, wptr)).value + Meaning(ws).value)
  {
    var u, gap := Unread(buf, r, wptr), Gap(buf, wptr, false, wrapped);
    CausesNothing();
    GapIsSkipped(buf, wptr, false);
    CausesMeaning(gap, []);
    MeaningConcat(u, gap);
    assert Meaning(u).value + [] == Meaning(u).value;
    MeaningConcat(u + gap, ws);
  }

  // Streams in pieces, for any way `f` of looking at events.

  lemma FlatMapWhen<B>(f: Event -> seq<B>, a: seq<Event>, c: bool, e: Event)
    requires f(e) == []
    ensures FlatMap(f, a + When(c, e)) == FlatMap(f, a)
  {
    FlatMapConcat(f, a, When(c, e));
    FlatMapOne(f, e);
  }

  lemma FlatMapOnly<B>(f: Event -> seq<B>, c: bool, e: Event)
    requires f(e) == []
    ensures FlatMap(f, When(c, e)) == []
  {
    FlatMapOne(f, e);
  }

  lemma FlatMapThree<B>(f: Event -> seq<B>, a: seq<Event>, b: seq<Event>, c: seq<Event>)
    ensures FlatMap(f, a + b + c) == FlatMap(f, a) + FlatMap(f, b) + FlatMap(f, c)
  {
    FlatMapConcat(f, a, b);
    FlatMapConcat(f, a + b, c);
  }

  lemma HeadPieces<B>(f: Event -> seq<B>, pre: seq<Event>, profile: seq<Event>, start: seq<Event>, flags: Flags)
    requires f(SetSecure(true)) == f(SetProtected(false)) == []
    ensures FlatMap(f, pre + profile + start + When(flags.secure, SetSecure(true))
                       + When(flags.notProtected, SetProtected(false)))
         == FlatMap(f, pre) + FlatMap(f, profile) + FlatMap(f, start)
  {
    var c := pre + profile + start;
    FlatMapThree(f, pre, profile, start);
    FlatMapWhen(f, c, flags.secure, SetSecure(true));
    FlatMapWhen(f, c + When(flags.secure, SetSecure(true)), flags.notProtected, SetProtected(false));
  }

  lemma TailPieces<B>(f: Event -> seq<B>, profile: seq<Event>, wait: bool, ref: Event, retire: seq<Event>, flags: Flags,
                      post: seq<Event>)
    requires f(ref) == f(SetProtected(true)) == f(SetSecure(false)) == []
    requires f(Other(CP_WAIT_MEM_WRITES, [])) == f(Other(CP_WAIT_FOR_IDLE, [])) == []
    ensures FlatMap(f, When(flags.notProtected, SetProtected(true)) + profile
                       + When(wait, Other(CP_WAIT_MEM_WRITES, []))
                       + [ref] + retire + When(flags.wfi, Other(CP_WAIT_FOR_IDLE, []))
                       + When(flags.secure, SetSecure(false)) + post)
         == FlatMap(f, profile) + FlatMap(f, retire) + FlatMap(f, post)
  {
    var a := When(flags.notProtected, SetProtected(true));
    var c := a + profile + When(wait, Other(CP_WAIT_MEM_WRITES, [])) + [ref];
    hide FlatMap;
    FlatMapOnly(f, flags.notProtected, SetProtected(true));
    MiddlePieces(f, a, profile, wait, ref);
    EndPieces(f, c, retire, flags, post);
  }

  lemma MiddlePieces<B>(f: Event -> seq<B>, a: seq<Event>, profile: seq<Event>, wait: bool, ref: Event)
    requires f(ref) == f(Other(CP_WAIT_MEM_WRITES, [])) == []
    ensures FlatMap(f, a + profile + When(wait, Other(CP_WAIT_MEM_WRITES, [])) + [ref])
         == FlatMap(f, a) + FlatMap(f, profile)
  {
    FlatMapConcat(f, a, profile);
    FlatMapWhen(f, a + profile, wait, Other(CP_WAIT_MEM_WRITES, []));
    FlatMapWhen(f, a + profile + When(wait, Other(CP_WAIT_MEM_WRITES, [])), true, ref);
  }

  lemma EndPieces<B>(f: Event -> seq<B>, a: seq<Event>, retire: seq<Event>, flags: Flags, post: seq<Event>)
    requires f(SetSecure(false)) == f(Other(CP_WAIT_FOR_IDLE, [])) == []
    ensures FlatMap(f, a + retire + When(flags.wfi, Other(CP_WAIT_FOR_IDLE, []))
                       + When(flags.secure, SetSecure(false)) + post)
         == FlatMap(f, a) + FlatMap(f, retire) + FlatMap(f, post)
  {
    var b := a + retire;
    var c := b + When(flags.wfi, Other(CP_WAIT_FOR_IDLE, []));
    FlatMapConcat(f, a, retire);
    FlatMapWhen(f, b, flags.wfi, Other(CP_WAIT_FOR_IDLE, []));
    FlatMapWhen(f, c, flags.secure, SetSecure(false));
    FlatMapConcat(f, c + When(flags.secure, SetSecure(false)), post);
  }

  // ----------------------------------------------------------- what framing means

  /** The CP's two modes: register protection and secure execution. */
  datatype Modes = Modes(protected: bool, secure: bool)

  function ModesAfter(m: Modes, es: seq<Event>): Modes
    decreases |es|
  {
    if es == [] then m
    else
      var e := es[|es| - 1];
      var before := ModesAfter(m, es[..|es| - 1]);
      if e.SetProtected? then before.(protected := e.on)
      else if e.SetSecure? then before.(secure := e.on)
      else before
  }

  lemma {:induction false} ModesConcat(m: Modes, a: seq<Event>, b: seq<Event>)
    ensures ModesAfter(m, a + b) == ModesAfter(ModesAfter(m, a), b)
    decreases |b|
  {
    if b == [] {
      assert a + b == a;
    } else {
      ModesConcat(m, a, b[..|b| - 1]);
      assert (a + b)[..|a + b| - 1] == a + b[..|b| - 1];
    }
  }

  /** No event of `es` sets a mode. */
  predicate Modeless(es: seq<Event>) {
    forall i | 0 <= i < |es| :: !es[i].SetProtected? && !es[i].SetSecure?
  }

  lemma {:induction false} ModelessKeeps(m: Modes, es: seq<Event>)
    requires Modeless(es)
    ensures ModesAfter(m, es) == m
    decreases |es|
  {
    if es != [] {
      ModelessKeeps(m, es[..|es| - 1]);
    }
  }

  lemma ModesOne(m: Modes, e: Event)
    ensures ModesAfter(m, [e]) ==
      if e.SetProtected? then m.(protected := e.on) else if e.SetSecure? then m.(secure := e.on) else m
  {
    assert [e][..0] == [];
  }

  /** A payload that leaves both modes as it finds them. */
  predicate ModeNeutral(es: seq<Event>, m: Modes) {
    ModesAfter(m, es) == m
  }

  lemma ModesBefore(d: Device, id: nat, record: qword, ctx: Option<DrawContext>, flags: Flags,
                    ts: word, rbTs: word, profile: Option<ProfileIb>)
    requires ValidDevice(d) && id < RB_LEVELS && (ctx.Some? ==> ValidContext(ctx.value))
    ensures ModesAfter(Modes(true, false), BeforePayload(d, id, record, ctx, flags, ts, rbTs, profile))
         == Modes(!flags.notProtected, flags.secure)
  {
    var m := Modes(true, false);
    var a := PreIbEvents(d, record, ctx);
    var b := a + ProfileEvents(profile);
    var c := b + StartEvents(d, id, ctx, ts, rbTs);
    var e := c + When(flags.secure, SetSecure(true));
    PreIbModes(m, d, record, ctx);
    ModesConcat(m, a, ProfileEvents(profile));
    ModelessKeeps(m, ProfileEvents(profile));
    ModesConcat(m, b, StartEvents(d, id, ctx, ts, rbTs));
    ModelessKeeps(m, StartEvents(d, id, ctx, ts, rbTs));
    ModesConcat(m, c, When(flags.secure, SetSecure(true)));
    ModesOne(m, SetSecure(true));
    var n := ModesAfter(m, e);
    ModesConcat(m, e, When(flags.notProtected, SetProtected(false)));
    ModesOne(n, SetProtected(false));
  }

  lemma PreIbModes(m: Modes, d: Device, record: qword, ctx: Option<DrawContext>)
    requires m.protected
    ensures ModesAfter(m, PreIbEvents(d, record, ctx)) == m
  {
    if d.preemption {
      var fine := PreemptStyle(ctx) == STYLE_FINEGRAIN;
      var off := m.(protected := false);
      var a := [Other(CP_PREEMPT_ENABLE_GLOBAL, [if fine then 2 else 0])];
      var b := a + [SetProtected(false)];
      var c := b + [RegWrite(A5XX_CP_CONTEXT_SWITCH_SAVE_ADDR_LO, [Lo(record)])];
      var e := c + [RegWrite(A5XX_CP_CONTEXT_SWITCH_SAVE_ADDR_HI, [Hi(record)])];
      var f := e + [SetProtected(true)];
      var g := f + [Other(CP_PREEMPT_ENABLE_LOCAL, [if fine then 1 else 0])];
      ModelessKeeps(m, a);
      Sets(m, m, a, SetProtected(false));
      KeepsOn(m, off, b, [RegWrite(A5XX_CP_CONTEXT_SWITCH_SAVE_ADDR_LO, [Lo(record)])]);
      KeepsOn(m, off, c, [RegWrite(A5XX_CP_CONTEXT_SWITCH_SAVE_ADDR_HI, [Hi(record)])]);
      Sets(m, off, e, SetProtected(true));
      KeepsOn(m, m, f, [Other(CP_PREEMPT_ENABLE_LOCAL, [if fine then 1 else 0])]);
      KeepsOn(m, m, g, [Other(CP_YIELD_ENABLE, [2])]);
    }
  }

  lemma Sets(m: Modes, n: Modes, a: seq<Event>, e: Event)
    requires ModesAfter(m, a) == n
    ensures ModesAfter(m, a + [e]) ==
      if e.SetProtected? then n.(protected := e.on) else if e.SetSecure? then n.(secure := e.on) else n
  {
    ModesConcat(m, a, [e]);
    ModesOne(n, e);
  }

  lemma ModesAfterwards(m: Modes, d: Device, id: nat, ctx: Option<DrawContext>, flags: Flags, ts: word,
                        rbTs: word, sequence: word, profile: Option<ProfileIb>)
    requires ValidDevice(d) && id < RB_LEVELS && (ctx.Some? ==> ValidContext(ctx.value))
    requires m == Modes(!flags.notProtected, flags.secure)
    ensures ModesAfter(m, AfterPayload(d, id, ctx, flags, ts, rbTs, sequence, profile)) == Modes(true, false)
  {
    var m1 := Modes(true, flags.secure);
    var a0 := When(flags.notProtected, SetProtected(true));
    var a1 := a0 + ProfileEvents(profile);
    var a2 := a1 + When(d.waitMemWrites, Other(CP_WAIT_MEM_WRITES, []));
    var a3 := a2 + [MemWrite(RefWaitTs(d), [sequence])];
    ModesOne(m, SetProtected(true));
    assert ModesAfter(m, a0) == m1;
    KeepsOn(m, m1, a0, ProfileEvents(profile));
    KeepsOn(m, m1, a1, When(d.waitMemWrites, Other(CP_WAIT_MEM_WRITES, [])));
    KeepsOn(m, m1, a2, [MemWrite(RefWaitTs(d), [sequence])]);
    TailModes(m, a3, d, id, ctx, flags, ts, rbTs);
  }

  lemma TailModes(m: Modes, a: seq<Event>, d: Device, id: nat, ctx: Option<DrawContext>, flags: Flags, ts: word,
                  rbTs: word)
    requires ValidDevice(d) && id < RB_LEVELS && (ctx.Some? ==> ValidContext(ctx.value))
    requires ModesAfter(m, a) == Modes(true, flags.secure)
    ensures ModesAfter(m, a + RetireEvents(d, id, ctx, ts, rbTs) + When(flags.wfi, Other(CP_WAIT_FOR_IDLE, []))
                          + When(flags.secure, SetSecure(false)) + PostIbEvents(d)) == Modes(true, false)
  {
    var m1, m2 := Modes(true, flags.secure), Modes(true, false);
    var b := a + RetireEvents(d, id, ctx, ts, rbTs);
    var c := b + When(flags.wfi, Other(CP_WAIT_FOR_IDLE, []));
    KeepsOn(m, m1, a, RetireEvents(d, id, ctx, ts, rbTs));
    KeepsOn(m, m1, b, When(flags.wfi, Other(CP_WAIT_FOR_IDLE, [])));
    ModesConcat(m, c, When(flags.secure, SetSecure(false)));
    ModesOne(m1, SetSecure(false));
    KeepsOn(m, m2, c + When(flags.secure, SetSecure(false)), PostIbEvents(d));
  }

  lemma KeepsOn(m: Modes, n: Modes, a: seq<Event>, b: seq<Event>)
    requires ModesAfter(m, a) == n && Modeless(b)
    ensures ModesAfter(m, a + b) == n
  {
    ModesConcat(m, a, b);
    ModelessKeeps(n, b);
  }

  /**
    A submission of whole packets that are mode-neutral parses as whole packets, runs its
    payload in the modes the flags ask for, and leaves the CP protected and not secure.
   */
  lemma FramingRestoresModes(d: Device, id: nat, record: qword, ctx: Option<DrawContext>, flags: Flags, ts: word,
                             rbTs: word, o: Outside, first: seq<word>, payload: seq<word>, last: seq<word>)
    requires ValidDevice(d) && id < RB_LEVELS && (ctx.Some? ==> ValidContext(ctx.value))
    requires Frames(d, id, record, ctx, flags, ts, rbTs, o, first, last)
    requires Meaning(payload).Some? && ModeNeutral(Meaning(payload).value, Modes(!flags.notProtected, flags.secure))
    ensures var all := Meaning(first + payload + last);
      && all == Some(BeforePayload(d, id, record, ctx, flags, ts, rbTs, o.pre) + Meaning(payload).value
                     + AfterPayload(d, id, ctx, flags, ts, rbTs, o.sequence, o.post))
      && ModesAfter(Modes(true, false), all.value) == Modes(true, false)
    ensures ModesAfter(Modes(true, false), BeforePayload(d, id, record, ctx, flags, ts, rbTs, o.pre))
         == Modes(!flags.notProtected, flags.secure)
  {
    var b := BeforePayload(d, id, record, ctx, flags, ts, rbTs, o.pre);
    var a := AfterPayload(d, id, ctx, flags, ts, rbTs, o.sequence, o.post);
    var p := Meaning(payload).value;
    CausesMeaning(first, b);
    CausesMeaning(last, a);
    MeaningConcat(first, payload);
    MeaningConcat(first + payload, last);
    var m := Modes(true, false);
    ModesBefore(d, id, record, ctx, flags, ts, rbTs, o.pre);
    ModesConcat(m, b, p);
    ModesConcat(m, b + p, a);
    ModesAfterwards(Modes(!flags.notProtected, flags.secure), d, id, ctx, flags, ts, rbTs, o.sequence, o.post);
  }
}
