/**
  A3XX command submission: the context switch a ring needs, the command's own stream, and
  what the CP does once both are in the ring.
 */
module A3xxCommands {
  import opened Basics
  import opened CommandProcessor
  import opened Reservations
  import opened Ringbuffer
  import opened RingLife
  import opened Adreno
  import opened IndirectBuffers
  import opened A3xxRingbuffer

  /** The status of a submission: a detached context, a GPU fault, no space, in this order. */
  function StatusOf(ctx: Option<DrawContext>, o: Outside, pending: nat, dwords: nat): Status
    requires dwords <= 0xFFFF_0000
  {
    if ctx.Some? && o.detached then ENOENT
    else if o.faulted then EPROTO
    else if Reserve(o.rptr, pending, A3XX_SUBMIT_MAX + dwords).NoSpace? then ENOSPC
    else OK
  }

  // ------------------------------------------------------------------- requests

  /**
    One a3xx_ringbuffer_submitcmd, with everything that decides what comes of it: `pending1`
    and `pending2` are _wptr when the switch and the command ask for space.
   */
  datatype Request = Request(
    ctx: DrawContext, list: seq<Ib>, flags: Flags, ts: word,
    detached: bool, held: bool, o1: Outside, o2: Outside,
    pending1: nat, pending2: nat, switchTs: word, cmdTs: word
  )

  predicate ValidRequest(q: Request) { ValidContext(q.ctx) && |q.list| <= 0x1000_0000 }

  /** The context becomes active. */
  predicate Taken(active: Option<DrawContext>, q: Request) { Entered(active, q.ctx, q.detached, q.held) }

  /** A context switch is needed, and its reservation finds space. */
  predicate Sent(d: Device, active: Option<DrawContext>, q: Request) {
    && Taken(active, q) && active != Some(q.ctx)
    && StatusOf(None, q.o1, q.pending1, SwitchWords(d, active, q.ctx)) == OK
  }

  function CommandStatus(active: Option<DrawContext>, q: Request): Status
    requires ValidRequest(q)
  {
    CommandFits(q.list, q.flags);
    if Taken(active, q) then StatusOf(Some(q.ctx), q.o2, q.pending2, CommandLength(q.list, q.flags)) else ENOENT
  }

  lemma CommandFits(list: seq<Ib>, flags: Flags)
    requires |list| <= 0x1000_0000
    ensures CommandLength(list, flags) <= 0xFFFF_0000
  {
    ListFits(if flags.skip then [] else list, flags.preamble);
  }

  function SwitchPart(d: Device, id: nat, active: Option<DrawContext>, q: Request): seq<Event>
    requires ValidDevice(d) && id < RB_LEVELS
  {
    if Sent(d, active, q) then SwitchSubmission(d, id, active, q.ctx, q.switchTs, q.o1) else []
  }

  function CommandPart(d: Device, id: nat, active: Option<DrawContext>, q: Request): seq<Event>
    requires ValidDevice(d) && id < RB_LEVELS && ValidRequest(q)
  {
    if CommandStatus(active, q) == OK then
      SubmissionEvents(d, id, Some(q.ctx), q.flags, q.ts, q.cmdTs, q.o2, CommandEvents(q.list, q.flags))
    else []
  }

  /** What the CP executes for a request: the switch and the command, as far as they are delivered. */
  function Burst(d: Device, id: nat, active: Option<DrawContext>, q: Request): seq<Event>
    requires ValidDevice(d) && id < RB_LEVELS && ValidRequest(q)
  {
    SwitchPart(d, id, active, q) + CommandPart(d, id, active, q)
  }

  /** A CP behind both reservations executes the request's burst after what it had. */
  ghost predicate Serves(d: Device, id: nat, active: Option<DrawContext>, q: Request,
                         buf: seq<word>, wptr: nat, buf': seq<word>, wptr': nat)
    requires ValidDevice(d) && id < RB_LEVELS && ValidRequest(q)
    requires |buf| == |buf'| == RB_DWORDS && wptr <= RB_DWORDS - 2 && wptr' <= RB_DWORDS - 2
  {
    forall r: nat | Behind(q.o1.rptr, r, wptr) && Behind(q.o2.rptr, r, q.pending2) && r < RB_DWORDS ::
      Continues(buf, wptr, buf', wptr', r, Burst(d, id, active, q))
  }

  // ------------------------------------------------- what the driver's functions do

  /**
    A submission of `dwords` payload words that cause `events` took the ring from `x` to `y`:
    its status says why it was refused, and otherwise it is delivered and published.
   */
  ghost predicate Added(d: Device, id: nat, ctx: Option<DrawContext>, flags: Flags, ts: word, o: Outside, dwords: nat,
                        events: seq<Event>, x: RingState, y: RingState, status: Status)
    requires ValidDevice(d) && id < RB_LEVELS && (ctx.Some? ==> ValidContext(ctx.value)) && dwords <= 0xFFFF_0000
  {
    && ValidState(x) && ValidState(y)
    && status == StatusOf(ctx, o, x.pending, dwords)
    && y.ts == (if status in {OK, ENOSPC} then (x.ts + 1) % U32 else x.ts)
    && if status != OK then y == x.(ts := y.ts)
       else
         && y.wptr == y.pending
         && Delivers(x.buf, x.pending, y.buf, y.pending, o.rptr, A3XX_SUBMIT_MAX + dwords,
                     SubmissionEvents(d, id, ctx, flags, ts, y.ts, o, events))
  }

  /**
    a3xx_drawctxt_switch took the ring from `x` to `y`: nothing happens if the context is
    active already or is not let in, and else its switch is submitted.
   */
  ghost predicate Switched(d: Device, id: nat, active: Option<DrawContext>, ctx: DrawContext, detached: bool,
                           held: bool, o: Outside, x: RingState, y: RingState)
    requires ValidDevice(d) && id < RB_LEVELS
  {
    && ValidState(x)
    && if active == Some(ctx) || !Entered(active, ctx, detached, held) then y == x
       else
         Added(d, id, None, F_NOTPROTECTED, 0, o, SwitchWords(d, active, ctx), SwitchEvents(d, id, active, ctx), x, y,
               StatusOf(None, o, x.pending, SwitchWords(d, active, ctx)))
  }

  /** A request took the ring from `x` through `mid` to `y`: the switch, then the command if the context was let in. */
  ghost predicate Submitted(d: Device, id: nat, active: Option<DrawContext>, q: Request, x: RingState, mid: RingState,
                            y: RingState, status: Status)
    requires ValidDevice(d) && id < RB_LEVELS && ValidRequest(q)
  {
    CommandFits(q.list, q.flags);
    && q.pending1 == x.pending && q.pending2 == mid.pending && q.switchTs == (x.ts + 1) % U32 && q.cmdTs == y.ts
    && Switched(d, id, active, q.ctx, q.detached, q.held, q.o1, x, mid)
    && if Taken(active, q) then
         Added(d, id, Some(q.ctx), q.flags, q.ts, q.o2, CommandLength(q.list, q.flags), CommandEvents(q.list, q.flags),
               mid, y, status)
       else
         status == ENOENT && y == mid
  }

  lemma SwitchServed(d: Device, id: nat, active: Option<DrawContext>, q: Request, x: RingState, mid: RingState, r: nat)
    requires ValidDevice(d) && id < RB_LEVELS && q.pending1 == x.pending && q.switchTs == (x.ts + 1) % U32
    requires Switched(d, id, active, q.ctx, q.detached, q.held, q.o1, x, mid)
    requires r < RB_DWORDS && (Sent(d, active, q) ==> Behind(q.o1.rptr, r, x.pending))
    ensures ValidState(mid) && Continues(x.buf, x.pending, mid.buf, mid.pending, r, SwitchPart(d, id, active, q))
  {
    hide Delivers, Continues, Unread, Meaning;
    if Sent(d, active, q) {
      DeliversMeaning(x.buf, x.pending, mid.buf, mid.pending, q.o1.rptr,
                      A3XX_SUBMIT_MAX + SwitchWords(d, active, q.ctx), SwitchPart(d, id, active, q), r);
    } else {
      NoDelivery(x.buf, x.pending, r);
    }
  }

  lemma CommandServed(d: Device, id: nat, active: Option<DrawContext>, q: Request, mid: RingState, y: RingState,
                      status: Status, r: nat)
    requires ValidDevice(d) && id < RB_LEVELS && ValidRequest(q) && q.pending2 == mid.pending && q.cmdTs == y.ts
    requires CommandLength(q.list, q.flags) <= 0xFFFF_0000 && ValidState(mid)
    requires if Taken(active, q) then
               Added(d, id, Some(q.ctx), q.flags, q.ts, q.o2, CommandLength(q.list, q.flags),
                     CommandEvents(q.list, q.flags), mid, y, status)
             else status == ENOENT && y == mid
    requires r < RB_DWORDS && (CommandStatus(active, q) == OK ==> Behind(q.o2.rptr, r, mid.pending))
    ensures status == CommandStatus(active, q) && ValidState(y)
    ensures Continues(mid.buf, mid.pending, y.buf, y.pending, r, CommandPart(d, id, active, q))
  {
    hide Delivers, Continues, Unread, Meaning;
    if status == OK {
      DeliversMeaning(mid.buf, mid.pending, y.buf, y.pending, q.o2.rptr,
                      A3XX_SUBMIT_MAX + CommandLength(q.list, q.flags), CommandPart(d, id, active, q), r);
    } else {
      NoDelivery(mid.buf, mid.pending, r);
    }
  }

  /** What the two submissions of a request deliver is its burst. */
  lemma RequestServed(d: Device, id: nat, active: Option<DrawContext>, q: Request, x: RingState, mid: RingState,
                      y: RingState, status: Status)
    requires ValidDevice(d) && id < RB_LEVELS && ValidRequest(q)
    requires Submitted(d, id, active, q, x, mid, y, status)
    ensures ValidState(x) && ValidState(y) && Serves(d, id, active, q, x.buf, x.pending, y.buf, y.pending)
  {
    CommandFits(q.list, q.flags);
    forall r: nat | Behind(q.o1.rptr, r, x.pending) && Behind(q.o2.rptr, r, q.pending2) && r < RB_DWORDS
      ensures Continues(x.buf, x.pending, y.buf, y.pending, r, Burst(d, id, active, q))
    {
      SwitchServed(d, id, active, q, x, mid, r);
      CommandServed(d, id, active, q, mid, y, status, r);
      TwoDeliveries(x.buf, x.pending, mid.buf, mid.pending, y.buf, y.pending, r,
                    SwitchPart(d, id, active, q), CommandPart(d, id, active, q));
    }
  }

  // --------------------------------------------------------------------- the queue

  /** A ring with the context that was active on it last. */
  class DrawQueue {
    const rb: Ring
    const device: Device
    var active: Option<DrawContext>      // rb->drawctxt_active
    var wptrRegister: nat                // A3XX_CP_RB_WPTR

    ghost predicate Valid()
      reads this, rb
    {
      rb.Valid() && ValidDevice(device) && rb.id < RB_LEVELS
    }

    constructor (rb: Ring, device: Device)
      requires rb.Valid() && ValidDevice(device) && rb.id < RB_LEVELS
      ensures Valid() && this.rb == rb && this.device == device && active == None
    {
      this.rb, this.device, active, wptrRegister := rb, device, None, 0;
    }

    ghost function State(): RingState
      reads rb, rb.buffer
    {
      RingState(rb.buffer[..], rb.pending, rb.wptr, rb.timestamp)
    }

    /**
      a3xx_ringbuffer_addcmds on a payload that causes `events`.  The give-back never
      exceeds the reservation: 44 of the 55 spare words are the most that is written.
     */
    method AddCmds(ctx: Option<DrawContext>, flags: Flags, payload: seq<word>, ts: word, o: Outside,
                   ghost events: seq<Event>) returns (status: Status)
      requires Valid() && ValidOutside(o) && (ctx.Some? ==> ValidContext(ctx.value)) && |payload| <= 0xFFFF_0000
      requires Causes(payload, events)
      modifies this`wptrRegister, rb, rb.buffer
      ensures Valid()
      ensures Added(device, rb.id, ctx, flags, ts, o, |payload|, events, old(State()), State(), status)
      ensures wptrRegister == if status == OK then rb.wptr else old(wptrRegister)
    {
      if ctx.Some? && o.detached {
        return ENOENT;
      }
      if o.faulted {
        return EPROTO;
      }
      rb.timestamp := (rb.timestamp + 1) % U32;
      var ws := WriteFrame(device, rb.id, ctx, flags, payload, ts, rb.timestamp, o, events);
      var size := A3XX_SUBMIT_MAX + |payload|;
      var granted := rb.Insert(size, ws, o.rptr, true);
      if !granted {
        return ENOSPC;
      }
      assert Landed(old(rb.buffer[..]), old(rb.pending), rb.buffer[..], rb.pending, o.rptr, size, ws);
      wptrRegister := rb.pending;
      rb.wptr := rb.pending;
      return OK;
    }

    /** a3xx_drawctxt_switch; the status of the switch's own submission is dropped. */
    method DrawctxtSwitch(ctx: DrawContext, detached: bool, held: bool, o: Outside) returns (status: Status)
      requires Valid() && ValidOutside(o)
      modifies this, rb, rb.buffer
      ensures Valid()
      ensures status == if Entered(old(active), ctx, detached, held) then OK else ENOENT
      ensures active == if status == OK then Some(ctx) else old(active)
      ensures Switched(device, rb.id, old(active), ctx, detached, held, o, old(State()), State())
      ensures wptrRegister == old(wptrRegister) || wptrRegister == rb.wptr
    {
      if active == Some(ctx) {
        return OK;
      }
      if detached {
        return ENOENT;
      }
      if !held {
        return ENOENT;
      }
      var cmds := WriteContextSwitch(device, rb.id, active, ctx);
      assert State() == old(State());
      var ignored := AddCmds(None, F_NOTPROTECTED, cmds, 0, o, SwitchEvents(device, rb.id, active, ctx));
      active := Some(ctx);
      return OK;
    }

    /** The context switch a command needs, and then the command's words. */
    method SwitchAndAdd(ctx: DrawContext, cmds: seq<word>, list: seq<Ib>, flags: Flags, ts: word, detached: bool,
                        held: bool, o1: Outside, o2: Outside)
      returns (status: Status, ghost q: Request, ghost mid: RingState)
      requires Valid() && ValidOutside(o1) && ValidOutside(o2) && ValidContext(ctx) && |list| <= 0x1000_0000
      requires |cmds| == CommandLength(list, flags) <= 0xFFFF_0000 && Causes(cmds, CommandEvents(list, flags))
      modifies this, rb, rb.buffer
      ensures Valid() && ValidRequest(q)
      ensures (q.ctx, q.list, q.flags, q.ts, q.detached, q.held, q.o1, q.o2)
           == (ctx, list, flags, ts, detached, held, o1, o2)
      ensures active == if Taken(old(active), q) then Some(ctx) else old(active)
      ensures Submitted(device, rb.id, old(active), q, old(State()), mid, State(), status)
      ensures status == OK ==> wptrRegister == rb.wptr
    {
      ghost var x := State();
      status := DrawctxtSwitch(ctx, detached, held, o1);
      mid := State();
      if status == OK {
        status := AddCmds(Some(ctx), flags, cmds, ts, o2, CommandEvents(list, flags));
      }
      q := Request(ctx, list, flags, ts, detached, held, o1, o2, x.pending, mid.pending, (x.ts + 1) % U32,
                   rb.timestamp);
    }

    /**
      a3xx_ringbuffer_submitcmd.  `q` is the call with what it found, and `mid` the ring after
      the switch; the status, the new active context and what a CP goes on to execute are
      functions of `q`.
     */
    method SubmitCmd(ctx: DrawContext, list: seq<Ib>, flags: Flags, ts: word, detached: bool, held: bool,
                     o1: Outside, o2: Outside) returns (status: Status, ghost q: Request, ghost mid: RingState)
      requires Valid() && ValidOutside(o1) && ValidOutside(o2) && ValidContext(ctx) && |list| <= 0x1000_0000
      modifies this, rb, rb.buffer
      ensures Valid() && ValidRequest(q)
      ensures (q.ctx, q.list, q.flags, q.ts, q.detached, q.held, q.o1, q.o2)
           == (ctx, list, flags, ts, detached, held, o1, o2)
      ensures active == if Taken(old(active), q) then Some(ctx) else old(active)
      ensures Submitted(device, rb.id, old(active), q, old(State()), mid, State(), status)
      ensures status == OK ==> wptrRegister == rb.wptr
    {
      var cmds := BuildCommand(list, flags);
      CommandFits(list, flags);
      assert State() == old(State()) && active == old(active);
      status, q, mid := SwitchAndAdd(ctx, cmds, list, flags, ts, detached, held, o1, o2);
    }
  }

  // -------------------------------------------------------------- what it amounts to

  /** A buffer as the A3XX sees it: its address without the upper half. */
  function LowPlan(plan: seq<(qword, nat)>): seq<(qword, nat)> {
    seq(|plan|, i requires 0 <= i < |plan| => (Lo(plan[i].0), plan[i].1))
  }

  /** For an accepted list an A3XX command runs exactly the plan, at low 32-bit addresses. */
  lemma {:induction false} CommandRunsThePlan(list: seq<Ib>, preamble: bool, inRange: Ranges)
    requires ListVerified(list, inRange)
    ensures Runs(KeptEvents(list, preamble)) == LowPlan(Plan(list, preamble))
    decreases |list|
  {
    if list != [] {
      var n := |list| - 1;
      CommandRunsThePlan(list[..n], preamble, inRange);
      assert VerifyIb(list[n], inRange);
      ListedRuns(KeptEvents(list[..n], preamble), Plan(list[..n], preamble), list[n], preamble);
    }
  }

  lemma ListedRuns(kept: seq<Event>, plan: seq<(qword, nat)>, ib: Ib, preamble: bool)
    requires Runs(kept) == LowPlan(plan) && ib.size / 4 <= 0xF_FFFF
    ensures Runs(kept + ListedEvents(ib, preamble))
         == LowPlan(plan + if Skipped(ib, preamble) then [] else [(ib.gpuaddr, ib.size / 4)])
  {
    RunsConcat(kept, ListedEvents(ib, preamble));
    RunsOne(RunIb(Lo(ib.gpuaddr), IbDwords(ib.size)));
    LowPlanMore(plan, ib);
  }

  lemma LowPlanMore(plan: seq<(qword, nat)>, ib: Ib)
    ensures LowPlan(plan + [(ib.gpuaddr, ib.size / 4)]) == LowPlan(plan) + [(Lo(ib.gpuaddr), ib.size / 4)]
    ensures plan + [] == plan
  {
  }

  lemma BeforeRuns(d: Device, id: nat, ctx: Option<DrawContext>, flags: Flags, ts: word, rbTs: word,
                   profile: Option<ProfileIb>)
    requires ValidDevice(d) && id < RB_LEVELS && (ctx.Some? ==> ValidContext(ctx.value))
    ensures Runs(BeforePayload(d, id, ctx, flags, ts, rbTs, profile))
         == Runs(FixupEvents(d, flags.pwronFixup)) + Runs(ProfileEvents(profile))
  {
    var a := FixupEvents(d, flags.pwronFixup);
    var b := a + ProfileEvents(profile);
    RunsConcat(a, ProfileEvents(profile));
    RunsSilent(b, StartEvents(d, id, ctx, ts, rbTs));
    RunsSilent(b + StartEvents(d, id, ctx, ts, rbTs), When(flags.notProtected, SetProtected(false)));
  }

  lemma AfterRuns(d: Device, id: nat, ctx: Option<DrawContext>, flags: Flags, ts: word, rbTs: word,
                  profile: Option<ProfileIb>)
    requires ValidDevice(d) && id < RB_LEVELS && (ctx.Some? ==> ValidContext(ctx.value))
    ensures Runs(AfterPayload(d, id, ctx, flags, ts, rbTs, profile)) == Runs(ProfileEvents(profile))
  {
    var a := When(flags.notProtected, SetProtected(true));
    var b := a + [Other(CP_EVENT_WRITE, [HLSQ_FLUSH])];
    var c := b + [Other(CP_WAIT_FOR_IDLE, [0])];
    RunsNothing(a);
    RunsSilent(a, [Other(CP_EVENT_WRITE, [HLSQ_FLUSH])]);
    RunsSilent(b, [Other(CP_WAIT_FOR_IDLE, [0])]);
    RunsConcat(c, ProfileEvents(profile));
    TailRuns(c + ProfileEvents(profile), RetireEvents(d, id, ctx, ts, rbTs), flags);
  }

  lemma TailRuns(a: seq<Event>, retire: seq<Event>, flags: Flags)
    requires Silent(retire)
    ensures Runs(a + retire + [Other(CP_SET_CONSTANT, [ROLLOVER, 0])] + When(flags.wfi, Other(CP_WAIT_FOR_IDLE, [0])))
         == Runs(a)
  {
    var b := a + retire;
    RunsSilent(a, retire);
    RunsSilent(b, [Other(CP_SET_CONSTANT, [ROLLOVER, 0])]);
    RunsSilent(b + [Other(CP_SET_CONSTANT, [ROLLOVER, 0])], When(flags.wfi, Other(CP_WAIT_FOR_IDLE, [0])));
  }

  /**
    From the ring to the CP: an accepted command makes the A3XX run the same plan as the
    A5XX, at low addresses, behind the power-on fixup and between the profiler's buffers.
   */
  lemma SubmittedCommandRuns(d: Device, id: nat, ctx: DrawContext, flags: Flags, ts: word, rbTs: word, o: Outside,
                             list: seq<Ib>, inRange: Ranges, size: word,
                             buf: seq<word>, wptr: nat, buf': seq<word>, wptr': nat, r: nat)
    requires ValidDevice(d) && id < RB_LEVELS && ValidContext(ctx) && ListVerified(list, inRange)
    requires |buf| == |buf'| == RB_DWORDS && wptr <= RB_DWORDS - 2 && wptr' <= RB_DWORDS - 2 && r < RB_DWORDS
    requires Behind(o.rptr, r, wptr) && Meaning(Unread(buf, r, wptr)).Some?
    requires Delivers(buf, wptr, buf', wptr', o.rptr, size,
                      SubmissionEvents(d, id, Some(ctx), flags, ts, rbTs, o, CommandEvents(list, flags)))
    ensures var before, after := Meaning(Unread(buf, r, wptr)), Meaning(Unread(buf', r, wptr'));
      && after.Some?
      && Runs(after.value) == Runs(before.value) + (Runs(FixupEvents(d, flags.pwronFixup)) + Runs(ProfileEvents(o.pre))
           + LowPlan(Plan(if flags.skip then [] else list, flags.preamble)) + Runs(ProfileEvents(o.post)))
  {
    var payload := CommandEvents(list, flags);
    var b := BeforePayload(d, id, Some(ctx), flags, ts, rbTs, o.pre);
    var a := AfterPayload(d, id, Some(ctx), flags, ts, rbTs, o.post);
    DeliversMeaning(buf, wptr, buf', wptr', o.rptr, size, b + payload + a, r);
    CommandRunsThePlan(if flags.skip then [] else list, flags.preamble, inRange);
    BeforeRuns(d, id, Some(ctx), flags, ts, rbTs, o.pre);
    AfterRuns(d, id, Some(ctx), flags, ts, rbTs, o.post);
    RunsConcat(b, payload);
    RunsConcat(b + payload, a);
    RunsConcat(Meaning(Unread(buf, r, wptr)).value, b + payload + a);
  }
}
