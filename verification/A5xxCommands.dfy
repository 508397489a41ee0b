/**
  A5XX command submission: the context switch a ring needs, the command's own stream, and
  what the CP does once both are in the ring.
 */
module A5xxCommands {
  import opened Basics
  import opened CommandProcessor
  import opened Reservations
  import opened Ringbuffer
  import opened RingLife
  import opened Adreno
  import opened A5xxRingbuffer
  import opened IndirectBuffers
  import opened A5xxSubmit

  /** What the CP executes for one submission whose payload causes `payload`. */
  function SubmissionEvents(d: Device, id: nat, record: qword, ctx: Option<DrawContext>, flags: Flags, ts: word,
                            rbTs: word, o: Outside, payload: seq<Event>): seq<Event>
    requires ValidDevice(d) && id < RB_LEVELS && (ctx.Some? ==> ValidContext(ctx.value))
  {
    BeforePayload(d, id, record, ctx, flags, ts, rbTs, o.pre) + payload
    + AfterPayload(d, id, ctx, flags, ts, rbTs, o.sequence, o.post)
  }

  /** The submission of a5xx_rb_context_switch, from `active` to `ctx`. */
  function SwitchSubmission(d: Device, id: nat, record: qword, active: Option<DrawContext>, ctx: DrawContext,
                            rbTs: word, o: Outside): seq<Event>
    requires ValidDevice(d) && id < RB_LEVELS
  {
    SubmissionEvents(d, id, record, None, F_NOTPROTECTED, 0, rbTs, o, SwitchEvents(d, id, active, ctx))
  }

  /**
    The ring went from one state to the next by delivering a stream that causes `events` and
    ends at `at`, in `size` reserved words.
   */
  ghost predicate Delivers(d: Device, id: nat, buf: seq<word>, wptr: nat, buf': seq<word>, wptr': nat, o: Outside,
                           size: word, at: nat, events: seq<Event>)
    requires |buf| == |buf'| == RB_DWORDS && wptr <= RB_DWORDS - 2 && wptr' <= RB_DWORDS - 2
    requires ValidDevice(d) && id < RB_LEVELS
  {
    exists ws :: Causes(ws, events) && Delivered(d, id, buf, wptr, buf', wptr', o.rptr, o.again, size, ws, at)
  }

  /** Whatever the CP still had to execute, `events` now follow, and the position report if there is one. */
  lemma DeliversMeaning(d: Device, id: nat, buf: seq<word>, wptr: nat, buf': seq<word>, wptr': nat, o: Outside,
                        size: word, at: nat, events: seq<Event>, r: nat)
    requires |buf| == |buf'| == RB_DWORDS && wptr <= RB_DWORDS - 2 && wptr' <= RB_DWORDS - 2
    requires ValidDevice(d) && id < RB_LEVELS && Follows(d, o.rptr, o.again, r, wptr, at)
    requires Meaning(Unread(buf, r, wptr)).Some?
    requires Delivers(d, id, buf, wptr, buf', wptr', o, size, at, events)
    ensures Meaning(Unread(buf', r, wptr'))
         == Some(Meaning(Unread(buf, r, wptr)).value + events + ReportEvents(d, id, o.again, at))
  {
    var ws :| Causes(ws, events) && Delivered(d, id, buf, wptr, buf', wptr', o.rptr, o.again, size, ws, at);
    CausesMeaning(ws, events);
    RingDelivers(d, id, buf, wptr, buf', wptr', o.rptr, o.again, size, ws, at, r);
  }

  lemma FramedDelivers(d: Device, id: nat, record: qword, ctx: Option<DrawContext>, flags: Flags, ts: word, rbTs: word,
                       o: Outside, first: seq<word>, payload: seq<word>, events: seq<Event>, last: seq<word>)
    requires ValidDevice(d) && id < RB_LEVELS && (ctx.Some? ==> ValidContext(ctx.value))
    requires Frames(d, id, record, ctx, flags, ts, rbTs, o, first, last)
    requires Causes(payload, events)
    ensures Causes(first + payload + last, SubmissionEvents(d, id, record, ctx, flags, ts, rbTs, o, events))
  {
    var b := BeforePayload(d, id, record, ctx, flags, ts, rbTs, o.pre);
    CausesConcat(first, b, payload, events);
    CausesConcat(first + payload, b + events, last,
                 AfterPayload(d, id, ctx, flags, ts, rbTs, o.sequence, o.post));
  }

  /**
    A submission of `dwords` payload words that cause `events` took the ring from `x` to `y`:
    its status says why it was refused, and otherwise it is delivered up to `at` and published.
   */
  ghost predicate Added(d: Device, id: nat, record: qword, ctx: Option<DrawContext>, flags: Flags, ts: word, o: Outside,
                        dwords: nat, events: seq<Event>, x: RingState, y: RingState, status: Status, at: nat)
    requires ValidDevice(d) && id < RB_LEVELS && (ctx.Some? ==> ValidContext(ctx.value)) && dwords <= 0xFFFF_0000
  {
    && ValidState(x) && ValidState(y)
    && status == StatusOf(ctx, o, x.pending, dwords)
    && y.ts == (if status in {OK, ENOSPC} then (x.ts + 1) % U32 else x.ts)
    && if status != OK then y == x.(ts := y.ts)
       else
         && Delivers(d, id, x.buf, x.pending, y.buf, y.pending, o, A5XX_SUBMIT_MAX + dwords, at,
                     SubmissionEvents(d, id, record, ctx, flags, ts, y.ts, o, events))
         && Published(d, x.wptr, y.wptr, y.pending, o.again, at)
  }

  /** The status of a context switch's own submission, which the driver drops. */
  function SwitchStatus(d: Device, active: Option<DrawContext>, ctx: DrawContext, o: Outside, pending: nat): Status {
    StatusOf(None, o, pending, SwitchWords(d, active, ctx))
  }

  /**
    a5xx_drawctxt_switch took the ring from `x` to `y`: nothing happens if the context is
    active already or is not let in, and else its switch is submitted.
   */
  ghost predicate Switched(d: Device, id: nat, record: qword, active: Option<DrawContext>, ctx: DrawContext,
                           detached: bool, held: bool, o: Outside, x: RingState, y: RingState, at: nat)
    requires ValidDevice(d) && id < RB_LEVELS
  {
    if active == Some(ctx) || !Entered(active, ctx, detached, held) then y == x
    else
      Added(d, id, record, None, F_NOTPROTECTED, 0, o, SwitchWords(d, active, ctx), SwitchEvents(d, id, active, ctx),
            x, y, SwitchStatus(d, active, ctx, o, x.pending), at)
  }

  /** A command's call; `o1` is for the context switch, `o2` for the command. */
  datatype Call = Call(ctx: DrawContext, flags: Flags, ts: word, detached: bool, held: bool, o1: Outside, o2: Outside)

  /** Where the two submissions of a call end, and the ring between them. */
  datatype Trace = Trace(at1: nat, mid: RingState, at2: nat)

  /** A call took the ring from `x` to `y`: the switch first, and then the command if the context was let in. */
  ghost predicate Submitted(d: Device, id: nat, record: qword, active: Option<DrawContext>, c: Call, dwords: nat,
                            events: seq<Event>, x: RingState, y: RingState, status: Status, t: Trace)
    requires ValidDevice(d) && id < RB_LEVELS && ValidContext(c.ctx) && dwords <= 0xFFFF_0000
  {
    && Switched(d, id, record, active, c.ctx, c.detached, c.held, c.o1, x, t.mid, t.at1)
    && if Entered(active, c.ctx, c.detached, c.held) then
         Added(d, id, record, Some(c.ctx), c.flags, c.ts, c.o2, dwords, events, t.mid, y, status, t.at2)
       else
         status == ENOENT && y == t.mid
  }

  /** A ring with the context that was active on it last. */
  class DrawQueue {
    const rb: Ring
    const device: Device
    const record: qword                  // rb->preemption_desc
    var active: Option<DrawContext>      // rb->drawctxt_active
    var profileIndex: nat                // rb->profile_index

    ghost predicate Valid()
      reads this, rb
    {
      rb.Valid() && ValidDevice(device) && rb.id < RB_LEVELS && profileIndex < PROFILE_IB_SLOTS
    }

    /** A queue over a ring that a5xx_rb_start has just reset. */
    constructor (rb: Ring, device: Device, record: qword)
      requires rb.Valid() && ValidDevice(device) && rb.id < RB_LEVELS
      ensures Valid() && this.rb == rb && this.device == device && this.record == record
      ensures active == None && profileIndex == 0
    {
      this.rb, this.device, this.record := rb, device, record;
      active, profileIndex := None, 0;
    }

    ghost function State(): RingState
      reads rb, rb.buffer
    {
      RingState(rb.buffer[..], rb.pending, rb.wptr, rb.timestamp)
    }

    /** a5xx_ringbuffer_addcmds on a payload that causes `events`; the submission ends at `at`. */
    method Add(ctx: Option<DrawContext>, flags: Flags, payload: seq<word>, ts: word, o: Outside,
               ghost events: seq<Event>) returns (status: Status, ghost at: nat)
      requires Valid() && ValidOutside(o) && (ctx.Some? ==> ValidContext(ctx.value)) && |payload| <= 0xFFFF_0000
      requires Causes(payload, events)
      modifies rb, rb.buffer
      ensures Valid()
      ensures Added(device, rb.id, record, ctx, flags, ts, o, |payload|, events, old(State()), State(), status, at)
    {
      hide Causes, Frames, Delivered, SubmissionEvents;
      ghost var first, last;
      status, at, first, last := AddCmds(rb, device, record, ctx, flags, payload, ts, o);
      if status == OK {
        FramedDelivers(device, rb.id, record, ctx, flags, ts, rb.timestamp, o, first, payload, events, last);
      }
    }

    /**
      a5xx_drawctxt_switch.  The context counts as active even when its switch found no
      space or the GPU had faulted; `held` is whether _kgsl_context_get succeeded.
     */
    method DrawctxtSwitch(ctx: DrawContext, detached: bool, held: bool, o: Outside)
      returns (status: Status, ghost at: nat)
      requires Valid() && ValidOutside(o)
      modifies this`active, rb, rb.buffer
      ensures Valid()
      ensures status == if Entered(old(active), ctx, detached, held) then OK else ENOENT
      ensures active == if status == OK then Some(ctx) else old(active)
      ensures Switched(device, rb.id, record, old(active), ctx, detached, held, o, old(State()), State(), at)
    {
      at := 0;
      if active == Some(ctx) {
        return OK, at;
      }
      if detached {
        return ENOENT, at;
      }
      if !held {
        return ENOENT, at;
      }
      var cmds := WriteContextSwitch(device, rb.id, active, ctx);
      assert State() == old(State());
      var ignored;
      ignored, at := Add(None, F_NOTPROTECTED, cmds, 0, o, SwitchEvents(device, rb.id, active, ctx));
      active := Some(ctx);
      return OK, at;
    }

    /** The context switch a command needs, then the command, whose words cause `events`. */
    method SwitchAndAdd(ctx: DrawContext, flags: Flags, cmds: seq<word>, ts: word, detached: bool, held: bool,
                        o1: Outside, o2: Outside, ghost events: seq<Event>)
      returns (status: Status, ghost trace: Trace)
      requires Valid() && ValidOutside(o1) && ValidOutside(o2) && ValidContext(ctx)
      requires |cmds| <= 0xFFFF_0000 && Causes(cmds, events)
      modifies this`active, rb, rb.buffer
      ensures Valid()
      ensures active == if Entered(old(active), ctx, detached, held) then Some(ctx) else old(active)
      ensures Submitted(device, rb.id, record, old(active), Call(ctx, flags, ts, detached, held, o1, o2), |cmds|,
                        events, old(State()), State(), status, trace)
    {
      ghost var at1, at2 := 0, 0;
      status, at1 := DrawctxtSwitch(ctx, detached, held, o1);
      trace := Trace(at1, State(), at2);
      if status != OK {
        return;
      }
      status, at2 := Add(Some(ctx), flags, cmds, ts, o2, events);
      trace := trace.(at2 := at2);
    }

    /** a5xx_ringbuffer_submitcmd */
    method SubmitCmd(ctx: DrawContext, list: seq<Ib>, flags: Flags, p: Profiling, ts: word, detached: bool, held: bool,
                     o1: Outside, o2: Outside) returns (status: Status, ghost trace: Trace)
      requires Valid() && ValidOutside(o1) && ValidOutside(o2) && ValidContext(ctx) && |list| <= 0x1000_0000
      requires ValidProfiling(p) && p.userIndex == profileIndex
      modifies this, rb, rb.buffer
      ensures Valid() && CommandLength(p, list, flags) <= 0xFFFF_0000
      ensures profileIndex == (old(profileIndex) + UserProfiles(p, flags)) % PROFILE_IB_SLOTS
      ensures active == if Entered(old(active), ctx, detached, held) then Some(ctx) else old(active)
      ensures Submitted(device, rb.id, record, old(active), Call(ctx, flags, ts, detached, held, o1, o2),
                        CommandLength(p, list, flags), CommandEvents(device, p, list, flags),
                        old(State()), State(), status, trace)
    {
      var cmds := BuildCommand(device, p, list, flags);
      profileIndex := (profileIndex + UserProfiles(p, flags)) % PROFILE_IB_SLOTS;
      assert State() == old(State()) && active == old(active);
      ghost var events := CommandEvents(device, p, list, flags);
      status, trace := SwitchAndAdd(ctx, flags, cmds, ts, detached, held, o1, o2, events);
    }
  }

  /** How many slots of the profiling buffer a command uses. */
  function UserProfiles(p: Profiling, flags: Flags): nat {
    if flags.userProfile && p.userDesc.Some? then 2 else 0
  }

  // -------------------------------------------------------------- what it amounts to

  lemma SwitchIsModeless(d: Device, id: nat, active: Option<DrawContext>, ctx: DrawContext)
    requires ValidDevice(d) && id < RB_LEVELS
    ensures Modeless(SwitchEvents(d, id, active, ctx)) && Runs(SwitchEvents(d, id, active, ctx)) == []
  {
    var es := SwitchEvents(d, id, active, ctx);
    forall i | 0 <= i < |es| ensures !es[i].SetProtected? && !es[i].SetSecure? && !es[i].RunIb? {
      var t := if NeedsTable(d, active, ctx) then PagetableEvents(d, id, ctx) else [];
      if i < |t| {
        assert es[i] == t[i];
      }
    }
    RunsNothing(es);
  }

  lemma {:induction false} KeptIsModeless(list: seq<Ib>, preamble: bool)
    ensures Modeless(KeptEvents(list, preamble))
    decreases |list|
  {
    if list != [] {
      KeptIsModeless(list[..|list| - 1], preamble);
    }
  }

  lemma CommandIsModeless(d: Device, p: Profiling, list: seq<Ib>, flags: Flags)
    requires ValidProfiling(p)
    ensures Modeless(CommandEvents(d, p, list, flags))
  {
    var a := KernelProfileEvents(d, flags.kernelProfile, p.kernelStarted) + UserProfileEvents(p, flags.userProfile, 0);
    var kept := KeptEvents(if flags.skip then [] else list, flags.preamble);
    var mode, enable := [Other(CP_SET_RENDER_MODE, [0, 0, 0, 0, 0])], [Other(CP_YIELD_ENABLE, [1])];
    KeptIsModeless(if flags.skip then [] else list, flags.preamble);
    ModelessJoin(a, kept, mode, enable);
    ModelessJoin(a + kept + mode + enable, KernelProfileEvents(d, flags.kernelProfile, p.kernelRetired),
                 UserProfileEvents(p, flags.userProfile, 1), []);
  }

  lemma ModelessJoin(a: seq<Event>, b: seq<Event>, c: seq<Event>, d: seq<Event>)
    requires Modeless(a) && Modeless(b) && Modeless(c) && Modeless(d)
    ensures Modeless(a + b + c + d) && a + b + c + [] == a + b + c
  {
  }

  /** With the 20-bit mask, the kept buffers run as planned if the list was accepted. */
  lemma {:induction false} KeptRuns(list: seq<Ib>, preamble: bool, inRange: Ranges)
    requires ListVerified(list, inRange)
    ensures Runs(KeptEvents(list, preamble)) == Plan(list, preamble)
    decreases |list|
  {
    if list != [] {
      var rest, ib := list[..|list| - 1], list[|list| - 1];
      KeptRuns(rest, preamble, inRange);
      assert VerifyIb(ib, inRange);
      MaskIsHarmless(ib);
      RunsConcat(KeptEvents(rest, preamble), ListedEvents(ib, preamble));
      RunsOne(RunIb(ib.gpuaddr, IbDwords(ib.size)));
    }
  }

  /** The profiling slot the `k`-th profile of a command runs. */
  function ProfileRuns(p: Profiling, flags: Flags, k: nat): seq<(qword, nat)>
    requires ValidProfiling(p)
  {
    if flags.userProfile && p.userDesc.Some? then
      [(SlotAddr(p.userDesc.value, (p.userIndex + k) % PROFILE_IB_SLOTS), 4)] else []
  }

  /** For an accepted list, an A5XX command runs exactly the plan, between its two profiles. */
  lemma CommandRunsThePlan(d: Device, p: Profiling, list: seq<Ib>, flags: Flags, inRange: Ranges)
    requires ValidProfiling(p) && ListVerified(list, inRange)
    ensures Runs(CommandEvents(d, p, list, flags))
      == ProfileRuns(p, flags, 0) + Plan(if flags.skip then [] else list, flags.preamble) + ProfileRuns(p, flags, 1)
  {
    var list' := if flags.skip then [] else list;
    var a := KernelProfileEvents(d, flags.kernelProfile, p.kernelStarted);
    var x := KernelProfileEvents(d, flags.kernelProfile, p.kernelRetired);
    RunsNothing(a);
    RunsNothing(x);
    UserProfileRuns(p, flags, 0);
    UserProfileRuns(p, flags, 1);
    KeptRuns(list', flags.preamble, inRange);
    CommandPieces(RunOf, a, UserProfileEvents(p, flags.userProfile, 0), KeptEvents(list', flags.preamble), x,
                  UserProfileEvents(p, flags.userProfile, 1));
  }

  lemma UserProfileRuns(p: Profiling, flags: Flags, k: nat)
    requires ValidProfiling(p)
    ensures Runs(UserProfileEvents(p, flags.userProfile, k)) == ProfileRuns(p, flags, k)
  {
    if flags.userProfile && p.userDesc.Some? {
      RunsOne(RunIb(SlotAddr(p.userDesc.value, (p.userIndex + k) % PROFILE_IB_SLOTS), 4));
    }
  }

  /** The mask is harmless exactly for sizes the check accepts, up to the zero size. */
  lemma MaskIsHarmless(ib: Ib)
    ensures IbDwords(ib.size) == ib.size / 4 <==> ib.size / 4 <= 0xF_FFFF
  {
  }

  /** A submission runs its payload between the profiler's buffers, and restores the modes. */
  lemma SubmissionRunsItsPayload(d: Device, id: nat, record: qword, ctx: Option<DrawContext>, flags: Flags, ts: word,
                                 rbTs: word, o: Outside, payload: seq<Event>)
    requires ValidDevice(d) && id < RB_LEVELS && (ctx.Some? ==> ValidContext(ctx.value)) && Modeless(payload)
    ensures var es := SubmissionEvents(d, id, record, ctx, flags, ts, rbTs, o, payload);
      && Runs(es) == Runs(ProfileEvents(o.pre)) + Runs(payload) + Runs(ProfileEvents(o.post))
      && ModesAfter(Modes(true, false), es) == Modes(true, false)
  {
    var b := BeforePayload(d, id, record, ctx, flags, ts, rbTs, o.pre);
    var a := AfterPayload(d, id, ctx, flags, ts, rbTs, o.sequence, o.post);
    var m := Modes(true, false);
    RunsConcat(b, payload);
    RunsConcat(b + payload, a);
    BeforeRuns(d, id, record, ctx, flags, ts, rbTs, o.pre);
    AfterRuns(d, id, ctx, flags, ts, rbTs, o.sequence, o.post);
    ModesBefore(d, id, record, ctx, flags, ts, rbTs, o.pre);
    ModesConcat(m, b, payload);
    ModelessKeeps(ModesAfter(m, b), payload);
    ModesConcat(m, b + payload, a);
    ModesAfterwards(Modes(!flags.notProtected, flags.secure), d, id, ctx, flags, ts, rbTs, o.sequence, o.post);
  }

  /**
    From the ring to the CP: once an accepted command is in the ring, the CP goes on to run,
    after whatever it had to run, the profiler's and the profiling buffers around exactly the
    plan, and is left protected and not secure if it is so before.
   */
  lemma SubmittedCommandRuns(d: Device, id: nat, record: qword, ctx: DrawContext, flags: Flags, ts: word, rbTs: word,
                             o: Outside, p: Profiling, list: seq<Ib>, inRange: Ranges, size: word, at: nat,
                             buf: seq<word>, wptr: nat, buf': seq<word>, wptr': nat, r: nat)
    requires ValidDevice(d) && id < RB_LEVELS && ValidContext(ctx) && ValidProfiling(p) && ListVerified(list, inRange)
    requires |buf| == |buf'| == RB_DWORDS && wptr <= RB_DWORDS - 2 && wptr' <= RB_DWORDS - 2
    requires Follows(d, o.rptr, o.again, r, wptr, at) && Meaning(Unread(buf, r, wptr)).Some?
    requires ModesAfter(Modes(true, false), Meaning(Unread(buf, r, wptr)).value) == Modes(true, false)
    requires Delivers(d, id, buf, wptr, buf', wptr', o, size, at,
                      SubmissionEvents(d, id, record, Some(ctx), flags, ts, rbTs, o, CommandEvents(d, p, list, flags)))
    ensures var before, after := Meaning(Unread(buf, r, wptr)), Meaning(Unread(buf', r, wptr'));
      && after.Some?
      && Runs(after.value) == Runs(before.value) + (Runs(ProfileEvents(o.pre))
           + (ProfileRuns(p, flags, 0) + Plan(if flags.skip then [] else list, flags.preamble)
              + ProfileRuns(p, flags, 1))
           + Runs(ProfileEvents(o.post)))
      && ModesAfter(Modes(true, false), after.value) == Modes(true, false)
  {
    var es := SubmissionEvents(d, id, record, Some(ctx), flags, ts, rbTs, o, CommandEvents(d, p, list, flags));
    CommandSubmissionRuns(d, id, record, ctx, flags, ts, rbTs, o, p, list, inRange);
    DeliveredRuns(d, id, buf, wptr, buf', wptr', o, size, at, es, r);
  }

  lemma CommandSubmissionRuns(d: Device, id: nat, record: qword, ctx: DrawContext, flags: Flags, ts: word, rbTs: word,
                              o: Outside, p: Profiling, list: seq<Ib>, inRange: Ranges)
    requires ValidDevice(d) && id < RB_LEVELS && ValidContext(ctx) && ValidProfiling(p) && ListVerified(list, inRange)
    ensures var es := SubmissionEvents(d, id, record, Some(ctx), flags, ts, rbTs, o, CommandEvents(d, p, list, flags));
      && Runs(es) == Runs(ProfileEvents(o.pre))
           + (ProfileRuns(p, flags, 0) + Plan(if flags.skip then [] else list, flags.preamble)
              + ProfileRuns(p, flags, 1))
           + Runs(ProfileEvents(o.post))
      && ModesAfter(Modes(true, false), es) == Modes(true, false)
  {
    CommandIsModeless(d, p, list, flags);
    CommandRunsThePlan(d, p, list, flags, inRange);
    SubmissionRunsItsPayload(d, id, record, Some(ctx), flags, ts, rbTs, o, CommandEvents(d, p, list, flags));
  }

  /** Delivery of a stream that restores the modes. */
  lemma DeliveredRuns(d: Device, id: nat, buf: seq<word>, wptr: nat, buf': seq<word>, wptr': nat, o: Outside,
                      size: word, at: nat, es: seq<Event>, r: nat)
    requires |buf| == |buf'| == RB_DWORDS && wptr <= RB_DWORDS - 2 && wptr' <= RB_DWORDS - 2
    requires ValidDevice(d) && id < RB_LEVELS && Follows(d, o.rptr, o.again, r, wptr, at)
    requires Meaning(Unread(buf, r, wptr)).Some? && Delivers(d, id, buf, wptr, buf', wptr', o, size, at, es)
    requires ModesAfter(Modes(true, false), Meaning(Unread(buf, r, wptr)).value) == Modes(true, false)
    requires ModesAfter(Modes(true, false), es) == Modes(true, false)
    ensures var before, after := Meaning(Unread(buf, r, wptr)), Meaning(Unread(buf', r, wptr'));
      && after.Some? && Runs(after.value) == Runs(before.value) + Runs(es)
      && ModesAfter(Modes(true, false), after.value) == Modes(true, false)
  {
    hide Delivers, Unread, Meaning, ModesAfter, Runs;
    DeliversMeaning(d, id, buf, wptr, buf', wptr', o, size, at, es, r);
    GoesOn(Meaning(Unread(buf, r, wptr)).value, es, ReportEvents(d, id, o.again, at));
  }

  /** A stream that restores the modes, and a report, behind one that left them restored. */
  lemma GoesOn(before: seq<Event>, es: seq<Event>, report: seq<Event>)
    requires ModesAfter(Modes(true, false), before) == ModesAfter(Modes(true, false), es) == Modes(true, false)
    requires Silent(report) && Modeless(report)
    ensures Runs(before + es + report) == Runs(before) + Runs(es)
    ensures ModesAfter(Modes(true, false), before + es + report) == Modes(true, false)
  {
    RunsConcat(before, es);
    RunsSilent(before + es, report);
    ModesConcat(Modes(true, false), before, es);
    KeepsOn(Modes(true, false), Modes(true, false), before + es, report);
  }

  lemma BeforeRuns(d: Device, id: nat, record: qword, ctx: Option<DrawContext>, flags: Flags,
                   ts: word, rbTs: word, profile: Option<ProfileIb>)
    requires ValidDevice(d) && id < RB_LEVELS && (ctx.Some? ==> ValidContext(ctx.value))
    ensures Runs(BeforePayload(d, id, record, ctx, flags, ts, rbTs, profile)) == Runs(ProfileEvents(profile))
  {
    RunsNothing(PreIbEvents(d, record, ctx));
    RunsNothing(StartEvents(d, id, ctx, ts, rbTs));
    HeadPieces(RunOf, PreIbEvents(d, record, ctx), ProfileEvents(profile), StartEvents(d, id, ctx, ts, rbTs), flags);
  }

  lemma EndRuns(d: Device, id: nat, ctx: Option<DrawContext>, ts: word, rbTs: word)
    requires ValidDevice(d) && id < RB_LEVELS && (ctx.Some? ==> ValidContext(ctx.value))
    ensures Runs(RetireEvents(d, id, ctx, ts, rbTs)) == [] && Runs(PostIbEvents(d)) == []
  {
    RunsNothing(RetireEvents(d, id, ctx, ts, rbTs));
    RunsNothing(PostIbEvents(d));
  }

  lemma AfterRuns(d: Device, id: nat, ctx: Option<DrawContext>, flags: Flags, ts: word, rbTs: word,
                  sequence: word, profile: Option<ProfileIb>)
    requires ValidDevice(d) && id < RB_LEVELS && (ctx.Some? ==> ValidContext(ctx.value))
    ensures Runs(AfterPayload(d, id, ctx, flags, ts, rbTs, sequence, profile)) == Runs(ProfileEvents(profile))
  {
    hide RetireEvents, PostIbEvents, ProfileEvents;
    EndRuns(d, id, ctx, ts, rbTs);
    TailPieces(RunOf, ProfileEvents(profile), d.waitMemWrites, MemWrite(RefWaitTs(d), [sequence]),
               RetireEvents(d, id, ctx, ts, rbTs), flags, PostIbEvents(d));
  }
}
