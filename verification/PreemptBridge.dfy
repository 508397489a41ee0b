/**
  The words the driver writes are the ops the preemption protocol reasons about: what a
  CP does with an A5XX submission, seen through the addresses of one ring, is exactly the
  block of ops PreemptModel appends for it.
 */
module PreemptBridge {
  import opened Basics
  import Sequences
  import opened CommandProcessor
  import opened Reservations
  import opened Ringbuffer
  import opened Adreno
  import opened A5xxRingbuffer
  import opened IndirectBuffers
  import opened A5xxSubmit
  import opened A5xxCommands
  import P = PreemptModel

  /**
    How ring `id` of device `d` is looked at.  `globals` are the addresses of the kernel's
    own buffers (the profiler's and the profiling slots), mapped in every pagetable;
    `table` is the pagetable the running context owns.
   */
  datatype View = View(d: Device, id: nat, globals: set<qword>, table: P.Pagetable)

  predicate ValidView(v: View) { ValidDevice(v.d) && v.id < RB_LEVELS }

  /** Pagetables are told apart by their TTBR0; the default one is number 0. */
  function Number(d: Device, ttbr0: qword): P.Pagetable {
    if ttbr0 == d.defaultTable.ttbr0 then P.DEFAULT_PAGETABLE else ttbr0 + 1
  }

  /** What one event is to the protocol, if anything. */
  function OpsOf(v: View, e: Event): seq<P.Op>
    requires ValidView(v)
  {
    match e
    case TableUpdate(ttbr0, _) => [P.Table(Number(v.d, ttbr0))]
    case MemWrite(addr, data) =>
      if addr == ScratchTtbr0(v.d, v.id) && |data| >= 2 then [P.Scratch(Number(v.d, Join(data[0], data[1])))]
      else if addr == Sop(v.d, RbIndex(v.id)) && |data| == 1 then [P.Sop(data[0])]
      else []
    case EventWrite(_, addr, value) => if addr == Eop(v.d, RbIndex(v.id)) then [P.Eop(value)] else []
    case RunIb(addr, _) => if addr in v.globals then [] else [P.User(v.table)]
    case ContextYield => [P.Yield]
    case _ => []
  }

  function Lens(v: View): Event -> seq<P.Op>
    requires ValidView(v)
  {
    e => OpsOf(v, e)
  }

  function Ops(v: View, es: seq<Event>): seq<P.Op>
    requires ValidView(v)
  {
    Sequences.FlatMap(Lens(v), es)
  }

  lemma OpsOne(v: View, e: Event)
    requires ValidView(v)
    ensures Ops(v, [e]) == OpsOf(v, e)
  {
    Sequences.FlatMapOne(Lens(v), e);
  }

  lemma OpsConcat(v: View, a: seq<Event>, b: seq<Event>)
    requires ValidView(v)
    ensures Ops(v, a + b) == Ops(v, a) + Ops(v, b)
  {
    Sequences.FlatMapConcat(Lens(v), a, b);
  }

  predicate Unseen(v: View, es: seq<Event>)
    requires ValidView(v)
  {
    forall i | 0 <= i < |es| :: OpsOf(v, es[i]) == []
  }

  lemma {:induction false} OpsUnseen(v: View, es: seq<Event>)
    requires ValidView(v) && Unseen(v, es)
    ensures Ops(v, es) == []
  {
    if es != [] {
      OpsUnseen(v, es[1..]);
    }
  }

  // ---------------------------------------------------------------------- framing

  /** The profiler's buffers are the kernel's. */
  predicate KernelProfile(v: View, p: Option<ProfileIb>) { p.Some? ==> p.value.addr in v.globals }

  lemma StartOps(v: View, ctx: Option<DrawContext>, ts: word, rbTs: word)
    requires ValidView(v) && (ctx.Some? ==> ValidContext(ctx.value))
    ensures Ops(v, StartEvents(v.d, v.id, ctx, ts, rbTs)) == [P.Sop(rbTs)]
  {
    var ring := MemWrite(Sop(v.d, RbIndex(v.id)), [rbTs]);
    OpsOne(v, ring);
    if ctx.Some? {
      var own := MemWrite(Sop(v.d, ctx.value.id), [ts]);
      OpsOne(v, own);
      OpsConcat(v, [own], [ring]);
      assert [own] + [ring] == StartEvents(v.d, v.id, ctx, ts, rbTs);
    }
  }

  lemma RetireOps(v: View, ctx: Option<DrawContext>, ts: word, rbTs: word)
    requires ValidView(v) && (ctx.Some? ==> ValidContext(ctx.value))
    ensures Ops(v, RetireEvents(v.d, v.id, ctx, ts, rbTs)) == [P.Eop(rbTs)]
  {
    if ctx.None? {
      OpsOne(v, EventWrite(CACHE_FLUSH_TS + IRQ, Eop(v.d, RbIndex(v.id)), rbTs));
    } else {
      var own := EventWrite(CACHE_FLUSH_TS + IRQ, Eop(v.d, ctx.value.id), ts);
      var ring := EventWrite(CACHE_FLUSH_TS, Eop(v.d, RbIndex(v.id)), rbTs);
      OpsOne(v, own);
      OpsOne(v, ring);
      OpsConcat(v, [own], [ring]);
      assert [own] + [ring] == RetireEvents(v.d, v.id, ctx, ts, rbTs);
    }
  }

  lemma PreIbOps(v: View, record: qword, ctx: Option<DrawContext>)
    requires ValidView(v)
    ensures Ops(v, PreIbEvents(v.d, record, ctx)) == []
  {
    OpsUnseen(v, PreIbEvents(v.d, record, ctx));
  }

  lemma BeforeOps(v: View, record: qword, ctx: Option<DrawContext>, flags: Flags, ts: word, rbTs: word,
                  profile: Option<ProfileIb>)
    requires ValidView(v) && (ctx.Some? ==> ValidContext(ctx.value)) && KernelProfile(v, profile)
    ensures Ops(v, BeforePayload(v.d, v.id, record, ctx, flags, ts, rbTs, profile)) == [P.Sop(rbTs)]
  {
    PreIbOps(v, record, ctx);
    StartOps(v, ctx, ts, rbTs);
    OpsUnseen(v, ProfileEvents(profile));
    HeadPieces(Lens(v), PreIbEvents(v.d, record, ctx), ProfileEvents(profile), StartEvents(v.d, v.id, ctx, ts, rbTs),
               flags);
  }

  lemma AfterOps(v: View, ctx: Option<DrawContext>, flags: Flags, ts: word, rbTs: word,
                 sequence: word, profile: Option<ProfileIb>)
    requires ValidView(v) && (ctx.Some? ==> ValidContext(ctx.value)) && KernelProfile(v, profile) && v.d.preemption
    ensures Ops(v, AfterPayload(v.d, v.id, ctx, flags, ts, rbTs, sequence, profile)) == [P.Eop(rbTs), P.Yield]
  {
    OpsUnseen(v, ProfileEvents(profile));
    FrameUnseen(v, sequence);
    hide RetireEvents, PostIbEvents, ProfileEvents, Sequences.FlatMap, Lens;
    RetireOps(v, ctx, ts, rbTs);
    PostIbOps(v);
    TailPieces(Lens(v), ProfileEvents(profile), v.d.waitMemWrites, MemWrite(RefWaitTs(v.d), [sequence]),
               RetireEvents(v.d, v.id, ctx, ts, rbTs), flags, PostIbEvents(v.d));
  }

  /** The events between are nothing to the protocol. */
  lemma FrameUnseen(v: View, sequence: word)
    requires ValidView(v)
    ensures Lens(v)(SetProtected(true)) == Lens(v)(SetSecure(false)) == []
    ensures Lens(v)(Other(CP_WAIT_MEM_WRITES, [])) == Lens(v)(Other(CP_WAIT_FOR_IDLE, [])) == []
    ensures Lens(v)(MemWrite(RefWaitTs(v.d), [sequence])) == []
  {
  }

  lemma PostIbOps(v: View)
    requires ValidView(v) && v.d.preemption
    ensures Ops(v, PostIbEvents(v.d)) == [P.Yield]
  {
    OpsOne(v, ContextYield);
  }

  /** A submission is one block: its payload's ops between the ring's two timestamps, then a yield. */
  lemma SubmissionIsABlock(v: View, record: qword, ctx: Option<DrawContext>, flags: Flags, ts: word, rbTs: word,
                           o: Outside, payload: seq<Event>)
    requires ValidView(v) && v.d.preemption && (ctx.Some? ==> ValidContext(ctx.value))
    requires KernelProfile(v, o.pre) && KernelProfile(v, o.post)
    ensures Ops(v, SubmissionEvents(v.d, v.id, record, ctx, flags, ts, rbTs, o, payload))
         == P.Block(rbTs, Ops(v, payload))
  {
    var b := BeforePayload(v.d, v.id, record, ctx, flags, ts, rbTs, o.pre);
    var a := AfterPayload(v.d, v.id, ctx, flags, ts, rbTs, o.sequence, o.post);
    OpsConcat(v, b, payload);
    OpsConcat(v, b + payload, a);
    BeforeOps(v, record, ctx, flags, ts, rbTs, o.pre);
    AfterOps(v, ctx, flags, ts, rbTs, o.sequence, o.post);
  }

  // --------------------------------------------------------------- context switches

  function ContextOf(d: Device, c: DrawContext): P.Context {
    P.Context(c.id, Number(d, c.pagetable.ttbr0))
  }

  /** Different pagetables have different TTBR0s. */
  predicate ToldApart(a: Pagetable, b: Pagetable) { a.ttbr0 == b.ttbr0 ==> a == b }

  /** The ring's active context is the one the protocol has. */
  predicate SameActive(d: Device, active: Option<DrawContext>, r: P.Ring) {
    r.active == if active.None? then None else Some(ContextOf(d, active.value))
  }

  lemma TableOps(v: View, ctx: DrawContext)
    requires ValidView(v)
    ensures var n := Number(v.d, ctx.pagetable.ttbr0);
      Ops(v, PagetableEvents(v.d, v.id, ctx)) == [P.Table(n), P.Scratch(n)]
  {
    var ttbr0 := ctx.pagetable.ttbr0;
    var t := TableUpdate(ttbr0, ctx.id);
    var s := MemWrite(ScratchTtbr0(v.d, v.id), [Lo(ttbr0), Hi(ttbr0), ctx.id]);
    A5xxPackets.JoinLoHi(ttbr0);
    assert OpsOf(v, t) == [P.Table(Number(v.d, ttbr0))] && OpsOf(v, s) == [P.Scratch(Number(v.d, ttbr0))];
    OpsUnseen(v, IdleEvents());
    TablePieces(Lens(v), t, IdleEvents(), s);
  }

  lemma TablePieces<B>(f: Event -> seq<B>, t: Event, idle: seq<Event>, s: Event)
    requires Sequences.FlatMap(f, idle) == [] && f(RegWrite(A5xxPackets.A5XX_CP_CNTL, [0])) == []
    requires f(RegWrite(A5xxPackets.A5XX_CP_CNTL, [1])) == []
    ensures Sequences.FlatMap(f, [t] + idle + [RegWrite(A5xxPackets.A5XX_CP_CNTL, [1])] + [s] + idle
                       + [RegWrite(A5xxPackets.A5XX_CP_CNTL, [0])]) == f(t) + f(s)
  {
    var a := [t] + idle;
    var b := a + [RegWrite(A5xxPackets.A5XX_CP_CNTL, [1])];
    var c := b + [s] + idle;
    Sequences.FlatMapOne(f, t);
    Sequences.FlatMapOne(f, s);
    Sequences.FlatMapConcat(f, [t], idle);
    FlatMapWhen(f, a, true, RegWrite(A5xxPackets.A5XX_CP_CNTL, [1]));
    FlatMapThree(f, b, [s], idle);
    FlatMapWhen(f, c, true, RegWrite(A5xxPackets.A5XX_CP_CNTL, [0]));
  }

  /** The stream of a context switch is the protocol's switch payload. */
  lemma SwitchIsItsPayload(v: View, active: Option<DrawContext>, ctx: DrawContext, r: P.Ring)
    requires ValidView(v) && SameActive(v.d, active, r) && ToldApart(ctx.pagetable, v.d.defaultTable)
    requires active.Some? ==> ToldApart(active.value.pagetable, ctx.pagetable)
    ensures Ops(v, SwitchEvents(v.d, v.id, active, ctx)) == P.SwitchPayload(r.active, ContextOf(v.d, ctx))
  {
    var t := if NeedsTable(v.d, active, ctx) then PagetableEvents(v.d, v.id, ctx) else [];
    var a := MemWrite(CurrentContext(v.d, RbIndex(v.id)), [ctx.id]);
    var b := MemWrite(CurrentContext(v.d, KGSL_MEMSTORE_GLOBAL), [ctx.id]);
    var u := RegWrite(A5xxPackets.A5XX_UCHE_INVALIDATE0, [0x12]);
    TableOps(v, ctx);
    assert NeedsTable(v.d, active, ctx) == P.TableMissing(r.active, ContextOf(v.d, ctx));
    FlatMapWhen(Lens(v), t, true, a);
    FlatMapWhen(Lens(v), t + [a], true, b);
    FlatMapWhen(Lens(v), t + [a] + [b], true, u);
  }

  // ------------------------------------------------------------------ user commands

  lemma RepeatMore(op: P.Op, n: nat)
    ensures P.Repeat(op, n) + [op] == P.Repeat(op, n + 1)
  {
    if n > 0 {
      RepeatMore(op, n - 1);
      assert [op] + P.Repeat(op, n - 1) + [op] == [op] + (P.Repeat(op, n - 1) + [op]);
    }
  }

  /** No buffer of the list that would run is one of the kernel's. */
  predicate UserList(v: View, list: seq<Ib>, preamble: bool) {
    forall i | 0 <= i < |list| :: !Skipped(list[i], preamble) ==> list[i].gpuaddr !in v.globals
  }

  lemma ListedOps(v: View, ib: Ib, preamble: bool)
    requires ValidView(v) && (!Skipped(ib, preamble) ==> ib.gpuaddr !in v.globals)
    ensures Ops(v, ListedEvents(ib, preamble)) == if Skipped(ib, preamble) then [] else [P.User(v.table)]
  {
    OpsOne(v, RunIb(ib.gpuaddr, IbDwords(ib.size)));
  }

  lemma {:induction false} KeptOps(v: View, list: seq<Ib>, preamble: bool)
    requires ValidView(v) && UserList(v, list, preamble)
    ensures Ops(v, KeptEvents(list, preamble)) == P.Repeat(P.User(v.table), |Plan(list, preamble)|)
    decreases |list|
  {
    if list != [] {
      var n := |list| - 1;
      KeptOps(v, list[..n], preamble);
      KeptOpsStep(v, KeptEvents(list[..n], preamble), Plan(list[..n], preamble), list[n], preamble);
    }
  }

  lemma KeptOpsStep(v: View, kept: seq<Event>, plan: seq<(qword, nat)>, ib: Ib, preamble: bool)
    requires ValidView(v) && (!Skipped(ib, preamble) ==> ib.gpuaddr !in v.globals)
    requires Ops(v, kept) == P.Repeat(P.User(v.table), |plan|)
    ensures Ops(v, kept + ListedEvents(ib, preamble))
         == P.Repeat(P.User(v.table), |plan + if Skipped(ib, preamble) then [] else [(ib.gpuaddr, ib.size / 4)]|)
  {
    OpsConcat(v, kept, ListedEvents(ib, preamble));
    ListedOps(v, ib, preamble);
    RepeatMore(P.User(v.table), |plan|);
  }

  /** The profiling slots belong to the kernel. */
  predicate KernelSlots(v: View, p: Profiling)
    requires ValidProfiling(p)
  {
    p.userDesc.Some? ==> forall k: nat | k < PROFILE_IB_SLOTS :: SlotAddr(p.userDesc.value, k) in v.globals
  }

  /** A command's payload is one user op for each buffer of the plan. */
  lemma CommandIsUserOps(v: View, p: Profiling, list: seq<Ib>, flags: Flags)
    requires ValidView(v) && ValidProfiling(p) && KernelSlots(v, p)
    requires UserList(v, if flags.skip then [] else list, flags.preamble)
    ensures Ops(v, CommandEvents(v.d, p, list, flags))
         == P.Repeat(P.User(v.table), |Plan(if flags.skip then [] else list, flags.preamble)|)
  {
    var list' := if flags.skip then [] else list;
    var a := KernelProfileEvents(v.d, flags.kernelProfile, p.kernelStarted);
    var b := UserProfileEvents(p, flags.userProfile, 0);
    var e := KernelProfileEvents(v.d, flags.kernelProfile, p.kernelRetired);
    var f := UserProfileEvents(p, flags.userProfile, 1);
    OpsUnseen(v, a);
    OpsUnseen(v, b);
    OpsUnseen(v, e);
    OpsUnseen(v, f);
    KeptOps(v, list', flags.preamble);
    KeptPieces(Lens(v), a, b, KeptEvents(list', flags.preamble), e, f);
  }

  // ------------------------------------------------------------ the protocol's steps

  /** Delivering a stream into the wrapping ring appends its ops to those the CP still has to perform. */
  lemma DeliveredOps(v: View, buf: seq<word>, wptr: nat, buf': seq<word>, wptr': nat, o: Outside, size: word, at: nat,
                     events: seq<Event>, r: nat)
    requires ValidView(v) && v.d.preemption && |buf| == |buf'| == RB_DWORDS
    requires wptr <= RB_DWORDS - 2 && wptr' <= RB_DWORDS - 2 && r < RB_DWORDS
    requires Behind(o.rptr, r, wptr) && Meaning(Unread(buf, r, wptr)).Some?
    requires Delivers(v.d, v.id, buf, wptr, buf', wptr', o, size, at, events)
    ensures var before, after := Meaning(Unread(buf, r, wptr)), Meaning(Unread(buf', r, wptr'));
      after.Some? && Ops(v, after.value) == Ops(v, before.value) + Ops(v, events)
  {
    var before := Meaning(Unread(buf, r, wptr)).value;
    DeliversMeaning(v.d, v.id, buf, wptr, buf', wptr', o, size, at, events, r);
    assert before + events + [] == before + events;
    OpsConcat(v, before, events);
  }

  /** What a submission reads when it asks for space. */
  function RoomOf(o: Outside, pending: nat): P.Room { P.Room(o.faulted, o.rptr, pending) }

  /** The status of a submission is the protocol's outcome for the same room and payload. */
  predicate SameOutcome(status: Status, out: P.Outcome) {
    && (status == OK <==> out.Granted?) && (status == EPROTO <==> out.Refused?)
    && (status == ENOSPC <==> out.Full?)
  }

  lemma StatusIsOutcome(ctx: Option<DrawContext>, o: Outside, pending: nat, dwords: nat)
    requires dwords <= 0xFFFF_0000 && !(ctx.Some? && o.detached)
    ensures SameOutcome(StatusOf(ctx, o, pending, dwords), P.OutcomeOf(RoomOf(o, pending), dwords))
  {
    assert (A5XX_SUBMIT_MAX + dwords) % U32 == A5XX_SUBMIT_MAX + dwords;
  }

  function ProtocolSwitch(v: View, ctx: DrawContext, o: Outside, pending: nat, r: P.Ring): P.Ring {
    var c := ContextOf(v.d, ctx);
    P.SwitchContext(r, c, P.OutcomeOf(RoomOf(o, pending), P.SwitchWords(r.active, c)))
  }

  /**
    A context switch is the protocol's, whatever comes of it: it has the same words and the
    same outcome, and its ops are appended exactly when it is delivered.
   */
  lemma SwitchRefinesProtocol(v: View, record: qword, active: Option<DrawContext>, ctx: DrawContext, rbTs: word,
                              o: Outside, pending: nat, r: P.Ring)
    requires ValidView(v) && v.d.preemption && KernelProfile(v, o.pre) && KernelProfile(v, o.post)
    requires SameActive(v.d, active, r) && ToldApart(ctx.pagetable, v.d.defaultTable)
    requires active.Some? ==> ToldApart(active.value.pagetable, ctx.pagetable)
    requires r.active != Some(ContextOf(v.d, ctx)) && rbTs == r.ts + 1
    ensures var status := StatusOf(None, o, pending, SwitchWords(v.d, active, ctx));
      var r' := ProtocolSwitch(v, ctx, o, pending, r);
      && r'.ops == r.ops + (if status == OK then Ops(v, SwitchSubmission(v.d, v.id, record, active, ctx, rbTs, o))
                            else [])
      && r'.ts == (if status == EPROTO then r.ts else rbTs)
      && SameActive(v.d, Some(ctx), r')
  {
    var c := ContextOf(v.d, ctx);
    SubmissionIsABlock(v, record, None, F_NOTPROTECTED, 0, rbTs, o, SwitchEvents(v.d, v.id, active, ctx));
    SwitchIsItsPayload(v, active, ctx, r);
    SwitchLength(v, active, ctx, r);
    StatusIsOutcome(None, o, pending, SwitchWords(v.d, active, ctx));
    SwitchAppends(r, c, P.OutcomeOf(RoomOf(o, pending), P.SwitchWords(r.active, c)),
                  Ops(v, SwitchSubmission(v.d, v.id, record, active, ctx, rbTs, o)));
  }

  lemma SwitchLength(v: View, active: Option<DrawContext>, ctx: DrawContext, r: P.Ring)
    requires SameActive(v.d, active, r) && ToldApart(ctx.pagetable, v.d.defaultTable)
    requires active.Some? ==> ToldApart(active.value.pagetable, ctx.pagetable)
    ensures P.SwitchWords(r.active, ContextOf(v.d, ctx)) == SwitchWords(v.d, active, ctx)
  {
  }

  lemma SwitchAppends(r: P.Ring, c: P.Context, out: P.Outcome, ops: seq<P.Op>)
    requires r.active != Some(c) && ops == P.Block(r.ts + 1, P.SwitchPayload(r.active, c))
    ensures var r' := P.SwitchContext(r, c, out);
      && r'.ops == r.ops + (if out.Granted? then ops else []) && r'.active == Some(c)
      && r'.ts == (if out.Refused? then r.ts else r.ts + 1)
  {
    assert r.ops + [] == r.ops;
  }

  lemma UserAppends(r: P.Ring, c: P.Context, ibs: nat, out: P.Outcome, ops: seq<P.Op>)
    requires ops == P.Block(r.ts + 1, P.Repeat(P.User(c.pagetable), ibs))
    ensures var r' := P.SubmitUser(r, c, ibs, out);
      && r'.ops == r.ops + (if out.Granted? then ops else []) && r'.active == r.active
      && r'.ts == (if out.Refused? then r.ts else r.ts + 1)
  {
    assert r.ops + [] == r.ops;
  }

  /** A command's submission is a block of user ops, one for each buffer of its plan. */
  lemma CommandIsABlock(v: View, record: qword, ctx: DrawContext, p: Profiling, list: seq<Ib>, flags: Flags,
                        ts: word, rbTs: word, o: Outside)
    requires ValidView(v) && v.d.preemption && KernelProfile(v, o.pre) && KernelProfile(v, o.post)
    requires ValidContext(ctx) && ValidProfiling(p) && KernelSlots(v, p)
    requires UserList(v, if flags.skip then [] else list, flags.preamble)
    ensures Ops(v, CommandSubmission(v, record, ctx, p, list, flags, ts, rbTs, o))
         == P.Block(rbTs, P.Repeat(P.User(v.table), |Plan(if flags.skip then [] else list, flags.preamble)|))
  {
    SubmissionIsABlock(v, record, Some(ctx), flags, ts, rbTs, o, CommandEvents(v.d, p, list, flags));
    CommandIsUserOps(v, p, list, flags);
  }

  function CommandSubmission(v: View, record: qword, ctx: DrawContext, p: Profiling, list: seq<Ib>, flags: Flags,
                             ts: word, rbTs: word, o: Outside): seq<Event>
    requires ValidView(v) && ValidContext(ctx) && ValidProfiling(p)
  {
    SubmissionEvents(v.d, v.id, record, Some(ctx), flags, ts, rbTs, o, CommandEvents(v.d, p, list, flags))
  }

  function ProtocolCommand(v: View, ctx: DrawContext, p: Profiling, list: seq<Ib>, flags: Flags, o: Outside,
                           pending: nat, r: P.Ring): P.Ring
  {
    P.SubmitUser(r, ContextOf(v.d, ctx), |Plan(if flags.skip then [] else list, flags.preamble)|,
                 P.OutcomeOf(RoomOf(o, pending), CommandLength(p, list, flags)))
  }

  /** A command is the protocol's user submission, whatever comes of it. */
  lemma CommandRefinesProtocol(v: View, record: qword, ctx: DrawContext, p: Profiling, list: seq<Ib>, flags: Flags,
                               ts: word, rbTs: word, o: Outside, pending: nat, r: P.Ring)
    requires ValidView(v) && v.d.preemption && KernelProfile(v, o.pre) && KernelProfile(v, o.post)
    requires ValidContext(ctx) && ValidProfiling(p) && KernelSlots(v, p) && !o.detached
    requires UserList(v, if flags.skip then [] else list, flags.preamble)
    requires CommandLength(p, list, flags) <= 0xFFFF_0000
    requires v.table == Number(v.d, ctx.pagetable.ttbr0) && rbTs == r.ts + 1
    ensures var status := StatusOf(Some(ctx), o, pending, CommandLength(p, list, flags));
      var r' := ProtocolCommand(v, ctx, p, list, flags, o, pending, r);
      && r'.ops == r.ops + (if status == OK then Ops(v, CommandSubmission(v, record, ctx, p, list, flags, ts, rbTs, o))
                            else [])
      && r'.ts == (if status == EPROTO then r.ts else rbTs) && r'.active == r.active
  {
    hide Ops, SubmissionEvents, CommandEvents, Plan, CommandLength, StatusOf;
    CommandIsABlock(v, record, ctx, p, list, flags, ts, rbTs, o);
    StatusIsOutcome(Some(ctx), o, pending, CommandLength(p, list, flags));
    UserAppends(r, ContextOf(v.d, ctx), |Plan(if flags.skip then [] else list, flags.preamble)|,
                P.OutcomeOf(RoomOf(o, pending), CommandLength(p, list, flags)),
                Ops(v, CommandSubmission(v, record, ctx, p, list, flags, ts, rbTs, o)));
  }
}
