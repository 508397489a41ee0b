/**
  Whole A5XX runs: commands come for whatever contexts, the CP executes in between, and some
  submissions are refused.  What the CP has executed and still has to is what was delivered,
  and with preemption it is what the protocol's ring has received.
 */
module A5xxRuns {
  import opened Basics
  import Sequences
  import opened CommandProcessor
  import opened Reservations
  import opened Ringbuffer
  import opened RingLife
  import opened Adreno
  import opened A5xxRingbuffer
  import opened IndirectBuffers
  import opened A5xxSubmit
  import opened A5xxCommands
  import opened PreemptBridge
  import P = PreemptModel

  /** A ring; `globals` are the addresses of the kernel's own buffers. */
  datatype Site = Site(d: Device, id: nat, record: qword, globals: set<qword>)

  predicate ValidSite(w: Site) { ValidDevice(w.d) && w.id < RB_LEVELS }

  /** One a5xx_ringbuffer_submitcmd, with its status and the ring between its two submissions. */
  datatype Job = Job(call: Call, p: Profiling, list: seq<Ib>, status: Status, trace: Trace)

  predicate ValidJob(j: Job) {
    && ValidContext(j.call.ctx) && ValidProfiling(j.p)
    && CommandLength(j.p, j.list, j.call.flags) <= 0xFFFF_0000
    && ValidState(j.trace.mid)
  }

  /** A job is done, or (None) the CP executes something. */
  type Turn = Option<Job>

  /** The ring, the CP's position in it, and what the CP has executed. */
  datatype Point = Point(ring: RingState, r: nat, done: seq<Event>)

  predicate ValidPoint(x: Point) { ValidState(x.ring) && x.r < RB_DWORDS }

  function Seen(x: Point): Snapshot { Snapshot(x.ring.buf, x.ring.pending, x.r, x.done) }

  predicate LetIn(active: Option<DrawContext>, j: Job) {
    Entered(active, j.call.ctx, j.call.detached, j.call.held)
  }

  function ActiveAfter(active: Option<DrawContext>, q: Turn): Option<DrawContext> {
    if q.Some? && LetIn(active, q.value) then Some(q.value.call.ctx) else active
  }

  /** The context that is active when the `k`-th turn comes. */
  function ActiveAt(active: Option<DrawContext>, qs: seq<Turn>, k: nat): Option<DrawContext>
    requires k <= |qs|
    decreases k
  {
    if k == 0 then active else ActiveAfter(ActiveAt(active, qs, k - 1), qs[k - 1])
  }

  // --------------------------------------------------------------- what is delivered

  /** The job is done as DrawQueue.SubmitCmd does it. */
  ghost predicate Served(w: Site, active: Option<DrawContext>, j: Job, x: RingState, y: RingState)
    requires ValidSite(w) && ValidJob(j)
  {
    Submitted(w.d, w.id, w.record, active, j.call, CommandLength(j.p, j.list, j.call.flags),
              CommandEvents(w.d, j.p, j.list, j.call.flags), x, y, j.status, j.trace)
  }

  /** A context switch is needed, and its submission finds space and no fault. */
  predicate SwitchSent(w: Site, active: Option<DrawContext>, j: Job, x: RingState) {
    && LetIn(active, j) && active != Some(j.call.ctx)
    && SwitchStatus(w.d, active, j.call.ctx, j.call.o1, x.pending) == OK
  }

  predicate CommandSent(active: Option<DrawContext>, j: Job) { LetIn(active, j) && j.status == OK }

  function SwitchPart(w: Site, active: Option<DrawContext>, j: Job, x: RingState): seq<Event>
    requires ValidSite(w)
  {
    if SwitchSent(w, active, j, x) then
      SwitchSubmission(w.d, w.id, w.record, active, j.call.ctx, j.trace.mid.ts, j.call.o1)
    else []
  }

  function CommandPart(w: Site, active: Option<DrawContext>, j: Job, y: RingState): seq<Event>
    requires ValidSite(w) && ValidJob(j)
  {
    if CommandSent(active, j) then
      SubmissionEvents(w.d, w.id, w.record, Some(j.call.ctx), j.call.flags, j.call.ts, y.ts, j.call.o2,
                       CommandEvents(w.d, j.p, j.list, j.call.flags))
    else []
  }

  function Report(w: Site, sent: bool, o: Outside, at: nat): seq<Event>
    requires ValidSite(w)
  {
    if sent then ReportEvents(w.d, w.id, o.again, at) else []
  }

  function FullSwitch(w: Site, active: Option<DrawContext>, j: Job, x: RingState): seq<Event>
    requires ValidSite(w)
  {
    SwitchPart(w, active, j, x) + Report(w, SwitchSent(w, active, j, x), j.call.o1, j.trace.at1)
  }

  function FullCommand(w: Site, active: Option<DrawContext>, j: Job, y: RingState): seq<Event>
    requires ValidSite(w) && ValidJob(j)
  {
    CommandPart(w, active, j, y) + Report(w, CommandSent(active, j), j.call.o2, j.trace.at2)
  }

  /** What a job puts into the ring, with the position reports of a device that does not preempt. */
  function Burst(w: Site, active: Option<DrawContext>, j: Job, x: RingState, y: RingState): seq<Event>
    requires ValidSite(w) && ValidJob(j)
  {
    FullSwitch(w, active, j, x) + FullCommand(w, active, j, y)
  }

  /** When a submission is delivered the CP is where its reservation takes it to be: at `r1`, and then at `r2`. */
  predicate Respected(w: Site, active: Option<DrawContext>, j: Job, x: RingState, r1: nat, r2: nat) {
    && (SwitchSent(w, active, j, x) ==>
          Follows(w.d, j.call.o1.rptr, j.call.o1.again, r1, x.pending, j.trace.at1))
    && (CommandSent(active, j) ==>
          Follows(w.d, j.call.o2.rptr, j.call.o2.again, r2, j.trace.mid.pending, j.trace.at2))
  }

  lemma AddedContinues(w: Site, ctx: Option<DrawContext>, flags: Flags, ts: word, o: Outside, dwords: nat,
                       events: seq<Event>, x: RingState, y: RingState, status: Status, at: nat, r: nat)
    requires ValidSite(w) && (ctx.Some? ==> ValidContext(ctx.value)) && dwords <= 0xFFFF_0000
    requires Added(w.d, w.id, w.record, ctx, flags, ts, o, dwords, events, x, y, status, at)
    requires r < RB_DWORDS && (status == OK ==> Follows(w.d, o.rptr, o.again, r, x.pending, at))
    ensures Continues(x.buf, x.pending, y.buf, y.pending, r,
                      (if status == OK then SubmissionEvents(w.d, w.id, w.record, ctx, flags, ts, y.ts, o, events)
                       else []) + Report(w, status == OK, o, at))
  {
    if status == OK {
      var es := SubmissionEvents(w.d, w.id, w.record, ctx, flags, ts, y.ts, o, events);
      if Meaning(Unread(x.buf, r, x.pending)).Some? {
        DeliversMeaning(w.d, w.id, x.buf, x.pending, y.buf, y.pending, o, A5XX_SUBMIT_MAX + dwords, at, es, r);
        Sequences.Associative(Meaning(Unread(x.buf, r, x.pending)).value, es, ReportEvents(w.d, w.id, o.again, at));
      }
    } else {
      NoPart(w, o, at, x.buf, x.pending, r);
    }
  }

  lemma NoPart(w: Site, o: Outside, at: nat, buf: seq<word>, wptr: nat, r: nat)
    requires ValidSite(w) && |buf| == RB_DWORDS && r < RB_DWORDS && wptr <= RB_DWORDS - 2
    ensures Continues(buf, wptr, buf, wptr, r, [] + Report(w, false, o, at))
  {
    var none: seq<Event> := [];
    assert none + Report(w, false, o, at) == none;
    NoDelivery(buf, wptr, r);
  }

  lemma SwitchContinues(w: Site, active: Option<DrawContext>, j: Job, x: RingState, y: RingState, r1: nat, r2: nat)
    requires ValidSite(w) && ValidJob(j) && ValidState(x) && Served(w, active, j, x, y)
    requires r1 < RB_DWORDS && Respected(w, active, j, x, r1, r2)
    ensures Continues(x.buf, x.pending, j.trace.mid.buf, j.trace.mid.pending, r1, FullSwitch(w, active, j, x))
  {
    hide Continues, SubmissionEvents, ReportEvents, Delivers, Published, Follows;
    var c := j.call;
    if LetIn(active, j) && active != Some(c.ctx) {
      AddedContinues(w, None, F_NOTPROTECTED, 0, c.o1, SwitchWords(w.d, active, c.ctx),
                     SwitchEvents(w.d, w.id, active, c.ctx), x, j.trace.mid,
                     SwitchStatus(w.d, active, c.ctx, c.o1, x.pending), j.trace.at1, r1);
    } else {
      NoPart(w, c.o1, j.trace.at1, x.buf, x.pending, r1);
    }
  }

  lemma CommandContinues(w: Site, active: Option<DrawContext>, j: Job, x: RingState, y: RingState, r1: nat, r2: nat)
    requires ValidSite(w) && ValidJob(j) && ValidState(x) && Served(w, active, j, x, y)
    requires r2 < RB_DWORDS && Respected(w, active, j, x, r1, r2)
    ensures ValidState(y)
    ensures Continues(j.trace.mid.buf, j.trace.mid.pending, y.buf, y.pending, r2, FullCommand(w, active, j, y))
  {
    hide Continues, SubmissionEvents, ReportEvents, Delivers, Published, Follows;
    var c := j.call;
    if LetIn(active, j) {
      AddedContinues(w, Some(c.ctx), c.flags, c.ts, c.o2, CommandLength(j.p, j.list, c.flags),
                     CommandEvents(w.d, j.p, j.list, c.flags), j.trace.mid, y, j.status, j.trace.at2, r2);
    } else {
      NoPart(w, c.o2, j.trace.at2, j.trace.mid.buf, j.trace.mid.pending, r2);
    }
  }

  // -------------------------------------------------------------------- whole runs

  /** One turn takes the ring and the CP from `x` to `y`; the CP may also execute something within a job. */
  ghost predicate TurnTaken(w: Site, active: Option<DrawContext>, q: Turn, x: Point, y: Point)
    requires ValidSite(w)
  {
    && ValidPoint(x) && ValidPoint(y)
    && match q
       case None => y.ring == x.ring && CpMoves(Seen(x), Seen(y))
       case Some(j) =>
         && ValidJob(j) && Served(w, active, j, x.ring, y.ring) && Respected(w, active, j, x.ring, x.r, y.r)
         && CpMoves(Between(j, x), Between(j, y))
  }

  /** The ring between the two submissions of a job, and the CP as it is at `x`. */
  function Between(j: Job, x: Point): Snapshot { Snapshot(j.trace.mid.buf, j.trace.mid.pending, x.r, x.done) }

  /** What a job's two submissions deliver is its burst. */
  lemma JobMoves(w: Site, active: Option<DrawContext>, j: Job, x: Point, y: Point)
    requires ValidSite(w) && TurnTaken(w, active, Some(j), x, y)
    ensures Moves(Seen(x), Seen(y), Burst(w, active, j, x.ring, y.ring))
  {
    hide Served, Respected, Continues, FullSwitch, FullCommand, CpMoves;
    SwitchContinues(w, active, j, x.ring, y.ring, x.r, y.r);
    CommandContinues(w, active, j, x.ring, y.ring, x.r, y.r);
    assert Calls(Seen(x), Between(j, x), Between(j, y), Seen(y),
                 FullSwitch(w, active, j, x.ring), FullCommand(w, active, j, y.ring));
  }

  /** The points are what the turns make of the first one. */
  ghost predicate Ran(w: Site, active: Option<DrawContext>, qs: seq<Turn>, xs: seq<Point>)
    requires ValidSite(w)
  {
    && |xs| == |qs| + 1 && ValidPoint(xs[0])
    && forall k | 0 <= k < |qs| :: TurnTaken(w, ActiveAt(active, qs, k), qs[k], xs[k], xs[k + 1])
  }

  function TurnEvents(w: Site, active: Option<DrawContext>, q: Turn, x: RingState, y: RingState): seq<Event>
    requires ValidSite(w) && (q.Some? ==> ValidJob(q.value))
  {
    if q.None? then [] else Burst(w, active, q.value, x, y)
  }

  ghost function Bursts(w: Site, active: Option<DrawContext>, qs: seq<Turn>, xs: seq<Point>): (r: seq<seq<Event>>)
    requires ValidSite(w) && Ran(w, active, qs, xs)
    ensures |r| == |qs|
  {
    seq(|qs|, k requires 0 <= k < |qs| && TurnTaken(w, ActiveAt(active, qs, k), qs[k], xs[k], xs[k + 1]) =>
      TurnEvents(w, ActiveAt(active, qs, k), qs[k], xs[k].ring, xs[k + 1].ring))
  }

  lemma TurnMoves(w: Site, active: Option<DrawContext>, q: Turn, x: Point, y: Point)
    requires ValidSite(w) && TurnTaken(w, active, q, x, y)
    ensures Moves(Seen(x), Seen(y), TurnEvents(w, active, q, x.ring, y.ring))
  {
    hide Served, Respected, Burst, CpMoves;
    if q.Some? {
      JobMoves(w, active, q.value, x, y);
    }
  }

  /** What the CP has executed and still has to is what the jobs delivered, in order. */
  lemma RunDelivers(w: Site, active: Option<DrawContext>, qs: seq<Turn>, xs: seq<Point>, k: nat)
    requires ValidSite(w) && Ran(w, active, qs, xs) && k <= |qs| && Given(Seen(xs[0]), [])
    ensures Given(Seen(xs[k]), Joined(Bursts(w, active, qs, xs)[..k]))
  {
    var moves := Bursts(w, active, qs, xs);
    var snaps := seq(|xs|, i requires 0 <= i < |xs| => Seen(xs[i]));
    forall i | 0 <= i < |moves| ensures Moves(snaps[i], snaps[i + 1], moves[i]) {
      assert TurnTaken(w, ActiveAt(active, qs, i), qs[i], xs[i], xs[i + 1]);
      TurnMoves(w, ActiveAt(active, qs, i), qs[i], xs[i], xs[i + 1]);
    }
    LifeGives(snaps, moves, k);
  }

  // ------------------------------------------------------------------ who gets in

  /**
    A job whose context is not active is refused and leaves no trace if the context is detached
    or no reference to it is to be had; every other job makes its context active, and its
    command fails if that was detached meanwhile, the GPU has faulted, or there is no space,
    for the first of these reasons that holds.
   */
  lemma WhoGetsIn(w: Site, active: Option<DrawContext>, j: Job, x: RingState, y: RingState)
    requires ValidSite(w) && ValidJob(j) && Served(w, active, j, x, y)
    ensures var c := j.call;
      if active != Some(c.ctx) && (c.detached || !c.held) then
        j.status == ENOENT && y == x && ActiveAfter(active, Some(j)) == active
      else
        && ActiveAfter(active, Some(j)) == Some(c.ctx)
        && (j.status == ENOENT <==> c.o2.detached)
        && (j.status == EPROTO <==> !c.o2.detached && c.o2.faulted)
        && (j.status == OK <==>
              !c.o2.detached && !c.o2.faulted
              && Reserve(c.o2.rptr, j.trace.mid.pending, A5XX_SUBMIT_MAX + CommandLength(j.p, j.list, c.flags)).Space?)
  {
    hide Delivers, Published, SubmissionEvents;
  }

  /** A turn of the run let this context in: a reference was taken, and it was not detached. */
  predicate LetInBy(q: Turn, ctx: DrawContext) {
    q.Some? && q.value.call.ctx == ctx && q.value.call.held && !q.value.call.detached
  }

  /** The driver holds a reference to whatever context is active. */
  lemma {:induction false} ActiveWasLetIn(active: Option<DrawContext>, qs: seq<Turn>, k: nat)
    requires k <= |qs| && ActiveAt(active, qs, k).Some?
    ensures ActiveAt(active, qs, k) == active
         || exists m | 0 <= m < k :: LetInBy(qs[m], ActiveAt(active, qs, k).value)
    decreases k
  {
    if k > 0 && ActiveAt(active, qs, k) == ActiveAt(active, qs, k - 1) {
      ActiveWasLetIn(active, qs, k - 1);
    } else if k > 0 {
      assert LetInBy(qs[k - 1], ActiveAt(active, qs, k).value);
    }
  }

  // ----------------------------------------------------------- the protocol's ring

  function ViewOf(w: Site, ctx: DrawContext): View { View(w.d, w.id, w.globals, Number(w.d, ctx.pagetable.ttbr0)) }

  /** Contexts are told apart by their numbers, and pagetables by their TTBR0s. */
  predicate Apart(a: DrawContext, b: DrawContext) { ToldApart(a.pagetable, b.pagetable) && (a.id == b.id ==> a == b) }

  /** The kernel's buffers and the user's are told apart, and so is the job's context from the active one. */
  predicate Known(w: Site, active: Option<DrawContext>, j: Job)
    requires ValidSite(w) && ValidJob(j)
  {
    var v, c := ViewOf(w, j.call.ctx), j.call;
    && KernelProfile(v, c.o1.pre) && KernelProfile(v, c.o1.post)
    && KernelProfile(v, c.o2.pre) && KernelProfile(v, c.o2.post)
    && KernelSlots(v, j.p) && UserList(v, if c.flags.skip then [] else j.list, c.flags.preamble)
    && ToldApart(c.ctx.pagetable, w.d.defaultTable)
    && (active.Some? ==> Apart(active.value, c.ctx))
  }

  /** The protocol's switch of a job. */
  function SwitchedRing(w: Site, j: Job, x: RingState, r: P.Ring): P.Ring {
    ProtocolSwitch(ViewOf(w, j.call.ctx), j.call.ctx, j.call.o1, x.pending, r)
  }

  /** The protocol's user submission of a job; a context that was detached meanwhile submits nothing. */
  function CommandedRing(w: Site, j: Job, r: P.Ring): P.Ring {
    if j.call.o2.detached then r
    else
      ProtocolCommand(ViewOf(w, j.call.ctx), j.call.ctx, j.p, j.list, j.call.flags, j.call.o2, j.trace.mid.pending, r)
  }

  /** What a turn does to the protocol's ring. */
  function RingAfter(w: Site, active: Option<DrawContext>, q: Turn, x: RingState, r: P.Ring): P.Ring {
    if q.Some? && LetIn(active, q.value) then CommandedRing(w, q.value, SwitchedRing(w, q.value, x, r)) else r
  }

  function RingAt(w: Site, active: Option<DrawContext>, qs: seq<Turn>, xs: seq<Point>, r: P.Ring, k: nat): P.Ring
    requires k <= |qs| < |xs|
    decreases k
  {
    if k == 0 then r
    else
      RingAfter(w, ActiveAt(active, qs, k - 1), qs[k - 1], xs[k - 1].ring, RingAt(w, active, qs, xs, r, k - 1))
  }

  /** The turn of a job is these two steps of the protocol. */
  lemma TurnIsTwoSteps(w: Site, j: Job, x: RingState, s: P.Sys, i: nat)
    requires P.Wf(s) && i < |s.rings| && !j.call.o2.detached
    ensures P.Wf(P.Next(s, P.ASwitch(i, ContextOf(w.d, j.call.ctx), RoomOf(j.call.o1, x.pending))))
    ensures var c := ContextOf(w.d, j.call.ctx);
      var m := P.Next(s, P.ASwitch(i, c, RoomOf(j.call.o1, x.pending)));
      var a := P.AUser(i, c, |Plan(if j.call.flags.skip then [] else j.list, j.call.flags.preamble)|,
                       CommandLength(j.p, j.list, j.call.flags), RoomOf(j.call.o2, j.trace.mid.pending));
      && P.Enabled(m, a)
      && P.Next(m, a) == s.(rings := s.rings[i := CommandedRing(w, j, SwitchedRing(w, j, x, s.rings[i]))])
  {
    var c := ContextOf(w.d, j.call.ctx);
    var m := P.Next(s, P.ASwitch(i, c, RoomOf(j.call.o1, x.pending)));
    var r := CommandedRing(w, j, m.rings[i]);
    assert m.rings == s.rings[i := SwitchedRing(w, j, x, s.rings[i])];
    assert m.rings[i := r] == s.rings[i := r];
  }

  lemma NothingSeen(v: View, r: P.Ring)
    requires ValidView(v)
    ensures r.ops + Ops(v, []) == r.ops
  {
  }

  /** The ring's timestamp after a job's switch. */
  lemma SwitchTime(w: Site, active: Option<DrawContext>, j: Job, x: RingState, y: RingState)
    requires ValidSite(w) && ValidJob(j) && Served(w, active, j, x, y) && LetIn(active, j) && x.ts + 1 < U32
    ensures var status := SwitchStatus(w.d, active, j.call.ctx, j.call.o1, x.pending);
      j.trace.mid.ts == x.ts + (if active != Some(j.call.ctx) && status in {OK, ENOSPC} then 1 else 0)
  {
    hide Delivers, Published, StatusOf, SwitchEvents, SwitchWords;
  }

  lemma SwitchFollows(w: Site, active: Option<DrawContext>, j: Job, x: RingState, y: RingState, r: P.Ring)
    requires ValidSite(w) && w.d.preemption && ValidJob(j) && Known(w, active, j) && Served(w, active, j, x, y)
    requires LetIn(active, j) && SameActive(w.d, active, r) && r.ts == x.ts && x.ts + 1 < U32
    ensures var r' := SwitchedRing(w, j, x, r);
      && r'.ops == r.ops + Ops(ViewOf(w, j.call.ctx), SwitchPart(w, active, j, x))
      && r'.ts == j.trace.mid.ts <= x.ts + 1 && SameActive(w.d, Some(j.call.ctx), r')
  {
    hide Ops, Served, SwitchSubmission;
    SwitchTime(w, active, j, x, y);
    var v, c := ViewOf(w, j.call.ctx), j.call;
    if active == Some(c.ctx) {
      NothingSeen(v, r);
    } else {
      SwitchRefinesProtocol(v, w.record, active, c.ctx, x.ts + 1, c.o1, x.pending, r);
      NothingSeen(v, r);
    }
  }

  lemma CommandFollows(w: Site, active: Option<DrawContext>, j: Job, x: RingState, y: RingState, r: P.Ring)
    requires ValidSite(w) && w.d.preemption && ValidJob(j) && Known(w, active, j) && Served(w, active, j, x, y)
    requires LetIn(active, j) && r.ts == j.trace.mid.ts && r.ts + 1 < U32
    ensures var r' := CommandedRing(w, j, r);
      && r'.ops == r.ops + Ops(ViewOf(w, j.call.ctx), CommandPart(w, active, j, y))
      && r'.ts == y.ts <= r.ts + 1 && r'.active == r.active
  {
    hide Ops, Delivers, Published, SubmissionEvents, Plan;
    var v, c := ViewOf(w, j.call.ctx), j.call;
    if c.o2.detached {
      NothingSeen(v, r);
    } else {
      CommandRefinesProtocol(v, w.record, c.ctx, j.p, j.list, c.flags, c.ts, r.ts + 1, c.o2, j.trace.mid.pending, r);
      NothingSeen(v, r);
    }
  }

  /** What a turn's burst is to the protocol, in the view of its context. */
  function TurnOps(w: Site, active: Option<DrawContext>, q: Turn, x: RingState, y: RingState): seq<P.Op>
    requires ValidSite(w) && (q.Some? ==> ValidJob(q.value))
  {
    if q.None? then [] else Ops(ViewOf(w, q.value.call.ctx), Burst(w, active, q.value, x, y))
  }

  lemma BurstOps(w: Site, active: Option<DrawContext>, j: Job, x: RingState, y: RingState)
    requires ValidSite(w) && w.d.preemption && ValidJob(j)
    ensures var v := ViewOf(w, j.call.ctx);
      Ops(v, Burst(w, active, j, x, y)) == Ops(v, SwitchPart(w, active, j, x)) + Ops(v, CommandPart(w, active, j, y))
  {
    hide Ops, SwitchPart, CommandPart;
    var a, b := SwitchPart(w, active, j, x), CommandPart(w, active, j, y);
    assert a + [] == a && b + [] == b;
    OpsConcat(ViewOf(w, j.call.ctx), a, b);
  }

  lemma TurnFollows(w: Site, active: Option<DrawContext>, j: Job, x: RingState, y: RingState, r: P.Ring)
    requires ValidSite(w) && w.d.preemption && ValidJob(j) && Known(w, active, j) && Served(w, active, j, x, y)
    requires SameActive(w.d, active, r) && r.ts == x.ts && x.ts + 2 < U32
    ensures var r' := RingAfter(w, active, Some(j), x, r);
      && r'.ops == r.ops + TurnOps(w, active, Some(j), x, y) && r'.ts == y.ts <= x.ts + 2
      && SameActive(w.d, ActiveAfter(active, Some(j)), r')
  {
    hide Ops, SwitchedRing, CommandedRing, Known, Delivers, Published, Burst;
    var v := ViewOf(w, j.call.ctx);
    BurstOps(w, active, j, x, y);
    if LetIn(active, j) {
      var m := SwitchedRing(w, j, x, r);
      SwitchFollows(w, active, j, x, y, r);
      CommandFollows(w, active, j, x, y, m);
      Sequences.Associative(r.ops, Ops(v, SwitchPart(w, active, j, x)), Ops(v, CommandPart(w, active, j, y)));
    } else {
      NothingSeen(v, r);
    }
  }

  ghost predicate AllKnown(w: Site, active: Option<DrawContext>, qs: seq<Turn>)
    requires ValidSite(w)
  {
    forall k | 0 <= k < |qs| && qs[k].Some? :: ValidJob(qs[k].value) && Known(w, ActiveAt(active, qs, k), qs[k].value)
  }

  /** A run over a ring that preempts, whose timestamp does not wrap, beside the protocol's ring `r`. */
  ghost predicate Beside(w: Site, active: Option<DrawContext>, qs: seq<Turn>, xs: seq<Point>, r: P.Ring)
    requires ValidSite(w)
  {
    && w.d.preemption && Ran(w, active, qs, xs) && AllKnown(w, active, qs)
    && SameActive(w.d, active, r) && r.ts == xs[0].ring.ts && r.ts + 2 * |qs| < U32
  }

  ghost function AllOps(w: Site, active: Option<DrawContext>, qs: seq<Turn>, xs: seq<Point>): (r: seq<seq<P.Op>>)
    requires ValidSite(w) && Ran(w, active, qs, xs)
    ensures |r| == |qs|
  {
    seq(|qs|, k requires 0 <= k < |qs| && TurnTaken(w, ActiveAt(active, qs, k), qs[k], xs[k], xs[k + 1]) =>
      TurnOps(w, ActiveAt(active, qs, k), qs[k], xs[k].ring, xs[k + 1].ring))
  }

  lemma StepFollows(w: Site, active: Option<DrawContext>, q: Turn, x: Point, y: Point, r: P.Ring)
    requires ValidSite(w) && w.d.preemption && TurnTaken(w, active, q, x, y) && (q.Some? ==> Known(w, active, q.value))
    requires SameActive(w.d, active, r) && r.ts == x.ring.ts && x.ring.ts + 2 < U32
    ensures var r' := RingAfter(w, active, q, x.ring, r);
      && r'.ops == r.ops + TurnOps(w, active, q, x.ring, y.ring) && r'.ts == y.ring.ts <= x.ring.ts + 2
      && SameActive(w.d, ActiveAfter(active, q), r')
  {
    hide Served, Known, TurnOps, RingAfter, SameActive;
    if q.Some? {
      TurnFollows(w, active, q.value, x.ring, y.ring, r);
    } else {
      CpFollows(w, active, x.ring, y.ring, r);
    }
  }

  lemma CpFollows(w: Site, active: Option<DrawContext>, x: RingState, y: RingState, r: P.Ring)
    requires ValidSite(w)
    ensures RingAfter(w, active, None, x, r) == r && r.ops + TurnOps(w, active, None, x, y) == r.ops
  {
  }

  /** After any turns the protocol's ring has received the ops of everything that was delivered. */
  lemma {:induction false} RunFollows(w: Site, active: Option<DrawContext>, qs: seq<Turn>, xs: seq<Point>, r: P.Ring,
                                      k: nat)
    requires ValidSite(w) && Beside(w, active, qs, xs, r) && k <= |qs|
    ensures var r' := RingAt(w, active, qs, xs, r, k);
      && r'.ops == r.ops + Joined(AllOps(w, active, qs, xs)[..k])
      && r'.ts == xs[k].ring.ts <= r.ts + 2 * k
      && SameActive(w.d, ActiveAt(active, qs, k), r')
    decreases k
  {
    var ops := AllOps(w, active, qs, xs);
    if k == 0 {
      assert ops[..0] == [];
      assert r.ops + [] == r.ops;
    } else {
      hide Known, SameActive, RingAfter, TurnOps;
      RunFollows(w, active, qs, xs, r, k - 1);
      var m := RingAt(w, active, qs, xs, r, k - 1);
      assert TurnTaken(w, ActiveAt(active, qs, k - 1), qs[k - 1], xs[k - 1], xs[k]);
      StepFollows(w, ActiveAt(active, qs, k - 1), qs[k - 1], xs[k - 1], xs[k], m);
      JoinedMore(ops, k - 1);
      Sequences.Associative(r.ops, Joined(ops[..k - 1]), ops[k - 1]);
    }
  }

  /** A prefix of joined segments ends inside one of them, or between two. */
  lemma {:induction false} PrefixEnds<T>(segs: seq<seq<T>>, k: nat, p: seq<T>) returns (j: nat, e: seq<T>)
    requires k <= |segs| && p <= Joined(segs[..k])
    ensures j <= k && p == Joined(segs[..j]) + e && (e == [] || (j < k && e <= segs[j]))
    decreases k
  {
    if k == 0 {
      return 0, [];
    }
    JoinedMore(segs, k - 1);
    var before := Joined(segs[..k - 1]);
    if |p| <= |before| {
      j, e := PrefixEnds(segs, k - 1, p);
    } else {
      j, e := k - 1, p[|before|..];
    }
  }

  lemma {:induction false} JoinedGrows<T>(segs: seq<seq<T>>, j: nat, k: nat)
    requires j <= k <= |segs|
    ensures Joined(segs[..j]) <= Joined(segs[..k])
    decreases k
  {
    if j < k {
      JoinedGrows(segs, j, k - 1);
      JoinedMore(segs, k - 1);
    }
  }

  /** The ops of the first events of a turn, in the view of its context. */
  function PartOps(w: Site, q: Turn, e: seq<Event>): seq<P.Op>
    requires ValidSite(w)
  {
    if q.None? then [] else Ops(ViewOf(w, q.value.call.ctx), e)
  }

  /** The CP has executed the bursts of `j` turns and the events `e` of the next. */
  ghost predicate IsAt(w: Site, active: Option<DrawContext>, qs: seq<Turn>, xs: seq<Point>, k: nat, j: nat,
                       e: seq<Event>)
    requires ValidSite(w) && Ran(w, active, qs, xs) && k <= |qs|
  {
    var bursts := Bursts(w, active, qs, xs);
    j <= k && xs[k].done == Joined(bursts[..j]) + e && (e == [] || (j < k && e <= bursts[j]))
  }

  /**
    From commands to the protocol: from an empty ring, through any commands with the CP
    executing in between, what the CP has executed at any time are, seen as ops, the first
    ones of the protocol's ring.
   */
  lemma WhatTheCpPerformed(w: Site, active: Option<DrawContext>, qs: seq<Turn>, xs: seq<Point>, r: P.Ring, k: nat)
    returns (j: nat, e: seq<Event>)
    requires ValidSite(w) && Beside(w, active, qs, xs, r) && k <= |qs| && Given(Seen(xs[0]), [])
    ensures IsAt(w, active, qs, xs, k, j, e)
    ensures r.ops + (Joined(AllOps(w, active, qs, xs)[..j]) + (if e == [] then [] else PartOps(w, qs[j], e)))
         <= RingAt(w, active, qs, xs, r, k).ops
  {
    hide TurnTaken, AllKnown, PartOps, Bursts, AllOps, Given, RingAt, SameActive;
    var bursts, ops := Bursts(w, active, qs, xs), AllOps(w, active, qs, xs);
    RunDelivers(w, active, qs, xs, k);
    RunFollows(w, active, qs, xs, r, k);
    DoneIsPrefix(Seen(xs[k]), Joined(bursts[..k]));
    hide Joined;
    j, e := PrefixEnds(bursts, k, xs[k].done);
    if e == [] {
      JoinedGrows(ops, j, k);
      UnderPrefix(r.ops, Joined(ops[..j]), [], Joined(ops[..k]));
    } else {
      PartIsPrefix(w, active, qs, xs, j, e);
      JoinedMore(ops, j);
      JoinedGrows(ops, j + 1, k);
      UnderPrefix(r.ops, Joined(ops[..j]), PartOps(w, qs[j], e), Joined(ops[..k]));
    }
  }

  lemma UnderPrefix<T>(a: seq<T>, b: seq<T>, c: seq<T>, all: seq<T>)
    requires b + c <= all
    ensures a + (b + c) <= a + all
  {
  }

  lemma OpsPrefix(v: View, e: seq<Event>, burst: seq<Event>)
    requires ValidView(v) && e <= burst
    ensures Ops(v, e) <= Ops(v, burst)
  {
    assert burst[..|e|] == e;
    Sequences.FlatMapPrefix(Lens(v), burst, |e|);
  }

  lemma PartIsPrefix(w: Site, active: Option<DrawContext>, qs: seq<Turn>, xs: seq<Point>, j: nat, e: seq<Event>)
    requires ValidSite(w) && Ran(w, active, qs, xs) && j < |qs| && e <= Bursts(w, active, qs, xs)[j]
    ensures PartOps(w, qs[j], e) <= AllOps(w, active, qs, xs)[j]
  {
    hide Ops, Burst, Served, Respected;
    assert TurnTaken(w, ActiveAt(active, qs, j), qs[j], xs[j], xs[j + 1]);
    if qs[j].Some? {
      OpsPrefix(ViewOf(w, qs[j].value.call.ctx), e, Bursts(w, active, qs, xs)[j]);
    }
  }
}
