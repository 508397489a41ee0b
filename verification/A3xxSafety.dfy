/**
  Whole A3XX runs: whatever requests come for whatever contexts, and whatever is refused,
  the memory interface meets no hazard, and it is known under which pagetable each command
  runs.
 */
module A3xxSafety {
  import opened Basics
  import opened CommandProcessor
  import opened Reservations
  import opened Ringbuffer
  import opened RingLife
  import opened Adreno
  import opened IndirectBuffers
  import opened A3xxSmmu
  import opened A3xxRingbuffer
  import opened A3xxCommands

  /** A run of the ring: a request is served, or (None) the CP executes something. */
  type Turn = Option<Request>

  predicate ValidTurns(qs: seq<Turn>) {
    forall i | 0 <= i < |qs| :: qs[i].Some? ==> ValidRequest(qs[i].value)
  }

  function ActiveAfter(active: Option<DrawContext>, q: Turn): Option<DrawContext> {
    if q.Some? && Taken(active, q.value) then Some(q.value.ctx) else active
  }

  /** The context that is active when the `k`-th turn comes. */
  function ActiveAt(active: Option<DrawContext>, qs: seq<Turn>, k: nat): Option<DrawContext>
    requires k <= |qs|
    decreases k
  {
    if k == 0 then active else ActiveAfter(ActiveAt(active, qs, k - 1), qs[k - 1])
  }

  /** What a turn puts into the ring. */
  function TurnEvents(d: Device, id: nat, active: Option<DrawContext>, q: Turn): seq<Event>
    requires ValidDevice(d) && id < RB_LEVELS && (q.Some? ==> ValidRequest(q.value))
  {
    if q.None? then [] else Burst(d, id, active, q.value)
  }

  function Bursts(d: Device, id: nat, active: Option<DrawContext>, qs: seq<Turn>): (r: seq<seq<Event>>)
    requires ValidDevice(d) && id < RB_LEVELS && ValidTurns(qs)
    ensures |r| == |qs|
  {
    seq(|qs|, k requires 0 <= k < |qs| => TurnEvents(d, id, ActiveAt(active, qs, k), qs[k]))
  }

  /** A request's switch loads its table exactly when it is delivered and has one to load. */
  function TableAfter(d: Device, active: Option<DrawContext>, q: Turn, t: qword): qword {
    if q.Some? && Sent(d, active, q.value) && NeedsTable(d, active, q.value.ctx) then q.value.ctx.pagetable.ttbr0 else t
  }

  /** TTBR0 after `k` turns. */
  function TableAt(d: Device, active: Option<DrawContext>, qs: seq<Turn>, t: qword, k: nat): qword
    requires k <= |qs|
    decreases k
  {
    if k == 0 then t else TableAfter(d, ActiveAt(active, qs, k - 1), qs[k - 1], TableAt(d, active, qs, t, k - 1))
  }

  // ------------------------------------------------------------------ who gets in

  /**
    What becomes of a request: a context that is not active gets in only if it is not detached
    and a reference to it is to be had; a command then fails for want of its context, because
    the GPU has faulted, or for want of space, the first of these that holds.
   */
  lemma WhoGetsIn(active: Option<DrawContext>, q: Request)
    requires ValidRequest(q)
    ensures CommandLength(q.list, q.flags) <= 0xFFFF_0000
    ensures var size := A3XX_SUBMIT_MAX + CommandLength(q.list, q.flags);
      if active != Some(q.ctx) && (q.detached || !q.held) then
        CommandStatus(active, q) == ENOENT && ActiveAfter(active, Some(q)) == active
      else
        && ActiveAfter(active, Some(q)) == Some(q.ctx)
        && (CommandStatus(active, q) == ENOENT <==> q.o2.detached)
        && (CommandStatus(active, q) == EPROTO <==> !q.o2.detached && q.o2.faulted)
        && (CommandStatus(active, q) == OK <==>
              !q.o2.detached && !q.o2.faulted && Reserve(q.o2.rptr, q.pending2, size).Space?)
  {
    CommandFits(q.list, q.flags);
  }

  // ------------------------------------------------------------------- one submission

  lemma HarmlessOn(g: Smmu, a: seq<Event>, t: qword, b: seq<Event>)
    requires Drive(g, a) == Some(Calm(t)) && Harmless(b)
    ensures Drive(g, a + b) == Some(Calm(t))
  {
    DriveOn(g, Calm(t), a, b);
    HarmlessIsSafe(t, b);
  }

  lemma HarmlessJoin(a: seq<Event>, b: seq<Event>, c: seq<Event>, d: seq<Event>)
    requires Harmless(a) && Harmless(b) && Harmless(c) && Harmless(d)
    ensures Harmless(a + b + c + d)
  {
  }

  lemma BeforeIsHarmless(d: Device, id: nat, ctx: Option<DrawContext>, flags: Flags, ts: word, rbTs: word,
                         profile: Option<ProfileIb>)
    requires ValidDevice(d) && id < RB_LEVELS && (ctx.Some? ==> ValidContext(ctx.value))
    ensures Harmless(BeforePayload(d, id, ctx, flags, ts, rbTs, profile))
  {
    var protect, start := When(flags.notProtected, SetProtected(false)), StartEvents(d, id, ctx, ts, rbTs);
    assert Harmless(FixupEvents(d, flags.pwronFixup)) && Harmless(ProfileEvents(profile));
    assert Harmless(start) && Harmless(protect);
    HarmlessJoin(FixupEvents(d, flags.pwronFixup), ProfileEvents(profile), start, protect);
  }

  lemma AfterIsHarmless(d: Device, id: nat, ctx: Option<DrawContext>, flags: Flags, ts: word, rbTs: word,
                        profile: Option<ProfileIb>)
    requires ValidDevice(d) && id < RB_LEVELS && (ctx.Some? ==> ValidContext(ctx.value))
    ensures Harmless(AfterPayload(d, id, ctx, flags, ts, rbTs, profile))
  {
    var wait, flush := Other(CP_WAIT_FOR_IDLE, [0]), Other(CP_EVENT_WRITE, [HLSQ_FLUSH]);
    var unprotect, retire := When(flags.notProtected, SetProtected(true)), RetireEvents(d, id, ctx, ts, rbTs);
    assert Harmless(unprotect) && Harmless(ProfileEvents(profile)) && Harmless(retire);
    HarmlessJoin(unprotect, [flush], [wait], ProfileEvents(profile));
    HarmlessJoin(unprotect + [flush] + [wait] + ProfileEvents(profile), retire,
                 [Other(CP_SET_CONSTANT, [ROLLOVER, 0])], When(flags.wfi, wait));
  }

  /** Framing adds no hazard to a payload that starts and ends calm. */
  lemma SubmissionIsSafe(d: Device, id: nat, ctx: Option<DrawContext>, flags: Flags, ts: word, rbTs: word,
                         o: Outside, payload: seq<Event>, t: qword, t': qword)
    requires ValidDevice(d) && id < RB_LEVELS && (ctx.Some? ==> ValidContext(ctx.value))
    requires Drive(Calm(t), payload) == Some(Calm(t'))
    ensures Drive(Calm(t), SubmissionEvents(d, id, ctx, flags, ts, rbTs, o, payload)) == Some(Calm(t'))
  {
    var b := BeforePayload(d, id, ctx, flags, ts, rbTs, o.pre);
    BeforeIsHarmless(d, id, ctx, flags, ts, rbTs, o.pre);
    AfterIsHarmless(d, id, ctx, flags, ts, rbTs, o.post);
    HarmlessIsSafe(t, b);
    DriveOn(Calm(t), Calm(t), b, payload);
    HarmlessOn(Calm(t), b + payload, t', AfterPayload(d, id, ctx, flags, ts, rbTs, o.post));
  }

  lemma SwitchIsSafe(d: Device, id: nat, active: Option<DrawContext>, ctx: DrawContext, rbTs: word, o: Outside,
                     t: qword)
    requires ValidDevice(d) && id < RB_LEVELS
    ensures Drive(Calm(t), SwitchSubmission(d, id, active, ctx, rbTs, o))
         == Some(Calm(if NeedsTable(d, active, ctx) then ctx.pagetable.ttbr0 else t))
  {
    var t' := if NeedsTable(d, active, ctx) then ctx.pagetable.ttbr0 else t;
    var p := if NeedsTable(d, active, ctx) then PagetableEvents(d.setstate, ctx.pagetable.ttbr0) else [];
    var a := [MemWrite(Lo(CurrentContext(d, RbIndex(id))), [ctx.id])];
    var b := [MemWrite(Lo(CurrentContext(d, KGSL_MEMSTORE_GLOBAL)), [ctx.id])];
    PagetableSwitchIsSafe(d.setstate, t, ctx.pagetable.ttbr0);
    HarmlessOn(Calm(t), p, t', a);
    HarmlessOn(Calm(t), p + a, t', b);
    HarmlessOn(Calm(t), p + a + b, t', [RegWrite(A3XX_UCHE_CACHE_INVALIDATE0, [0, 0x9000_0000])]);
    SubmissionIsSafe(d, id, None, F_NOTPROTECTED, 0, rbTs, o, SwitchEvents(d, id, active, ctx), t, t');
  }

  lemma {:induction false} KeptIsHarmless(list: seq<Ib>, preamble: bool)
    ensures Harmless(KeptEvents(list, preamble))
    decreases |list|
  {
    if list != [] {
      KeptIsHarmless(list[..|list| - 1], preamble);
    }
  }

  lemma CommandIsSafe(d: Device, id: nat, active: Option<DrawContext>, q: Request, t: qword)
    requires ValidDevice(d) && id < RB_LEVELS && ValidRequest(q)
    ensures Drive(Calm(t), CommandPart(d, id, active, q)) == Some(Calm(t))
  {
    var es := CommandEvents(q.list, q.flags);
    KeptIsHarmless(if q.flags.skip then [] else q.list, q.flags.preamble);
    HarmlessIsSafe(t, es);
    SubmissionIsSafe(d, id, Some(q.ctx), q.flags, q.ts, q.cmdTs, q.o2, es, t, t);
  }

  // ------------------------------------------------------------------------ all runs

  /** One segment leads from one calm interface to the next. */
  predicate Leads(seg: seq<Event>, t: qword, t': qword) { Drive(Calm(t), seg) == Some(Calm(t')) }

  /** Segments that do so one after the other. */
  predicate Chained(segs: seq<seq<Event>>, ts: seq<qword>) {
    |ts| == |segs| + 1 && forall i | 0 <= i < |segs| :: Leads(segs[i], ts[i], ts[i + 1])
  }

  lemma {:induction false} CalmChain(segs: seq<seq<Event>>, ts: seq<qword>, k: nat)
    requires Chained(segs, ts) && k <= |segs|
    ensures Drive(Calm(ts[0]), Joined(segs[..k])) == Some(Calm(ts[k]))
    decreases k
  {
    if k > 0 {
      CalmChain(segs, ts, k - 1);
      assert segs[..k][..k - 1] == segs[..k - 1];
      assert Leads(segs[k - 1], ts[k - 1], ts[k]);
      DriveOn(Calm(ts[0]), Calm(ts[k - 1]), Joined(segs[..k - 1]), segs[k - 1]);
    }
  }

  lemma SwitchPartIsSafe(d: Device, id: nat, active: Option<DrawContext>, q: Request, t: qword)
    requires ValidDevice(d) && id < RB_LEVELS
    ensures Drive(Calm(t), SwitchPart(d, id, active, q)) == Some(Calm(TableAfter(d, active, Some(q), t)))
  {
    SwitchIsSafe(d, id, active, q.ctx, q.switchTs, q.o1, t);
  }

  lemma TurnIsSafe(d: Device, id: nat, active: Option<DrawContext>, q: Turn, t: qword)
    requires ValidDevice(d) && id < RB_LEVELS && (q.Some? ==> ValidRequest(q.value))
    ensures Leads(TurnEvents(d, id, active, q), t, TableAfter(d, active, q, t))
  {
    if q.Some? {
      var t' := TableAfter(d, active, q, t);
      SwitchPartIsSafe(d, id, active, q.value, t);
      CommandIsSafe(d, id, active, q.value, t');
      DriveOn(Calm(t), Calm(t'), SwitchPart(d, id, active, q.value), CommandPart(d, id, active, q.value));
    }
  }

  function Tables(d: Device, active: Option<DrawContext>, qs: seq<Turn>, t: qword): seq<qword> {
    seq(|qs| + 1, k requires 0 <= k <= |qs| => TableAt(d, active, qs, t, k))
  }

  lemma TurnLeads(d: Device, id: nat, active: Option<DrawContext>, qs: seq<Turn>, t: qword, k: nat)
    requires ValidDevice(d) && id < RB_LEVELS && ValidTurns(qs) && k < |qs|
    ensures Leads(TurnEvents(d, id, ActiveAt(active, qs, k), qs[k]),
                  TableAt(d, active, qs, t, k), TableAt(d, active, qs, t, k + 1))
  {
    TurnIsSafe(d, id, ActiveAt(active, qs, k), qs[k], TableAt(d, active, qs, t, k));
  }

  lemma BurstsChained(d: Device, id: nat, active: Option<DrawContext>, qs: seq<Turn>, t: qword)
    requires ValidDevice(d) && id < RB_LEVELS && ValidTurns(qs)
    ensures Chained(Bursts(d, id, active, qs), Tables(d, active, qs, t))
  {
    var bursts, ts := Bursts(d, id, active, qs), Tables(d, active, qs, t);
    forall i | 0 <= i < |bursts| ensures Leads(bursts[i], ts[i], ts[i + 1]) {
      TurnLeads(d, id, active, qs, t, i);
    }
  }

  /**
    No run meets a hazard, whichever switches and commands were refused: TTBR0 is only written
    while traffic is halted, and no buffer runs before the TLB invalidate has completed.
   */
  lemma EveryRunIsSafe(d: Device, id: nat, active: Option<DrawContext>, qs: seq<Turn>, t: qword, k: nat)
    requires ValidDevice(d) && id < RB_LEVELS && ValidTurns(qs) && k <= |qs|
    ensures Drive(Calm(t), Joined(Bursts(d, id, active, qs)[..k])) == Some(Calm(TableAt(d, active, qs, t, k)))
  {
    BurstsChained(d, id, active, qs, t);
    CalmChain(Bursts(d, id, active, qs), Tables(d, active, qs, t), k);
  }

  // --------------------------------------------------------- whose table is loaded

  /**
    One request that is let through, whatever table is loaded before: afterwards its context's
    own is if and only if it was, or the context switch has it to load and finds space.
   */
  lemma OwnsExact(d: Device, active: Option<DrawContext>, q: Request, t: qword)
    requires Taken(active, q)
    ensures TableAfter(d, active, Some(q), t) == q.ctx.pagetable.ttbr0
       <==> t == q.ctx.pagetable.ttbr0
            || (NeedsTable(d, active, q.ctx)
                && StatusOf(None, q.o1, q.pending1, SwitchWords(d, active, q.ctx)) == OK)
  {
  }

  /** What the CP has executed when it gets to the command of turn `k`. */
  function StreamTo(d: Device, id: nat, active: Option<DrawContext>, qs: seq<Turn>, k: nat): seq<Event>
    requires ValidDevice(d) && id < RB_LEVELS && ValidTurns(qs) && k < |qs| && qs[k].Some?
  {
    Joined(Bursts(d, id, active, qs)[..k]) + SwitchPart(d, id, ActiveAt(active, qs, k), qs[k].value)
  }

  /**
    Pagetables over every run: when the CP gets to a command, the interface is calm and TTBR0
    is the table of the last context switch that was delivered and had one to load.  So the
    command runs under its own context's pagetable if and only if that is its table.
   */
  lemma EachCommandRunsUnder(d: Device, id: nat, active: Option<DrawContext>, qs: seq<Turn>, t: qword, k: nat)
    requires ValidDevice(d) && id < RB_LEVELS && ValidTurns(qs) && k < |qs| && qs[k].Some?
    ensures Drive(Calm(t), StreamTo(d, id, active, qs, k)) == Some(Calm(TableAt(d, active, qs, t, k + 1)))
  {
    var before := TableAt(d, active, qs, t, k);
    EveryRunIsSafe(d, id, active, qs, t, k);
    SwitchPartIsSafe(d, id, ActiveAt(active, qs, k), qs[k].value, before);
    DriveOn(Calm(t), Calm(before), Joined(Bursts(d, id, active, qs)[..k]),
            SwitchPart(d, id, ActiveAt(active, qs, k), qs[k].value));
  }

  /** The active context's own pagetable is in TTBR0, unless it uses the default one. */
  predicate Owns(d: Device, active: Option<DrawContext>, t: qword) {
    active.Some? && active.value.pagetable != d.defaultTable ==> t == active.value.pagetable.ttbr0
  }

  /** Every context switch of the run that had a table to load was delivered. */
  predicate SwitchesFound(d: Device, active: Option<DrawContext>, qs: seq<Turn>) {
    forall k | 0 <= k < |qs| && qs[k].Some? ::
      var now := ActiveAt(active, qs, k);
      Taken(now, qs[k].value) && NeedsTable(d, now, qs[k].value.ctx) ==> Sent(d, now, qs[k].value)
  }

  lemma {:induction false} OwnsAt(d: Device, active: Option<DrawContext>, qs: seq<Turn>, t: qword, k: nat)
    requires Owns(d, active, t) && SwitchesFound(d, active, qs) && k <= |qs|
    ensures Owns(d, ActiveAt(active, qs, k), TableAt(d, active, qs, t, k))
    decreases k
  {
    if k > 0 {
      OwnsAt(d, active, qs, t, k - 1);
    }
  }

  /** So if those switches found space, each command that is let through has its context's own table. */
  lemma EachCommandHasItsTable(d: Device, id: nat, active: Option<DrawContext>, qs: seq<Turn>, t: qword, k: nat)
    requires ValidDevice(d) && id < RB_LEVELS && ValidTurns(qs) && k < |qs| && qs[k].Some?
    requires Owns(d, active, t) && SwitchesFound(d, active, qs)
    requires Taken(ActiveAt(active, qs, k), qs[k].value) && qs[k].value.ctx.pagetable != d.defaultTable
    ensures Drive(Calm(t), StreamTo(d, id, active, qs, k)) == Some(Calm(qs[k].value.ctx.pagetable.ttbr0))
  {
    EachCommandRunsUnder(d, id, active, qs, t, k);
    OwnsAt(d, active, qs, t, k + 1);
  }

  // ----------------------------------------------------------------- the ring's life

  /**
    A request is served as DrawQueue.SubmitCmd does it, and takes the ring from `a` through
    `mid` to `b`, behind a CP that its reservations respect and that may execute something
    between the two submissions.
   */
  ghost predicate RequestTurn(d: Device, id: nat, active: Option<DrawContext>, q: Request, x: Snapshot, y: Snapshot)
    requires ValidDevice(d) && id < RB_LEVELS && ValidRequest(q) && ValidSnapshot(x) && ValidSnapshot(y)
  {
    && (Sent(d, active, q) ==> Behind(q.o1.rptr, x.r, x.wptr))
    && (CommandStatus(active, q) == OK ==> Behind(q.o2.rptr, y.r, q.pending2))
    && exists a, mid, b, status :: Took(d, id, active, q, x, y, a, mid, b, status)
  }

  ghost predicate Took(d: Device, id: nat, active: Option<DrawContext>, q: Request, x: Snapshot, y: Snapshot,
                       a: RingState, mid: RingState, b: RingState, status: Status)
    requires ValidDevice(d) && id < RB_LEVELS && ValidRequest(q) && ValidSnapshot(x) && ValidSnapshot(y)
  {
    && ValidState(mid) && CpMoves(Between(mid, x), Between(mid, y))
    && Submitted(d, id, active, q, a, mid, b, status)
    && (a.buf, a.pending) == (x.buf, x.wptr) && (b.buf, b.pending) == (y.buf, y.wptr)
  }

  /** The ring between the two submissions of a request, and the CP as it is at `x`. */
  function Between(mid: RingState, x: Snapshot): Snapshot { Snapshot(mid.buf, mid.pending, x.r, x.done) }

  ghost predicate TurnTaken(d: Device, id: nat, active: Option<DrawContext>, q: Turn, x: Snapshot, y: Snapshot)
    requires ValidDevice(d) && id < RB_LEVELS && (q.Some? ==> ValidRequest(q.value))
  {
    && ValidSnapshot(x) && ValidSnapshot(y)
    && if q.None? then CpMoves(x, y) else RequestTurn(d, id, active, q.value, x, y)
  }

  /** The snapshots are what the turns make of the first one. */
  ghost predicate TurnsTaken(d: Device, id: nat, active: Option<DrawContext>, qs: seq<Turn>, xs: seq<Snapshot>)
    requires ValidDevice(d) && id < RB_LEVELS && ValidTurns(qs)
  {
    && |xs| == |qs| + 1
    && forall k | 0 <= k < |qs| :: TurnTaken(d, id, ActiveAt(active, qs, k), qs[k], xs[k], xs[k + 1])
  }

  lemma RequestMoves(d: Device, id: nat, active: Option<DrawContext>, q: Request, x: Snapshot, y: Snapshot)
    requires ValidDevice(d) && id < RB_LEVELS && ValidRequest(q) && ValidSnapshot(x) && ValidSnapshot(y)
    requires RequestTurn(d, id, active, q, x, y)
    ensures Moves(x, y, Burst(d, id, active, q))
  {
    hide Continues, SwitchPart, CommandPart, CpMoves, Switched, Added;
    var a, mid, b, status :| Took(d, id, active, q, x, y, a, mid, b, status);
    CommandFits(q.list, q.flags);
    SwitchServed(d, id, active, q, a, mid, x.r);
    CommandServed(d, id, active, q, mid, b, status, y.r);
    assert Calls(x, Between(mid, x), Between(mid, y), y, SwitchPart(d, id, active, q), CommandPart(d, id, active, q));
  }

  lemma TurnMoves(d: Device, id: nat, active: Option<DrawContext>, q: Turn, x: Snapshot, y: Snapshot)
    requires ValidDevice(d) && id < RB_LEVELS && (q.Some? ==> ValidRequest(q.value))
    requires TurnTaken(d, id, active, q, x, y)
    ensures Moves(x, y, TurnEvents(d, id, active, q))
  {
    if q.Some? {
      RequestMoves(d, id, active, q.value, x, y);
    }
  }

  lemma TurnsLive(d: Device, id: nat, active: Option<DrawContext>, qs: seq<Turn>, xs: seq<Snapshot>)
    requires ValidDevice(d) && id < RB_LEVELS && ValidTurns(qs) && TurnsTaken(d, id, active, qs, xs)
    ensures Life(xs, Bursts(d, id, active, qs))
  {
    var moves := Bursts(d, id, active, qs);
    forall k | 0 <= k < |moves| ensures Moves(xs[k], xs[k + 1], moves[k]) {
      TurnMoves(d, id, ActiveAt(active, qs, k), qs[k], xs[k], xs[k + 1]);
    }
  }

  /**
    From requests to hazards: from an empty ring, through any requests with the CP executing
    in between, what the CP has executed at any time is the beginning of the requests' bursts,
    and it has met no hazard.
   */
  lemma WhatTheCpExecuted(d: Device, id: nat, active: Option<DrawContext>, qs: seq<Turn>, xs: seq<Snapshot>, t: qword,
                          k: nat)
    requires ValidDevice(d) && id < RB_LEVELS && ValidTurns(qs) && TurnsTaken(d, id, active, qs, xs) && k <= |qs|
    requires Given(xs[0], [])
    ensures xs[k].done <= Joined(Bursts(d, id, active, qs)[..k])
    ensures Drive(Calm(t), xs[k].done).Some?
  {
    TurnsLive(d, id, active, qs, xs);
    LifeGives(xs, Bursts(d, id, active, qs), k);
    EveryRunIsSafe(d, id, active, qs, t, k);
    DriveConcat(Calm(t), xs[k].done, Pending(xs[k]).value);
  }
}
