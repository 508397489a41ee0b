/**
  What an A3XX submission leaves behind: timestamps, interrupts, and what was flushed, for
  context switches, commands and any other payload.
 */
module A3xxEffects {
  import opened Basics
  import opened Sequences
  import opened CommandProcessor
  import opened Adreno
  import opened A3xxPackets
  import opened A3xxSmmu
  import opened A3xxRingbuffer
  import opened IndirectBuffers
  import opened StreamEffects

  // ----------------------------------------------------------------------- addresses

  /** The A3XX sees the lower halves of addresses, which tell the words of the memstore apart as well. */
  lemma LowApart(a: qword, b: qword)
    requires Lo(a) == Lo(b) && a < b + U32 && b < a + U32
    ensures a == b
  {
    assert a == Hi(a) * U32 + Lo(a) && b == Hi(b) * U32 + Lo(b);
  }

  lemma WordsApart(d: Device, i: nat, j: nat)
    requires ValidDevice(d) && i < ENTRIES && j < ENTRIES
    ensures Lo(Sop(d, i)) != Lo(Eop(d, j)) && Lo(Sop(d, i)) != Lo(CurrentContext(d, j))
    ensures Lo(Eop(d, i)) != Lo(CurrentContext(d, j))
    ensures i != j ==> Lo(Sop(d, i)) != Lo(Sop(d, j)) && Lo(Eop(d, i)) != Lo(Eop(d, j))
    ensures i != j ==> Lo(CurrentContext(d, i)) != Lo(CurrentContext(d, j))
  {
    hide Lo;
    if Lo(Sop(d, i)) == Lo(Eop(d, j)) { LowApart(Sop(d, i), Eop(d, j)); }
    if Lo(Sop(d, i)) == Lo(CurrentContext(d, j)) { LowApart(Sop(d, i), CurrentContext(d, j)); }
    if Lo(Eop(d, i)) == Lo(CurrentContext(d, j)) { LowApart(Eop(d, i), CurrentContext(d, j)); }
    if Lo(Sop(d, i)) == Lo(Sop(d, j)) { LowApart(Sop(d, i), Sop(d, j)); }
    if Lo(Eop(d, i)) == Lo(Eop(d, j)) { LowApart(Eop(d, i), Eop(d, j)); }
    if Lo(CurrentContext(d, i)) == Lo(CurrentContext(d, j)) { LowApart(CurrentContext(d, i), CurrentContext(d, j)); }
  }

  // --------------------------------------------------------------------- timestamps

  /** No event writes a start or end timestamp of any context or ring. */
  predicate LeavesTimestamps(d: Device, es: seq<Event>)
    requires ValidDevice(d)
  {
    forall index | 0 <= index < ENTRIES :: Leaves(es, Lo(Sop(d, index))) && Leaves(es, Lo(Eop(d, index)))
  }

  /** Around the start timestamps nothing is written to memory, ... */
  lemma BeforeParts(d: Device, id: nat, ctx: Option<DrawContext>, flags: Flags, ts: word, rbTs: word,
                    profile: Option<ProfileIb>, x: nat) returns (a: seq<Event>, c: seq<Event>)
    requires ValidDevice(d) && id < RB_LEVELS && (ctx.Some? ==> ValidContext(ctx.value))
    ensures BeforePayload(d, id, ctx, flags, ts, rbTs, profile) == a + StartEvents(d, id, ctx, ts, rbTs) + c
    ensures Leaves(a, x) && Leaves(c, x)
  {
    a, c := FixupEvents(d, flags.pwronFixup) + ProfileEvents(profile), When(flags.notProtected, SetProtected(false));
    assert Leaves(FixupEvents(d, flags.pwronFixup), x) && Leaves(ProfileEvents(profile), x) && Leaves(c, x)
        && Leaves([], x);
    LeavesJoin(FixupEvents(d, flags.pwronFixup), ProfileEvents(profile), [], [], x);
  }

  lemma BeforeIsSilent(d: Device, id: nat, ctx: Option<DrawContext>, flags: Flags, ts: word, rbTs: word,
                       profile: Option<ProfileIb>)
    requires ValidDevice(d) && id < RB_LEVELS && (ctx.Some? ==> ValidContext(ctx.value))
    ensures NoEventWrite(BeforePayload(d, id, ctx, flags, ts, rbTs, profile))
  {
    var fixup, start := FixupEvents(d, flags.pwronFixup), StartEvents(d, id, ctx, ts, rbTs);
    var open := When(flags.notProtected, SetProtected(false));
    assert NoEventWrite(fixup) && NoEventWrite(ProfileEvents(profile)) && NoEventWrite(start) && NoEventWrite(open);
    hide NoEventWrite, FixupEvents, ProfileEvents, StartEvents;
    SilentJoin(fixup, ProfileEvents(profile), start, open);
  }

  /** ... and so it is around the end timestamps. */
  lemma AfterParts(d: Device, id: nat, ctx: Option<DrawContext>, flags: Flags, ts: word, rbTs: word,
                   profile: Option<ProfileIb>) returns (a: seq<Event>, c: seq<Event>)
    requires ValidDevice(d) && id < RB_LEVELS && (ctx.Some? ==> ValidContext(ctx.value))
    ensures AfterPayload(d, id, ctx, flags, ts, rbTs, profile) == a + RetireEvents(d, id, ctx, ts, rbTs) + c
    ensures a == When(flags.notProtected, SetProtected(true)) + [Other(CP_EVENT_WRITE, [HLSQ_FLUSH])]
                 + [Other(CP_WAIT_FOR_IDLE, [0])] + ProfileEvents(profile)
    ensures c == [Other(CP_SET_CONSTANT, [ROLLOVER, 0])] + When(flags.wfi, Other(CP_WAIT_FOR_IDLE, [0]))
    ensures NoEventWrite(a) && NoEventWrite(c) && forall x: nat :: Leaves(a, x) && Leaves(c, x)
  {
    var protect, flush := When(flags.notProtected, SetProtected(true)), [Other(CP_EVENT_WRITE, [HLSQ_FLUSH])];
    var idle, roll := [Other(CP_WAIT_FOR_IDLE, [0])], [Other(CP_SET_CONSTANT, [ROLLOVER, 0])];
    var wfi, prof, retire := When(flags.wfi, idle[0]), ProfileEvents(profile), RetireEvents(d, id, ctx, ts, rbTs);
    a, c := protect + flush + idle + prof, roll + wfi;
    assert NoEventWrite(protect) && NoEventWrite(flush) && NoEventWrite(idle) && NoEventWrite(prof);
    assert NoEventWrite(roll) && NoEventWrite(wfi) && NoEventWrite([]);
    SilentJoin(protect, flush, idle, prof);
    SilentJoin(roll, wfi, [], []);
    forall x: nat ensures Leaves(a, x) && Leaves(c, x) {
      assert Leaves(protect, x) && Leaves(flush, x) && Leaves(idle, x) && Leaves(prof, x);
      assert Leaves(roll, x) && Leaves(wfi, x) && Leaves([], x);
      LeavesJoin(protect, flush, idle, prof, x);
      LeavesJoin(roll, wfi, [], [], x);
    }
    hide RetireEvents, When, ProfileEvents;
    Associative(a + retire, roll, wfi);
  }

  lemma StartWord(d: Device, id: nat, ctx: Option<DrawContext>, ts: word, rbTs: word, index: nat, v: Option<word>)
    requires ValidDevice(d) && id < RB_LEVELS && (ctx.Some? ==> ValidContext(ctx.value)) && index < ENTRIES
    ensures var start := StartEvents(d, id, ctx, ts, rbTs);
      && WordAfter(start, Lo(Sop(d, index)), v) == Stamped(id, ctx, ts, rbTs, index, v)
      && Leaves(start, Lo(Eop(d, index)))
  {
    var x, y := Lo(Sop(d, index)), Lo(Eop(d, index));
    var own := if ctx.None? then [] else [MemWrite(Lo(Sop(d, ctx.value.id)), [ts])];
    var ring := Lo(Sop(d, RbIndex(id)));
    WordsApart(d, index, RbIndex(id));
    WordsApart(d, RbIndex(id), index);
    assert WordAfter([], x, v) == v && Leaves([], y);
    if ctx.Some? {
      WordsApart(d, index, ctx.value.id);
      WordsApart(d, ctx.value.id, index);
      OneWordWrite(Lo(Sop(d, ctx.value.id)), ts, x, v);
      OneWordWrite(Lo(Sop(d, ctx.value.id)), ts, y, v);
    }
    hide Lo, Sop, Eop, WordAfter, Leaves;
    OneWordWrite(ring, rbTs, x, WordAfter(own, x, v));
    OneWordWrite(ring, rbTs, y, v);
    WordConcat(own, [MemWrite(ring, [rbTs])], x, v);
    LeavesJoin(own, [MemWrite(ring, [rbTs])], [], [], y);
  }

  lemma RetireWord(d: Device, id: nat, ctx: Option<DrawContext>, ts: word, rbTs: word, index: nat, v: Option<word>)
    requires ValidDevice(d) && id < RB_LEVELS && (ctx.Some? ==> ValidContext(ctx.value)) && index < ENTRIES
    ensures var retire := RetireEvents(d, id, ctx, ts, rbTs);
      && WordAfter(retire, Lo(Eop(d, index)), v) == Stamped(id, ctx, ts, rbTs, index, v)
      && Leaves(retire, Lo(Sop(d, index)))
  {
    var x := Lo(Eop(d, index));
    WordsApart(d, index, RbIndex(id));
    if ctx.None? {
      WordOne(EventWrite(CACHE_FLUSH_TS + IRQ, Lo(Eop(d, RbIndex(id))), rbTs), x, v);
    } else {
      var own := [EventWrite(CACHE_FLUSH_TS + IRQ, Lo(Eop(d, ctx.value.id)), ts)];
      var ring := [EventWrite(CACHE_FLUSH_TS, Lo(Eop(d, RbIndex(id))), rbTs)];
      WordsApart(d, index, ctx.value.id);
      WordOne(own[0], x, v);
      WordOne(ring[0], x, WordAfter(own, x, v));
      WordConcat(own, ring, x, v);
    }
  }

  lemma SubmissionWord(d: Device, id: nat, ctx: Option<DrawContext>, flags: Flags, ts: word, rbTs: word, o: Outside,
                       payload: seq<Event>, x: nat, v: Option<word>)
    requires ValidDevice(d) && id < RB_LEVELS && (ctx.Some? ==> ValidContext(ctx.value)) && Leaves(payload, x)
    ensures WordAfter(SubmissionEvents(d, id, ctx, flags, ts, rbTs, o, payload), x, v)
         == WordAfter(RetireEvents(d, id, ctx, ts, rbTs), x, WordAfter(StartEvents(d, id, ctx, ts, rbTs), x, v))
  {
    var b, e := BeforePayload(d, id, ctx, flags, ts, rbTs, o.pre), AfterPayload(d, id, ctx, flags, ts, rbTs, o.post);
    var a, c := BeforeParts(d, id, ctx, flags, ts, rbTs, o.pre, x);
    var a', c' := AfterParts(d, id, ctx, flags, ts, rbTs, o.post);
    assert Leaves(a', x) && Leaves(c', x);
    hide BeforePayload, AfterPayload, StartEvents, RetireEvents, Leaves, WordAfter;
    OnlyMiddle(a, StartEvents(d, id, ctx, ts, rbTs), c, x, v);
    WordConcat(b, payload, x, v);
    WordConcat(b + payload, e, x, v);
    LeavesWord(payload, x, WordAfter(b, x, v));
    OnlyMiddle(a', RetireEvents(d, id, ctx, ts, rbTs), c', x, WordAfter(b, x, v));
  }

  /** As on the A5XX, after a submission the timestamps of its ring and its context are the ones it was given. */
  lemma SubmissionTimestamps(d: Device, id: nat, ctx: Option<DrawContext>, flags: Flags, ts: word, rbTs: word,
                             o: Outside,
                             payload: seq<Event>, index: nat, v: Option<word>)
    requires ValidDevice(d) && id < RB_LEVELS && (ctx.Some? ==> ValidContext(ctx.value)) && index < ENTRIES
    requires LeavesTimestamps(d, payload)
    ensures var es := SubmissionEvents(d, id, ctx, flags, ts, rbTs, o, payload);
      && WordAfter(es, Lo(Sop(d, index)), v) == Stamped(id, ctx, ts, rbTs, index, v)
      && WordAfter(es, Lo(Eop(d, index)), v) == Stamped(id, ctx, ts, rbTs, index, v)
  {
    var v', start, retire := Stamped(id, ctx, ts, rbTs, index, v), StartEvents(d, id, ctx, ts, rbTs),
        RetireEvents(d, id, ctx, ts, rbTs);
    StartWord(d, id, ctx, ts, rbTs, index, v);
    RetireWord(d, id, ctx, ts, rbTs, index, v);
    LeavesWord(start, Lo(Eop(d, index)), v);
    LeavesWord(retire, Lo(Sop(d, index)), v');
    hide StartEvents, RetireEvents, SubmissionEvents, WordAfter;
    SubmissionWord(d, id, ctx, flags, ts, rbTs, o, payload, Lo(Sop(d, index)), v);
    SubmissionWord(d, id, ctx, flags, ts, rbTs, o, payload, Lo(Eop(d, index)), v);
  }

  /** The start words are there when the payload begins; no end word changes before it is over. */
  lemma NothingRetiredEarly(d: Device, id: nat, ctx: Option<DrawContext>, flags: Flags, ts: word, rbTs: word,
                            o: Outside,
                            payload: seq<Event>, index: nat, v: Option<word>, k: nat)
    requires ValidDevice(d) && id < RB_LEVELS && (ctx.Some? ==> ValidContext(ctx.value)) && index < ENTRIES
    requires LeavesTimestamps(d, payload)
    requires k <= |BeforePayload(d, id, ctx, flags, ts, rbTs, o.pre)| + |payload|
    ensures WordAfter(BeforePayload(d, id, ctx, flags, ts, rbTs, o.pre), Lo(Sop(d, index)), v)
         == Stamped(id, ctx, ts, rbTs, index, v)
    ensures var es := SubmissionEvents(d, id, ctx, flags, ts, rbTs, o, payload);
      k <= |es| && WordAfter(es[..k], Lo(Eop(d, index)), v) == v
  {
    var x, b := Lo(Eop(d, index)), BeforePayload(d, id, ctx, flags, ts, rbTs, o.pre);
    var e, start := AfterPayload(d, id, ctx, flags, ts, rbTs, o.post), StartEvents(d, id, ctx, ts, rbTs);
    var a, c := BeforeParts(d, id, ctx, flags, ts, rbTs, o.pre, Lo(Sop(d, index)));
    var a', c' := BeforeParts(d, id, ctx, flags, ts, rbTs, o.pre, x);
    StartWord(d, id, ctx, ts, rbTs, index, v);
    assert Leaves(payload, x) && Leaves([], x);
    hide BeforePayload, AfterPayload, StartEvents, WordAfter, LeavesTimestamps;
    OnlyMiddle(a, start, c, Lo(Sop(d, index)), v);
    LeavesJoin(a', start, c', payload, x);
    PrefixLeaves(b + payload, e, x, k);
    LeavesWord((b + payload + e)[..k], x, v);
  }

  /** A submission raises exactly one interrupt, and not before the end timestamp it is for is there. */
  lemma OneInterrupt(d: Device, id: nat, ctx: Option<DrawContext>, flags: Flags, ts: word, rbTs: word, o: Outside,
                     payload: seq<Event>, v: Option<word>, k: nat)
    requires ValidDevice(d) && id < RB_LEVELS && (ctx.Some? ==> ValidContext(ctx.value)) && NoEventWrite(payload)
    requires k <= |SubmissionEvents(d, id, ctx, flags, ts, rbTs, o, payload)|
    ensures var es := SubmissionEvents(d, id, ctx, flags, ts, rbTs, o, payload);
      && Interrupts(es) == 1
      && (Interrupts(es[..k]) > 0 ==>
            WordAfter(es[..k], Lo(Eop(d, Announced(id, ctx))), v) == Some(if ctx.Some? then ts else rbTs))
  {
    var x, retire := Lo(Eop(d, Announced(id, ctx))), RetireEvents(d, id, ctx, ts, rbTs);
    var b := BeforePayload(d, id, ctx, flags, ts, rbTs, o.pre);
    BeforeIsSilent(d, id, ctx, flags, ts, rbTs, o.pre);
    var a, c := AfterParts(d, id, ctx, flags, ts, rbTs, o.post);
    assert Leaves(c, x) && Leaves([], x) && NoEventWrite([]);
    RetireAnnounces(d, id, ctx, ts, rbTs);
    NoInterrupt(c);
    InterruptsConcat(retire[1..], c);
    LeavesJoin(retire[1..], c, [], [], x);
    SilentJoin(b, payload, a, []);
    hide RetireEvents, BeforePayload, AfterPayload, Leaves, NoEventWrite, Interrupts, WordAfter;
    Associative(b + payload, a + retire, c);
    Associative(b + payload, a, retire);
    Reassemble(b + payload + a, retire, c);
    FirstAnnounces(b + payload + a, retire[0], retire[1..] + c, x, v, k);
  }

  lemma RetireAnnounces(d: Device, id: nat, ctx: Option<DrawContext>, ts: word, rbTs: word)
    requires ValidDevice(d) && id < RB_LEVELS && (ctx.Some? ==> ValidContext(ctx.value))
    ensures var retire := RetireEvents(d, id, ctx, ts, rbTs);
      && retire != [] && retire[0].EventWrite? && retire[0].kind >= IRQ
      && retire[0].addr == Lo(Eop(d, Announced(id, ctx))) && retire[0].value == (if ctx.Some? then ts else rbTs)
      && Interrupts(retire[1..]) == 0 && Leaves(retire[1..], Lo(Eop(d, Announced(id, ctx))))
  {
    var retire := RetireEvents(d, id, ctx, ts, rbTs);
    if ctx.Some? {
      WordsApart(d, ctx.value.id, RbIndex(id));
      assert retire[1..][..0] == [];
      assert Interrupts(retire[1..]) == Interrupts([]) + 0;
    }
  }

  // ----------------------------------------------------------------------- payloads

  lemma {:induction false} KeptBuffers(list: seq<Ib>, preamble: bool)
    ensures forall i | 0 <= i < |KeptEvents(list, preamble)| :: KeptEvents(list, preamble)[i].RunIb?
    decreases |list|
  {
    if list != [] {
      KeptBuffers(list[..|list| - 1], preamble);
    }
  }

  /** A command's own stream writes no timestamp and raises no interrupt, ... */
  lemma CommandIsQuiet(d: Device, list: seq<Ib>, flags: Flags)
    requires ValidDevice(d)
    ensures LeavesTimestamps(d, CommandEvents(list, flags)) && NoEventWrite(CommandEvents(list, flags))
  {
    KeptBuffers(if flags.skip then [] else list, flags.preamble);
  }

  lemma TableIsQuiet(setstate: qword, ttbr0: qword, x: nat)
    ensures Leaves(PagetableEvents(setstate, ttbr0), x) && NoEventWrite(PagetableEvents(setstate, ttbr0))
  {
    var es := PagetableEvents(setstate, ttbr0);
    assert forall i | 0 <= i < |es| :: !es[i].EventWrite? && !es[i].MemWrite?;
  }

  /** ... and neither does a context switch, which names the context as current for the ring and the device. */
  lemma SwitchLeaves(d: Device, id: nat, active: Option<DrawContext>, ctx: DrawContext, index: nat, v: Option<word>)
    requires ValidDevice(d) && id < RB_LEVELS && index < ENTRIES
    ensures var es := SwitchEvents(d, id, active, ctx);
      && Leaves(es, Lo(Sop(d, index))) && Leaves(es, Lo(Eop(d, index))) && NoEventWrite(es)
      && WordAfter(es, Lo(CurrentContext(d, index)), v)
         == (if index == RbIndex(id) || index == KGSL_MEMSTORE_GLOBAL then Some(ctx.id) else v)
  {
    var t := if NeedsTable(d, active, ctx) then PagetableEvents(d.setstate, ctx.pagetable.ttbr0) else [];
    var a, b := MemWrite(Lo(CurrentContext(d, RbIndex(id))), [ctx.id]), MemWrite(Lo(CurrentContext(d, 0)), [ctx.id]);
    var u := [RegWrite(A3XX_UCHE_CACHE_INVALIDATE0, [0, 0x9000_0000])];
    var x, y, z := Lo(Sop(d, index)), Lo(Eop(d, index)), Lo(CurrentContext(d, index));
    TableIsQuiet(d.setstate, ctx.pagetable.ttbr0, x);
    TableIsQuiet(d.setstate, ctx.pagetable.ttbr0, y);
    TableIsQuiet(d.setstate, ctx.pagetable.ttbr0, z);
    assert NoEventWrite(t) && NoEventWrite([a]) && NoEventWrite([b]) && NoEventWrite(u);
    assert Leaves(t, x) && Leaves(t, y) && Leaves(t, z) && Leaves(u, x) && Leaves(u, y) && Leaves(u, z);
    WordsApart(d, index, RbIndex(id));
    WordsApart(d, index, 0);
    hide PagetableEvents, Lo, Sop, Eop, CurrentContext, Leaves, NoEventWrite, WordAfter;
    SilentJoin(t, [a], [b], u);
    OneWordWrite(a.addr, ctx.id, x, v);
    OneWordWrite(b.addr, ctx.id, x, v);
    OneWordWrite(a.addr, ctx.id, y, v);
    OneWordWrite(b.addr, ctx.id, y, v);
    LeavesJoin(t, [a], [b], u, x);
    LeavesJoin(t, [a], [b], u, y);
    OneWordWrite(a.addr, ctx.id, z, v);
    OneWordWrite(b.addr, ctx.id, z, WordAfter([a], z, v));
    WordConcat([a], [b], z, v);
    Associative(t, [a], [b]);
    OnlyMiddle(t, [a] + [b], u, z, v);
  }

  // ------------------------------------------------------------- what was flushed

  /**
    Whether a buffer ran since the shader's lazy updates were last flushed and waited for,
    whether a flush is under way, whether a time stamp event came before that, and whether
    anything was started since the CP was last idle.
   */
  datatype Lazy = Lazy(pending: bool, flushing: bool, early: bool, busy: bool)

  function LazyStep(l: Lazy, e: Event): Lazy {
    match e
    case RunIb(_, _) => l.(pending := true, flushing := false, busy := true)
    case EventWrite(_, _, _) => l.(early := l.early || l.pending, busy := true)
    case Other(op, pl) =>
      if op == CP_EVENT_WRITE && pl == [HLSQ_FLUSH] then l.(flushing := true)
      else if op == CP_WAIT_FOR_IDLE then l.(pending := l.pending && !l.flushing, flushing := false, busy := false)
      else l
    case _ => l
  }

  function LazyAfter(l: Lazy, es: seq<Event>): Lazy { Fold(LazyStep, l, es) }

  lemma LazyMore(l: Lazy, a: seq<Event>, e: Event)
    ensures LazyAfter(l, a + [e]) == LazyStep(LazyAfter(l, a), e)
  {
    FoldConcat(LazyStep, l, a, [e]);
    FoldOne(LazyStep, LazyAfter(l, a), e);
  }

  lemma LazyWhen(l: Lazy, a: seq<Event>, c: bool, e: Event)
    ensures LazyAfter(l, a + When(c, e)) == if c then LazyStep(LazyAfter(l, a), e) else LazyAfter(l, a)
  {
    if c {
      LazyMore(l, a, e);
    } else {
      assert a + [] == a;
    }
  }

  lemma {:induction false} NotEarly(l: Lazy, es: seq<Event>)
    requires NoEventWrite(es)
    ensures LazyAfter(l, es).early == l.early
    decreases |es|
  {
    if es != [] {
      NotEarly(l, es[..|es| - 1]);
    }
  }

  lemma ProfileLazy(l: Lazy, a: seq<Event>, profile: Option<ProfileIb>)
    ensures LazyAfter(l, a + ProfileEvents(profile)).pending == (LazyAfter(l, a).pending || profile.Some?)
    ensures LazyAfter(l, a + ProfileEvents(profile)).early == LazyAfter(l, a).early
  {
    if profile.Some? {
      LazyMore(l, a, ProfileEvents(profile)[0]);
    } else {
      assert a + [] == a;
    }
  }

  lemma {:induction false} StampsLazy(l: Lazy, es: seq<Event>)
    requires es != [] && forall i | 0 <= i < |es| :: es[i].EventWrite?
    ensures LazyAfter(l, es).early == (l.early || l.pending) && LazyAfter(l, es).pending == l.pending
    decreases |es|
  {
    if |es| > 1 {
      StampsLazy(l, es[..|es| - 1]);
    } else {
      FoldOne(LazyStep, l, es[0]);
    }
  }

  lemma RetireLazy(l: Lazy, d: Device, id: nat, ctx: Option<DrawContext>, ts: word, rbTs: word)
    requires ValidDevice(d) && id < RB_LEVELS && (ctx.Some? ==> ValidContext(ctx.value))
    ensures LazyAfter(l, RetireEvents(d, id, ctx, ts, rbTs)).early == (l.early || l.pending)
  {
    hide Eop, Lo, LazyAfter;
    StampsLazy(l, RetireEvents(d, id, ctx, ts, rbTs));
  }

  /** Up to the end timestamps everything is flushed but what the profiler's buffer leaves. */
  lemma MiddleLazy(l: Lazy, b: seq<Event>, flags: Flags, profile: Option<ProfileIb>)
    ensures var l' := LazyAfter(l, b + When(flags.notProtected, SetProtected(true))
                                   + [Other(CP_EVENT_WRITE, [HLSQ_FLUSH])]
                                   + [Other(CP_WAIT_FOR_IDLE, [0])] + ProfileEvents(profile));
      l'.pending == profile.Some? && l'.early == LazyAfter(l, b).early
  {
    var flush, idle := Other(CP_EVENT_WRITE, [HLSQ_FLUSH]), Other(CP_WAIT_FOR_IDLE, [0]);
    var e := b + When(flags.notProtected, SetProtected(true));
    LazyWhen(l, b, flags.notProtected, SetProtected(true));
    LazyMore(l, e, flush);
    LazyMore(l, e + [flush], idle);
    ProfileLazy(l, e + [flush] + [idle], profile);
  }

  lemma TailLazy(l: Lazy, f: seq<Event>, flags: Flags)
    ensures var l' := LazyAfter(l, f + [Other(CP_SET_CONSTANT, [ROLLOVER, 0])]
                                   + When(flags.wfi, Other(CP_WAIT_FOR_IDLE, [0])));
      l'.early == LazyAfter(l, f).early && (flags.wfi ==> !l'.busy)
  {
    LazyMore(l, f, Other(CP_SET_CONSTANT, [ROLLOVER, 0]));
    LazyWhen(l, f + [Other(CP_SET_CONSTANT, [ROLLOVER, 0])], flags.wfi, Other(CP_WAIT_FOR_IDLE, [0]));
  }

  /**
    Whatever its buffers left pending is flushed before a submission's end timestamps are
    written, except what the profiler's own buffer behind it leaves; and one that asks for it
    ends with the CP idle.
   */
  lemma FlushedFirst(d: Device, id: nat, ctx: Option<DrawContext>, flags: Flags, ts: word, rbTs: word, o: Outside,
                     payload: seq<Event>, l: Lazy)
    requires ValidDevice(d) && id < RB_LEVELS && (ctx.Some? ==> ValidContext(ctx.value)) && NoEventWrite(payload)
    ensures var l' := LazyAfter(l, SubmissionEvents(d, id, ctx, flags, ts, rbTs, o, payload));
      l'.early == (l.early || o.post.Some?) && (flags.wfi ==> !l'.busy)
  {
    var b, retire := BeforePayload(d, id, ctx, flags, ts, rbTs, o.pre) + payload, RetireEvents(d, id, ctx, ts, rbTs);
    var a, c := AfterParts(d, id, ctx, flags, ts, rbTs, o.post);
    BeforeIsSilent(d, id, ctx, flags, ts, rbTs, o.pre);
    assert NoEventWrite([]);
    SilentJoin(BeforePayload(d, id, ctx, flags, ts, rbTs, o.pre), payload, [], []);
    NotEarly(l, b);
    var flush, idle := [Other(CP_EVENT_WRITE, [HLSQ_FLUSH])], [Other(CP_WAIT_FOR_IDLE, [0])];
    var protect, roll := When(flags.notProtected, SetProtected(true)), [Other(CP_SET_CONSTANT, [ROLLOVER, 0])];
    var wfi, prof := When(flags.wfi, idle[0]), ProfileEvents(o.post);
    hide BeforePayload, AfterPayload, RetireEvents, ProfileEvents, LazyAfter, LazyStep, NoEventWrite, When;
    var f := b + protect + flush + idle + prof;
    MiddleLazy(l, b, flags, o.post);
    LazyConcat(l, f, retire);
    RetireLazy(LazyAfter(l, f), d, id, ctx, ts, rbTs);
    TailLazy(l, f + retire, flags);
    FrameParts(b, protect, flush, idle, prof, retire, roll, wfi);
  }

  lemma LazyConcat(l: Lazy, a: seq<Event>, b: seq<Event>)
    ensures LazyAfter(l, a + b) == LazyAfter(LazyAfter(l, a), b)
  {
    FoldConcat(LazyStep, l, a, b);
  }

  lemma FrameParts<T>(x: seq<T>, a: seq<T>, b: seq<T>, c: seq<T>, e: seq<T>, f: seq<T>, g: seq<T>, h: seq<T>)
    ensures x + (a + b + c + e + f + (g + h)) == x + a + b + c + e + f + g + h
  {
  }

  // -------------------------------------------------------------- a pagetable switch

  /**
    How far the CP has got with stalling its prefetch: a buffer, then idle, then caught up; and
    whether it has state, or the cache lines, of an older table.  `torn` tells of a table that
    was written while prefetch was not stalled.
   */
  datatype Fetch = Fetch(stage: nat, torn: bool, state: bool, cache: bool)

  function FetchStep(f: Fetch, e: Event): Fetch {
    match e
    case RunIb(_, _) => f.(stage := 1)
    case RegWrite(reg, _) =>
      if reg == SmmuReg(KGSL_IOMMU_CTX_TTBR0) then
        Fetch(0, f.torn || f.stage != 3, true, true)
      else if reg == A3XX_UCHE_CACHE_INVALIDATE0 then f.(cache := false)
      else f
    case Other(op, _) =>
      if op == CP_WAIT_FOR_IDLE && f.stage == 1 then f.(stage := 2)
      else if op == CP_WAIT_FOR_ME && f.stage == 2 then f.(stage := 3)
      else if op == CP_INVALIDATE_STATE then f.(state := false)
      else f
    case _ => f
  }

  function FetchAfter(f: Fetch, es: seq<Event>): Fetch { Fold(FetchStep, f, es) }

  lemma FetchMore(f: Fetch, a: seq<Event>, e: Event)
    ensures FetchAfter(f, a + [e]) == FetchStep(FetchAfter(f, a), e)
  {
    FoldConcat(FetchStep, f, a, [e]);
    FoldOne(FetchStep, FetchAfter(f, a), e);
  }

  lemma FetchConcat(f: Fetch, a: seq<Event>, b: seq<Event>)
    ensures FetchAfter(f, a + b) == FetchAfter(FetchAfter(f, a), b)
  {
    FoldConcat(FetchStep, f, a, b);
  }

  lemma StallFetch(f: Fetch, setstate: qword)
    ensures FetchAfter(f, StallEvents(setstate)) == f.(stage := 3)
  {
    var es := StallEvents(setstate);
    assert [] + [es[0]] == [es[0]];
    FetchMore(f, [], es[0]);
    FetchMore(f, [es[0]], es[1]);
    FetchMore(f, [es[0]] + [es[1]], es[2]);
    FetchMore(f, [es[0]] + [es[1]] + [es[2]], es[3]);
  }

  /** Halting and releasing the memory interface does not undo a stall. */
  lemma LockFetch(f: Fetch)
    ensures f.stage == 3 ==> FetchAfter(f, LockEvents()) == f
    ensures f.stage == 0 ==> FetchAfter(f, UnlockEvents() + TlbiEvents()) == f
  {
    if f.stage == 3 {
      FoldStill(FetchStep, f, LockEvents());
    }
    if f.stage == 0 {
      FoldStill(FetchStep, f, UnlockEvents() + TlbiEvents());
    }
  }

  lemma SettleFetch(f: Fetch)
    requires f.stage == 0
    ensures FetchAfter(f, SettleEvents()) == f.(state := false)
  {
    var es := SettleEvents();
    assert [] + [es[0]] == [es[0]];
    FetchMore(f, [], es[0]);
    FetchMore(f, [es[0]], es[1]);
    FetchMore(f, [es[0]] + [es[1]], es[2]);
  }

  lemma PagetableFetch(f: Fetch, setstate: qword, ttbr0: qword)
    ensures var f' := FetchAfter(f, PagetableEvents(setstate, ttbr0)); f'.torn == f.torn && !f'.state
  {
    var stall, lock, free := StallEvents(setstate), LockEvents(), UnlockEvents() + TlbiEvents();
    var write := RegWrite(SmmuReg(KGSL_IOMMU_CTX_TTBR0), [Lo(ttbr0), Hi(ttbr0)]);
    var f3 := f.(stage := 3);
    var g := FetchStep(f3, write);
    StallFetch(f, setstate);
    LockFetch(f3);
    LockFetch(g);
    SettleFetch(g);
    hide StallEvents, LockEvents, UnlockEvents, TlbiEvents, SettleEvents, FetchAfter;
    FetchConcat(f, stall, lock);
    FetchMore(f, stall + lock, write);
    FetchConcat(f, stall + lock + [write], free);
    FetchConcat(f, stall + lock + [write] + free, SettleEvents());
    Associative(stall + lock + [write], UnlockEvents(), TlbiEvents());
  }

  /**
    A context switch writes the table only while prefetch is stalled, whatever came before, and
    ends with nothing left of an older table in the CP's state or its cache.
   */
  lemma SwitchIsCoherent(d: Device, id: nat, active: Option<DrawContext>, ctx: DrawContext, f: Fetch)
    requires ValidDevice(d) && id < RB_LEVELS
    ensures var f' := FetchAfter(f, SwitchEvents(d, id, active, ctx));
      f'.torn == f.torn && !f'.cache && (NeedsTable(d, active, ctx) || !f.state ==> !f'.state)
  {
    var t := if NeedsTable(d, active, ctx) then PagetableEvents(d.setstate, ctx.pagetable.ttbr0) else [];
    var a, b := MemWrite(Lo(CurrentContext(d, RbIndex(id))), [ctx.id]), MemWrite(Lo(CurrentContext(d, 0)), [ctx.id]);
    PagetableFetch(f, d.setstate, ctx.pagetable.ttbr0);
    assert FetchAfter(f, []) == f;
    hide PagetableEvents, FetchAfter;
    FetchMore(f, t, a);
    FetchMore(f, t + [a], b);
    FetchMore(f, t + [a] + [b], RegWrite(A3XX_UCHE_CACHE_INVALIDATE0, [0, 0x9000_0000]));
  }
}
