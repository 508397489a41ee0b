/**
  What an A5XX submission leaves behind: timestamps, interrupts, preemption settings and
  modes, whatever its payload is.
 */
module A5xxEffects {
  import opened Basics
  import Sequences
  import opened CommandProcessor
  import opened Adreno
  import opened A5xxPackets
  import opened A5xxRingbuffer
  import opened A5xxCommands
  import opened StreamEffects

  // --------------------------------------------------------------------- timestamps

  /** No event writes a start or end timestamp of any context or ring. */
  predicate LeavesTimestamps(d: Device, es: seq<Event>)
    requires ValidDevice(d)
  {
    forall index | 0 <= index < ENTRIES :: Leaves(es, Sop(d, index)) && Leaves(es, Eop(d, index))
  }

  lemma BeforeWord(d: Device, id: nat, record: qword, ctx: Option<DrawContext>, flags: Flags, ts: word, rbTs: word,
                   profile: Option<ProfileIb>, x: nat, v: Option<word>)
    requires ValidDevice(d) && id < RB_LEVELS && (ctx.Some? ==> ValidContext(ctx.value))
    ensures WordAfter(BeforePayload(d, id, record, ctx, flags, ts, rbTs, profile), x, v)
         == WordAfter(StartEvents(d, id, ctx, ts, rbTs), x, v)
  {
    var pre, start := PreIbEvents(d, record, ctx), StartEvents(d, id, ctx, ts, rbTs);
    var secure, open := When(flags.secure, SetSecure(true)), When(flags.notProtected, SetProtected(false));
    BeforeLeaves(d, record, ctx, flags, profile, x);
    hide Leaves, PreIbEvents, ProfileEvents, StartEvents, WordAfter;
    OnlyMiddle(pre + ProfileEvents(profile), start, secure + open, x, v);
    Sequences.Associative(pre + ProfileEvents(profile) + start, secure, open);
  }

  /** Around the start timestamps nothing is written to memory. */
  lemma BeforeLeaves(d: Device, record: qword, ctx: Option<DrawContext>, flags: Flags, profile: Option<ProfileIb>,
                     x: nat)
    ensures Leaves(PreIbEvents(d, record, ctx) + ProfileEvents(profile), x)
    ensures Leaves(When(flags.secure, SetSecure(true)) + When(flags.notProtected, SetProtected(false)), x)
  {
    var pre := PreIbEvents(d, record, ctx);
    assert Leaves(pre, x) && Leaves(ProfileEvents(profile), x) && Leaves([], x);
    LeavesJoin(pre, ProfileEvents(profile), [], [], x);
  }

  lemma AfterWord(d: Device, id: nat, ctx: Option<DrawContext>, flags: Flags, ts: word, rbTs: word,
                  sequence: word, profile: Option<ProfileIb>, x: nat, v: Option<word>)
    requires ValidDevice(d) && id < RB_LEVELS && (ctx.Some? ==> ValidContext(ctx.value)) && x != RefWaitTs(d)
    ensures WordAfter(AfterPayload(d, id, ctx, flags, ts, rbTs, sequence, profile), x, v)
         == WordAfter(RetireEvents(d, id, ctx, ts, rbTs), x, v)
  {
    var protect := When(flags.notProtected, SetProtected(true));
    var wait := When(d.waitMemWrites, Other(CP_WAIT_MEM_WRITES, []));
    var idle, secure := When(flags.wfi, Other(CP_WAIT_FOR_IDLE, [])), When(flags.secure, SetSecure(false));
    var ref, retire, post := [MemWrite(RefWaitTs(d), [sequence])], RetireEvents(d, id, ctx, ts, rbTs), PostIbEvents(d);
    assert Leaves(protect, x) && Leaves(ProfileEvents(profile), x) && Leaves(wait, x) && Leaves(ref, x);
    assert Leaves(idle, x) && Leaves(secure, x) && Leaves(post, x) && Leaves([], x);
    LeavesJoin(protect, ProfileEvents(profile), wait, ref, x);
    LeavesJoin(idle, secure, post, [], x);
    hide Leaves, When, ProfileEvents, RetireEvents, PostIbEvents, WordAfter;
    var a := protect + ProfileEvents(profile) + wait + ref;
    OnlyMiddle(a, retire, idle + secure + post, x, v);
    Sequences.Associative(a + retire, idle + secure, post);
    Sequences.Associative(a + retire, idle, secure);
  }

  lemma StartWord(d: Device, id: nat, ctx: Option<DrawContext>, ts: word, rbTs: word, index: nat, v: Option<word>)
    requires ValidDevice(d) && id < RB_LEVELS && (ctx.Some? ==> ValidContext(ctx.value)) && index < ENTRIES
    ensures WordAfter(StartEvents(d, id, ctx, ts, rbTs), Sop(d, index), v) == Stamped(id, ctx, ts, rbTs, index, v)
    ensures WordAfter(StartEvents(d, id, ctx, ts, rbTs), Eop(d, index), v) == v
  {
    var ring := [MemWrite(Sop(d, RbIndex(id)), [rbTs])];
    WordOne(ring[0], Sop(d, index), v);
    WordOne(ring[0], Eop(d, index), v);
    if ctx.Some? {
      var own := [MemWrite(Sop(d, ctx.value.id), [ts])];
      WordOne(own[0], Sop(d, index), v);
      WordOne(own[0], Eop(d, index), v);
      WordOne(ring[0], Sop(d, index), WordAfter(own, Sop(d, index), v));
      WordConcat(own, ring, Sop(d, index), v);
      WordConcat(own, ring, Eop(d, index), v);
      assert StartEvents(d, id, ctx, ts, rbTs) == own + ring;
    }
  }

  lemma RetireWord(d: Device, id: nat, ctx: Option<DrawContext>, ts: word, rbTs: word, index: nat, v: Option<word>)
    requires ValidDevice(d) && id < RB_LEVELS && (ctx.Some? ==> ValidContext(ctx.value)) && index < ENTRIES
    ensures WordAfter(RetireEvents(d, id, ctx, ts, rbTs), Eop(d, index), v) == Stamped(id, ctx, ts, rbTs, index, v)
    ensures WordAfter(RetireEvents(d, id, ctx, ts, rbTs), Sop(d, index), v) == v
  {
    LeavesWord(RetireEvents(d, id, ctx, ts, rbTs), Sop(d, index), v);
    if ctx.None? {
      WordOne(EventWrite(CACHE_FLUSH_TS + IRQ, Eop(d, RbIndex(id)), rbTs), Eop(d, index), v);
    } else {
      var own := [EventWrite(CACHE_FLUSH_TS + IRQ, Eop(d, ctx.value.id), ts)];
      var ring := [EventWrite(CACHE_FLUSH_TS, Eop(d, RbIndex(id)), rbTs)];
      WordOne(own[0], Eop(d, index), v);
      WordOne(ring[0], Eop(d, index), WordAfter(own, Eop(d, index), v));
      WordConcat(own, ring, Eop(d, index), v);
      assert RetireEvents(d, id, ctx, ts, rbTs) == own + ring;
    }
  }

  /**
    After a submission both timestamp words of its ring hold the ring's timestamp, both of its
    context, if it has one, hold the command's, and those of everybody else what they held.
   */
  lemma SubmissionTimestamps(d: Device, id: nat, record: qword, ctx: Option<DrawContext>, flags: Flags, ts: word,
                             rbTs: word, o: Outside, payload: seq<Event>, index: nat, v: Option<word>)
    requires ValidDevice(d) && id < RB_LEVELS && (ctx.Some? ==> ValidContext(ctx.value)) && index < ENTRIES
    requires LeavesTimestamps(d, payload)
    ensures var es := SubmissionEvents(d, id, record, ctx, flags, ts, rbTs, o, payload);
      && WordAfter(es, Sop(d, index), v) == Stamped(id, ctx, ts, rbTs, index, v)
      && WordAfter(es, Eop(d, index), v) == Stamped(id, ctx, ts, rbTs, index, v)
  {
    SubmissionWord(d, id, record, ctx, flags, ts, rbTs, o, payload, Sop(d, index), v);
    SubmissionWord(d, id, record, ctx, flags, ts, rbTs, o, payload, Eop(d, index), v);
    StartWord(d, id, ctx, ts, rbTs, index, v);
    RetireWord(d, id, ctx, ts, rbTs, index, Stamped(id, ctx, ts, rbTs, index, v));
    RetireWord(d, id, ctx, ts, rbTs, index, v);
  }

  lemma SubmissionWord(d: Device, id: nat, record: qword, ctx: Option<DrawContext>, flags: Flags, ts: word,
                       rbTs: word, o: Outside, payload: seq<Event>, x: nat, v: Option<word>)
    requires ValidDevice(d) && id < RB_LEVELS && (ctx.Some? ==> ValidContext(ctx.value)) && x != RefWaitTs(d)
    requires Leaves(payload, x)
    ensures WordAfter(SubmissionEvents(d, id, record, ctx, flags, ts, rbTs, o, payload), x, v)
         == WordAfter(RetireEvents(d, id, ctx, ts, rbTs), x, WordAfter(StartEvents(d, id, ctx, ts, rbTs), x, v))
  {
    var b := BeforePayload(d, id, record, ctx, flags, ts, rbTs, o.pre);
    var a := AfterPayload(d, id, ctx, flags, ts, rbTs, o.sequence, o.post);
    WordConcat(b, payload, x, v);
    WordConcat(b + payload, a, x, v);
    BeforeWord(d, id, record, ctx, flags, ts, rbTs, o.pre, x, v);
    LeavesWord(payload, x, WordAfter(b, x, v));
    AfterWord(d, id, ctx, flags, ts, rbTs, o.sequence, o.post, x, WordAfter(b, x, v));
  }

  /** The start words are there when the payload begins; no end word changes before it is over. */
  lemma NothingRetiredEarly(d: Device, id: nat, record: qword, ctx: Option<DrawContext>, flags: Flags, ts: word,
                            rbTs: word, o: Outside, payload: seq<Event>, index: nat, v: Option<word>, k: nat)
    requires ValidDevice(d) && id < RB_LEVELS && (ctx.Some? ==> ValidContext(ctx.value)) && index < ENTRIES
    requires LeavesTimestamps(d, payload)
    requires k <= |BeforePayload(d, id, record, ctx, flags, ts, rbTs, o.pre)| + |payload|
    ensures WordAfter(BeforePayload(d, id, record, ctx, flags, ts, rbTs, o.pre), Sop(d, index), v)
         == Stamped(id, ctx, ts, rbTs, index, v)
    ensures var es := SubmissionEvents(d, id, record, ctx, flags, ts, rbTs, o, payload);
      k <= |es| && WordAfter(es[..k], Eop(d, index), v) == v
  {
    var b := BeforePayload(d, id, record, ctx, flags, ts, rbTs, o.pre);
    var a := AfterPayload(d, id, ctx, flags, ts, rbTs, o.sequence, o.post);
    var x := Eop(d, index);
    BeforeWord(d, id, record, ctx, flags, ts, rbTs, o.pre, Sop(d, index), v);
    StartWord(d, id, ctx, ts, rbTs, index, v);
    BeforeLeavesEnds(d, id, record, ctx, flags, ts, rbTs, o.pre, index);
    assert Leaves(payload, x) && Leaves([], x);
    hide BeforePayload, AfterPayload, StartEvents, WordAfter, LeavesTimestamps;
    LeavesJoin(b, payload, [], [], x);
    PrefixLeaves(b + payload, a, x, k);
    LeavesWord((b + payload + a)[..k], x, v);
  }

  lemma StartLeavesEnds(d: Device, id: nat, ctx: Option<DrawContext>, ts: word, rbTs: word, index: nat)
    requires ValidDevice(d) && id < RB_LEVELS && (ctx.Some? ==> ValidContext(ctx.value)) && index < ENTRIES
    ensures Leaves(StartEvents(d, id, ctx, ts, rbTs), Eop(d, index))
  {
  }

  lemma BeforeLeavesEnds(d: Device, id: nat, record: qword, ctx: Option<DrawContext>, flags: Flags, ts: word,
                         rbTs: word,
                         profile: Option<ProfileIb>, index: nat)
    requires ValidDevice(d) && id < RB_LEVELS && (ctx.Some? ==> ValidContext(ctx.value)) && index < ENTRIES
    ensures Leaves(BeforePayload(d, id, record, ctx, flags, ts, rbTs, profile), Eop(d, index))
  {
    var pre, start := PreIbEvents(d, record, ctx), StartEvents(d, id, ctx, ts, rbTs);
    var secure, open := When(flags.secure, SetSecure(true)), When(flags.notProtected, SetProtected(false));
    BeforeLeaves(d, record, ctx, flags, profile, Eop(d, index));
    StartLeavesEnds(d, id, ctx, ts, rbTs, index);
    assert Leaves([], Eop(d, index));
    hide Leaves, PreIbEvents, ProfileEvents, StartEvents;
    LeavesJoin(pre + ProfileEvents(profile), start, secure + open, [], Eop(d, index));
    Sequences.Associative(pre + ProfileEvents(profile) + start, secure, open);
  }

  /** The word that shows interrupt storms gets the next value of the sequence. */
  lemma SequenceWritten(d: Device, id: nat, record: qword, ctx: Option<DrawContext>, flags: Flags, ts: word,
                        rbTs: word, o: Outside, payload: seq<Event>, v: Option<word>)
    requires ValidDevice(d) && id < RB_LEVELS && (ctx.Some? ==> ValidContext(ctx.value))
    ensures WordAfter(SubmissionEvents(d, id, record, ctx, flags, ts, rbTs, o, payload), RefWaitTs(d), v)
         == Some(o.sequence)
  {
    var x := RefWaitTs(d);
    var p, ref, t := SubmissionParts(d, id, record, ctx, flags, ts, rbTs, o, payload);
    var retire := RetireEvents(d, id, ctx, ts, rbTs);
    assert Leaves(retire, x);
    WordConcat(p + ref + retire, t, x, v);
    WordConcat(p + ref, retire, x, v);
    WordConcat(p, ref, x, v);
    WordOne(ref[0], x, WordAfter(p, x, v));
    LeavesWord(retire, x, WordAfter(p + ref, x, v));
    LeavesWord(t, x, WordAfter(p + ref + retire, x, v));
  }

  // --------------------------------------------------------------------- interrupts

  /** A submission around its end timestamps. */
  lemma SubmissionParts(d: Device, id: nat, record: qword, ctx: Option<DrawContext>, flags: Flags, ts: word, rbTs: word,
                        o: Outside, payload: seq<Event>)
    returns (p: seq<Event>, ref: seq<Event>, t: seq<Event>)
    requires ValidDevice(d) && id < RB_LEVELS && (ctx.Some? ==> ValidContext(ctx.value))
    ensures SubmissionEvents(d, id, record, ctx, flags, ts, rbTs, o, payload)
         == p + ref + RetireEvents(d, id, ctx, ts, rbTs) + t
    ensures ref == [MemWrite(RefWaitTs(d), [o.sequence])]
    ensures NoEventWrite(payload) ==> NoEventWrite(p + ref)
    ensures NoEventWrite(t) && forall x: nat :: Leaves(t, x)
  {
    var before := BeforePayload(d, id, record, ctx, flags, ts, rbTs, o.pre);
    var a := When(flags.notProtected, SetProtected(true)) + ProfileEvents(o.post)
      + When(d.waitMemWrites, Other(CP_WAIT_MEM_WRITES, []));
    var idle, secure := When(flags.wfi, Other(CP_WAIT_FOR_IDLE, [])), When(flags.secure, SetSecure(false));
    var post := PostIbEvents(d);
    ref, t := [MemWrite(RefWaitTs(d), [o.sequence])], idle + secure + post;
    p := before + payload + a;
    BeforeIsSilent(d, id, record, ctx, flags, ts, rbTs, o.pre);
    hide BeforePayload, When, ProfileEvents, RetireEvents, PostIbEvents;
    TailParts(before + payload, a, ref, RetireEvents(d, id, ctx, ts, rbTs), idle, secure, post);
    TailIsSilent(d, flags);
    MiddleIsSilent(d, flags, o.post);
  }

  lemma TailParts<T>(x: seq<T>, a: seq<T>, b: seq<T>, c: seq<T>, e: seq<T>, f: seq<T>, g: seq<T>)
    ensures x + (a + b + c + e + f + g) == x + a + b + c + (e + f + g)
  {
  }

  lemma BeforeIsSilent(d: Device, id: nat, record: qword, ctx: Option<DrawContext>, flags: Flags, ts: word, rbTs: word,
                       profile: Option<ProfileIb>)
    requires ValidDevice(d) && id < RB_LEVELS && (ctx.Some? ==> ValidContext(ctx.value))
    ensures NoEventWrite(BeforePayload(d, id, record, ctx, flags, ts, rbTs, profile))
  {
    var pre := PreIbEvents(d, record, ctx);
    var secure, open := When(flags.secure, SetSecure(true)), When(flags.notProtected, SetProtected(false));
    assert NoEventWrite(pre) && NoEventWrite(ProfileEvents(profile)) && NoEventWrite(StartEvents(d, id, ctx, ts, rbTs));
    assert NoEventWrite(secure) && NoEventWrite(open);
    SilentJoin(pre, ProfileEvents(profile), StartEvents(d, id, ctx, ts, rbTs), secure);
    SilentJoin(pre + ProfileEvents(profile) + StartEvents(d, id, ctx, ts, rbTs) + secure, open, [], []);
  }

  lemma MiddleIsSilent(d: Device, flags: Flags, profile: Option<ProfileIb>)
    ensures NoEventWrite(When(flags.notProtected, SetProtected(true)) + ProfileEvents(profile)
                         + When(d.waitMemWrites, Other(CP_WAIT_MEM_WRITES, [])))
  {
    var a, c := When(flags.notProtected, SetProtected(true)), When(d.waitMemWrites, Other(CP_WAIT_MEM_WRITES, []));
    assert NoEventWrite(a) && NoEventWrite(ProfileEvents(profile)) && NoEventWrite(c) && NoEventWrite([]);
    SilentJoin(a, ProfileEvents(profile), c, []);
  }

  lemma TailIsSilent(d: Device, flags: Flags)
    ensures var t := When(flags.wfi, Other(CP_WAIT_FOR_IDLE, [])) + When(flags.secure, SetSecure(false))
                    + PostIbEvents(d);
      NoEventWrite(t) && forall x: nat :: Leaves(t, x)
  {
    var idle, secure := When(flags.wfi, Other(CP_WAIT_FOR_IDLE, [])), When(flags.secure, SetSecure(false));
    assert NoEventWrite(idle) && NoEventWrite(secure) && NoEventWrite(PostIbEvents(d)) && NoEventWrite([]);
    SilentJoin(idle, secure, PostIbEvents(d), []);
    forall x: nat ensures Leaves(idle + secure + PostIbEvents(d), x) {
      assert Leaves(idle, x) && Leaves(secure, x) && Leaves(PostIbEvents(d), x) && Leaves([], x);
      LeavesJoin(idle, secure, PostIbEvents(d), [], x);
    }
  }

  /** A submission raises exactly one interrupt, and not before the end timestamp it is for is there. */
  lemma OneInterrupt(d: Device, id: nat, record: qword, ctx: Option<DrawContext>, flags: Flags, ts: word, rbTs: word,
                     o: Outside, payload: seq<Event>, v: Option<word>, k: nat)
    requires ValidDevice(d) && id < RB_LEVELS && (ctx.Some? ==> ValidContext(ctx.value)) && NoEventWrite(payload)
    requires k <= |SubmissionEvents(d, id, record, ctx, flags, ts, rbTs, o, payload)|
    ensures var es := SubmissionEvents(d, id, record, ctx, flags, ts, rbTs, o, payload);
      && Interrupts(es) == 1
      && (Interrupts(es[..k]) > 0 ==>
            WordAfter(es[..k], Eop(d, Announced(id, ctx)), v) == Some(if ctx.Some? then ts else rbTs))
  {
    var p, ref, t := SubmissionParts(d, id, record, ctx, flags, ts, rbTs, o, payload);
    var retire, x := RetireEvents(d, id, ctx, ts, rbTs), Eop(d, Announced(id, ctx));
    RetireAnnounces(d, id, ctx, ts, rbTs);
    NoInterrupt(t);
    InterruptsConcat(retire[1..], t);
    assert Leaves(t, x);
    hide RetireEvents, Leaves, NoEventWrite, Interrupts, WordAfter;
    Reassemble(p + ref, retire, t);
    FirstAnnounces(p + ref, retire[0], retire[1..] + t, x, v, k);
  }

  /** The first of the end timestamps is the announced one, and the only one that raises an interrupt. */
  lemma RetireAnnounces(d: Device, id: nat, ctx: Option<DrawContext>, ts: word, rbTs: word)
    requires ValidDevice(d) && id < RB_LEVELS && (ctx.Some? ==> ValidContext(ctx.value))
    ensures var retire := RetireEvents(d, id, ctx, ts, rbTs);
      && retire != [] && retire[0].EventWrite? && retire[0].kind >= IRQ
      && retire[0].addr == Eop(d, Announced(id, ctx)) && retire[0].value == (if ctx.Some? then ts else rbTs)
      && Interrupts(retire[1..]) == 0 && Leaves(retire[1..], Eop(d, Announced(id, ctx)))
  {
    var retire := RetireEvents(d, id, ctx, ts, rbTs);
    if ctx.Some? {
      assert retire[1..][..0] == [];
      assert Interrupts(retire[1..]) == Interrupts([]) + 0;
    }
  }

  // --------------------------------------------------------------------- preemption

  /** The CP's preemption settings: both enables, which yields count, and where it saves a context. */
  datatype Preemption = Preemption(global: word, local: word, yielding: word, saveLo: word, saveHi: word)

  function PreemptionStep(p: Preemption, e: Event): Preemption {
    match e
    case Other(op, pl) =>
      if |pl| != 1 then p
      else if op == CP_PREEMPT_ENABLE_GLOBAL then p.(global := pl[0])
      else if op == CP_PREEMPT_ENABLE_LOCAL then p.(local := pl[0])
      else if op == CP_YIELD_ENABLE then p.(yielding := pl[0])
      else p
    case RegWrite(reg, values) =>
      if |values| != 1 then p
      else if reg == A5XX_CP_CONTEXT_SWITCH_SAVE_ADDR_LO then p.(saveLo := values[0])
      else if reg == A5XX_CP_CONTEXT_SWITCH_SAVE_ADDR_HI then p.(saveHi := values[0])
      else p
    case _ => p
  }

  function PreemptionAfter(p: Preemption, es: seq<Event>): Preemption {
    Sequences.Fold(PreemptionStep, p, es)
  }

  lemma PreemptionMore(p: Preemption, es: seq<Event>, e: Event)
    ensures PreemptionAfter(p, es + [e]) == PreemptionStep(PreemptionAfter(p, es), e)
  {
    Sequences.FoldConcat(PreemptionStep, p, es, [e]);
    Sequences.FoldOne(PreemptionStep, PreemptionAfter(p, es), e);
  }

  /** KGSL_CONTEXT_SECURE, bit 17, is set, between `hi` above and `lo` below. */
  predicate SecureBetween(flags: word, hi: nat, lo: nat) { lo < 0x2_0000 && flags == hi * 0x4_0000 + 0x2_0000 + lo }

  /** The preemption style, bits 25 to 27, is 2: preemption inside buffers. */
  predicate FineGrainBetween(flags: word, hi: nat, lo: nat) {
    lo < 0x200_0000 && flags == hi * 0x1000_0000 + 0x400_0000 + lo
  }

  ghost predicate IsSecure(flags: word) { exists hi, lo :: SecureBetween(flags, hi, lo) }

  ghost predicate IsFineGrain(flags: word) { exists hi, lo :: FineGrainBetween(flags, hi, lo) }

  lemma SecureBit(flags: word)
    ensures IsSecure(flags) <==> flags / 0x2_0000 % 2 == 1
  {
    var q := flags / 0x2_0000;
    assert flags == q * 0x2_0000 + flags % 0x2_0000;
    if q % 2 == 1 {
      assert q == 2 * (q / 2) + 1;
      assert SecureBetween(flags, q / 2, flags % 0x2_0000);
    }
    forall hi: nat, lo: nat | SecureBetween(flags, hi, lo) ensures q % 2 == 1 {
      assert flags == (2 * hi + 1) * 0x2_0000 + lo;
      assert q == 2 * hi + 1;
    }
  }

  lemma FineGrainBits(flags: word)
    ensures IsFineGrain(flags) <==> flags / 0x200_0000 % 8 == 2
  {
    var q := flags / 0x200_0000;
    assert flags == q * 0x200_0000 + flags % 0x200_0000;
    if q % 8 == 2 {
      assert q == 8 * (q / 8) + 2;
      assert FineGrainBetween(flags, q / 8, flags % 0x200_0000);
    }
    forall hi: nat, lo: nat | FineGrainBetween(flags, hi, lo) ensures q % 8 == 2 {
      assert flags == (8 * hi + 2) * 0x200_0000 + lo;
      assert q == 8 * hi + 2;
    }
  }

  /** A context whose buffers may be preempted inside: one that asks for it and is not secure. */
  ghost predicate Preemptible(ctx: Option<DrawContext>) {
    ctx.Some? && IsFineGrain(ctx.value.flags) && !IsSecure(ctx.value.flags)
  }

  lemma StyleMeans(ctx: Option<DrawContext>)
    ensures PreemptStyle(ctx) == STYLE_FINEGRAIN <==> Preemptible(ctx)
  {
    if ctx.Some? {
      SecureBit(ctx.value.flags);
      FineGrainBits(ctx.value.flags);
    }
  }

  lemma ProloguePreemption(d: Device, record: qword, ctx: Option<DrawContext>, p: Preemption)
    requires d.preemption
    ensures PreemptionAfter(p, PreIbEvents(d, record, ctx))
         == if Preemptible(ctx) then Preemption(2, 1, 2, Lo(record), Hi(record))
            else Preemption(0, 0, 2, Lo(record), Hi(record))
  {
    StyleMeans(ctx);
    hide PreemptStyle, Preemptible, PreemptionAfter;
    var fine := PreemptStyle(ctx) == STYLE_FINEGRAIN;
    var g := Other(CP_PREEMPT_ENABLE_GLOBAL, [if fine then 2 else 0]);
    var l := Other(CP_PREEMPT_ENABLE_LOCAL, [if fine then 1 else 0]);
    var lo := RegWrite(A5XX_CP_CONTEXT_SWITCH_SAVE_ADDR_LO, [Lo(record)]);
    var hi := RegWrite(A5XX_CP_CONTEXT_SWITCH_SAVE_ADDR_HI, [Hi(record)]);
    var es := [g];
    PreemptionOne(p, g);
    PreemptionMore(p, es, SetProtected(false));
    es := es + [SetProtected(false)];
    PreemptionMore(p, es, lo);
    es := es + [lo];
    PreemptionMore(p, es, hi);
    es := es + [hi];
    PreemptionMore(p, es, SetProtected(true));
    es := es + [SetProtected(true)];
    PreemptionMore(p, es, l);
    es := es + [l];
    PreemptionMore(p, es, Other(CP_YIELD_ENABLE, [2]));
  }

  lemma PreemptionOne(p: Preemption, e: Event)
    ensures PreemptionAfter(p, [e]) == PreemptionStep(p, e)
  {
    Sequences.FoldOne(PreemptionStep, p, e);
  }

  /**
    How the CP may preempt a payload.  With preemption, inside its buffers if its context asks
    for that and is not secure, and else only between ring commands; and it saves to the
    ring's record, whatever was set before.
   */
  lemma PayloadPreemption(d: Device, id: nat, record: qword, ctx: Option<DrawContext>, flags: Flags, ts: word,
                          rbTs: word,
                          profile: Option<ProfileIb>, p: Preemption)
    requires ValidDevice(d) && id < RB_LEVELS && (ctx.Some? ==> ValidContext(ctx.value))
    ensures var q := PreemptionAfter(p, BeforePayload(d, id, record, ctx, flags, ts, rbTs, profile));
      if d.preemption then
        && (q.global, q.local) == (if Preemptible(ctx) then (2, 1) else (0, 0))
        && q.yielding == 2 && Join(q.saveLo, q.saveHi) == record
      else q == p
  {
    var pre := PreIbEvents(d, record, ctx);
    if d.preemption {
      ProloguePreemption(d, record, ctx, p);
      JoinLoHi(record);
    }
    var start := StartEvents(d, id, ctx, ts, rbTs);
    var secure, open := When(flags.secure, SetSecure(true)), When(flags.notProtected, SetProtected(false));
    assert NoSettings(ProfileEvents(profile)) && NoSettings(start) && NoSettings(secure) && NoSettings(open);
    assert d.preemption || PreemptionAfter(p, pre) == p;
    hide NoSettings, PreIbEvents, ProfileEvents, StartEvents, When, PreemptionAfter, Preemptible;
    SettingsKept(p, pre, ProfileEvents(profile));
    SettingsKept(p, pre + ProfileEvents(profile), start);
    SettingsKept(p, pre + ProfileEvents(profile) + start, secure);
    SettingsKept(p, pre + ProfileEvents(profile) + start + secure, open);
  }

  /** Nothing here is a preemption setting. */
  predicate NoSettings(es: seq<Event>) { forall i | 0 <= i < |es| :: !es[i].Other? && !es[i].RegWrite? }

  lemma SettingsKept(p: Preemption, a: seq<Event>, b: seq<Event>)
    requires NoSettings(b)
    ensures PreemptionAfter(p, a + b) == PreemptionAfter(p, a)
  {
    Sequences.FoldConcat(PreemptionStep, p, a, b);
    Sequences.FoldStill(PreemptionStep, PreemptionAfter(p, a), b);
  }

  // --------------------------------------------------------------------- protection

  /** A payload that leaves the mode alone, and writes registers only where its flags turn protection off. */
  predicate Permitted(flags: Flags, payload: seq<Event>) {
    forall i | 0 <= i < |payload| ::
      !payload[i].SetProtected? && (!flags.notProtected ==> !payload[i].RegWrite? && !payload[i].RegRmw?)
  }

  lemma GuardKept(g: Guard, a: seq<Event>, b: seq<Event>)
    requires Unguarded(b)
    ensures GuardAfter(g, a + b) == GuardAfter(g, a)
  {
    GuardConcat(g, a, b);
    GuardStill(GuardAfter(g, a), b);
  }

  lemma GuardSet(g: Guard, a: seq<Event>, c: bool, on: bool)
    ensures GuardAfter(g, a + When(c, SetProtected(on)))
         == if c then GuardAfter(g, a).(protected := on) else GuardAfter(g, a)
  {
    if c {
      GuardMore(g, a, SetProtected(on));
    } else {
      assert a + [] == a;
    }
  }

  lemma GuardMore(g: Guard, a: seq<Event>, e: Event)
    ensures GuardAfter(g, a + [e]) == GuardStep(GuardAfter(g, a), e)
  {
    GuardConcat(g, a, [e]);
    Sequences.FoldOne(GuardStep, GuardAfter(g, a), e);
  }

  /** The prologue writes its registers with protection off. */
  lemma PrologueGuard(d: Device, record: qword, ctx: Option<DrawContext>)
    ensures GuardAfter(Guard(true, false), PreIbEvents(d, record, ctx)) == Guard(true, false)
  {
    if d.preemption {
      var es := PreIbEvents(d, record, ctx);
      var g := Guard(true, false);
      var lo, hi := es[2], es[3];
      GuardStill(g, [es[0]]);
      GuardMore(g, [es[0]], SetProtected(false));
      GuardMore(g, [es[0]] + [SetProtected(false)], lo);
      GuardMore(g, [es[0]] + [SetProtected(false)] + [lo], hi);
      GuardMore(g, [es[0]] + [SetProtected(false)] + [lo] + [hi], SetProtected(true));
      GuardKept(g, [es[0]] + [SetProtected(false)] + [lo] + [hi] + [SetProtected(true)], [es[5]]);
      GuardKept(g, [es[0]] + [SetProtected(false)] + [lo] + [hi] + [SetProtected(true)] + [es[5]], [es[6]]);
    }
  }

  lemma PermittedGuard(flags: Flags, payload: seq<Event>)
    requires Permitted(flags, payload)
    ensures var g := Guard(!flags.notProtected, false); GuardAfter(g, payload) == g
  {
    Sequences.FoldStill(GuardStep, Guard(!flags.notProtected, false), payload);
  }

  lemma BeforeGuard(d: Device, id: nat, record: qword, ctx: Option<DrawContext>, flags: Flags, ts: word, rbTs: word,
                    profile: Option<ProfileIb>)
    requires ValidDevice(d) && id < RB_LEVELS && (ctx.Some? ==> ValidContext(ctx.value))
    ensures GuardAfter(Guard(true, false), BeforePayload(d, id, record, ctx, flags, ts, rbTs, profile))
         == Guard(!flags.notProtected, false)
  {
    var g, pre, start := Guard(true, false), PreIbEvents(d, record, ctx), StartEvents(d, id, ctx, ts, rbTs);
    var secure := When(flags.secure, SetSecure(true));
    assert Unguarded(ProfileEvents(profile)) && Unguarded(start) && Unguarded(secure);
    PrologueGuard(d, record, ctx);
    hide Unguarded, PreIbEvents, ProfileEvents, StartEvents, When, GuardAfter;
    GuardKept(g, pre, ProfileEvents(profile));
    GuardKept(g, pre + ProfileEvents(profile), start);
    GuardKept(g, pre + ProfileEvents(profile) + start, secure);
    GuardSet(g, pre + ProfileEvents(profile) + start + secure, flags.notProtected, false);
  }

  lemma AfterGuard(d: Device, id: nat, ctx: Option<DrawContext>, flags: Flags, ts: word, rbTs: word,
                   sequence: word, profile: Option<ProfileIb>)
    requires ValidDevice(d) && id < RB_LEVELS && (ctx.Some? ==> ValidContext(ctx.value))
    ensures GuardAfter(Guard(!flags.notProtected, false), AfterPayload(d, id, ctx, flags, ts, rbTs, sequence, profile))
         == Guard(true, false)
  {
    var g, retire := Guard(!flags.notProtected, false), RetireEvents(d, id, ctx, ts, rbTs);
    var protect := When(flags.notProtected, SetProtected(true));
    var wait := When(d.waitMemWrites, Other(CP_WAIT_MEM_WRITES, []));
    var idle, secure := When(flags.wfi, Other(CP_WAIT_FOR_IDLE, [])), When(flags.secure, SetSecure(false));
    var ref, prof, post := [MemWrite(RefWaitTs(d), [sequence])], ProfileEvents(profile), PostIbEvents(d);
    assert Unguarded(prof) && Unguarded(wait) && Unguarded(ref) && Unguarded(retire);
    assert Unguarded(idle) && Unguarded(secure) && Unguarded(post);
    assert [] + protect == protect && GuardAfter(g, []) == g;
    hide Unguarded, ProfileEvents, RetireEvents, PostIbEvents, When, GuardAfter;
    GuardSet(g, [], flags.notProtected, true);
    GuardKept(g, protect, prof);
    GuardKept(g, protect + prof, wait);
    GuardKept(g, protect + prof + wait, ref);
    GuardKept(g, protect + prof + wait + ref, retire);
    GuardKept(g, protect + prof + wait + ref + retire, idle);
    GuardKept(g, protect + prof + wait + ref + retire + idle, secure);
    GuardKept(g, protect + prof + wait + ref + retire + idle + secure, post);
  }

  /** No register write of a submission is refused, and protection is on again at its end. */
  lemma NoWriteRefused(d: Device, id: nat, record: qword, ctx: Option<DrawContext>, flags: Flags, ts: word, rbTs: word,
                       o: Outside, payload: seq<Event>)
    requires ValidDevice(d) && id < RB_LEVELS && (ctx.Some? ==> ValidContext(ctx.value)) && Permitted(flags, payload)
    ensures GuardAfter(Guard(true, false), SubmissionEvents(d, id, record, ctx, flags, ts, rbTs, o, payload))
         == Guard(true, false)
  {
    var b := BeforePayload(d, id, record, ctx, flags, ts, rbTs, o.pre);
    BeforeGuard(d, id, record, ctx, flags, ts, rbTs, o.pre);
    PermittedGuard(flags, payload);
    AfterGuard(d, id, ctx, flags, ts, rbTs, o.sequence, o.post);
    GuardConcat(Guard(true, false), b, payload);
    GuardConcat(Guard(true, false), b + payload, AfterPayload(d, id, ctx, flags, ts, rbTs, o.sequence, o.post));
  }

  // ------------------------------------------------------------- what is in flight

  /** Nothing here changes what is in flight. */
  predicate Idle(es: seq<Event>) {
    forall i | 0 <= i < |es| ::
      && !es[i].RunIb? && !es[i].MemWrite? && !es[i].EventWrite?
      && (es[i].Other? ==> es[i].op !in {CP_WAIT_MEM_WRITES, CP_WAIT_FOR_IDLE})
  }

  lemma FlightKept(f: Flight, a: seq<Event>, b: seq<Event>)
    requires Idle(b)
    ensures FlightAfter(f, a + b) == FlightAfter(f, a)
  {
    FlightConcat(f, a, b);
    Sequences.FoldStill(FlightStep, FlightAfter(f, a), b);
  }

  lemma FlightMore(f: Flight, a: seq<Event>, e: Event)
    ensures FlightAfter(f, a + [e]) == FlightStep(FlightAfter(f, a), e)
  {
    FlightConcat(f, a, [e]);
    Sequences.FoldOne(FlightStep, FlightAfter(f, a), e);
  }

  /** Without time stamp events none is early. */
  lemma {:induction false} NotEarly(f: Flight, es: seq<Event>)
    requires NoEventWrite(es)
    ensures FlightAfter(f, es).early == f.early
    decreases |es|
  {
    if es != [] {
      NotEarly(f, es[..|es| - 1]);
    }
  }

  lemma RetireFlight(f: Flight, d: Device, id: nat, ctx: Option<DrawContext>, ts: word, rbTs: word)
    requires ValidDevice(d) && id < RB_LEVELS && (ctx.Some? ==> ValidContext(ctx.value))
    ensures var f' := FlightAfter(f, RetireEvents(d, id, ctx, ts, rbTs));
      f'.early == (f.early || f.writing) && f'.writing == f.writing
  {
    var retire := RetireEvents(d, id, ctx, ts, rbTs);
    assert retire[..1] == [retire[0]] && [] + [retire[0]] == [retire[0]];
    FlightMore(f, [], retire[0]);
    if ctx.Some? {
      FlightMore(f, [retire[0]], retire[1]);
      assert retire == [retire[0]] + [retire[1]];
    }
  }

  lemma TailFlight(f: Flight, a: seq<Event>, d: Device, flags: Flags)
    ensures var idle, secure := When(flags.wfi, Other(CP_WAIT_FOR_IDLE, [])), When(flags.secure, SetSecure(false));
      var f' := FlightAfter(f, a + idle + secure + PostIbEvents(d));
      f'.early == FlightAfter(f, a).early && (flags.wfi ==> !f'.busy)
  {
    var idle, secure := When(flags.wfi, Other(CP_WAIT_FOR_IDLE, [])), When(flags.secure, SetSecure(false));
    assert Idle(secure) && Idle(PostIbEvents(d));
    FlightKept(f, a + idle, secure);
    FlightKept(f, a + idle + secure, PostIbEvents(d));
    if flags.wfi {
      FlightMore(f, a, Other(CP_WAIT_FOR_IDLE, []));
    } else {
      assert a + idle == a;
    }
  }

  /**
    On a device that halts at page faults no end timestamp is written while the payload's
    buffers may still be writing; and a submission that asks for it ends with the CP idle.
   */
  lemma EndsSettled(d: Device, id: nat, record: qword, ctx: Option<DrawContext>, flags: Flags, ts: word, rbTs: word,
                    o: Outside, payload: seq<Event>, f: Flight)
    requires ValidDevice(d) && id < RB_LEVELS && (ctx.Some? ==> ValidContext(ctx.value))
    ensures var f' := FlightAfter(f, SubmissionEvents(d, id, record, ctx, flags, ts, rbTs, o, payload));
      && (flags.wfi ==> !f'.busy)
      && (d.waitMemWrites && NoEventWrite(payload) ==> f'.early == f.early)
  {
    var b := BeforePayload(d, id, record, ctx, flags, ts, rbTs, o.pre) + payload;
    var m := When(flags.notProtected, SetProtected(true)) + ProfileEvents(o.post);
    var wait := When(d.waitMemWrites, Other(CP_WAIT_MEM_WRITES, []));
    var retire := RetireEvents(d, id, ctx, ts, rbTs);
    var ref := [MemWrite(RefWaitTs(d), [o.sequence])];
    BeforeIsSilent(d, id, record, ctx, flags, ts, rbTs, o.pre);
    assert NoEventWrite(m);
    var idle, secure := When(flags.wfi, Other(CP_WAIT_FOR_IDLE, [])), When(flags.secure, SetSecure(false));
    WaitFlight(f, b + m, d, ref[0]);
    hide BeforePayload, When, ProfileEvents, RetireEvents, PostIbEvents, FlightAfter;
    if NoEventWrite(payload) {
      SilentJoin(BeforePayload(d, id, record, ctx, flags, ts, rbTs, o.pre), payload, m, []);
      NotEarly(f, b + m);
    }
    FlightConcat(f, b + m + wait + ref, retire);
    RetireFlight(FlightAfter(f, b + m + wait + ref), d, id, ctx, ts, rbTs);
    TailFlight(f, b + m + wait + ref + retire, d, flags);
    FrameParts(b, When(flags.notProtected, SetProtected(true)), ProfileEvents(o.post), wait, ref, retire, idle, secure,
               PostIbEvents(d));
  }

  lemma FrameParts<T>(x: seq<T>, a: seq<T>, b: seq<T>, c: seq<T>, e: seq<T>, f: seq<T>, g: seq<T>, h: seq<T>, i: seq<T>)
    ensures x + (a + b + c + e + f + g + h + i) == x + (a + b) + c + e + f + g + h + i
  {
  }

  /** Where writes are waited for, none are under way afterwards. */
  lemma WaitFlight(f: Flight, a: seq<Event>, d: Device, ref: Event)
    requires ref.MemWrite?
    ensures var f' := FlightAfter(f, a + When(d.waitMemWrites, Other(CP_WAIT_MEM_WRITES, [])) + [ref]);
      f'.early == FlightAfter(f, a).early && (d.waitMemWrites ==> !f'.writing)
  {
    var wait := When(d.waitMemWrites, Other(CP_WAIT_MEM_WRITES, []));
    FlightMore(f, a + wait, ref);
    if d.waitMemWrites {
      FlightMore(f, a, Other(CP_WAIT_MEM_WRITES, []));
    } else {
      assert a + wait == a;
    }
  }
}
