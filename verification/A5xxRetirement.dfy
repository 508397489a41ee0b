/**
  Which commands have retired, in whole A5XX runs: the end timestamps that waiters look at,
  of every context and every ring.
 */
module A5xxRetirement {
  import opened Basics
  import Sequences
  import opened CommandProcessor
  import opened RingLife
  import opened Adreno
  import opened A5xxRingbuffer
  import opened A5xxSubmit
  import opened A5xxCommands
  import opened A5xxRuns
  import opened StreamEffects
  import opened A5xxEffects
  import opened A5xxPayloads

  /** The end timestamp of entry `index`, which was `v`, once the CP has executed all that a turn delivers. */
  function EndAfter(w: Site, active: Option<DrawContext>, q: Turn, x: RingState, y: RingState, index: nat,
                    v: Option<word>): Option<word>
  {
    if q.None? then v
    else
      var j := q.value;
      if CommandSent(active, j) && index == RbIndex(w.id) then Some(y.ts)
      else if CommandSent(active, j) && index == j.call.ctx.id then Some(j.call.ts)
      else if SwitchSent(w, active, j, x) && index == RbIndex(w.id) then Some(j.trace.mid.ts)
      else v
  }

  /** After `k` turns. */
  function EndAt(w: Site, active: Option<DrawContext>, qs: seq<Turn>, xs: seq<Point>, index: nat, v: Option<word>,
                 k: nat): Option<word>
    requires k <= |qs| < |xs|
    decreases k
  {
    if k == 0 then v
    else
      EndAfter(w, ActiveAt(active, qs, k - 1), qs[k - 1], xs[k - 1].ring, xs[k].ring, index,
               EndAt(w, active, qs, xs, index, v, k - 1))
  }

  lemma ReportLeaves(w: Site, sent: bool, o: Outside, at: nat, a: seq<Event>, x: nat, v: Option<word>)
    requires ValidSite(w)
    ensures WordAfter(a + Report(w, sent, o, at), x, v) == WordAfter(a, x, v)
  {
    WordConcat(a, Report(w, sent, o, at), x, v);
    LeavesWord(Report(w, sent, o, at), x, WordAfter(a, x, v));
  }

  lemma SwitchEnds(w: Site, active: Option<DrawContext>, j: Job, x: RingState, index: nat, v: Option<word>)
    requires ValidSite(w) && index < ENTRIES
    ensures WordAfter(FullSwitch(w, active, j, x), Eop(w.d, index), v)
         == if SwitchSent(w, active, j, x) && index == RbIndex(w.id) then Some(j.trace.mid.ts) else v
  {
    var c := j.call;
    SwitchIsQuiet(w.d, w.id, active, c.ctx);
    SubmissionTimestamps(w.d, w.id, w.record, None, F_NOTPROTECTED, 0, j.trace.mid.ts, c.o1,
                         SwitchEvents(w.d, w.id, active, c.ctx), index, v);
    ReportLeaves(w, SwitchSent(w, active, j, x), c.o1, j.trace.at1, SwitchPart(w, active, j, x), Eop(w.d, index), v);
  }

  lemma CommandEnds(w: Site, active: Option<DrawContext>, j: Job, y: RingState, index: nat, v: Option<word>)
    requires ValidSite(w) && ValidJob(j) && index < ENTRIES
    ensures WordAfter(FullCommand(w, active, j, y), Eop(w.d, index), v)
         == if CommandSent(active, j) && index == RbIndex(w.id) then Some(y.ts)
            else if CommandSent(active, j) && index == j.call.ctx.id then Some(j.call.ts)
            else v
  {
    var c := j.call;
    CommandIsQuiet(w.d, j.p, j.list, c.flags);
    SubmissionTimestamps(w.d, w.id, w.record, Some(c.ctx), c.flags, c.ts, y.ts, c.o2,
                         CommandEvents(w.d, j.p, j.list, c.flags), index, v);
    ReportLeaves(w, CommandSent(active, j), c.o2, j.trace.at2, CommandPart(w, active, j, y), Eop(w.d, index), v);
  }

  lemma BurstEnds(w: Site, active: Option<DrawContext>, j: Job, x: RingState, y: RingState, index: nat, v: Option<word>)
    requires ValidSite(w) && ValidJob(j) && index < ENTRIES
    ensures WordAfter(Burst(w, active, j, x, y), Eop(w.d, index), v) == EndAfter(w, active, Some(j), x, y, index, v)
  {
    hide FullSwitch, FullCommand, WordAfter;
    var v' := WordAfter(FullSwitch(w, active, j, x), Eop(w.d, index), v);
    SwitchEnds(w, active, j, x, index, v);
    CommandEnds(w, active, j, y, index, v');
    WordConcat(FullSwitch(w, active, j, x), FullCommand(w, active, j, y), Eop(w.d, index), v);
  }

  lemma {:induction false} RunEnds(w: Site, active: Option<DrawContext>, qs: seq<Turn>, xs: seq<Point>, index: nat,
                                   v: Option<word>, k: nat)
    requires ValidSite(w) && Ran(w, active, qs, xs) && index < ENTRIES && k <= |qs|
    ensures WordAfter(Joined(Bursts(w, active, qs, xs)[..k]), Eop(w.d, index), v)
         == EndAt(w, active, qs, xs, index, v, k)
    decreases k
  {
    hide WordAfter, TurnEvents, EndAfter, Eop, Bursts, TurnTaken;
    var bursts, y := Bursts(w, active, qs, xs), Eop(w.d, index);
    if k == 0 {
      NothingEnds(y, v);
      assert bursts[..0] == [];
    } else {
      var now, v' := ActiveAt(active, qs, k - 1), EndAt(w, active, qs, xs, index, v, k - 1);
      RunEnds(w, active, qs, xs, index, v, k - 1);
      JoinedMore(bursts, k - 1);
      TurnOf(w, active, qs, xs, k - 1);
      hide Joined;
      WordConcat(Joined(bursts[..k - 1]), bursts[k - 1], y, v);
      TurnEnds(w, now, qs[k - 1], xs[k - 1].ring, xs[k].ring, index, v');
    }
  }

  lemma NothingEnds(x: nat, v: Option<word>)
    ensures WordAfter([], x, v) == v
  {
  }

  lemma TurnOf(w: Site, active: Option<DrawContext>, qs: seq<Turn>, xs: seq<Point>, k: nat)
    requires ValidSite(w) && Ran(w, active, qs, xs) && k < |qs|
    ensures qs[k].Some? ==> ValidJob(qs[k].value)
    ensures Bursts(w, active, qs, xs)[k]
         == TurnEvents(w, ActiveAt(active, qs, k), qs[k], xs[k].ring, xs[k + 1].ring)
  {
    assert TurnTaken(w, ActiveAt(active, qs, k), qs[k], xs[k], xs[k + 1]);
  }

  lemma TurnEnds(w: Site, active: Option<DrawContext>, q: Turn, x: RingState, y: RingState, index: nat, v: Option<word>)
    requires ValidSite(w) && (q.Some? ==> ValidJob(q.value)) && index < ENTRIES
    ensures WordAfter(TurnEvents(w, active, q, x, y), Eop(w.d, index), v) == EndAfter(w, active, q, x, y, index, v)
  {
    if q.Some? {
      BurstEnds(w, active, q.value, x, y, index, v);
    } else {
      LeavesWord([], Eop(w.d, index), v);
    }
  }

  /** The CP has executed everything. */
  ghost predicate Drained(x: Point) { ValidPoint(x) && Pending(Seen(x)) == Some([]) }

  /**
    When the CP has executed everything, the end timestamp of every context is that of its last
    command that was delivered, and the end timestamp of the ring that of its last submission;
    nobody else's has changed, whatever was refused.
   */
  lemma EverythingRetires(w: Site, active: Option<DrawContext>, qs: seq<Turn>, xs: seq<Point>, index: nat,
                          v: Option<word>, k: nat)
    requires ValidSite(w) && Ran(w, active, qs, xs) && index < ENTRIES && k <= |qs| && Given(Seen(xs[0]), [])
    requires Drained(xs[k])
    ensures WordAfter(xs[k].done, Eop(w.d, index), v) == EndAt(w, active, qs, xs, index, v, k)
  {
    RunDelivers(w, active, qs, xs, k);
    RunEnds(w, active, qs, xs, index, v, k);
    assert xs[k].done + [] == xs[k].done;
  }

  // -------------------------------------------------------------- started and ended

  /** All the stream writes to the word at `x` is `value`. */
  predicate WritesOnly(es: seq<Event>, x: nat, value: word) {
    forall i | 0 <= i < |es| :: WordStep(x)(None, es[i]) == None || WordStep(x)(None, es[i]) == Some(value)
  }

  lemma {:induction false} OldOrNew(es: seq<Event>, x: nat, v: Option<word>, value: word, k: nat)
    requires WritesOnly(es, x, value) && k <= |es|
    ensures WordAfter(es[..k], x, v) == v || WordAfter(es[..k], x, v) == Some(value)
    decreases k
  {
    if k > 0 {
      OldOrNew(es, x, v, value, k - 1);
      assert es[..k] == es[..k - 1] + [es[k - 1]];
      WordConcat(es[..k - 1], [es[k - 1]], x, v);
      WordOne(es[k - 1], x, WordAfter(es[..k - 1], x, v));
    }
  }

  lemma OnlyJoin(a: seq<Event>, b: seq<Event>, c: seq<Event>, x: nat, value: word)
    requires WritesOnly(a, x, value) && WritesOnly(b, x, value) && WritesOnly(c, x, value)
    ensures WritesOnly(a + b + c, x, value)
  {
  }

  lemma LeavesOnly(es: seq<Event>, x: nat, value: word)
    requires Leaves(es, x)
    ensures WritesOnly(es, x, value)
  {
  }

  /** What a word and its twin can hold at any point of a submission: the end is never ahead of the start. */
  predicate InOrder(start: Option<word>, end: Option<word>, old': Option<word>, new': Option<word>) {
    (end == old' && (start == old' || start == new')) || (end == new' && start == new')
  }

  /** The entry is one that the submission stamps. */
  predicate Own(w: Site, ctx: Option<DrawContext>, index: nat) {
    index == RbIndex(w.id) || (ctx.Some? && index == ctx.value.id)
  }

  /** The value it stamps it with. */
  function Value(w: Site, ctx: Option<DrawContext>, ts: word, rbTs: word, index: nat): word {
    if index == RbIndex(w.id) then rbTs else ts
  }

  lemma BeforeWritesOnly(w: Site, ctx: Option<DrawContext>, flags: Flags, ts: word, rbTs: word,
                         profile: Option<ProfileIb>, index: nat)
    requires ValidSite(w) && (ctx.Some? ==> ValidContext(ctx.value)) && index < ENTRIES
    ensures var b := BeforePayload(w.d, w.id, w.record, ctx, flags, ts, rbTs, profile);
      && WritesOnly(b, Sop(w.d, index), Value(w, ctx, ts, rbTs, index))
      && (!Own(w, ctx, index) ==> Leaves(b, Sop(w.d, index)))
  {
    var x, value := Sop(w.d, index), Value(w, ctx, ts, rbTs, index);
    var pre, start := PreIbEvents(w.d, w.record, ctx), StartEvents(w.d, w.id, ctx, ts, rbTs);
    var secure, open := When(flags.secure, SetSecure(true)), When(flags.notProtected, SetProtected(false));
    BeforeLeaves(w.d, w.record, ctx, flags, profile, x);
    StartWritesOnly(w, ctx, ts, rbTs, index);
    assert Leaves([], x);
    hide Leaves, WritesOnly, PreIbEvents, ProfileEvents, StartEvents, When;
    LeavesOnly(pre + ProfileEvents(profile), x, value);
    LeavesOnly(secure + open, x, value);
    OnlyJoin(pre + ProfileEvents(profile), start, secure + open, x, value);
    if !Own(w, ctx, index) {
      LeavesJoin(pre + ProfileEvents(profile), start, secure + open, [], x);
    }
    Sequences.Associative(pre + ProfileEvents(profile) + start, secure, open);
  }

  lemma StartWritesOnly(w: Site, ctx: Option<DrawContext>, ts: word, rbTs: word, index: nat)
    requires ValidSite(w) && (ctx.Some? ==> ValidContext(ctx.value)) && index < ENTRIES
    ensures var start := StartEvents(w.d, w.id, ctx, ts, rbTs);
      && WritesOnly(start, Sop(w.d, index), Value(w, ctx, ts, rbTs, index))
      && (!Own(w, ctx, index) ==> Leaves(start, Sop(w.d, index)))
  {
  }

  lemma AfterWritesOnly(w: Site, ctx: Option<DrawContext>, flags: Flags, ts: word, rbTs: word, o: Outside, index: nat)
    requires ValidSite(w) && (ctx.Some? ==> ValidContext(ctx.value)) && index < ENTRIES
    ensures var a := AfterPayload(w.d, w.id, ctx, flags, ts, rbTs, o.sequence, o.post);
      && WritesOnly(a, Eop(w.d, index), Value(w, ctx, ts, rbTs, index)) && Leaves(a, Sop(w.d, index))
      && (!Own(w, ctx, index) ==> Leaves(a, Eop(w.d, index)))
  {
    var x, y, value := Eop(w.d, index), Sop(w.d, index), Value(w, ctx, ts, rbTs, index);
    var retire := RetireEvents(w.d, w.id, ctx, ts, rbTs);
    var a, c := AroundRetire(w, ctx, flags, ts, rbTs, o, x);
    var a', c' := AroundRetire(w, ctx, flags, ts, rbTs, o, y);
    assert WritesOnly(retire, x, value) && Leaves(retire, y) && (!Own(w, ctx, index) ==> Leaves(retire, x));
    assert Leaves([], x) && Leaves([], y);
    hide Leaves, WritesOnly, RetireEvents, AfterPayload;
    LeavesOnly(a, x, value);
    LeavesOnly(c, x, value);
    OnlyJoin(a, retire, c, x, value);
    LeavesJoin(a', retire, c', [], y);
    if !Own(w, ctx, index) {
      LeavesJoin(a, retire, c, [], x);
    }
  }

  /** Around the end timestamps nothing is written to any timestamp. */
  lemma AroundRetire(w: Site, ctx: Option<DrawContext>, flags: Flags, ts: word, rbTs: word, o: Outside, x: nat)
    returns (a: seq<Event>, c: seq<Event>)
    requires ValidSite(w) && (ctx.Some? ==> ValidContext(ctx.value)) && x != RefWaitTs(w.d)
    ensures AfterPayload(w.d, w.id, ctx, flags, ts, rbTs, o.sequence, o.post)
         == a + RetireEvents(w.d, w.id, ctx, ts, rbTs) + c
    ensures Leaves(a, x) && Leaves(c, x)
  {
    var protect := When(flags.notProtected, SetProtected(true));
    var wait := When(w.d.waitMemWrites, Other(CP_WAIT_MEM_WRITES, []));
    var idle, secure := When(flags.wfi, Other(CP_WAIT_FOR_IDLE, [])), When(flags.secure, SetSecure(false));
    var ref, prof, post := [MemWrite(RefWaitTs(w.d), [o.sequence])], ProfileEvents(o.post), PostIbEvents(w.d);
    assert Leaves(protect, x) && Leaves(prof, x) && Leaves(wait, x) && Leaves(ref, x);
    assert Leaves(idle, x) && Leaves(secure, x) && Leaves(post, x) && Leaves([], x);
    LeavesJoin(protect, prof, wait, ref, x);
    LeavesJoin(idle, secure, post, [], x);
    hide Leaves, When, ProfileEvents, RetireEvents, PostIbEvents;
    a, c := protect + prof + wait + ref, idle + secure + post;
    Sequences.Associative(a + RetireEvents(w.d, w.id, ctx, ts, rbTs), idle + secure, post);
    Sequences.Associative(a + RetireEvents(w.d, w.id, ctx, ts, rbTs), idle, secure);
  }

  /** At any point of a submission its end timestamps are not ahead of its start timestamps. */
  lemma SubmissionInOrder(w: Site, ctx: Option<DrawContext>, flags: Flags, ts: word, rbTs: word, o: Outside,
                          payload: seq<Event>, index: nat, v: Option<word>, k: nat)
    requires ValidSite(w) && (ctx.Some? ==> ValidContext(ctx.value)) && index < ENTRIES
    requires LeavesTimestamps(w.d, payload)
    requires k <= |SubmissionEvents(w.d, w.id, w.record, ctx, flags, ts, rbTs, o, payload)|
    ensures var es := SubmissionEvents(w.d, w.id, w.record, ctx, flags, ts, rbTs, o, payload)[..k];
      InOrder(WordAfter(es, Sop(w.d, index), v), WordAfter(es, Eop(w.d, index), v), v,
              Stamped(w.id, ctx, ts, rbTs, index, v))
  {
    var b := BeforePayload(w.d, w.id, w.record, ctx, flags, ts, rbTs, o.pre);
    var a := AfterPayload(w.d, w.id, ctx, flags, ts, rbTs, o.sequence, o.post);
    BeforeWritesOnly(w, ctx, flags, ts, rbTs, o.pre, index);
    AfterWritesOnly(w, ctx, flags, ts, rbTs, o, index);
    NothingRetiredEarly(w.d, w.id, w.record, ctx, flags, ts, rbTs, o, payload, index, v, 0);
    BeforeLeavesEnds(w.d, w.id, w.record, ctx, flags, ts, rbTs, o.pre, index);
    assert Leaves(payload, Sop(w.d, index)) && Leaves(payload, Eop(w.d, index));
    hide BeforePayload, AfterPayload, Leaves, WritesOnly, WordAfter, Sop, Eop, LeavesTimestamps, Own, Value, Stamped;
    FrameInOrder(w, ctx, ts, rbTs, b, payload, a, index, v, k);
  }

  lemma FrameInOrder(w: Site, ctx: Option<DrawContext>, ts: word, rbTs: word, b: seq<Event>, payload: seq<Event>,
                     a: seq<Event>, index: nat, v: Option<word>, k: nat)
    requires ValidSite(w) && index < ENTRIES && k <= |b + payload + a|
    requires WritesOnly(b, Sop(w.d, index), Value(w, ctx, ts, rbTs, index)) && Leaves(b, Eop(w.d, index))
    requires Leaves(payload, Sop(w.d, index)) && Leaves(payload, Eop(w.d, index)) && Leaves(a, Sop(w.d, index))
    requires WritesOnly(a, Eop(w.d, index), Value(w, ctx, ts, rbTs, index))
    requires !Own(w, ctx, index) ==> Leaves(b, Sop(w.d, index)) && Leaves(a, Eop(w.d, index))
    requires WordAfter(b, Sop(w.d, index), v) == Stamped(w.id, ctx, ts, rbTs, index, v)
    ensures var es := (b + payload + a)[..k];
      InOrder(WordAfter(es, Sop(w.d, index), v), WordAfter(es, Eop(w.d, index), v), v,
              Stamped(w.id, ctx, ts, rbTs, index, v))
  {
    var y, n := Eop(w.d, index), |b + payload|;
    assert Leaves(b + payload, y);
    hide WritesOnly, WordAfter, Sop, Eop, Own, Value, Stamped;
    if k <= n {
      assert (b + payload + a)[..k] == (b + payload)[..k];
      assert Leaves((b + payload)[..k], y);
      LeavesWord((b + payload)[..k], y, v);
      StartOldOrNew(w, ctx, ts, rbTs, b, payload, index, v, k);
    } else {
      assert (b + payload + a)[..k] == (b + payload) + a[..k - n];
      LeavesWord(b + payload, y, v);
      EndOldOrNew(w, ctx, ts, rbTs, b, payload, a, index, v, k - n);
    }
  }

  lemma StartOldOrNew(w: Site, ctx: Option<DrawContext>, ts: word, rbTs: word, b: seq<Event>, payload: seq<Event>,
                      index: nat, v: Option<word>, k: nat)
    requires ValidSite(w) && index < ENTRIES && k <= |b + payload|
    requires WritesOnly(b, Sop(w.d, index), Value(w, ctx, ts, rbTs, index)) && Leaves(payload, Sop(w.d, index))
    requires !Own(w, ctx, index) ==> Leaves(b, Sop(w.d, index))
    ensures var s := WordAfter((b + payload)[..k], Sop(w.d, index), v);
      s == v || s == Stamped(w.id, ctx, ts, rbTs, index, v)
  {
    var x, value := Sop(w.d, index), Value(w, ctx, ts, rbTs, index);
    if Own(w, ctx, index) {
      LeavesOnly(payload, x, value);
      assert WritesOnly([], x, value) && b + payload + [] == b + payload;
      OnlyJoin(b, payload, [], x, value);
      OldOrNew(b + payload, x, v, value, k);
    } else {
      assert Leaves((b + payload)[..k], x);
      LeavesWord((b + payload)[..k], x, v);
    }
  }

  lemma EndOldOrNew(w: Site, ctx: Option<DrawContext>, ts: word, rbTs: word, b: seq<Event>, payload: seq<Event>,
                    a: seq<Event>, index: nat, v: Option<word>, k: nat)
    requires ValidSite(w) && index < ENTRIES && k <= |a|
    requires WordAfter(b, Sop(w.d, index), v) == Stamped(w.id, ctx, ts, rbTs, index, v)
    requires Leaves(payload, Sop(w.d, index)) && Leaves(a, Sop(w.d, index))
    requires WordAfter(b + payload, Eop(w.d, index), v) == v
    requires WritesOnly(a, Eop(w.d, index), Value(w, ctx, ts, rbTs, index))
    requires !Own(w, ctx, index) ==> Leaves(a, Eop(w.d, index))
    ensures var es := (b + payload) + a[..k];
      InOrder(WordAfter(es, Sop(w.d, index), v), WordAfter(es, Eop(w.d, index), v), v,
              Stamped(w.id, ctx, ts, rbTs, index, v))
  {
    var x, y, value := Sop(w.d, index), Eop(w.d, index), Value(w, ctx, ts, rbTs, index);
    WordConcat(b + payload, a[..k], x, v);
    WordConcat(b, payload, x, v);
    LeavesWord(payload, x, WordAfter(b, x, v));
    assert Leaves(a[..k], x);
    LeavesWord(a[..k], x, WordAfter(b + payload, x, v));
    WordConcat(b + payload, a[..k], y, v);
    if Own(w, ctx, index) {
      OldOrNew(a, y, v, value, k);
    } else {
      assert Leaves(a[..k], y);
      LeavesWord(a[..k], y, v);
    }
  }

  /** A submission and its report, if it was sent. */
  lemma SentInOrder(w: Site, sent: bool, ctx: Option<DrawContext>, flags: Flags, ts: word, rbTs: word, o: Outside,
                    payload: seq<Event>, at: nat, index: nat, v: Option<word>, e: seq<Event>)
    requires ValidSite(w) && (ctx.Some? ==> ValidContext(ctx.value)) && index < ENTRIES
    requires LeavesTimestamps(w.d, payload)
    requires var es := SubmissionEvents(w.d, w.id, w.record, ctx, flags, ts, rbTs, o, payload);
      e <= (if sent then es else []) + Report(w, sent, o, at)
    ensures InOrder(WordAfter(e, Sop(w.d, index), v), WordAfter(e, Eop(w.d, index), v), v,
                    if sent then Stamped(w.id, ctx, ts, rbTs, index, v) else v)
  {
    var es := SubmissionEvents(w.d, w.id, w.record, ctx, flags, ts, rbTs, o, payload);
    var x, y := Sop(w.d, index), Eop(w.d, index);
    if !sent {
      assert e == [];
    } else if |e| <= |es| {
      assert e == es[..|e|];
      SubmissionInOrder(w, ctx, flags, ts, rbTs, o, payload, index, v, |e|);
    } else {
      var r := e[|es|..];
      assert e == es + r && Leaves(r, x) && Leaves(r, y);
      SubmissionTimestamps(w.d, w.id, w.record, ctx, flags, ts, rbTs, o, payload, index, v);
      hide SubmissionEvents, Leaves, WordAfter;
      WordConcat(es, r, x, v);
      WordConcat(es, r, y, v);
      LeavesWord(r, x, WordAfter(es, x, v));
      LeavesWord(r, y, WordAfter(es, y, v));
    }
  }

  lemma SwitchInOrder(w: Site, active: Option<DrawContext>, j: Job, x: RingState, index: nat, v: Option<word>,
                      e: seq<Event>)
    requires ValidSite(w) && index < ENTRIES && index != RbIndex(w.id) && e <= FullSwitch(w, active, j, x)
    ensures WordAfter(e, Sop(w.d, index), v) == v && WordAfter(e, Eop(w.d, index), v) == v
  {
    var c := j.call;
    SwitchIsQuiet(w.d, w.id, active, c.ctx);
    hide SwitchEvents, SubmissionEvents, WordAfter, LeavesTimestamps;
    SentInOrder(w, SwitchSent(w, active, j, x), None, F_NOTPROTECTED, 0, j.trace.mid.ts, c.o1,
                SwitchEvents(w.d, w.id, active, c.ctx), j.trace.at1, index, v, e);
  }

  lemma CommandInOrder(w: Site, active: Option<DrawContext>, j: Job, x: RingState, y: RingState, index: nat,
                       v: Option<word>, e: seq<Event>)
    requires ValidSite(w) && ValidJob(j) && index < ENTRIES && index != RbIndex(w.id)
    requires e <= FullCommand(w, active, j, y)
    ensures InOrder(WordAfter(e, Sop(w.d, index), v), WordAfter(e, Eop(w.d, index), v), v,
                    EndAfter(w, active, Some(j), x, y, index, v))
  {
    var c := j.call;
    CommandIsQuiet(w.d, j.p, j.list, c.flags);
    hide CommandEvents, SubmissionEvents, WordAfter, LeavesTimestamps;
    SentInOrder(w, CommandSent(active, j), Some(c.ctx), c.flags, c.ts, y.ts, c.o2,
                CommandEvents(w.d, j.p, j.list, c.flags), j.trace.at2, index, v, e);
  }

  lemma Still(v: Option<word>, new': Option<word>)
    ensures InOrder(v, v, v, new')
  {
  }

  lemma BurstInOrder(w: Site, active: Option<DrawContext>, j: Job, x: RingState, y: RingState, index: nat,
                     v: Option<word>, e: seq<Event>)
    requires ValidSite(w) && ValidJob(j) && index < ENTRIES && index != RbIndex(w.id) && e <= Burst(w, active, j, x, y)
    ensures InOrder(WordAfter(e, Sop(w.d, index), v), WordAfter(e, Eop(w.d, index), v), v,
                    EndAfter(w, active, Some(j), x, y, index, v))
  {
    hide FullSwitch, FullCommand, WordAfter, EndAfter, Sop, Eop, ValidJob, InOrder;
    var first, second := FullSwitch(w, active, j, x), FullCommand(w, active, j, y);
    SplitPrefix(e, first, second);
    if e <= first {
      SwitchInOrder(w, active, j, x, index, v, e);
      Still(v, EndAfter(w, active, Some(j), x, y, index, v));
    } else {
      SwitchInOrder(w, active, j, x, index, v, first);
      CommandInOrder(w, active, j, x, y, index, v, e[|first|..]);
      InOrderOn(first, e[|first|..], Sop(w.d, index), Eop(w.d, index), v, EndAfter(w, active, Some(j), x, y, index, v));
    }
  }

  lemma SplitPrefix<T>(e: seq<T>, a: seq<T>, b: seq<T>)
    requires e <= a + b
    ensures e <= a || (|a| <= |e| && e == a + e[|a|..] && e[|a|..] <= b)
  {
    if |a| <= |e| {
      assert e[..|a|] == (a + b)[..|a|] == a;
    }
  }

  lemma InOrderOn(first: seq<Event>, rest: seq<Event>, x: nat, y: nat, v: Option<word>, new': Option<word>)
    requires WordAfter(first, x, v) == v && WordAfter(first, y, v) == v
    requires InOrder(WordAfter(rest, x, v), WordAfter(rest, y, v), v, new')
    ensures InOrder(WordAfter(first + rest, x, v), WordAfter(first + rest, y, v), v, new')
  {
    WordConcat(first, rest, x, v);
    WordConcat(first, rest, y, v);
  }

  lemma TurnInOrder(w: Site, active: Option<DrawContext>, q: Turn, x: RingState, y: RingState, index: nat,
                    v: Option<word>, e: seq<Event>)
    requires ValidSite(w) && (q.Some? ==> ValidJob(q.value)) && index < ENTRIES && index != RbIndex(w.id)
    requires e <= TurnEvents(w, active, q, x, y)
    ensures InOrder(WordAfter(e, Sop(w.d, index), v), WordAfter(e, Eop(w.d, index), v), v,
                    EndAfter(w, active, q, x, y, index, v))
  {
    if q.Some? {
      BurstInOrder(w, active, q.value, x, y, index, v, e);
    } else {
      assert e == [];
    }
  }

  lemma TurnStarts(w: Site, active: Option<DrawContext>, q: Turn, x: RingState, y: RingState, index: nat,
                   v: Option<word>)
    requires ValidSite(w) && (q.Some? ==> ValidJob(q.value)) && index < ENTRIES && index != RbIndex(w.id)
    ensures WordAfter(TurnEvents(w, active, q, x, y), Sop(w.d, index), v) == EndAfter(w, active, q, x, y, index, v)
  {
    hide WordAfter, TurnEvents, EndAfter;
    TurnEnds(w, active, q, x, y, index, v);
    TurnInOrder(w, active, q, x, y, index, v, TurnEvents(w, active, q, x, y));
  }

  lemma {:induction false} RunStarts(w: Site, active: Option<DrawContext>, qs: seq<Turn>, xs: seq<Point>, index: nat,
                                     v: Option<word>, k: nat)
    requires ValidSite(w) && Ran(w, active, qs, xs) && index < ENTRIES && index != RbIndex(w.id) && k <= |qs|
    ensures WordAfter(Joined(Bursts(w, active, qs, xs)[..k]), Sop(w.d, index), v)
         == EndAt(w, active, qs, xs, index, v, k)
    decreases k
  {
    hide WordAfter, TurnEvents, EndAfter, Sop, Eop, Bursts, TurnTaken;
    var bursts, y := Bursts(w, active, qs, xs), Sop(w.d, index);
    if k == 0 {
      NothingEnds(y, v);
      assert bursts[..0] == [];
    } else {
      var now, v' := ActiveAt(active, qs, k - 1), EndAt(w, active, qs, xs, index, v, k - 1);
      RunStarts(w, active, qs, xs, index, v, k - 1);
      JoinedMore(bursts, k - 1);
      TurnOf(w, active, qs, xs, k - 1);
      hide Joined;
      WordConcat(Joined(bursts[..k - 1]), bursts[k - 1], y, v);
      TurnStarts(w, now, qs[k - 1], xs[k - 1].ring, xs[k].ring, index, v');
    }
  }

  /**
    Consumed before retired, for every context and at any time of any run: what a context's end
    timestamp shows is how far its commands had got after some turn `j`, and its start
    timestamp shows the same, or what the next turn delivered.
   */
  lemma StartedBeforeEnded(w: Site, active: Option<DrawContext>, qs: seq<Turn>, xs: seq<Point>, index: nat,
                           v: Option<word>, k: nat) returns (j: nat)
    requires ValidSite(w) && Ran(w, active, qs, xs) && index < ENTRIES && index != RbIndex(w.id) && k <= |qs|
    requires Given(Seen(xs[0]), [])
    ensures j <= k && WordAfter(xs[k].done, Eop(w.d, index), v) == EndAt(w, active, qs, xs, index, v, j)
    ensures var started := WordAfter(xs[k].done, Sop(w.d, index), v);
      started == EndAt(w, active, qs, xs, index, v, j)
      || (j < k && started == EndAt(w, active, qs, xs, index, v, j + 1))
  {
    hide Burst, EndAfter, Served, Respected, Given;
    var bursts := Bursts(w, active, qs, xs);
    RunDelivers(w, active, qs, xs, k);
    DoneIsPrefix(Seen(xs[k]), Joined(bursts[..k]));
    var e;
    j, e := PrefixEnds(bursts, k, xs[k].done);
    RunEnds(w, active, qs, xs, index, v, j);
    RunStarts(w, active, qs, xs, index, v, j);
    if e == [] {
      assert xs[k].done == Joined(bursts[..j]);
    } else {
      var now, v' := ActiveAt(active, qs, j), EndAt(w, active, qs, xs, index, v, j);
      assert TurnTaken(w, now, qs[j], xs[j], xs[j + 1]);
      hide WordAfter;
      WordConcat(Joined(bursts[..j]), e, Sop(w.d, index), v);
      WordConcat(Joined(bursts[..j]), e, Eop(w.d, index), v);
      TurnInOrder(w, now, qs[j], xs[j].ring, xs[j + 1].ring, index, v', e);
      if WordAfter(e, Eop(w.d, index), v') != v' {
        j := j + 1;
      }
    }
  }
}
