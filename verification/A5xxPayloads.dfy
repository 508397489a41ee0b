/**
  What the payloads of A5XX submissions leave behind: context switches and commands.
 */
module A5xxPayloads {
  import opened Basics
  import Sequences
  import opened CommandProcessor
  import opened Reservations
  import opened Adreno
  import opened A5xxPackets
  import opened A5xxRingbuffer
  import opened IndirectBuffers
  import opened A5xxSubmit
  import opened A5xxCommands
  import opened StreamEffects
  import opened A5xxEffects

  // ----------------------------------------------------------------------- commands

  /** Only buffers and packets whose effects are elsewhere. */
  predicate BuffersOnly(es: seq<Event>) { forall i | 0 <= i < |es| :: es[i].RunIb? || es[i].Other? }

  lemma BuffersJoin(a: seq<Event>, b: seq<Event>, c: seq<Event>, d: seq<Event>)
    requires BuffersOnly(a) && BuffersOnly(b) && BuffersOnly(c) && BuffersOnly(d)
    ensures BuffersOnly(a + b + c + d) && a + b + c + [] == a + b + c
  {
  }

  lemma CommandBuffers(d: Device, p: Profiling, list: seq<Ib>, flags: Flags)
    requires ValidProfiling(p)
    ensures BuffersOnly(CommandEvents(d, p, list, flags))
  {
    var list' := if flags.skip then [] else list;
    var a := KernelProfileEvents(d, flags.kernelProfile, p.kernelStarted);
    var b := UserProfileEvents(p, flags.userProfile, 0);
    var e := KernelProfileEvents(d, flags.kernelProfile, p.kernelRetired);
    var f := UserProfileEvents(p, flags.userProfile, 1);
    var mode, enable := [Other(CP_SET_RENDER_MODE, [0, 0, 0, 0, 0])], [Other(CP_YIELD_ENABLE, [1])];
    KeptRunsOnly(list', flags.preamble);
    assert BuffersOnly(a) && BuffersOnly(b) && BuffersOnly(e) && BuffersOnly(f);
    assert BuffersOnly(mode) && BuffersOnly(enable);
    hide BuffersOnly, KernelProfileEvents, UserProfileEvents, KeptEvents;
    BuffersJoin(a, b, KeptEvents(list', flags.preamble), mode);
    BuffersJoin(a + b + KeptEvents(list', flags.preamble) + mode, enable, e, f);
  }

  /** A command's own stream writes no timestamp and no register, and raises no interrupt. */
  lemma CommandIsQuiet(d: Device, p: Profiling, list: seq<Ib>, flags: Flags)
    requires ValidDevice(d) && ValidProfiling(p)
    ensures var es := CommandEvents(d, p, list, flags);
      LeavesTimestamps(d, es) && NoEventWrite(es) && Permitted(flags, es)
  {
    CommandBuffers(d, p, list, flags);
  }

  // ------------------------------------------------------------------ time stamps

  /** The kept buffers all run, and store no counter. */
  lemma {:induction false} KeptStamp(list: seq<Ib>, preamble: bool, x: qword, s: Stamp)
    ensures StampAfter(KeptEvents(list, preamble), x, s) == s.(runs := s.runs + |Plan(list, preamble)|)
    decreases |list|
  {
    if list != [] {
      var n := |list| - 1;
      KeptStamp(list[..n], preamble, x, s);
      StampConcat(KeptEvents(list[..n], preamble), ListedEvents(list[n], preamble), x, s);
      ListedStamp(list[n], preamble, x, StampAfter(KeptEvents(list[..n], preamble), x, s));
    }
  }

  lemma ListedStamp(ib: Ib, preamble: bool, x: qword, s: Stamp)
    ensures StampAfter(ListedEvents(ib, preamble), x, s) == s.(runs := s.runs + if Skipped(ib, preamble) then 0 else 1)
  {
    Sequences.FoldOne(StampStep(x), s, RunIb(ib.gpuaddr, IbDwords(ib.size)));
  }

  lemma KernelStamp(d: Device, on: bool, addr: qword, x: qword, s: Stamp)
    ensures StampAfter(KernelProfileEvents(d, on, addr), x, s)
         == if on && addr == x then s.(taken := Some(s.runs)) else s
  {
    JoinLoHi(addr);
    Sequences.FoldOne(StampStep(x), s, Other(CP_REG_TO_MEM, [AlwaysOnWord(d), Lo(addr), Hi(addr)]));
  }

  lemma UserStamp(p: Profiling, on: bool, k: nat, x: qword, s: Stamp)
    requires ValidProfiling(p)
    ensures StampAfter(UserProfileEvents(p, on, k), x, s)
         == s.(runs := s.runs + if on && p.userDesc.Some? then 1 else 0)
  {
    if on && p.userDesc.Some? {
      Sequences.FoldOne(StampStep(x), s, UserProfileEvents(p, on, k)[0]);
    }
  }

  lemma ModeStamp(x: qword, s: Stamp)
    ensures StampAfter([Other(CP_SET_RENDER_MODE, [0, 0, 0, 0, 0])] + [Other(CP_YIELD_ENABLE, [1])], x, s) == s
  {
    Sequences.FoldStill(StampStep(x), s, [Other(CP_SET_RENDER_MODE, [0, 0, 0, 0, 0])] + [Other(CP_YIELD_ENABLE, [1])]);
  }

  /**
    The kernel's profile: the counter is stored as started before any of the command's buffers
    has run, and as retired when all of the plan has; elsewhere nothing is stored.
   */
  lemma ProfileBrackets(d: Device, p: Profiling, list: seq<Ib>, flags: Flags, x: qword, s: Stamp)
    requires ValidProfiling(p) && p.kernelStarted != p.kernelRetired
    ensures var s' := StampAfter(CommandEvents(d, p, list, flags), x, s);
      var user, planned := |ProfileRuns(p, flags, 0)|, |Plan(if flags.skip then [] else list, flags.preamble)|;
      && s'.runs == s.runs + 2 * user + planned
      && s'.taken == (if flags.kernelProfile && x == p.kernelStarted then Some(s.runs)
                      else if flags.kernelProfile && x == p.kernelRetired then Some(s.runs + user + planned)
                      else s.taken)
  {
    hide KernelProfileEvents, UserProfileEvents, KeptEvents, StampAfter, Plan, CommandEvents, SlotAddr;
    var list', user := if flags.skip then [] else list, |ProfileRuns(p, flags, 0)|;
    var s1 := if flags.kernelProfile && p.kernelStarted == x then s.(taken := Some(s.runs)) else s;
    var s2 := s1.(runs := s.runs + user);
    var s3 := s2.(runs := s.runs + user + |Plan(list', flags.preamble)|);
    var s4 := if flags.kernelProfile && p.kernelRetired == x then s3.(taken := Some(s3.runs)) else s3;
    KernelStamp(d, flags.kernelProfile, p.kernelStarted, x, s);
    UserStamp(p, flags.userProfile, 0, x, s1);
    KeptStamp(list', flags.preamble, x, s2);
    ModeStamp(x, s3);
    KernelStamp(d, flags.kernelProfile, p.kernelRetired, x, s3);
    UserStamp(p, flags.userProfile, 1, x, s4);
    CommandStamp(d, p, list, flags, x, s);
  }

  lemma CommandStamp(d: Device, p: Profiling, list: seq<Ib>, flags: Flags, x: qword, s: Stamp)
    requires ValidProfiling(p)
    ensures var list' := if flags.skip then [] else list;
      StampAfter(CommandEvents(d, p, list, flags), x, s)
      == StampAfter(UserProfileEvents(p, flags.userProfile, 1), x,
           StampAfter(KernelProfileEvents(d, flags.kernelProfile, p.kernelRetired), x,
             StampAfter([Other(CP_SET_RENDER_MODE, [0, 0, 0, 0, 0])] + [Other(CP_YIELD_ENABLE, [1])], x,
               StampAfter(KeptEvents(list', flags.preamble), x,
                 StampAfter(UserProfileEvents(p, flags.userProfile, 0), x,
                   StampAfter(KernelProfileEvents(d, flags.kernelProfile, p.kernelStarted), x, s))))))
  {
    hide StampAfter, KernelProfileEvents, UserProfileEvents, KeptEvents;
    StampPieces(KernelProfileEvents(d, flags.kernelProfile, p.kernelStarted), UserProfileEvents(p, flags.userProfile,
                0),
                KeptEvents(if flags.skip then [] else list, flags.preamble),
                [Other(CP_SET_RENDER_MODE, [0, 0, 0, 0, 0])], [Other(CP_YIELD_ENABLE, [1])],
                KernelProfileEvents(d, flags.kernelProfile, p.kernelRetired),
                UserProfileEvents(p, flags.userProfile, 1), x, s);
  }

  lemma StampPieces(a: seq<Event>, b: seq<Event>, c: seq<Event>, m: seq<Event>, n: seq<Event>, e: seq<Event>,
                    f: seq<Event>,
                    x: qword, s: Stamp)
    ensures StampAfter(a + b + c + m + n + e + f, x, s)
         == StampAfter(f, x, StampAfter(e, x, StampAfter(m + n, x,
              StampAfter(c, x, StampAfter(b, x, StampAfter(a, x, s))))))
  {
    hide StampAfter;
    StampConcat(a, b, x, s);
    StampConcat(a + b, c, x, s);
    StampConcat(a + b + c, m + n, x, s);
    Sequences.Associative(a + b + c, m, n);
    StampConcat(a + b + c + m + n, e, x, s);
    StampConcat(a + b + c + m + n + e, f, x, s);
  }

  // --------------------------------------------------------- what a command ends with

  /** The render mode, while it is known: a user's buffer may set any, `kernel` buffers set none. */
  type RenderMode = Option<seq<word>>

  function RenderStep(kernel: set<qword>): (RenderMode, Event) -> RenderMode {
    (m: RenderMode, e: Event) =>
      match e
      case RunIb(addr, _) => if addr in kernel then m else None
      case Other(op, pl) => if op == CP_SET_RENDER_MODE then Some(pl) else m
      case _ => m
  }

  function RenderAfter(es: seq<Event>, kernel: set<qword>, m: RenderMode): RenderMode {
    Sequences.Fold(RenderStep(kernel), m, es)
  }

  lemma RenderConcat(a: seq<Event>, b: seq<Event>, kernel: set<qword>, m: RenderMode)
    ensures RenderAfter(a + b, kernel, m) == RenderAfter(b, kernel, RenderAfter(a, kernel, m))
  {
    Sequences.FoldConcat(RenderStep(kernel), m, a, b);
  }

  /** Whatever mode its buffers set, a command ends in none, and with yields as the kernel wants them. */
  lemma CommandCleansUp(d: Device, p: Profiling, list: seq<Ib>, flags: Flags, kernel: set<qword>, m: RenderMode,
                        q: Preemption)
    requires ValidProfiling(p)
    requires p.userDesc.Some? ==> SlotAddr(p.userDesc.value, (p.userIndex + 1) % PROFILE_IB_SLOTS) in kernel
    ensures var es := CommandEvents(d, p, list, flags);
      RenderAfter(es, kernel, m) == Some([0, 0, 0, 0, 0]) && PreemptionAfter(q, es) == q.(yielding := 1)
  {
    var a := KernelProfileEvents(d, flags.kernelProfile, p.kernelStarted) + UserProfileEvents(p, flags.userProfile, 0)
      + KeptEvents(if flags.skip then [] else list, flags.preamble);
    var mode, enable := Other(CP_SET_RENDER_MODE, [0, 0, 0, 0, 0]), Other(CP_YIELD_ENABLE, [1]);
    var e := KernelProfileEvents(d, flags.kernelProfile, p.kernelRetired);
    var f := UserProfileEvents(p, flags.userProfile, 1);
    KeptSettings(d, p, list, flags, q);
    EndsStill(d, p, flags, kernel, mode.payload, q.(yielding := 1));
    Sequences.FoldOne(RenderStep(kernel), RenderAfter(a, kernel, m), mode);
    hide KernelProfileEvents, UserProfileEvents, KeptEvents, PreemptionAfter;
    PreemptionMore(q, a, mode);
    PreemptionMore(q, a + [mode], enable);
    hide RenderAfter;
    CommandTail(a, mode, enable, e, f, kernel, m, q);
  }

  /** Behind the render mode nothing changes it, nor how the CP may be preempted. */
  lemma EndsStill(d: Device, p: Profiling, flags: Flags, kernel: set<qword>, mode: seq<word>, q: Preemption)
    requires ValidProfiling(p)
    requires p.userDesc.Some? ==> SlotAddr(p.userDesc.value, (p.userIndex + 1) % PROFILE_IB_SLOTS) in kernel
    ensures var e := KernelProfileEvents(d, flags.kernelProfile, p.kernelRetired);
      var f := UserProfileEvents(p, flags.userProfile, 1);
      && RenderAfter([Other(CP_YIELD_ENABLE, [1])] + e + f, kernel, Some(mode)) == Some(mode)
      && PreemptionAfter(q, e + f) == q
  {
    var enable := [Other(CP_YIELD_ENABLE, [1])];
    var e := KernelProfileEvents(d, flags.kernelProfile, p.kernelRetired);
    var f := UserProfileEvents(p, flags.userProfile, 1);
    Sequences.FoldStill(RenderStep(kernel), Some(mode), enable);
    Sequences.FoldStill(RenderStep(kernel), Some(mode), e);
    Sequences.FoldStill(RenderStep(kernel), Some(mode), f);
    Sequences.FoldThree(RenderStep(kernel), Some(mode), enable, e, f);
    Sequences.FoldStill(PreemptionStep, q, e);
    Sequences.FoldStill(PreemptionStep, q, f);
    Sequences.FoldConcat(PreemptionStep, q, e, f);
  }

  /** Up to the render mode nothing changes how the CP may be preempted. */
  lemma KeptSettings(d: Device, p: Profiling, list: seq<Ib>, flags: Flags, q: Preemption)
    requires ValidProfiling(p)
    ensures var a := KernelProfileEvents(d, flags.kernelProfile, p.kernelStarted)
                     + UserProfileEvents(p, flags.userProfile, 0)
                     + KeptEvents(if flags.skip then [] else list, flags.preamble);
      PreemptionAfter(q, a) == q
  {
    var a := KernelProfileEvents(d, flags.kernelProfile, p.kernelStarted);
    var b := UserProfileEvents(p, flags.userProfile, 0);
    var kept := KeptEvents(if flags.skip then [] else list, flags.preamble);
    KeptRunsOnly(if flags.skip then [] else list, flags.preamble);
    Sequences.FoldStill(PreemptionStep, q, a);
    Sequences.FoldStill(PreemptionStep, q, b);
    Sequences.FoldStill(PreemptionStep, q, kept);
    Sequences.FoldThree(PreemptionStep, q, a, b, kept);
  }

  lemma {:induction false} KeptRunsOnly(list: seq<Ib>, preamble: bool)
    ensures forall i | 0 <= i < |KeptEvents(list, preamble)| :: KeptEvents(list, preamble)[i].RunIb?
    decreases |list|
  {
    if list != [] {
      KeptRunsOnly(list[..|list| - 1], preamble);
    }
  }

  lemma CommandTail(a: seq<Event>, mode: Event, enable: Event, e: seq<Event>, f: seq<Event>, kernel: set<qword>,
                    m: RenderMode, q: Preemption)
    ensures RenderAfter(a + [mode] + [enable] + e + f, kernel, m)
         == RenderAfter([enable] + e + f, kernel, RenderAfter([mode], kernel, RenderAfter(a, kernel, m)))
    ensures PreemptionAfter(q, a + [mode] + [enable] + e + f)
         == PreemptionAfter(PreemptionAfter(q, a + [mode] + [enable]), e + f)
  {
    RenderConcat(a, [mode], kernel, m);
    RenderConcat(a + [mode], [enable] + e + f, kernel, m);
    Sequences.FoldConcat(PreemptionStep, q, a + [mode] + [enable], e + f);
    TailPartsOf(a + [mode], [enable], e, f);
  }

  lemma TailPartsOf<T>(a: seq<T>, b: seq<T>, e: seq<T>, f: seq<T>)
    ensures a + b + e + f == a + (b + e + f) && a + b + e + f == a + b + (e + f)
  {
  }

  // --------------------------------------------------------------- context switches

  /** What the CP was last told to translate with: a TTBR0 and a context. */
  type Translation = Option<(qword, word)>

  function TableStep(t: Translation, e: Event): Translation {
    if e.TableUpdate? then Some((e.ttbr0, e.id)) else t
  }

  function TableAfter(t: Translation, es: seq<Event>): Translation { Sequences.Fold(TableStep, t, es) }

  lemma TableMore(t: Translation, a: seq<Event>, b: seq<Event>)
    requires forall i | 0 <= i < |b| :: !b[i].TableUpdate?
    ensures TableAfter(t, a + b) == TableAfter(t, a)
  {
    Sequences.FoldConcat(TableStep, t, a, b);
    Sequences.FoldStill(TableStep, TableAfter(t, a), b);
  }

  /** The words a context switch writes to memory, besides its table's. */
  function MarkEvents(d: Device, id: nat, ctx: DrawContext): seq<Event>
    requires ValidDevice(d) && id < RB_LEVELS
  {
    [MemWrite(CurrentContext(d, RbIndex(id)), [ctx.id])]
    + [MemWrite(CurrentContext(d, KGSL_MEMSTORE_GLOBAL), [ctx.id])]
  }

  lemma SwitchParts(d: Device, id: nat, active: Option<DrawContext>, ctx: DrawContext)
    requires ValidDevice(d) && id < RB_LEVELS
    ensures SwitchEvents(d, id, active, ctx)
         == (if NeedsTable(d, active, ctx) then PagetableEvents(d, id, ctx) else []) + MarkEvents(d, id, ctx)
            + [RegWrite(A5XX_UCHE_INVALIDATE0, [0x12])]
  {
  }

  lemma MarkWord(d: Device, id: nat, ctx: DrawContext, x: nat, v: Option<word>)
    requires ValidDevice(d) && id < RB_LEVELS
    ensures WordAfter(MarkEvents(d, id, ctx), x, v)
         == if x in {CurrentContext(d, RbIndex(id)), CurrentContext(d, KGSL_MEMSTORE_GLOBAL)} then Some(ctx.id) else v
  {
    var a := MemWrite(CurrentContext(d, RbIndex(id)), [ctx.id]);
    var b := MemWrite(CurrentContext(d, KGSL_MEMSTORE_GLOBAL), [ctx.id]);
    WordOne(a, x, v);
    WordOne(b, x, WordAfter([a], x, v));
    WordConcat([a], [b], x, v);
  }

  /** Of the ring's scratch entry, from its TTBR0 on: the table's two words and the context. */
  function ScratchWord(ctx: DrawContext, k: nat): word
    requires k < 3
  {
    if k == 0 then Lo(ctx.pagetable.ttbr0) else if k == 1 then Hi(ctx.pagetable.ttbr0) else ctx.id
  }

  lemma PagetableWord(d: Device, id: nat, ctx: DrawContext, x: nat, v: Option<word>)
    requires ValidDevice(d) && id < RB_LEVELS
    ensures Leaves(PagetableEvents(d, id, ctx), x) ==> WordAfter(PagetableEvents(d, id, ctx), x, v) == v
    ensures forall k | 0 <= k < 3 && x == ScratchTtbr0(d, id) + 4 * k ::
      WordAfter(PagetableEvents(d, id, ctx), x, v) == Some(ScratchWord(ctx, k))
  {
    var ttbr0, s := ctx.pagetable.ttbr0, ScratchTtbr0(d, id);
    var a := [TableUpdate(ttbr0, ctx.id)] + IdleEvents() + [RegWrite(A5XX_CP_CNTL, [1])];
    var w := MemWrite(s, [Lo(ttbr0), Hi(ttbr0), ctx.id]);
    var c := IdleEvents() + [RegWrite(A5XX_CP_CNTL, [0])];
    assert PagetableEvents(d, id, ctx) == a + [w] + c;
    OnlyMiddle(a, [w], c, x, v);
    WordOne(w, x, v);
    if Leaves(PagetableEvents(d, id, ctx), x) {
      LeavesWord(PagetableEvents(d, id, ctx), x, v);
    }
  }

  lemma SwitchWord(d: Device, id: nat, active: Option<DrawContext>, ctx: DrawContext, x: nat, v: Option<word>)
    requires ValidDevice(d) && id < RB_LEVELS
    ensures WordAfter(SwitchEvents(d, id, active, ctx), x, v)
         == WordAfter(MarkEvents(d, id, ctx), x,
                      if NeedsTable(d, active, ctx) then WordAfter(PagetableEvents(d, id, ctx), x, v) else v)
  {
    var t := if NeedsTable(d, active, ctx) then PagetableEvents(d, id, ctx) else [];
    var u := [RegWrite(A5XX_UCHE_INVALIDATE0, [0x12])];
    SwitchParts(d, id, active, ctx);
    WordConcat(t, MarkEvents(d, id, ctx), x, v);
    WordConcat(t + MarkEvents(d, id, ctx), u, x, v);
    LeavesWord(u, x, WordAfter(t + MarkEvents(d, id, ctx), x, v));
  }

  /**
    After a context switch its ring and the whole device name the context as current; and if
    it had a table to load, the CP translates with that table and context, and the ring's
    scratch entry says so.  All other entries are what they were.
   */
  lemma SwitchLeaves(d: Device, id: nat, active: Option<DrawContext>, ctx: DrawContext, t: Translation,
                     index: nat, ring: nat, k: nat, v: Option<word>)
    requires ValidDevice(d) && id < RB_LEVELS && index < ENTRIES && ring < RB_LEVELS && k < 3
    ensures var es := SwitchEvents(d, id, active, ctx);
      && WordAfter(es, CurrentContext(d, index), v)
         == (if index == RbIndex(id) || index == KGSL_MEMSTORE_GLOBAL then Some(ctx.id) else v)
      && TableAfter(t, es) == (if NeedsTable(d, active, ctx) then Some((ctx.pagetable.ttbr0, ctx.id)) else t)
      && WordAfter(es, ScratchTtbr0(d, ring) + 4 * k, v)
         == (if ring == id && NeedsTable(d, active, ctx) then Some(ScratchWord(ctx, k)) else v)
  {
    var x, y := CurrentContext(d, index), ScratchTtbr0(d, ring) + 4 * k;
    SwitchWord(d, id, active, ctx, x, v);
    SwitchWord(d, id, active, ctx, y, v);
    PagetableAway(d, id, ctx, index, ring, k);
    PagetableWord(d, id, ctx, x, v);
    PagetableWord(d, id, ctx, y, v);
    MarkWord(d, id, ctx, x, v);
    MarkWord(d, id, ctx, y, if ring == id && NeedsTable(d, active, ctx) then Some(ScratchWord(ctx, k)) else v);
    SwitchTable(d, id, active, ctx, t);
  }

  /** The scratch entries, the memstore's words and the entries of different rings are apart. */
  lemma PagetableAway(d: Device, id: nat, ctx: DrawContext, index: nat, ring: nat, k: nat)
    requires ValidDevice(d) && id < RB_LEVELS && index < ENTRIES && ring < RB_LEVELS && k < 3
    ensures Leaves(PagetableEvents(d, id, ctx), CurrentContext(d, index))
    ensures Leaves(PagetableEvents(d, id, ctx), Sop(d, index)) && Leaves(PagetableEvents(d, id, ctx), Eop(d, index))
    ensures ring != id ==> Leaves(PagetableEvents(d, id, ctx), ScratchTtbr0(d, ring) + 4 * k)
  {
    var es, s := PagetableEvents(d, id, ctx), ScratchTtbr0(d, id);
    OneMemWrite(d, id, ctx);
    assert forall x: nat | x + 4 <= s || s + 12 <= x :: Leaves(es, x);
  }

  lemma OneMemWrite(d: Device, id: nat, ctx: DrawContext)
    requires ValidDevice(d) && id < RB_LEVELS
    ensures var es := PagetableEvents(d, id, ctx);
      forall i | 0 <= i < |es| :: !es[i].EventWrite?
        && (es[i].MemWrite? ==> es[i].addr == ScratchTtbr0(d, id) && |es[i].data| == 3)
  {
  }

  lemma SwitchTable(d: Device, id: nat, active: Option<DrawContext>, ctx: DrawContext, t: Translation)
    requires ValidDevice(d) && id < RB_LEVELS
    ensures TableAfter(t, SwitchEvents(d, id, active, ctx))
         == if NeedsTable(d, active, ctx) then Some((ctx.pagetable.ttbr0, ctx.id)) else t
  {
    var u := [TableUpdate(ctx.pagetable.ttbr0, ctx.id)];
    var rest := MarkEvents(d, id, ctx) + [RegWrite(A5XX_UCHE_INVALIDATE0, [0x12])];
    SwitchParts(d, id, active, ctx);
    if NeedsTable(d, active, ctx) {
      var es := PagetableEvents(d, id, ctx);
      Sequences.FoldOne(TableStep, t, u[0]);
      assert es == u + es[1..];
      TableMore(t, u, es[1..]);
      TableMore(t, es, rest);
      Sequences.Associative(es, MarkEvents(d, id, ctx), [RegWrite(A5XX_UCHE_INVALIDATE0, [0x12])]);
    } else {
      assert [] + rest == rest && [] + MarkEvents(d, id, ctx) == MarkEvents(d, id, ctx);
      TableMore(t, [], rest);
    }
  }

  /** A context switch's own stream writes no timestamp, raises no interrupt, and needs protection off. */
  lemma SwitchIsQuiet(d: Device, id: nat, active: Option<DrawContext>, ctx: DrawContext)
    requires ValidDevice(d) && id < RB_LEVELS
    ensures var es := SwitchEvents(d, id, active, ctx);
      LeavesTimestamps(d, es) && NoEventWrite(es) && Permitted(F_NOTPROTECTED, es)
  {
    var t := if NeedsTable(d, active, ctx) then PagetableEvents(d, id, ctx) else [];
    var marks, u := MarkEvents(d, id, ctx), [RegWrite(A5XX_UCHE_INVALIDATE0, [0x12])];
    SwitchParts(d, id, active, ctx);
    OneMemWrite(d, id, ctx);
    forall index | 0 <= index < ENTRIES
      ensures Leaves(t + marks + u, Sop(d, index)) && Leaves(t + marks + u, Eop(d, index))
    {
      PagetableAway(d, id, ctx, index, id, 0);
      assert Leaves(marks, Sop(d, index)) && Leaves(marks, Eop(d, index));
      LeavesJoin(t, marks, u, [], Sop(d, index));
      LeavesJoin(t, marks, u, [], Eop(d, index));
    }
    SwitchModes(d, id, active, ctx);
  }

  lemma SwitchModes(d: Device, id: nat, active: Option<DrawContext>, ctx: DrawContext)
    requires ValidDevice(d) && id < RB_LEVELS
    ensures NoEventWrite(SwitchEvents(d, id, active, ctx))
        && Permitted(F_NOTPROTECTED, SwitchEvents(d, id, active, ctx))
  {
    SwitchIsModeless(d, id, active, ctx);
    OneMemWrite(d, id, ctx);
  }

  // ----------------------------------------------------------- caches and the scratch

  /** What the caches hold may be of an older table, and how CP_CNTL stands. */
  datatype Coherence = Coherence(stale: bool, cntl: word, torn: bool)

  /** `torn` tells of a scratch entry that was written while CP_CNTL did not allow it. */
  function CoherenceStep(x: qword): (Coherence, Event) -> Coherence {
    (c: Coherence, e: Event) =>
      match e
      case TableUpdate(_, _) => c.(stale := true)
      case RegWrite(reg, values) =>
        if reg == A5XX_UCHE_INVALIDATE0 then c.(stale := false)
        else if reg == A5XX_CP_CNTL && |values| == 1 then c.(cntl := values[0])
        else c
      case MemWrite(addr, _) => if addr == x && c.cntl != 1 then c.(torn := true) else c
      case _ => c
  }

  function CoherenceAfter(es: seq<Event>, x: qword, c: Coherence): Coherence { Sequences.Fold(CoherenceStep(x), c, es) }

  lemma CoherenceMore(a: seq<Event>, e: Event, x: qword, c: Coherence)
    ensures CoherenceAfter(a + [e], x, c) == CoherenceStep(x)(CoherenceAfter(a, x, c), e)
  {
    Sequences.FoldConcat(CoherenceStep(x), c, a, [e]);
    Sequences.FoldOne(CoherenceStep(x), CoherenceAfter(a, x, c), e);
  }

  lemma CoherenceIdle(a: seq<Event>, x: qword, c: Coherence)
    ensures CoherenceAfter(a + IdleEvents(), x, c) == CoherenceAfter(a, x, c)
  {
    Sequences.FoldConcat(CoherenceStep(x), c, a, IdleEvents());
    Sequences.FoldStill(CoherenceStep(x), CoherenceAfter(a, x, c), IdleEvents());
  }

  lemma PagetableCoherence(d: Device, id: nat, ctx: DrawContext, c: Coherence)
    requires ValidDevice(d) && id < RB_LEVELS && c.cntl == 0
    ensures var c' := CoherenceAfter(PagetableEvents(d, id, ctx), ScratchTtbr0(d, id), c);
      c'.cntl == 0 && c'.torn == c.torn
  {
    var x, t := ScratchTtbr0(d, id), TableUpdate(ctx.pagetable.ttbr0, ctx.id);
    var w := MemWrite(x, [Lo(ctx.pagetable.ttbr0), Hi(ctx.pagetable.ttbr0), ctx.id]);
    var on, off := RegWrite(A5XX_CP_CNTL, [1]), RegWrite(A5XX_CP_CNTL, [0]);
    assert [] + [t] == [t];
    CoherenceMore([], t, x, c);
    CoherenceIdle([t], x, c);
    CoherenceMore([t] + IdleEvents(), on, x, c);
    CoherenceMore([t] + IdleEvents() + [on], w, x, c);
    CoherenceIdle([t] + IdleEvents() + [on] + [w], x, c);
    CoherenceMore([t] + IdleEvents() + [on] + [w] + IdleEvents(), off, x, c);
  }

  /**
    A context switch ends with no cache stale and CP_CNTL clear, and writes the scratch entry
    only while CP_CNTL is set.
   */
  lemma SwitchIsCoherent(d: Device, id: nat, active: Option<DrawContext>, ctx: DrawContext, c: Coherence)
    requires ValidDevice(d) && id < RB_LEVELS && c.cntl == 0
    ensures CoherenceAfter(SwitchEvents(d, id, active, ctx), ScratchTtbr0(d, id), c) == Coherence(false, 0, c.torn)
  {
    var x, t := ScratchTtbr0(d, id), if NeedsTable(d, active, ctx) then PagetableEvents(d, id, ctx) else [];
    var a, b := MemWrite(CurrentContext(d, RbIndex(id)), [ctx.id]), MemWrite(CurrentContext(d, 0), [ctx.id]);
    PagetableCoherence(d, id, ctx, c);
    hide PagetableEvents, CoherenceAfter;
    assert CoherenceAfter([], x, c) == c by {
      Sequences.FoldStill(CoherenceStep(x), c, []);
      NothingCoherent(x, c);
    }
    CoherenceMore(t, a, x, c);
    CoherenceMore(t + [a], b, x, c);
    CoherenceMore(t + [a] + [b], RegWrite(A5XX_UCHE_INVALIDATE0, [0x12]), x, c);
  }

  lemma NothingCoherent(x: qword, c: Coherence)
    ensures CoherenceAfter([], x, c) == c
  {
  }

  // ------------------------------------------------------- profiling slots, reports

  /** Profiles of a ring that are fewer than 256 apart use different slots, which do not overlap. */
  lemma SlotsAreFresh(p: Profiling, i: nat, j: nat)
    requires ValidProfiling(p) && p.userDesc.Some? && i < j < i + PROFILE_IB_SLOTS
    ensures var a := SlotAddr(p.userDesc.value, (p.userIndex + i) % PROFILE_IB_SLOTS);
      var b := SlotAddr(p.userDesc.value, (p.userIndex + j) % PROFILE_IB_SLOTS);
      && (a + 16 <= b || b + 16 <= a)
      && p.userDesc.value <= a <= p.userDesc.value + 0x1000 - 16
  {
    var m, n := p.userIndex + i, p.userIndex + j;
    assert m % 256 != n % 256 by {
      assert m == m / 256 * 256 + m % 256 && n == n / 256 * 256 + n % 256;
    }
  }

  /** The CP stores its position at `x`. */
  predicate ReportsTo(es: seq<Event>, x: qword) { exists i | 0 <= i < |es| :: IsReport(es[i], x) }

  predicate IsReport(e: Event, x: qword) {
    e.Other? && e.op == CP_WHERE_AM_I && |e.payload| == 2 && Join(e.payload[0], e.payload[1]) == x
  }

  /** A position report goes to its own ring's entry, and spoils no other word the driver or the CP keeps there. */
  lemma ReportGoesHome(d: Device, id: nat, again: nat, at: nat, ring: nat, k: nat)
    requires ValidDevice(d) && id < RB_LEVELS && ring < RB_LEVELS && k < 3
    ensures var es := ReportEvents(d, id, again, at);
      && (ReportsTo(es, ScratchRptr(d, ring)) <==> ring == id && !d.preemption && Reserve(again, at, 3).Space?)
      && !ReportsTo(es, ScratchTtbr0(d, ring) + 4 * k)
  {
    JoinLoHi(ScratchRptr(d, id));
    if Reports(d, again, at) {
      assert IsReport(ReportEvents(d, id, again, at)[0], ScratchRptr(d, id));
    }
  }
}
