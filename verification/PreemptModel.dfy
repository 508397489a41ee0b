/**
  A5XX preemption as a concurrent protocol.

  The state holds what the driver keeps (ring pointers, current and next ring,
  the preemption state word), what the driver and the command processor (CP)
  share (preemption records, SMMU info, scratch and memstore words), a small
  model of the CP, and one program counter per thread.  Any number of threads
  may be inside the interrupt handler, the dispatcher pass or the timeout
  worker at the same time.

  Ring positions are unbounded: a ring holds every operation written to it
  since the last reset.  Ringbuffer.dfy shows that the real, wrapping ring
  delivers the same operations.
 */
module PreemptModel {
  import opened Basics
  import opened Reservations

  /** A pagetable as the CP sees it, told apart by its TTBR0; the CONTEXTIDR travels with it. */
  type Pagetable = nat

  const DEFAULT_PAGETABLE: Pagetable := 0

  datatype Context = Context(id: nat, pagetable: Pagetable)

  /** What a ring makes the CP do, as far as this protocol is concerned. */
  datatype Op =
    | Table(pagetable: Pagetable)     // CP_SMMU_TABLE_UPDATE
    | Scratch(pagetable: Pagetable)   // CP_MEM_WRITE to the ring's scratch ttbr0
    | User(pagetable: Pagetable)      // an indirect buffer of a context that owns `pagetable`
    | Sop(ts: nat)                    // start-of-pipe timestamp write
    | Eop(ts: nat)                    // end-of-pipe timestamp write
    | Yield                           // CP_CONTEXT_SWITCH_YIELD

  /** The words an op can change. */
  datatype GpuMem = GpuMem(table: Pagetable, scratch: Pagetable, sop: nat, eop: nat)

  function Effect(m: GpuMem, op: Op): GpuMem {
    match op
    case Table(p) => m.(table := p)
    case Scratch(p) => m.(scratch := p)
    case Sop(t) => m.(sop := t)
    case Eop(t) => m.(eop := t)
    case User(_) => m
    case Yield => m
  }

  /** The words after the first `k` ops. */
  function After(m: GpuMem, ops: seq<Op>, k: nat): GpuMem
    requires k <= |ops|
  {
    if k == 0 then m else Effect(After(m, ops, k - 1), ops[k - 1])
  }

  datatype Ring = Ring(
    ops: seq<Op>,            // everything written; |ops| is the driver's _wptr
    wptr: nat,               // published write pointer
    rptr: nat,               // where the CP is, or will resume
    shadow: nat,             // read pointer as the CP last reported it in scratch memory
    recWptr: nat,            // write pointer in the preemption record
    scratch: Pagetable,      // scratch ttbr0/contextidr
    sop: nat, eop: nat,      // memstore timestamps
    base: GpuMem,            // the four words when the ring was last reset
    ts: nat,                 // rb->timestamp
    active: Option<Context>  // rb->drawctxt_active
  )

  predicate Empty(r: Ring) { r.shadow == r.wptr }

  datatype PreemptState = NONE | START | TRIGGERED | FAULTED | PENDING | COMPLETE

  type Tid = nat

  /** Where a thread is inside the preemption code. */
  datatype Pc =
    | Idle
    // a5xx_preemption_trigger
    | Cas                                // about to move NONE to START
    | Scan(i: nat)                       // about to look at ring i
    | Adopt                              // scan chose cur_rb; about to update RB_WPTR
    | Leave(found: bool)                 // about to go back to NONE
    | Record(k: nat)                     // about to take k's lock
    | Smmu(k: nat, pagetable: Pagetable) // about to write the SMMU info
    | Arm(k: nat)                        // about to program the restore address and next_rb
    | Fire(k: nat)                       // about to go to TRIGGERED and set CNTL
    // a5xx_preempt_callback (irq) and _a5xx_preemption_done (not irq)
    | Check(irq: bool)                   // about to read CNTL
    | Rotate(irq: bool)
    | Update(irq: bool)                  // about to update RB_WPTR
    | Clear(irq: bool)                   // about to go to NONE
    // device mutex taken
    | Sched                              // dispatcher pass, before the COMPLETE test
    | Work                               // worker, before the FAULTED test
    | FaultCheck                         // worker, about to read CNTL

  datatype Sys = Sys(
    rings: seq<Ring>,
    cur: nat, next: Option<nat>, prev: Option<nat>,
    state: PreemptState,
    perProcess: bool,
    // CP and its registers
    running: nat, regWptr: nat, cntl: bool, restore: nat, ttbr0: Pagetable, smmu: Pagetable,
    // threads
    pc: map<Tid, Pc>, mutex: Option<Tid>,
    // history
    owner: Option<Tid>,                  // who won the last compare-and-swap, or took a state under the mutex
    triggered: seq<(nat, nat)>, completed: seq<(nat, nat)>,
    disturbed: bool,                     // something was published since the last move to START
    stale: bool                          // cur_rb was published outside NONE and RB_WPTR was not updated since
  )

  predicate InFlight(s: Sys) { |s.completed| < |s.triggered| }

  function PcOf(s: Sys, t: Tid): Pc {
    if t in s.pc then s.pc[t] else Idle
  }

  /** Every index is in range. */
  predicate Wf(s: Sys) {
    && s.cur < |s.rings| && s.running < |s.rings| && s.restore < |s.rings|
    && (s.next.Some? ==> s.next.value < |s.rings|)
    && (forall t | t in s.pc :: PcWf(s.pc[t], |s.rings|))
  }

  predicate PcWf(p: Pc, n: nat) {
    match p
    case Scan(i) => i <= n
    case Record(k) => k < n
    case Smmu(k, _) => k < n
    case Arm(k) => k < n
    case Fire(k) => k < n
    case _ => true
  }

  // ---------------------------------------------------------------- submission

  /** The ops of one a5xx_ringbuffer_addcmds call around its payload. */
  function Block(ts: nat, payload: seq<Op>): seq<Op> {
    [Sop(ts)] + payload + [Eop(ts), Yield]
  }

  /** What a submission reads when it asks for space: the fault state, the CP's position and _wptr. */
  datatype Room = Room(faulted: bool, rptr: nat, pending: nat)

  /** A GPU fault refuses a submission outright; a full ring does so after the timestamp advanced. */
  datatype Outcome = Refused | Full | Granted

  /** The outcome for a payload of `dwords` words. */
  function OutcomeOf(room: Room, dwords: nat): Outcome {
    if room.faulted then Refused
    else if Reserve(room.rptr, room.pending, (A5XX_SUBMIT_MAX + dwords) % U32).NoSpace? then Full
    else Granted
  }

  /** a5xx_ringbuffer_addcmds */
  function AddCmds(r: Ring, payload: seq<Op>, out: Outcome): Ring {
    match out
    case Refused => r
    case Full => r.(ts := r.ts + 1)
    case Granted => r.(ts := r.ts + 1, ops := r.ops + Block(r.ts + 1, payload))
  }

  /** a5xx_rb_context_switch: a table other than the active context's and not the default one. */
  predicate TableMissing(active: Option<Context>, c: Context) {
    && !(active.Some? && active.value.pagetable == c.pagetable)
    && c.pagetable != DEFAULT_PAGETABLE
  }

  function SwitchPayload(active: Option<Context>, c: Context): seq<Op> {
    if TableMissing(active, c) then [Table(c.pagetable), Scratch(c.pagetable)] else []
  }

  /** The words of a context switch, with and without a new table. */
  function SwitchWords(active: Option<Context>, c: Context): nat {
    if TableMissing(active, c) then 30 else 12
  }

  /** a5xx_drawctxt_switch for a live context: the outcome of the submission is discarded. */
  function SwitchContext(r: Ring, c: Context, out: Outcome): Ring {
    if r.active == Some(c) then r
    else AddCmds(r, SwitchPayload(r.active, c), out).(active := Some(c))
  }

  function Repeat(op: Op, n: nat): seq<Op> {
    if n == 0 then [] else [op] + Repeat(op, n - 1)
  }

  /** The command submission that follows a successful context switch. */
  function SubmitUser(r: Ring, c: Context, ibs: nat, out: Outcome): Ring {
    AddCmds(r, Repeat(User(c.pagetable), ibs), out)
  }

  /** a5xx_ringbuffer_submit's critical section. */
  function Publish(s: Sys, i: nat): Sys
    requires i < |s.rings|
  {
    var w := |s.rings[i].ops|;
    var now := s.state == NONE && s.cur == i;
    s.(rings := s.rings[i := s.rings[i].(wptr := w)],
       regWptr := if now then w else s.regWptr,
       disturbed := true,
       stale := if now then false
                else s.stale || (s.cur == i && s.rings[i].wptr != w))
  }

  // ------------------------------------------------------------------------ CP

  /** The CP may switch away: idle, just past a yield, or inside a user buffer. */
  predicate YieldPoint(ops: seq<Op>, rptr: nat, limit: nat)
  {
    || rptr == limit
    || (0 < rptr <= |ops| && ops[rptr - 1] == Yield)
    || (rptr < |ops| && ops[rptr].User?)
  }

  function CpExec(s: Sys): Sys
    requires Wf(s)
    requires s.rings[s.running].rptr < |s.rings[s.running].ops|
  {
    var r := s.rings[s.running];
    var m := Effect(GpuMem(s.ttbr0, r.scratch, r.sop, r.eop), r.ops[r.rptr]);
    s.(ttbr0 := m.table,
       rings := s.rings[s.running := r.(rptr := r.rptr + 1, scratch := m.scratch, sop := m.sop, eop := m.eop)])
  }

  function CpSwitch(s: Sys): Sys
    requires Wf(s)
  {
    s.(rings := s.rings[s.running := s.rings[s.running].(recWptr := s.regWptr)],
       running := s.restore,
       regWptr := s.rings[s.restore].recWptr,
       ttbr0 := if s.perProcess then s.smmu else s.ttbr0,
       cntl := false)
  }

  // ------------------------------------------------------------------- threads

  /** Thread `t` leaves the preemption code, giving back the mutex if it has it. */
  function Exit(s: Sys, t: Tid): Sys {
    s.(pc := s.pc[t := Idle], mutex := if s.mutex == Some(t) then None else s.mutex)
  }

  function Goto(s: Sys, t: Tid, p: Pc): Sys {
    s.(pc := s.pc[t := p])
  }

  /** _update_wptr's critical section. */
  function UpdateWptr(s: Sys): Sys
    requires Wf(s)
  {
    s.(regWptr := s.rings[s.cur].wptr, stale := false)
  }

  function RotateRings(s: Sys): Sys
    requires s.next.Some?
  {
    s.(prev := Some(s.cur), cur := s.next.value, next := None,
       completed := s.completed + [(s.cur, s.next.value)])
  }

  /** The critical section that writes the next ring's record. */
  function WriteRecord(s: Sys, k: nat): Sys
    requires k < |s.rings|
  {
    s.(rings := s.rings[k := s.rings[k].(recWptr := s.rings[k].wptr)])
  }

  function FireSwitch(s: Sys, k: nat): Sys {
    s.(state := TRIGGERED, cntl := true, triggered := s.triggered + [(s.cur, k)])
  }

  /** The next atomic step of thread `t`; `awake` is what kgsl_state_is_awake reports. */
  function ThreadStep(s: Sys, t: Tid, awake: bool): Sys
    requires Wf(s) && CanStep(s, t)
  {
    match PcOf(s, t)
    case Idle => s
    case Cas =>
      if s.state == NONE then
        Goto(s.(state := START, owner := Some(t), disturbed := false), t, Scan(0))
      else Exit(s, t)
    case Scan(i) =>
      if i == |s.rings| then Goto(s, t, Leave(false))
      else if Empty(s.rings[i]) then Goto(s, t, Scan(i + 1))
      else if i == s.cur then Goto(s, t, Adopt)
      else Goto(s, t, Record(i))
    case Adopt => Goto(UpdateWptr(s), t, Leave(true))
    case Leave(_) => Exit(s.(state := NONE, owner := None), t)
    case Record(k) => Goto(WriteRecord(s, k), t, Smmu(k, s.rings[k].scratch))
    case Smmu(k, p) => Goto(if s.perProcess then s.(smmu := p) else s, t, Arm(k))
    case Arm(k) => Goto(s.(restore := k, next := Some(k)), t, Fire(k))
    case Fire(k) => Exit(FireSwitch(s, k).(owner := None), t)
    case Check(irq) =>
      if !irq && !awake then Goto(s.(owner := None), t, Cas)
      else if !s.cntl then Goto(s, t, Rotate(irq))
      else if irq then Exit(s.(state := COMPLETE, owner := None), t)
      else Goto(s.(owner := None), t, Cas)
    case Rotate(irq) => Goto(RotateRings(s), t, Update(irq))
    case Update(irq) => Goto(UpdateWptr(s), t, Clear(irq))
    case Clear(irq) => Goto(s.(state := NONE, owner := None), t, Cas)
    case Sched =>
      if s.state == COMPLETE then Goto(s.(owner := Some(t)), t, Check(false))
      else Goto(s, t, Cas)
    case Work =>
      if s.state == FAULTED then Goto(s.(owner := Some(t)), t, FaultCheck)
      else Exit(s, t)
    case FaultCheck =>
      if awake && !s.cntl then Exit(s.(state := COMPLETE, owner := None), t)
      else Exit(s.(owner := None), t)
  }

  /** Rotating dereferences next_rb; `Rotate` is the only step that can be stuck. */
  predicate CanStep(s: Sys, t: Tid) {
    PcOf(s, t).Rotate? ==> s.next.Some?
  }

  // --------------------------------------------------------------------- reset

  function ResetRing(r: Ring, hung: bool): Ring {
    var sop := if hung then r.ts else r.sop;
    var eop := if hung then r.ts else r.eop;
    Ring([], 0, 0, 0, 0, DEFAULT_PAGETABLE, sop, eop,
         GpuMem(DEFAULT_PAGETABLE, DEFAULT_PAGETABLE, sop, eop), r.ts, None)
  }

  /** Fault recovery: the ring the CP was found on is current, every ring restarts. */
  function Reset(s: Sys, hung: Option<nat>): Sys
    requires Wf(s) && (hung.Some? ==> hung.value < |s.rings|)
  {
    var cur := if hung.Some? then hung.value else s.cur;
    s.(rings := seq(|s.rings|, i requires 0 <= i < |s.rings| => ResetRing(s.rings[i], hung == Some(i))),
       cur := cur, prev := if cur != s.cur then Some(s.cur) else s.prev,
       state := NONE, running := cur, regWptr := 0, cntl := false,
       ttbr0 := DEFAULT_PAGETABLE, smmu := DEFAULT_PAGETABLE,
       triggered := [], completed := [], disturbed := true, stale := false)
  }

  // -------------------------------------------------------------------- system

  datatype Action =
    | ASwitch(i: nat, ctx: Context, room: Room)
    | AUser(i: nat, ctx: Context, ibs: nat, dwords: nat, room: Room)
    | APublish(i: nat)
    | AExec
    | AShadow(to: nat)
    | ACpSwitch
    | ATimer
    | AIrq(t: Tid)
    | ASched(t: Tid)
    | AWork(t: Tid)
    | AStep(t: Tid, awake: bool)
    | AReset(hung: Option<nat>)

  predicate Enabled(s: Sys, a: Action)
    requires Wf(s)
  {
    match a
    case ASwitch(i, _, _) => i < |s.rings|
    case AUser(i, c, _, _, _) => i < |s.rings| && s.rings[i].active == Some(c)
    case APublish(i) => i < |s.rings|
    case AExec =>
      s.rings[s.running].rptr < s.regWptr && s.rings[s.running].rptr < |s.rings[s.running].ops|
    case AShadow(v) => s.rings[s.running].shadow <= v <= s.rings[s.running].rptr
    case ACpSwitch => s.cntl && YieldPoint(s.rings[s.running].ops, s.rings[s.running].rptr, s.regWptr)
    case ATimer => s.state == TRIGGERED
    case AIrq(t) => PcOf(s, t) == Idle && s.state == TRIGGERED
    case ASched(t) => PcOf(s, t) == Idle && s.mutex == None
    case AWork(t) => PcOf(s, t) == Idle && s.mutex == None
    case AStep(t, _) => CanStep(s, t)
    case AReset(hung) =>
      && (forall t | t in s.pc :: s.pc[t] == Idle) && s.mutex == None
      && (hung.Some? ==> hung.value < |s.rings|)
  }

  function Next(s: Sys, a: Action): Sys
    requires Wf(s) && Enabled(s, a)
  {
    match a
    case ASwitch(i, c, room) =>
      var out := OutcomeOf(room, SwitchWords(s.rings[i].active, c));
      s.(rings := s.rings[i := SwitchContext(s.rings[i], c, out)])
    case AUser(i, c, ibs, dwords, room) =>
      s.(rings := s.rings[i := SubmitUser(s.rings[i], c, ibs, OutcomeOf(room, dwords))])
    case APublish(i) => Publish(s, i)
    case AExec => CpExec(s)
    case AShadow(v) => s.(rings := s.rings[s.running := s.rings[s.running].(shadow := v)])
    case ACpSwitch => CpSwitch(s)
    case ATimer => s.(state := FAULTED)
    case AIrq(t) => Goto(s.(state := PENDING, owner := Some(t)), t, Check(true))
    case ASched(t) => Goto(s.(mutex := Some(t)), t, Sched)
    case AWork(t) => Goto(s.(mutex := Some(t)), t, Work)
    case AStep(t, awake) => ThreadStep(s, t, awake)
    case AReset(hung) => Reset(s, hung)
  }

  /** The state right after a5xx_preemption_start on a fresh device. */
  predicate Initial(s: Sys) {
    && |s.rings| > 0 && s.cur < |s.rings| && s.running == s.cur && s.restore < |s.rings|
    && s.next == None && s.state == NONE && s.regWptr == 0 && !s.cntl
    && s.ttbr0 == DEFAULT_PAGETABLE && s.smmu == DEFAULT_PAGETABLE
    && s.pc == map[] && s.mutex == None && s.owner == None
    && s.triggered == [] && s.completed == [] && !s.stale
    && (forall i | 0 <= i < |s.rings| :: s.rings[i] == FreshRing())
  }

  function FreshRing(): Ring {
    Ring([], 0, 0, 0, 0, DEFAULT_PAGETABLE, 0, 0, GpuMem(DEFAULT_PAGETABLE, DEFAULT_PAGETABLE, 0, 0), 0, None)
  }

  /** `acts` can be performed from `s`, one after the other. */
  ghost predicate Feasible(s: Sys, acts: seq<Action>)
    decreases |acts|
  {
    Wf(s) && (acts == [] || (Enabled(s, acts[0]) && Feasible(Next(s, acts[0]), acts[1..])))
  }

  ghost function Exec(s: Sys, acts: seq<Action>): Sys
    requires Feasible(s, acts)
    decreases |acts|
  {
    if acts == [] then s else Exec(Next(s, acts[0]), acts[1..])
  }

  lemma {:induction false} Extend(s0: Sys, acts: seq<Action>, s: Sys, a: Action)
    requires Feasible(s0, acts) && Exec(s0, acts) == s && Wf(s) && Enabled(s, a) && Wf(Next(s, a))
    ensures Feasible(s0, acts + [a]) && Exec(s0, acts + [a]) == Next(s, a)
    decreases |acts|
  {
    hide Next, Enabled;
    if acts == [] {
      assert acts + [a] == [a];
      assert [a][1..] == [];
    } else {
      Extend(Next(s0, acts[0]), acts[1..], s, a);
      assert (acts + [a])[1..] == acts[1..] + [a];
    }
  }
}
