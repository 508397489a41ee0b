/**
  One inductive invariant over driver state, shared memory, CP and threads.
 */
module PreemptInvariant {
  import opened Basics
  import opened PreemptModel

  // ------------------------------------------------------ what a ring contains

  /** `k` is the start of the ring or just past a yield. */
  predicate AtEnd(ops: seq<Op>, k: nat)
    requires k <= |ops|
  {
    k == 0 || ops[k - 1] == Yield
  }

  /** Places at which the CP may leave the ring. */
  predicate Calm(ops: seq<Op>, k: nat)
    requires k <= |ops|
  {
    AtEnd(ops, k) || (k < |ops| && ops[k].User?)
  }

  predicate SoundAt(base: GpuMem, ops: seq<Op>, k: nat, ts: nat)
    requires k <= |ops|
  {
    var m := After(base, ops, k);
    && m.eop <= m.sop <= ts
    && (Calm(ops, k) ==> m.table == m.scratch)
  }

  predicate Sound(base: GpuMem, ops: seq<Op>, ts: nat) {
    AtEnd(ops, |ops|) && forall k | 0 <= k <= |ops| :: SoundAt(base, ops, k, ts)
  }

  /** The ring as the submitter leaves it. */
  predicate Written(r: Ring) {
    Sound(r.base, r.ops, r.ts)
  }

  lemma {:induction false} AfterConcat(m: GpuMem, a: seq<Op>, b: seq<Op>, k: nat)
    requires k <= |a + b|
    ensures k <= |a| ==> After(m, a + b, k) == After(m, a, k)
    ensures k >= |a| ==> After(m, a + b, k) == After(After(m, a, |a|), b, k - |a|)
  {
    if k > 0 {
      AfterConcat(m, a, b, k - 1);
      assert (a + b)[k - 1] == if k - 1 < |a| then a[k - 1] else b[k - 1 - |a|];
    }
  }

  lemma SoundConcat(base: GpuMem, a: seq<Op>, b: seq<Op>, t: nat, ts: nat)
    requires Sound(base, a, t) && t <= ts
    requires b != [] && !b[0].User?
    requires Sound(After(base, a, |a|), b, ts)
    ensures Sound(base, a + b, ts)
  {
    forall k | 0 <= k <= |a + b| ensures SoundAt(base, a + b, k, ts) {
      AfterConcat(base, a, b, k);
      if k < |a| {
        assert SoundAt(base, a, k, t);
      } else {
        assert SoundAt(After(base, a, |a|), b, k - |a|, ts);
        assert SoundAt(base, a, |a|, t);
      }
    }
  }

  /** A context-switch submission moves table and scratch together before it yields. */
  lemma SwitchBlockSound(m: GpuMem, ts: nat, p: Pagetable, table: bool)
    requires m.eop <= m.sop <= ts && m.table == m.scratch
    ensures var b := Block(ts, if table then [Table(p), Scratch(p)] else []);
      && Sound(m, b, ts)
      && After(m, b, |b|).table == (if table then p else m.table)
  {
    if table {
      var b := Block(ts, [Table(p), Scratch(p)]);
      assert b == [Sop(ts), Table(p), Scratch(p), Eop(ts), Yield];
      assert After(m, b, 0) == m;
      assert After(m, b, 1) == GpuMem(m.table, m.scratch, ts, m.eop);
      assert After(m, b, 2) == GpuMem(p, m.scratch, ts, m.eop);
      assert After(m, b, 3) == GpuMem(p, p, ts, m.eop);
      assert After(m, b, 4) == GpuMem(p, p, ts, ts);
    } else {
      assert Repeat(User(DEFAULT_PAGETABLE), 0) == [];
      UserBlockSound(m, ts, DEFAULT_PAGETABLE, 0);
    }
  }

  lemma {:induction false} RepeatAt(op: Op, n: nat, k: nat)
    requires k < n
    ensures |Repeat(op, n)| == n && Repeat(op, n)[k] == op
  {
    if 0 < k {
      RepeatAt(op, n - 1, k - 1);
    } else if 1 < n {
      RepeatAt(op, n - 1, 0);
    }
  }

  lemma {:induction false} UserBlockAfter(m: GpuMem, ts: nat, p: Pagetable, n: nat, k: nat)
    requires k <= |Block(ts, Repeat(User(p), n))|
    ensures |Repeat(User(p), n)| == n
    ensures var b := Block(ts, Repeat(User(p), n));
      && |b| == n + 3 && b[0] == Sop(ts) && b[n + 1] == Eop(ts) && b[n + 2] == Yield
      && (forall j | 1 <= j <= n :: b[j] == User(p))
      && After(m, b, k) == m.(sop := if k > 0 then ts else m.sop, eop := if k > n + 1 then ts else m.eop)
  {
    var b := Block(ts, Repeat(User(p), n));
    if n > 0 { RepeatAt(User(p), n, 0); }
    forall j | 1 <= j <= n ensures b[j] == User(p) {
      RepeatAt(User(p), n, j - 1);
    }
    if k > 0 {
      UserBlockAfter(m, ts, p, n, k - 1);
    }
  }

  lemma UserBlockSound(m: GpuMem, ts: nat, p: Pagetable, n: nat)
    requires m.eop <= m.sop <= ts && m.table == m.scratch
    ensures var b := Block(ts, Repeat(User(p), n));
      Sound(m, b, ts) && After(m, b, |b|).table == m.table
  {
    var b := Block(ts, Repeat(User(p), n));
    UserBlockAfter(m, ts, p, n, |b|);
    forall k | 0 <= k <= |b| ensures SoundAt(m, b, k, ts) {
      UserBlockAfter(m, ts, p, n, k);
    }
  }

  lemma SoundMonotone(base: GpuMem, ops: seq<Op>, t: nat, ts: nat)
    requires Sound(base, ops, t) && t <= ts
    ensures Sound(base, ops, ts)
  {
    forall k | 0 <= k <= |ops| ensures SoundAt(base, ops, k, ts) {
      assert SoundAt(base, ops, k, t);
    }
  }

  lemma WrittenSwitch(r: Ring, c: Context, out: Outcome)
    requires Written(r)
    ensures Written(SwitchContext(r, c, out))
  {
    if r.active != Some(c) {
      var r' := SwitchContext(r, c, out);
      if out.Granted? {
        var m := After(r.base, r.ops, |r.ops|);
        assert SoundAt(r.base, r.ops, |r.ops|, r.ts);
        var b := Block(r.ts + 1, SwitchPayload(r.active, c));
        SwitchBlockSound(m, r.ts + 1, c.pagetable, TableMissing(r.active, c));
        SoundConcat(r.base, r.ops, b, r.ts, r.ts + 1);
        AfterConcat(r.base, r.ops, b, |r.ops + b|);
      } else {
        SoundMonotone(r.base, r.ops, r.ts, r.ts + 1);
      }
    }
  }

  lemma WrittenUser(r: Ring, c: Context, ibs: nat, out: Outcome)
    requires Written(r)
    ensures Written(SubmitUser(r, c, ibs, out))
  {
    if out.Granted? {
      var m := After(r.base, r.ops, |r.ops|);
      assert SoundAt(r.base, r.ops, |r.ops|, r.ts);
      var b := Block(r.ts + 1, Repeat(User(c.pagetable), ibs));
      UserBlockSound(m, r.ts + 1, c.pagetable, ibs);
      SoundConcat(r.base, r.ops, b, r.ts, r.ts + 1);
      AfterConcat(r.base, r.ops, b, |r.ops + b|);
    } else {
      SoundMonotone(r.base, r.ops, r.ts, r.ts + 1);
    }
  }

  // ------------------------------------------------------------- the invariant

  /** The write pointer the CP works towards, or will when it resumes the ring. */
  function Visible(s: Sys, i: nat): nat
    requires i < |s.rings|
  {
    if i == s.running then s.regWptr else s.rings[i].recWptr
  }

  predicate Pointers(s: Sys, i: nat)
    requires i < |s.rings|
  {
    var r := s.rings[i];
    && r.shadow <= r.rptr <= Visible(s, i) <= r.wptr <= |r.ops|
    && AtEnd(r.ops, r.wptr) && AtEnd(r.ops, Visible(s, i))
  }

  /** Shared words are what the executed ops left; a ring left aside was left calm. */
  predicate Memory(s: Sys, i: nat)
    requires i < |s.rings|
  {
    var r := s.rings[i];
    && r.rptr <= |r.ops|
    && var m := After(r.base, r.ops, r.rptr);
    && r.scratch == m.scratch && r.sop == m.sop && r.eop == m.eop
    && (s.perProcess ==> (if i == s.running then s.ttbr0 else m.scratch) == m.table)
  }

  predicate RingInv(s: Sys, i: nat)
    requires i < |s.rings|
  {
    Written(s.rings[i]) && Pointers(s, i) && Memory(s, i)
  }

  predicate RingsInv(s: Sys) {
    forall i | 0 <= i < |s.rings| :: RingInv(s, i)
  }

  /** Driver and CP agree on who runs, and on what a switch in flight will load. */
  predicate Agree(s: Sys)
    requires Wf(s)
  {
    && s.completed <= s.triggered && |s.triggered| <= |s.completed| + 1
    && (if InFlight(s) then
          && s.next.Some? && s.next.value != s.cur && s.restore == s.next.value
          && s.triggered[|s.completed|] == (s.cur, s.next.value)
          && s.state in {TRIGGERED, FAULTED, PENDING, COMPLETE}
          && s.running == (if s.cntl then s.cur else s.next.value)
          && (s.perProcess && s.cntl ==> s.smmu == s.rings[s.next.value].scratch)
        else
          s.running == s.cur && !s.cntl && s.state in {NONE, START, PENDING, COMPLETE})
  }

  predicate StaleExact(s: Sys)
    requires Wf(s)
  {
    s.stale <==> s.regWptr != s.rings[s.cur].wptr
  }

  predicate Owning(p: Pc) {
    p.Scan? || p.Adopt? || p.Leave? || p.Record? || p.Smmu? || p.Arm? || p.Fire?
    || p.Check? || p.Rotate? || p.Update? || p.Clear? || p.FaultCheck?
  }

  predicate UnderMutex(p: Pc) {
    p.Sched? || p.Work? || p.FaultCheck? || ((p.Check? || p.Rotate? || p.Update? || p.Clear?) && !p.irq)
  }

  predicate EmptyBelow(rings: seq<Ring>, n: nat) {
    forall j | 0 <= j < n && j < |rings| :: Empty(rings[j])
  }

  function InHand(irq: bool): PreemptState { if irq then PENDING else COMPLETE }

  /** The scan chose ring `k`, which is not current. */
  predicate Chosen(s: Sys, k: nat) {
    && s.state == START && k < |s.rings| && k != s.cur && !Empty(s.rings[k])
    && (!s.disturbed ==> EmptyBelow(s.rings, k))
  }

  predicate RecordWritten(s: Sys, k: nat)
    requires k < |s.rings|
  {
    !s.disturbed ==> s.rings[k].recWptr == s.rings[k].wptr
  }

  predicate SmmuWritten(s: Sys, k: nat)
    requires k < |s.rings|
  {
    s.perProcess ==> s.smmu == s.rings[k].scratch
  }

  /** What the owner of the preemption state knows at `p`. */
  predicate Phase(s: Sys, p: Pc)
    requires Wf(s)
  {
    match p
    case Scan(i) => s.state == START && (!s.disturbed ==> EmptyBelow(s.rings, i))
    case Adopt => s.state == START && (!s.disturbed ==> EmptyBelow(s.rings, s.cur))
    case Leave(found) =>
      s.state == START && (!s.disturbed ==>
        && EmptyBelow(s.rings, if found then s.cur else |s.rings|)
        && s.regWptr == s.rings[s.cur].wptr)
    case Record(k) => Chosen(s, k)
    case Smmu(k, p) => Chosen(s, k) && RecordWritten(s, k) && p == s.rings[k].scratch
    case Arm(k) => Chosen(s, k) && RecordWritten(s, k) && SmmuWritten(s, k)
    case Fire(k) =>
      Chosen(s, k) && RecordWritten(s, k) && SmmuWritten(s, k) && s.restore == k && s.next == Some(k)
    case Check(irq) => s.state == InHand(irq) && InFlight(s)
    case Rotate(irq) => s.state == InHand(irq) && InFlight(s) && !s.cntl
    case Update(irq) => s.state == InHand(irq) && !InFlight(s)
    case Clear(irq) => s.state == InHand(irq) && !InFlight(s) && StaleExact(s)
    case FaultCheck => s.state == FAULTED
    case _ => true
  }

  predicate Owners(s: Sys)
    requires Wf(s)
  {
    && (forall t | t in s.pc :: Owning(s.pc[t]) ==> s.owner == Some(t))
    && (forall t | t in s.pc :: UnderMutex(s.pc[t]) ==> s.mutex == Some(t))
    && (s.owner.Some? ==>
          s.owner.value in s.pc && Owning(s.pc[s.owner.value]) && Phase(s, s.pc[s.owner.value]))
    && (s.owner.None? ==> s.state !in {START, PENDING} && (s.state == COMPLETE ==> InFlight(s)))
  }

  predicate Inv(s: Sys) {
    && Wf(s) && RingsInv(s) && Agree(s) && Owners(s)
    && (s.state in {NONE, START} ==> StaleExact(s))
  }

  lemma InitialInv(s: Sys)
    requires Initial(s)
    ensures Inv(s)
  {
    forall i | 0 <= i < |s.rings| ensures RingInv(s, i) {
      assert s.rings[i] == FreshRing();
    }
  }

  // -------------------------------------------------- steps that touch no thread

  /** `s'` differs from `s` only in rings, CP registers and publication history. */
  predicate SameControl(s: Sys, s': Sys) {
    && |s'.rings| == |s.rings|
    && s' == s.(rings := s'.rings, regWptr := s'.regWptr, ttbr0 := s'.ttbr0,
                disturbed := s'.disturbed, stale := s'.stale)
    && (s.disturbed ==> s'.disturbed)
  }

  /** What a scanning thread saw of ring `j` is still so. */
  predicate SightKept(s: Sys, s': Sys, j: nat)
    requires j < |s.rings| == |s'.rings|
  {
    var r, r' := s.rings[j], s'.rings[j];
    && (!s'.disturbed && Empty(r) ==> Empty(r'))
    && (j != s.running && !Empty(r) ==> !Empty(r'))
    && (j != s.running ==> r'.scratch == r.scratch && r'.recWptr == r.recWptr)
    && (!s'.disturbed ==> r'.wptr == r.wptr)
  }

  predicate Quiet(s: Sys, s': Sys) {
    && SameControl(s, s')
    && (forall j | 0 <= j < |s.rings| :: SightKept(s, s', j))
    && (!s'.disturbed ==> s'.regWptr == s.regWptr)
  }

  lemma BelowKept(s: Sys, s': Sys)
    requires Quiet(s, s')
    ensures !s'.disturbed ==> forall n :: EmptyBelow(s.rings, n) ==> EmptyBelow(s'.rings, n)
  {
    forall n: nat, j | !s'.disturbed && EmptyBelow(s.rings, n) && 0 <= j < n && j < |s.rings|
      ensures Empty(s'.rings[j])
    {
      assert SightKept(s, s', j);
    }
  }

  lemma PhaseKept(s: Sys, s': Sys, p: Pc)
    requires Wf(s) && Wf(s') && Agree(s) && Quiet(s, s') && Phase(s, p)
    requires !InFlight(s) && StaleExact(s) ==> StaleExact(s')
    ensures Phase(s', p)
  {
    BelowKept(s, s');
    if p.Record? || p.Smmu? || p.Arm? || p.Fire? {
      assert SightKept(s, s', p.k);
      assert Chosen(s', p.k);
    } else if p.Leave? {
      assert SightKept(s, s', s.cur);
    }
  }

  lemma InvQuiet(s: Sys, s': Sys)
    requires Inv(s) && Wf(s') && Quiet(s, s') && RingsInv(s')
    requires !InFlight(s) && StaleExact(s) ==> StaleExact(s')
    ensures Inv(s')
  {
    assert Agree(s') by {
      if InFlight(s) { assert SightKept(s, s', s.next.value); }
    }
    if s.owner.Some? {
      PhaseKept(s, s', s.pc[s.owner.value]);
    }
  }

  lemma RingsWrite(s: Sys, i: nat, r: Ring)
    requires RingsInv(s) && i < |s.rings|
    requires var o := s.rings[i];
      && o.ops <= r.ops && Written(r)
      && r == o.(ops := r.ops, ts := r.ts, active := r.active)
    ensures RingsInv(s.(rings := s.rings[i := r]))
  {
    var s' := s.(rings := s.rings[i := r]);
    var o := s.rings[i];
    var b := r.ops[|o.ops|..];
    assert r.ops == o.ops + b;
    assert RingInv(s, i);
    AfterConcat(o.base, o.ops, b, o.rptr);
    forall j | 0 <= j < |s'.rings| ensures RingInv(s', j) {
      assert RingInv(s, j);
    }
  }

  /** Writing to a ring changes nothing anybody else looks at. */
  lemma InvWrite(s: Sys, i: nat, r: Ring)
    requires Inv(s) && i < |s.rings|
    requires var o := s.rings[i];
      && o.ops <= r.ops && Written(r)
      && r == o.(ops := r.ops, ts := r.ts, active := r.active)
    ensures Inv(s.(rings := s.rings[i := r]))
  {
    RingsWrite(s, i, r);
    InvQuiet(s, s.(rings := s.rings[i := r]));
  }

  lemma InvSwitch(s: Sys, i: nat, c: Context, room: Room)
    requires Inv(s) && i < |s.rings|
    ensures Inv(Next(s, ASwitch(i, c, room)))
  {
    var out := OutcomeOf(room, SwitchWords(s.rings[i].active, c));
    assert RingInv(s, i);
    WrittenSwitch(s.rings[i], c, out);
    InvWrite(s, i, SwitchContext(s.rings[i], c, out));
  }

  lemma InvUser(s: Sys, i: nat, c: Context, ibs: nat, dwords: nat, room: Room)
    requires Inv(s) && Enabled(s, AUser(i, c, ibs, dwords, room))
    ensures Inv(Next(s, AUser(i, c, ibs, dwords, room)))
  {
    assert RingInv(s, i);
    WrittenUser(s.rings[i], c, ibs, OutcomeOf(room, dwords));
    InvWrite(s, i, SubmitUser(s.rings[i], c, ibs, OutcomeOf(room, dwords)));
  }

  lemma RingsPublish(s: Sys, i: nat)
    requires Wf(s) && RingsInv(s) && Agree(s) && i < |s.rings|
    ensures RingsInv(Publish(s, i))
  {
    var s' := Publish(s, i);
    forall j | 0 <= j < |s'.rings| ensures RingInv(s', j) {
      assert RingInv(s, j);
    }
  }

  lemma InvPublish(s: Sys, i: nat)
    requires Inv(s) && i < |s.rings|
    ensures Inv(Next(s, APublish(i)))
  {
    assert RingInv(s, i);
    RingsPublish(s, i);
    InvQuiet(s, Publish(s, i));
  }

  lemma RingsExec(s: Sys)
    requires Wf(s) && RingsInv(s) && Enabled(s, AExec)
    ensures RingsInv(CpExec(s))
  {
    var s' := CpExec(s);
    forall j | 0 <= j < |s'.rings| ensures RingInv(s', j) {
      assert RingInv(s, j);
    }
  }

  lemma InvExec(s: Sys)
    requires Inv(s) && Enabled(s, AExec)
    ensures Inv(Next(s, AExec))
  {
    assert RingInv(s, s.running);
    RingsExec(s);
    InvQuiet(s, CpExec(s));
  }

  lemma RingsShadow(s: Sys, v: nat)
    requires Wf(s) && RingsInv(s) && Enabled(s, AShadow(v))
    ensures RingsInv(Next(s, AShadow(v)))
  {
    var s' := Next(s, AShadow(v));
    forall j | 0 <= j < |s'.rings| ensures RingInv(s', j) {
      assert RingInv(s, j);
    }
  }

  lemma InvShadow(s: Sys, v: nat)
    requires Inv(s) && Enabled(s, AShadow(v))
    ensures Inv(Next(s, AShadow(v)))
  {
    assert RingInv(s, s.running);
    RingsShadow(s, v);
    InvQuiet(s, Next(s, AShadow(v)));
  }

  /** The pagetable loaded at a switch is the one the resumed ring was left under. */
  lemma InvCpSwitch(s: Sys)
    requires Inv(s) && Enabled(s, ACpSwitch)
    ensures Inv(Next(s, ACpSwitch))
  {
    var s' := CpSwitch(s);
    var r := s.rings[s.running];
    assert RingInv(s, s.running) && RingInv(s, s.restore);
    assert Calm(r.ops, r.rptr);
    assert SoundAt(r.base, r.ops, r.rptr, r.ts);
    forall j | 0 <= j < |s'.rings| ensures RingInv(s', j) {
      assert RingInv(s, j);
    }
  }

  // ------------------------------------------------------------ steps of threads

  predicate SameRings(s: Sys, s': Sys) {
    s'.rings == s.rings && s'.running == s.running && s'.regWptr == s.regWptr
    && s'.ttbr0 == s.ttbr0 && s'.perProcess == s.perProcess
  }

  lemma RingsKept(s: Sys, s': Sys)
    requires RingsInv(s) && SameRings(s, s')
    ensures RingsInv(s')
  {
    forall i | 0 <= i < |s'.rings| ensures RingInv(s', i) {
      assert RingInv(s, i);
    }
  }

  /** Thread `t` owns the state, or takes it while nobody does, and stands at `p`. */
  lemma OwnersTake(s: Sys, s': Sys, t: Tid, p: Pc)
    requires Wf(s) && Wf(s') && Owners(s)
    requires s.owner == None || s.owner == Some(t)
    requires s'.owner == Some(t) && s'.pc == s.pc[t := p] && s'.mutex == s.mutex
    requires Owning(p) && Phase(s', p) && (UnderMutex(p) ==> s.mutex == Some(t))
    ensures Owners(s')
  {
  }

  /** Thread `t` gives the state up, or had not got it, and leaves it to nobody. */
  lemma OwnersDrop(s: Sys, s': Sys, t: Tid, p: Pc)
    requires Wf(s) && Wf(s') && Owners(s)
    requires s.owner == None || s.owner == Some(t)
    requires s'.owner == None && s'.pc == s.pc[t := p] && !Owning(p) && !UnderMutex(p)
    requires s'.mutex == s.mutex || s.mutex == Some(t)
    requires s'.state !in {START, PENDING} && (s'.state == COMPLETE ==> InFlight(s'))
    ensures Owners(s')
  {
  }

  lemma PhaseSame(s: Sys, s': Sys, p: Pc)
    requires Wf(s) && Wf(s') && Phase(s, p)
    requires s' == s.(pc := s'.pc, mutex := s'.mutex, owner := s'.owner)
    ensures Phase(s', p)
  {
  }

  /** Thread `t` moves without touching the state; whoever owns it keeps it. */
  lemma InvBystander(s: Sys, s': Sys, t: Tid, p: Pc)
    requires Inv(s) && !Owning(PcOf(s, t)) && !Owning(p)
    requires s' == s.(pc := s.pc[t := p], mutex := s'.mutex)
    requires s'.mutex == s.mutex || s.mutex == Some(t) || (s.mutex == None && s'.mutex == Some(t))
    requires UnderMutex(p) ==> s'.mutex == Some(t)
    ensures Inv(s')
  {
    RingsKept(s, s');
    assert Wf(s');
    if s.owner.Some? {
      PhaseSame(s, s', s.pc[s.owner.value]);
    }
  }

  /** The owner moves on to `p`, whose knowledge it already has. */
  lemma InvAdvance(s: Sys, t: Tid, p: Pc)
    requires Inv(s) && s.owner == Some(t)
    requires Owning(p) && PcWf(p, |s.rings|) && Phase(s, p) && (UnderMutex(p) ==> s.mutex == Some(t))
    ensures Inv(Goto(s, t, p))
  {
    var s' := Goto(s, t, p);
    assert Wf(s');
    PhaseSame(s, s', p);
    RingsKept(s, s');
    OwnersTake(s, s', t, p);
  }

  lemma InvNothingFound(s: Sys, t: Tid)
    requires Inv(s) && PcOf(s, t) == Scan(|s.rings|)
    ensures Inv(Goto(s, t, Leave(false)))
  {
    assert Phase(s, Scan(|s.rings|)) && RingInv(s, s.cur);
    assert Empty(s.rings[s.cur]) || s.disturbed;
    InvAdvance(s, t, Leave(false));
  }

  lemma InvScan(s: Sys, t: Tid, i: nat)
    requires Inv(s) && PcOf(s, t) == Scan(i)
    ensures Inv(ThreadStep(s, t, true))
  {
    hide RingsInv, Agree;
    assert Phase(s, Scan(i));
    if i == |s.rings| {
      InvNothingFound(s, t);
    } else if Empty(s.rings[i]) {
      InvAdvance(s, t, Scan(i + 1));
    } else if i == s.cur {
      InvAdvance(s, t, Adopt);
    } else {
      InvAdvance(s, t, Record(i));
    }
  }

  lemma InvAdopt(s: Sys, t: Tid)
    requires Inv(s) && PcOf(s, t) == Adopt
    ensures Inv(ThreadStep(s, t, true))
  {
    var s' := ThreadStep(s, t, true);
    assert Phase(s, Adopt);
    forall i | 0 <= i < |s'.rings| ensures RingInv(s', i) {
      assert RingInv(s, i);
    }
    OwnersTake(s, s', t, Leave(true));
  }

  lemma InvRecord(s: Sys, t: Tid, k: nat)
    requires Inv(s) && PcOf(s, t) == Record(k)
    ensures Inv(ThreadStep(s, t, true))
  {
    assert Phase(s, Record(k));
    var w := WriteRecord(s, k);
    RingsRecord(s, k);
    assert Wf(w) && Agree(w) && Owners(w);
    InvAdvance(w, t, Smmu(k, s.rings[k].scratch));
  }

  lemma RingsRecord(s: Sys, k: nat)
    requires RingsInv(s) && k < |s.rings| && k != s.running
    ensures RingsInv(WriteRecord(s, k))
  {
    var s' := WriteRecord(s, k);
    forall j | 0 <= j < |s'.rings| ensures RingInv(s', j) {
      assert RingInv(s, j);
    }
  }

  lemma InvSmmu(s: Sys, t: Tid, k: nat, p: Pagetable)
    requires Inv(s) && PcOf(s, t) == Smmu(k, p)
    ensures Inv(ThreadStep(s, t, true))
  {
    hide RingsInv;
    var s' := ThreadStep(s, t, true);
    assert Phase(s, Smmu(k, p));
    RingsKept(s, s');
    OwnersTake(s, s', t, Arm(k));
  }

  lemma InvArm(s: Sys, t: Tid, k: nat)
    requires Inv(s) && PcOf(s, t) == Arm(k)
    ensures Inv(ThreadStep(s, t, true))
  {
    var s' := ThreadStep(s, t, true);
    assert Phase(s, Arm(k));
    RingsKept(s, s');
    OwnersTake(s, s', t, Fire(k));
  }

  lemma InvFire(s: Sys, t: Tid, k: nat)
    requires Inv(s) && PcOf(s, t) == Fire(k)
    ensures Inv(ThreadStep(s, t, true))
  {
    var s' := ThreadStep(s, t, true);
    assert Phase(s, Fire(k));
    RingsKept(s, s');
    OwnersDrop(s, s', t, Idle);
  }

  /** The owner of a switch in flight leaves it to somebody else. */
  lemma InvDrop(s: Sys, s': Sys, t: Tid, p: Pc)
    requires Inv(s) && s.owner == Some(t) && InFlight(s) && s'.state in {FAULTED, COMPLETE}
    requires s' == s.(state := s'.state, owner := None, pc := s.pc[t := p], mutex := s'.mutex)
    requires s'.mutex == s.mutex || s.mutex == Some(t)
    requires PcWf(p, |s.rings|) && !Owning(p) && !UnderMutex(p)
    ensures Inv(s')
  {
    hide RingsInv;
    RingsKept(s, s');
    assert Wf(s') && Agree(s');
    OwnersDrop(s, s', t, p);
  }

  lemma InvCheck(s: Sys, t: Tid, irq: bool, awake: bool)
    requires Inv(s) && PcOf(s, t) == Check(irq)
    ensures Inv(ThreadStep(s, t, awake))
  {
    hide RingsInv, Agree;
    var s' := ThreadStep(s, t, awake);
    assert Phase(s, Check(irq));
    if s'.owner.Some? {
      InvAdvance(s, t, Rotate(irq));
    } else {
      InvDrop(s, s', t, PcOf(s', t));
    }
  }

  lemma InvRotate(s: Sys, t: Tid, irq: bool)
    requires Inv(s) && PcOf(s, t) == Rotate(irq)
    ensures CanStep(s, t) && Inv(ThreadStep(s, t, true))
  {
    var s' := ThreadStep(s, t, true);
    assert Phase(s, Rotate(irq));
    RingsKept(s, s');
    OwnersTake(s, s', t, s'.pc[t]);
  }

  lemma InvUpdate(s: Sys, t: Tid, irq: bool)
    requires Inv(s) && PcOf(s, t) == Update(irq)
    ensures Inv(ThreadStep(s, t, true))
  {
    var s' := ThreadStep(s, t, true);
    assert Phase(s, Update(irq));
    forall i | 0 <= i < |s'.rings| ensures RingInv(s', i) {
      assert RingInv(s, i);
    }
    OwnersTake(s, s', t, s'.pc[t]);
  }

  lemma InvRelease(s: Sys, t: Tid)
    requires Inv(s) && (PcOf(s, t).Leave? || PcOf(s, t).Clear?)
    ensures Inv(ThreadStep(s, t, true))
  {
    var s' := ThreadStep(s, t, true);
    assert Phase(s, s.pc[t]);
    RingsKept(s, s');
    OwnersDrop(s, s', t, s'.pc[t]);
  }

  lemma InvFaultCheck(s: Sys, t: Tid, awake: bool)
    requires Inv(s) && PcOf(s, t) == FaultCheck
    ensures Inv(ThreadStep(s, t, awake))
  {
    assert Phase(s, FaultCheck);
    InvDrop(s, ThreadStep(s, t, awake), t, Idle);
  }

  lemma NoOwner(s: Sys, t: Tid)
    requires Inv(s)
    requires
      || (PcOf(s, t).Cas? && s.state == NONE)
      || (PcOf(s, t).Sched? && s.state == COMPLETE)
      || (PcOf(s, t).Work? && s.state == FAULTED)
    ensures s.owner == None
  {
  }

  /** Nobody owns the state and thread `t` takes it. */
  lemma InvTake(s: Sys, s': Sys, t: Tid, p: Pc)
    requires Inv(s) && s.owner == None
    requires s' == s.(state := s'.state, owner := Some(t), disturbed := s'.disturbed, pc := s.pc[t := p])
    requires s'.state == s.state || (s.state, s'.state) == (NONE, START) || (s.state, s'.state) == (TRIGGERED, PENDING)
    requires Owning(p) && PcWf(p, |s.rings|) && (UnderMutex(p) ==> s.mutex == Some(t))
    requires Wf(s') ==> Phase(s', p)
    ensures Inv(s')
  {
    hide RingsInv;
    assert Wf(s') && Agree(s');
    RingsKept(s, s');
    OwnersTake(s, s', t, p);
  }

  /** Entering the trigger: the compare-and-swap finds no owner. */
  lemma InvCas(s: Sys, t: Tid)
    requires Inv(s) && PcOf(s, t).Cas?
    ensures Inv(ThreadStep(s, t, true))
  {
    if s.state == NONE {
      NoOwner(s, t);
      InvTake(s, ThreadStep(s, t, true), t, Scan(0));
    } else {
      InvBystander(s, Exit(s, t), t, Idle);
    }
  }

  /** The dispatcher's test under the mutex finds no owner. */
  lemma InvSched(s: Sys, t: Tid)
    requires Inv(s) && PcOf(s, t).Sched?
    ensures Inv(ThreadStep(s, t, true))
  {
    if s.state == COMPLETE {
      NoOwner(s, t);
      InvTake(s, ThreadStep(s, t, true), t, Check(false));
    } else {
      InvBystander(s, Goto(s, t, Cas), t, Cas);
    }
  }

  /** The worker's test under the mutex finds no owner. */
  lemma InvWork(s: Sys, t: Tid)
    requires Inv(s) && PcOf(s, t).Work?
    ensures Inv(ThreadStep(s, t, true))
  {
    if s.state == FAULTED {
      NoOwner(s, t);
      InvTake(s, ThreadStep(s, t, true), t, FaultCheck);
    } else {
      InvBystander(s, Exit(s, t), t, Idle);
    }
  }

  lemma InvThread(s: Sys, t: Tid, awake: bool)
    requires Inv(s)
    ensures CanStep(s, t) && Inv(ThreadStep(s, t, awake))
  {
    match PcOf(s, t)
    case Idle =>
    case Cas => InvCas(s, t);
    case Scan(i) => InvScan(s, t, i);
    case Adopt => InvAdopt(s, t);
    case Leave(_) => InvRelease(s, t);
    case Record(k) => InvRecord(s, t, k);
    case Smmu(k, p) => InvSmmu(s, t, k, p);
    case Arm(k) => InvArm(s, t, k);
    case Fire(k) => InvFire(s, t, k);
    case Check(irq) => InvCheck(s, t, irq, awake);
    case Rotate(irq) => InvRotate(s, t, irq);
    case Update(irq) => InvUpdate(s, t, irq);
    case Clear(_) => InvRelease(s, t);
    case Sched => InvSched(s, t);
    case Work => InvWork(s, t);
    case FaultCheck => InvFaultCheck(s, t, awake);
  }

  // ------------------------------------------------------- timer, irq, reset, runs

  lemma InvTimer(s: Sys)
    requires Inv(s) && s.state == TRIGGERED
    ensures Inv(Next(s, ATimer))
  {
    RingsKept(s, Next(s, ATimer));
  }

  lemma InvLock(s: Sys, t: Tid, p: Pc)
    requires Inv(s) && PcOf(s, t) == Idle && s.mutex == None && (p == Sched || p == Work)
    ensures Inv(Goto(s.(mutex := Some(t)), t, p))
  {
    InvBystander(s, Goto(s.(mutex := Some(t)), t, p), t, p);
  }

  lemma InvIrq(s: Sys, t: Tid)
    requires Inv(s) && Enabled(s, AIrq(t))
    ensures Inv(Next(s, AIrq(t)))
  {
    hide RingsInv;
    InvTake(s, Next(s, AIrq(t)), t, Check(true));
  }

  lemma RingsReset(s: Sys, hung: Option<nat>)
    requires Wf(s) && RingsInv(s) && Enabled(s, AReset(hung))
    ensures RingsInv(Reset(s, hung))
  {
    var s' := Reset(s, hung);
    forall i | 0 <= i < |s'.rings| ensures RingInv(s', i) {
      assert RingInv(s, i);
      var r := s.rings[i];
      assert SoundAt(r.base, r.ops, r.rptr, r.ts);
    }
  }

  lemma InvReset(s: Sys, hung: Option<nat>)
    requires Inv(s) && Enabled(s, AReset(hung))
    ensures Inv(Next(s, AReset(hung)))
  {
    hide RingsInv;
    RingsReset(s, hung);
  }

  /** Every step of every actor keeps the invariant. */
  lemma InvNext(s: Sys, a: Action)
    requires Inv(s) && Enabled(s, a)
    ensures Inv(Next(s, a))
  {
    match a
    case ASwitch(i, c, room) => InvSwitch(s, i, c, room);
    case AUser(i, c, ibs, dwords, room) => InvUser(s, i, c, ibs, dwords, room);
    case APublish(i) => InvPublish(s, i);
    case AExec => InvExec(s);
    case AShadow(v) => InvShadow(s, v);
    case ACpSwitch => InvCpSwitch(s);
    case ATimer => InvTimer(s);
    case AIrq(t) => InvIrq(s, t);
    case ASched(t) => InvLock(s, t, Sched);
    case AWork(t) => InvLock(s, t, Work);
    case AStep(t, awake) => InvThread(s, t, awake);
    case AReset(hung) => InvReset(s, hung);
  }

  lemma {:induction false} InvRun(s: Sys, acts: seq<Action>)
    requires Inv(s) && Feasible(s, acts)
    ensures Inv(Exec(s, acts))
    decreases |acts|
  {
    if acts != [] {
      InvNext(s, acts[0]);
      InvRun(Next(s, acts[0]), acts[1..]);
    }
  }
}
