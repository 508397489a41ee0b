/**
  The preemption code of the driver, statement by statement.

  Each method runs one thread with nobody in between, and is proved to be a run of that
  thread's atomic steps in the protocol of PreemptModel.  What other threads do between two
  of these steps is the protocol's concern: its theorems are about all interleavings of the
  steps.  `s` is the protocol state on entry; PreemptInvariant.Inv is what every reachable
  state satisfies.
 */
module PreemptDevice {
  import opened Basics
  import opened PreemptModel
  import opened PreemptInvariant

  predicate ByThread(a: Action, t: Tid) {
    (a.AStep? || a.AIrq? || a.ASched? || a.AWork?) && a.t == t
  }

  ghost predicate ThreadRun(s: Sys, t: Tid, acts: seq<Action>, s': Sys) {
    (forall k | 0 <= k < |acts| :: ByThread(acts[k], t)) && Feasible(s, acts) && Exec(s, acts) == s'
  }

  /** Thread `t` alone can take `s` to `s'`. */
  ghost predicate RunsTo(s: Sys, t: Tid, s': Sys) {
    Wf(s') && exists acts :: ThreadRun(s, t, acts, s')
  }

  lemma RunsInv(s: Sys, t: Tid, s': Sys)
    requires Inv(s) && RunsTo(s, t, s')
    ensures Inv(s')
  {
    var acts :| ThreadRun(s, t, acts, s');
    InvRun(s, acts);
  }

  lemma RunsNowhere(s: Sys, t: Tid)
    requires Wf(s)
    ensures RunsTo(s, t, s)
  {
    assert ThreadRun(s, t, [], s);
  }

  lemma RunsOn(s: Sys, t: Tid, m: Sys, a: Action)
    requires Inv(s) && RunsTo(s, t, m) && ByThread(a, t) && Enabled(m, a)
    ensures RunsTo(s, t, Next(m, a))
  {
    hide Next, Enabled, RingsInv, Agree, Owners;
    RunsInv(s, t, m);
    InvNext(m, a);
    var acts :| ThreadRun(s, t, acts, m);
    Extend(s, acts, m, a);
    assert ThreadRun(s, t, acts + [a], Next(m, a));
  }

  // One lemma for each program point: where the thread stands after its next step.

  /** `m` after thread `t` has won the compare-and-swap of a5xx_preemption_trigger. */
  function Started(m: Sys, t: Tid): Sys {
    Goto(m.(state := START, owner := Some(t), disturbed := false), t, Scan(0))
  }

  lemma TookCas(s: Sys, t: Tid, m: Sys)
    requires Inv(s) && RunsTo(s, t, m) && PcOf(m, t) == Cas
    ensures RunsTo(s, t, if m.state == NONE then Started(m, t) else Exit(m, t))
  {
    RunsOn(s, t, m, AStep(t, true));
  }

  lemma TookScan(s: Sys, t: Tid, m: Sys, i: nat)
    requires Inv(s) && RunsTo(s, t, m) && PcOf(m, t) == Scan(i) && i <= |m.rings|
    ensures RunsTo(s, t, Goto(m, t,
      if i == |m.rings| then Leave(false)
      else if Empty(m.rings[i]) then Scan(i + 1)
      else if i == m.cur then Adopt
      else Record(i)))
  {
    RunsOn(s, t, m, AStep(t, true));
  }

  lemma GotoTwice(m: Sys, t: Tid, p: Pc, q: Pc)
    ensures PcOf(Goto(m, t, p), t) == p && Goto(Goto(m, t, p), t, q) == Goto(m, t, q)
    ensures Goto(m, t, p).rings == m.rings && Goto(m, t, p).cur == m.cur
  {
    assert m.pc[t := p][t := q] == m.pc[t := q];
  }

  /** A scan, from ring `i` of a thread that stood somewhere in `m`. */
  lemma ScanOn(s: Sys, t: Tid, m: Sys, i: nat)
    requires Inv(s) && RunsTo(s, t, Goto(m, t, Scan(i))) && i <= |m.rings|
    ensures RunsTo(s, t, Goto(m, t,
      if i == |m.rings| then Leave(false)
      else if Empty(m.rings[i]) then Scan(i + 1)
      else if i == m.cur then Adopt
      else Record(i)))
  {
    hide RunsTo, Inv, Goto;
    var g := Goto(m, t, Scan(i));
    GotoTwice(m, t, Scan(i), Scan(i + 1));
    GotoTwice(m, t, Scan(i), Leave(false));
    GotoTwice(m, t, Scan(i), Adopt);
    GotoTwice(m, t, Scan(i), Record(i));
    TookScan(s, t, g, i);
  }

  lemma TookAdopt(s: Sys, t: Tid, m: Sys)
    requires Inv(s) && RunsTo(s, t, m) && PcOf(m, t) == Adopt
    ensures RunsTo(s, t, Goto(UpdateWptr(m), t, Leave(true)))
  {
    RunsOn(s, t, m, AStep(t, true));
  }

  lemma TookLeave(s: Sys, t: Tid, m: Sys)
    requires Inv(s) && RunsTo(s, t, m) && PcOf(m, t).Leave?
    ensures RunsTo(s, t, Exit(m.(state := NONE, owner := None), t))
  {
    RunsOn(s, t, m, AStep(t, true));
  }

  lemma TookRecord(s: Sys, t: Tid, m: Sys, k: nat)
    requires Inv(s) && RunsTo(s, t, m) && PcOf(m, t) == Record(k) && k < |m.rings|
    ensures RunsTo(s, t, Goto(WriteRecord(m, k), t, Smmu(k, m.rings[k].scratch)))
  {
    RunsOn(s, t, m, AStep(t, true));
  }

  lemma TookSmmu(s: Sys, t: Tid, m: Sys, k: nat, p: Pagetable)
    requires Inv(s) && RunsTo(s, t, m) && PcOf(m, t) == Smmu(k, p)
    ensures RunsTo(s, t, Goto(if m.perProcess then m.(smmu := p) else m, t, Arm(k)))
  {
    RunsOn(s, t, m, AStep(t, true));
  }

  lemma TookArm(s: Sys, t: Tid, m: Sys, k: nat)
    requires Inv(s) && RunsTo(s, t, m) && PcOf(m, t) == Arm(k)
    ensures RunsTo(s, t, Goto(m.(restore := k, next := Some(k)), t, Fire(k)))
  {
    RunsOn(s, t, m, AStep(t, true));
  }

  lemma TookFire(s: Sys, t: Tid, m: Sys, k: nat)
    requires Inv(s) && RunsTo(s, t, m) && PcOf(m, t) == Fire(k)
    ensures RunsTo(s, t, Exit(FireSwitch(m, k).(owner := None), t))
  {
    RunsOn(s, t, m, AStep(t, true));
  }

  /** `m` with the switch to `k` programmed and fired by thread `t`, which has left. */
  function Programmed(m: Sys, t: Tid, k: nat): Sys
    requires k < |m.rings|
  {
    var w := WriteRecord(m, k).(restore := k, next := Some(k), owner := None,
                                smmu := if m.perProcess then m.rings[k].scratch else m.smmu);
    Exit(FireSwitch(w, k), t)
  }

  lemma TookRecordAndSmmu(s: Sys, t: Tid, m: Sys, k: nat)
    requires Inv(s) && RunsTo(s, t, m) && PcOf(m, t) == Record(k) && k < |m.rings|
    ensures RunsTo(s, t,
      Goto(WriteRecord(m, k).(smmu := if m.perProcess then m.rings[k].scratch else m.smmu), t, Arm(k)))
  {
    hide RunsTo, Inv;
    TookRecord(s, t, m, k);
    var g := Goto(WriteRecord(m, k), t, Smmu(k, m.rings[k].scratch));
    TookSmmu(s, t, g, k, m.rings[k].scratch);
    assert g.pc[t := Arm(k)] == m.pc[t := Arm(k)];
  }

  lemma TookProgram(s: Sys, t: Tid, m: Sys, k: nat)
    requires Inv(s) && RunsTo(s, t, m) && PcOf(m, t) == Record(k) && k < |m.rings|
    ensures RunsTo(s, t, Programmed(m, t, k))
  {
    hide RunsTo, Inv;
    TookRecordAndSmmu(s, t, m, k);
    var g := Goto(WriteRecord(m, k).(smmu := if m.perProcess then m.rings[k].scratch else m.smmu), t, Arm(k));
    TookArmAndFire(s, t, g, k);
    assert g.pc[t := Idle] == m.pc[t := Idle];
  }

  lemma TookSwitch(s: Sys, t: Tid, m: Sys, k: nat)
    requires Inv(s) && k < |m.rings| && RunsTo(s, t, Goto(m, t, Record(k)))
    ensures RunsTo(s, t, Programmed(m, t, k))
  {
    hide RunsTo, Inv;
    var g := Goto(m, t, Record(k));
    TookProgram(s, t, g, k);
    assert g.pc[t := Idle] == m.pc[t := Idle];
  }

  lemma TookArmAndFire(s: Sys, t: Tid, m: Sys, k: nat)
    requires Inv(s) && RunsTo(s, t, m) && PcOf(m, t) == Arm(k) && k < |m.rings|
    ensures RunsTo(s, t, Exit(FireSwitch(m.(restore := k, next := Some(k), owner := None), k), t))
  {
    hide RunsTo, Inv;
    TookArm(s, t, m, k);
    var h := Goto(m.(restore := k, next := Some(k)), t, Fire(k));
    TookFire(s, t, h, k);
    assert h.pc[t := Idle] == m.pc[t := Idle];
  }

  /** `m` after thread `t` has ended its pass in NONE. */
  function Ended(m: Sys, t: Tid, found: bool): Sys
    requires Wf(m)
  {
    Exit((if found then UpdateWptr(m) else m).(state := NONE, owner := None), t)
  }

  /** The end of a pass whose scan found the current ring, or nothing. */
  lemma TookEnd(s: Sys, t: Tid, m: Sys, found: bool)
    requires Inv(s) && Wf(m) && RunsTo(s, t, Goto(m, t, if found then Adopt else Leave(false)))
    ensures RunsTo(s, t, Ended(m, t, found))
  {
    hide RunsTo, Inv;
    var g := Goto(m, t, if found then Adopt else Leave(false));
    if found {
      TookAdopt(s, t, g);
      g := Goto(UpdateWptr(g), t, Leave(true));
    }
    TookLeave(s, t, g);
    assert g.pc[t := Idle] == m.pc[t := Idle];
  }

  lemma TookCheck(s: Sys, t: Tid, m: Sys, irq: bool, awake: bool)
    requires Inv(s) && RunsTo(s, t, m) && PcOf(m, t) == Check(irq)
    ensures RunsTo(s, t,
      if !irq && !awake then Goto(m.(owner := None), t, Cas)
      else if !m.cntl then Goto(m, t, Rotate(irq))
      else if irq then Exit(m.(state := COMPLETE, owner := None), t)
      else Goto(m.(owner := None), t, Cas))
  {
    RunsOn(s, t, m, AStep(t, awake));
  }

  lemma TookRotate(s: Sys, t: Tid, m: Sys, irq: bool)
    requires Inv(s) && RunsTo(s, t, m) && PcOf(m, t) == Rotate(irq)
    ensures m.next.Some? && RunsTo(s, t, Goto(RotateRings(m), t, Update(irq)))
  {
    hide ThreadRun, RingsInv, Agree, Owners;
    RunsInv(s, t, m);
    InvThread(m, t, true);
    RunsOn(s, t, m, AStep(t, true));
  }

  lemma TookUpdate(s: Sys, t: Tid, m: Sys, irq: bool)
    requires Inv(s) && RunsTo(s, t, m) && PcOf(m, t) == Update(irq)
    ensures RunsTo(s, t, Goto(UpdateWptr(m), t, Clear(irq)))
  {
    RunsOn(s, t, m, AStep(t, true));
  }

  lemma TookClear(s: Sys, t: Tid, m: Sys, irq: bool)
    requires Inv(s) && RunsTo(s, t, m) && PcOf(m, t) == Clear(irq)
    ensures RunsTo(s, t, Goto(m.(state := NONE, owner := None), t, Cas))
  {
    RunsOn(s, t, m, AStep(t, true));
  }

  /** `m` after thread `t` has rotated the rings and cleared the state. */
  function Completed(m: Sys, t: Tid): Sys
    requires m.next.Some? && m.next.value < |m.rings|
  {
    Goto(RotateRings(m).(regWptr := m.rings[m.next.value].wptr, stale := false, state := NONE, owner := None), t, Cas)
  }

  lemma TookComplete(s: Sys, t: Tid, m: Sys, irq: bool)
    requires Inv(s) && RunsTo(s, t, m) && PcOf(m, t) == Rotate(irq)
    ensures m.next.Some? && RunsTo(s, t, Completed(m, t))
  {
    hide RunsTo, Inv;
    TookRotate(s, t, m, irq);
    var g := Goto(RotateRings(m), t, Update(irq));
    TookUpdateAndClear(s, t, g, irq);
    assert g.pc[t := Cas] == m.pc[t := Cas];
  }

  lemma TookUpdateAndClear(s: Sys, t: Tid, m: Sys, irq: bool)
    requires Inv(s) && RunsTo(s, t, m) && PcOf(m, t) == Update(irq)
    ensures RunsTo(s, t, Goto(m.(regWptr := m.rings[m.cur].wptr, stale := false, state := NONE, owner := None), t, Cas))
  {
    hide ThreadRun, Inv;
    TookUpdate(s, t, m, irq);
    var g := Goto(UpdateWptr(m), t, Clear(irq));
    TookClear(s, t, g, irq);
    assert g.pc[t := Cas] == m.pc[t := Cas];
  }

  lemma TookCompleteFrom(s: Sys, t: Tid, m: Sys, irq: bool)
    requires Inv(s) && Wf(m) && RunsTo(s, t, Goto(m, t, Rotate(irq)))
    ensures m.next.Some? && RunsTo(s, t, Completed(m, t))
  {
    hide RunsTo, Inv;
    var g := Goto(m, t, Rotate(irq));
    TookComplete(s, t, g, irq);
    assert g.pc[t := Cas] == m.pc[t := Cas];
  }

  lemma TookSched(s: Sys, t: Tid, m: Sys)
    requires Inv(s) && RunsTo(s, t, m) && PcOf(m, t) == Sched
    ensures RunsTo(s, t,
      if m.state == COMPLETE then Goto(m.(owner := Some(t)), t, Check(false)) else Goto(m, t, Cas))
  {
    RunsOn(s, t, m, AStep(t, true));
  }

  lemma TookWork(s: Sys, t: Tid, m: Sys)
    requires Inv(s) && RunsTo(s, t, m) && PcOf(m, t) == Work
    ensures RunsTo(s, t,
      if m.state == FAULTED then Goto(m.(owner := Some(t)), t, FaultCheck) else Exit(m, t))
  {
    RunsOn(s, t, m, AStep(t, true));
  }

  lemma TookFaultCheck(s: Sys, t: Tid, m: Sys, awake: bool)
    requires Inv(s) && RunsTo(s, t, m) && PcOf(m, t) == FaultCheck
    ensures RunsTo(s, t,
      if awake && !m.cntl then Exit(m.(state := COMPLETE, owner := None), t) else Exit(m.(owner := None), t))
  {
    RunsOn(s, t, m, AStep(t, awake));
  }

  lemma WorkerEnters(s: Sys, t: Tid)
    requires Inv(s) && PcOf(s, t) == Idle && s.mutex == None
    ensures var m := Next(s, AWork(t));
      RunsTo(s, t, if m.state == FAULTED then Goto(m.(owner := Some(t)), t, FaultCheck) else Exit(m, t))
  {
    RunsNowhere(s, t);
    RunsOn(s, t, s, AWork(t));
    TookWork(s, t, Next(s, AWork(t)));
  }

  lemma DispatcherEnters(s: Sys, t: Tid)
    requires Inv(s) && PcOf(s, t) == Idle && s.mutex == None
    ensures var m := Next(s, ASched(t));
      RunsTo(s, t, if m.state == COMPLETE then Goto(m.(owner := Some(t)), t, Check(false)) else Goto(m, t, Cas))
  {
    RunsNowhere(s, t);
    RunsOn(s, t, s, ASched(t));
    TookSched(s, t, Next(s, ASched(t)));
  }

  lemma HandlerEnters(s: Sys, t: Tid)
    requires Inv(s) && PcOf(s, t) == Idle && s.state == TRIGGERED
    ensures Enabled(s, AIrq(t))
    ensures var m := Next(s, AIrq(t));
      RunsTo(s, t, if m.cntl then Exit(m.(state := COMPLETE, owner := None), t) else Goto(m, t, Rotate(true)))
  {
    RunsNowhere(s, t);
    RunsOn(s, t, s, AIrq(t));
    TookCheck(s, t, Next(s, AIrq(t)), true, true);
  }

  /** What a trigger pass that was started does when nobody interferes. */
  predicate PassRan(s: Sys, s': Sys)
    requires Wf(s)
  {
    && s'.cur == s.cur && s'.prev == s.prev && s'.running == s.running && |s'.rings| == |s.rings|
    && if s'.state == NONE then
         && s'.rings == s.rings && s'.next == s.next && s'.cntl == s.cntl
         && if Empty(s.rings[s.cur]) then EmptyBelow(s.rings, |s.rings|) && s'.regWptr == s.regWptr
            else EmptyBelow(s.rings, s.cur) && s'.regWptr == s.rings[s.cur].wptr
       else
         && s'.state == TRIGGERED && s'.cntl && s'.regWptr == s.regWptr
         && s'.next.Some? && s'.next.value < |s.rings| && s'.next.value != s.cur
         && EmptyBelow(s.rings, s'.next.value) && !Empty(s.rings[s'.next.value])
         && s'.rings == WriteRecord(s, s'.next.value).rings && s'.restore == s'.next.value
         && (s.perProcess ==> s'.smmu == s.rings[s'.next.value].scratch)
  }

  /** What a trigger pass does when nobody interferes: nothing unless the state is NONE. */
  predicate PassDone(s: Sys, s': Sys)
    requires Wf(s)
  {
    if s.state == NONE then PassRan(s, s')
    else
      && s'.state == s.state && s'.rings == s.rings && s'.regWptr == s.regWptr && s'.next == s.next
      && s'.cur == s.cur && s'.prev == s.prev && s'.running == s.running
  }

  /** `s` with the rings rotated and the state cleared. */
  function Rotated(s: Sys): Sys
    requires s.next.Some? && s.next.value < |s.rings|
  {
    RotateRings(s).(regWptr := s.rings[s.next.value].wptr, stale := false, state := NONE)
  }

  /** The driver rotated the rings once and then made one trigger pass. */
  predicate RotatedAndRan(s: Sys, s': Sys)
    requires Wf(s)
  {
    s.next.Some? && PassRan(Rotated(s), s')
  }

  lemma CompletedRan(s: Sys, m: Sys, t: Tid, s': Sys)
    requires Wf(s) && Wf(m) && m.next.Some? && s.next == m.next && s.rings == m.rings && s.cur == m.cur
    requires s.running == m.running && s.cntl == m.cntl && s.perProcess == m.perProcess
    requires Wf(Completed(m, t)) && PassDone(Completed(m, t), s')
    ensures RotatedAndRan(s, s')
  {
  }

  /** Entering by way of the mutex changes nothing that the pass looks at. */
  lemma EnteredRan(s: Sys, m: Sys, s': Sys)
    requires Wf(s) && Wf(m) && PassDone(m, s') && m.state == s.state && m.rings == s.rings && m.cur == s.cur
    requires m.next == s.next && m.prev == s.prev && m.running == s.running && m.regWptr == s.regWptr
    requires m.cntl == s.cntl && m.perProcess == s.perProcess
    ensures PassDone(s, s')
    ensures s.state != NONE ==> s'.state == s.state && s'.cur == s.cur && s'.rings == s.rings
  {
  }

  lemma StartedRan(m: Sys, t: Tid, s': Sys)
    requires Wf(m) && Wf(Started(m, t)) && PassRan(Started(m, t), s')
    ensures PassRan(m, s')
  {
  }

  lemma ProgrammedRan(m: Sys, t: Tid, k: nat)
    requires Wf(m) && k < |m.rings| && k != m.cur && EmptyBelow(m.rings, k) && !Empty(m.rings[k])
    ensures PassRan(m, Programmed(m, t, k)) && PcOf(Programmed(m, t, k), t) == Idle
  {
  }

  lemma EndedRan(m: Sys, t: Tid, found: bool)
    requires Wf(m) && EmptyBelow(m.rings, if found then m.cur else |m.rings|)
    requires found == !Empty(m.rings[m.cur])
    ensures PassRan(m, Ended(m, t, found)) && PcOf(Ended(m, t, found), t) == Idle
  {
  }

  lemma AtScan(s: Sys, t: Tid, m: Sys)
    requires RunsTo(s, t, m) && t in m.pc && m.pc[t] == Scan(0)
    ensures RunsTo(s, t, Goto(m, t, Scan(0)))
  {
    assert m.pc[t := Scan(0)] == m.pc;
  }

  class Device {
    var rings: seq<Ring>
    var cur: nat
    var next: Option<nat>
    var prev: Option<nat>
    var state: PreemptState
    const perProcess: bool
    var running: nat
    var regWptr: nat
    var cntl: bool
    var restore: nat
    var ttbr0: Pagetable
    var smmu: Pagetable

    /** The fields are those of protocol state `s`. */
    ghost predicate Shows(s: Sys)
      reads this
    {
      && rings == s.rings && cur == s.cur && next == s.next && prev == s.prev && state == s.state
      && perProcess == s.perProcess && running == s.running && regWptr == s.regWptr && cntl == s.cntl
      && restore == s.restore && ttbr0 == s.ttbr0 && smmu == s.smmu
    }

    /** adreno_move_preempt_state */
    method MovePreemptState(from: PreemptState, to: PreemptState) returns (moved: bool)
      modifies this`state
      ensures moved <==> old(state) == from
      ensures state == if moved then to else old(state)
    {
      moved := state == from;
      if moved { state := to; }
    }

    /** The critical section of a5xx_ringbuffer_submit. */
    method RingbufferSubmit(i: nat, ghost s: Sys)
      requires Shows(s) && Inv(s) && i < |rings|
      modifies this`rings, this`regWptr
      ensures Shows(Publish(s, i))
      ensures rings[i].wptr == |rings[i].ops|
      ensures state == NONE && cur == i ==> regWptr == rings[i].wptr
    {
      if state == NONE {
        if cur == i {
          regWptr := |rings[i].ops|;
        }
      }
      rings := rings[i := rings[i].(wptr := |rings[i].ops|)];
    }

    /** _update_wptr */
    method UpdateRbWptr(ghost s: Sys)
      requires Shows(s) && Wf(s)
      modifies this`regWptr
      ensures Shows(UpdateWptr(s))
    {
      var wptr := regWptr;
      if wptr != rings[cur].wptr {
        regWptr := rings[cur].wptr;
      }
    }

    /** a5xx_next_ringbuffer: the lowest-numbered ring that has work. */
    method NextRingbuffer(ghost s: Sys, ghost t: Tid, ghost m: Sys) returns (found: Option<nat>)
      requires Inv(s) && Shows(m) && RunsTo(s, t, m) && t in m.pc && m.pc[t] == Scan(0)
      ensures found.None? ==> EmptyBelow(rings, |rings|)
      ensures found.Some? ==> found.value < |rings| && EmptyBelow(rings, found.value) && !Empty(rings[found.value])
      ensures RunsTo(s, t, Goto(m, t,
        if found.None? then Leave(false) else if found.value == cur then Adopt else Record(found.value)))
    {
      hide ThreadRun, RingsInv, Agree, Owners;
      var i := 0;
      AtScan(s, t, m);
      while i < |rings|
        invariant i <= |rings|
        invariant EmptyBelow(rings, i)
        invariant RunsTo(s, t, Goto(m, t, Scan(i)))
      {
        ScanOn(s, t, m, i);
        if !Empty(rings[i]) {
          return Some(i);
        }
        i := i + 1;
      }
      ScanOn(s, t, m, i);
      return None;
    }

    /** The second half of a5xx_preemption_trigger, from the critical section on. */
    method ProgramSwitch(ghost m: Sys, ghost t: Tid, k: nat)
      requires Shows(m) && k < |rings|
      modifies this
      ensures Shows(Programmed(m, t, k))
    {
      var table := rings[k].scratch;
      rings := rings[k := rings[k].(recWptr := rings[k].wptr)];
      if perProcess {
        smmu := table;
      }
      restore := k;
      next := Some(k);
      state := TRIGGERED;
      cntl := true;
    }

    /** The early way out of a5xx_preemption_trigger. */
    method EndPass(ghost m: Sys, ghost t: Tid, found: bool)
      requires Shows(m) && Wf(m)
      modifies this`regWptr, this`state
      ensures Shows(Ended(m, t, found))
    {
      if found {
        UpdateRbWptr(m);
      }
      state := NONE;
    }

    /** a5xx_preemption_trigger, past the compare-and-swap. */
    method RunPass(ghost s: Sys, ghost t: Tid, ghost m: Sys) returns (ghost s': Sys)
      requires Inv(s) && Shows(m) && RunsTo(s, t, m) && t in m.pc && m.pc[t] == Scan(0)
      modifies this
      ensures Shows(s') && RunsTo(s, t, s') && PassRan(m, s') && PcOf(s', t) == Idle
    {
      var k := NextRingbuffer(s, t, m);
      if k.None? || k.value == cur {
        TookEnd(s, t, m, k.Some?);
        EndedRan(m, t, k.Some?);
        EndPass(m, t, k.Some?);
        s' := Ended(m, t, k.Some?);
      } else {
        TookSwitch(s, t, m, k.value);
        ProgrammedRan(m, t, k.value);
        ProgramSwitch(m, t, k.value);
        s' := Programmed(m, t, k.value);
      }
    }

    /** a5xx_preemption_trigger */
    method PreemptionTrigger(ghost s: Sys, ghost t: Tid, ghost m: Sys) returns (ghost s': Sys)
      requires Inv(s) && Shows(m) && RunsTo(s, t, m) && PcOf(m, t) == Cas
      modifies this
      ensures Shows(s') && RunsTo(s, t, s') && PassDone(m, s')
      ensures PcOf(s', t) == Idle
    {
      hide ThreadRun, RingsInv, Agree, Owners, PassRan, RotatedAndRan;
      TookCas(s, t, m);
      var moved := MovePreemptState(NONE, START);
      if !moved {
        return Exit(m, t);
      }
      s' := RunPass(s, t, Started(m, t));
      StartedRan(m, t, s');
    }

    /** The bookkeeping that a5xx_preempt_callback and _a5xx_preemption_done share. */
    method CompleteSwitch(ghost m: Sys, ghost t: Tid)
      requires Shows(m) && Wf(m) && m.next.Some?
      modifies this
      ensures Shows(Completed(m, t))
    {
      prev := Some(cur);
      cur := next.value;
      next := None;
      UpdateRbWptr(RotateRings(m));
      state := NONE;
    }

    /** a5xx_preempt_callback */
    method PreemptCallback(ghost s: Sys, ghost t: Tid) returns (ghost s': Sys)
      requires Shows(s) && Inv(s) && PcOf(s, t) == Idle
      modifies this
      ensures Shows(s') && RunsTo(s, t, s') && PcOf(s', t) == Idle
      ensures old(state) != TRIGGERED ==> s' == s
      ensures old(state) == TRIGGERED && old(cntl) ==> state == COMPLETE && cur == old(cur) && next == old(next)
      ensures old(state) == TRIGGERED && !old(cntl) ==> RotatedAndRan(s, s')
    {
      hide ThreadRun, RingsInv, Agree, Owners, PassRan, RotatedAndRan;
      RunsNowhere(s, t);
      s' := s;
      var moved := MovePreemptState(TRIGGERED, PENDING);
      if !moved {
        return;
      }
      HandlerEnters(s, t);
      s' := Next(s, AIrq(t));
      var status := cntl;
      if status {
        state := COMPLETE;
        s' := Exit(s'.(state := COMPLETE, owner := None), t);
        return;
      }
      s' := RotateAndTrigger(s, t, Goto(s', t, Rotate(true)), s);
    }

    /** The rest of a5xx_preempt_callback, once the CP has switched. */
    method RotateAndTrigger(ghost s: Sys, ghost t: Tid, ghost m: Sys, ghost entry: Sys) returns (ghost s': Sys)
      requires Inv(s) && Shows(m) && RunsTo(s, t, m) && PcOf(m, t) == Rotate(true)
      requires Wf(entry) && entry.next == m.next && entry.rings == m.rings && entry.cur == m.cur
      requires entry.running == m.running && entry.cntl == m.cntl && entry.perProcess == m.perProcess
      modifies this
      ensures Shows(s') && RunsTo(s, t, s') && PcOf(s', t) == Idle
      ensures RotatedAndRan(entry, s')
    {
      TookComplete(s, t, m, true);
      CompleteSwitch(m, t);
      s' := PreemptionTrigger(s, t, Completed(m, t));
      CompletedRan(entry, m, t, s');
    }

    /** _a5xx_preemption_done; `awake` is kgsl_state_is_awake, a fault is reported through `fault`. */
    method PreemptionDone(awake: bool, ghost s: Sys, ghost t: Tid, ghost m: Sys)
      returns (fault: bool, ghost s': Sys)
      requires Inv(s) && Shows(m) && RunsTo(s, t, m) && PcOf(m, t) == Check(false)
      modifies this
      ensures Shows(s') && RunsTo(s, t, s') && PcOf(s', t) == Cas && rings == old(rings)
      ensures !fault && awake ==> m.next.Some? && m.next.value < |m.rings| && s' == Completed(m, t)
      ensures fault || !awake ==> s' == Goto(m.(owner := None), t, Cas)
      ensures fault <==> awake && old(cntl)
      ensures fault || !awake ==> state == old(state) && cur == old(cur) && next == old(next)
      ensures !fault && awake ==>
        state == NONE && old(next).Some? && cur == old(next).value && next == None && regWptr == rings[cur].wptr
    {
      TookCheck(s, t, m, false, awake);
      fault := false;
      if !awake {
        return false, Goto(m.(owner := None), t, Cas);
      }
      var status := cntl;
      if status {
        return true, Goto(m.(owner := None), t, Cas);
      }
      TookCompleteFrom(s, t, m, false);
      CompleteSwitch(m, t);
      s' := Completed(m, t);
    }

    /** a5xx_preemption_schedule, with preemption enabled and the device mutex free. */
    method PreemptionSchedule(awake: bool, ghost s: Sys, ghost t: Tid) returns (fault: bool, ghost s': Sys)
      requires Shows(s) && Inv(s) && PcOf(s, t) == Idle && s.mutex == None
      modifies this
      ensures Shows(s') && RunsTo(s, t, s') && PcOf(s', t) == Idle
      ensures fault <==> old(state) == COMPLETE && awake && old(cntl)
      ensures old(state) == COMPLETE && awake && !old(cntl) ==> RotatedAndRan(s, s')
      ensures old(state) == NONE ==> PassDone(s, s')
      ensures old(state) !in {NONE, COMPLETE} || fault ==> state == old(state) && cur == old(cur) && rings == old(rings)
    {
      hide ThreadRun, RingsInv, Agree, Owners, PassDone, RotatedAndRan;
      DispatcherEnters(s, t);
      s' := Next(s, ASched(t));
      fault := false;
      if state == COMPLETE {
        ghost var m := Goto(s'.(owner := Some(t)), t, Check(false));
        ghost var m';
        fault, m' := PreemptionDone(awake, s, t, m);
        s' := PreemptionTrigger(s, t, m');
        if awake && !fault {
          CompletedRan(s, m, t, s');
        } else {
          EnteredRan(s, m', s');
        }
      } else {
        ghost var m := Goto(s', t, Cas);
        s' := PreemptionTrigger(s, t, m);
        EnteredRan(s, m, s');
      }
    }

    /** _a5xx_preemption_fault */
    method PreemptionFault(awake: bool, ghost s: Sys, ghost t: Tid, ghost m: Sys) returns (fault: bool, ghost s': Sys)
      requires Inv(s) && Shows(m) && RunsTo(s, t, m) && PcOf(m, t) == FaultCheck
      modifies this`state
      ensures Shows(s') && RunsTo(s, t, s') && PcOf(s', t) == Idle
      ensures state == if awake && !cntl then COMPLETE else old(state)
      ensures fault <==> !(awake && !cntl)
    {
      hide ThreadRun, RingsInv, Agree, Owners, PassRan, RotatedAndRan;
      TookFaultCheck(s, t, m, awake);
      if awake {
        var status := cntl;
        if !status {
          state := COMPLETE;
          return false, Exit(m.(state := COMPLETE, owner := None), t);
        }
      }
      return true, Exit(m.(owner := None), t);
    }

    /** _a5xx_preemption_worker */
    method PreemptionWorker(awake: bool, ghost s: Sys, ghost t: Tid) returns (fault: bool, ghost s': Sys)
      requires Shows(s) && Inv(s) && PcOf(s, t) == Idle && s.mutex == None
      modifies this`state
      ensures Shows(s') && RunsTo(s, t, s') && PcOf(s', t) == Idle
      ensures state == if old(state) == FAULTED && awake && !cntl then COMPLETE else old(state)
      ensures fault <==> state == FAULTED
    {
      hide ThreadRun, RingsInv, Agree, Owners, PassRan, RotatedAndRan;
      WorkerEnters(s, t);
      s' := Next(s, AWork(t));
      fault := false;
      if state == FAULTED {
        fault, s' := PreemptionFault(awake, s, t, Goto(s'.(owner := Some(t)), t, FaultCheck));
      } else {
        s' := Exit(s', t);
      }
    }

    /** adreno_preemption_timer; `queued` says whether the worker was queued. */
    method PreemptionTimer(ghost s: Sys) returns (queued: bool)
      requires Shows(s) && Inv(s)
      modifies this`state
      ensures queued <==> old(state) == TRIGGERED
      ensures queued ==> Enabled(s, ATimer) && Shows(Next(s, ATimer)) && Inv(Next(s, ATimer))
      ensures !queued ==> Shows(s)
    {
      if s.state == TRIGGERED { InvTimer(s); }
      queued := MovePreemptState(TRIGGERED, FAULTED);
    }
  }
}
