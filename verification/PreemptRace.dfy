/**
  The publication of a submission in two steps: the test of the preemption state, and then
  the write of RB_WPTR.  The ring's lock is held in between, and keeps out whoever needs it;
  it does not keep the state from moving on.
 */
module PreemptRace {
  import opened Basics
  import opened PreemptModel
  import opened PreemptInvariant
  import opened PreemptTheorems

  /** The test: ring `i` is current and nothing is being preempted. */
  predicate Passes(s: Sys, i: nat) { s.state == NONE && s.cur == i }

  /** The write, of a submission to ring `i` whose test had this result. */
  function Landed(s: Sys, i: nat, passed: bool): Sys
    requires i < |s.rings|
  {
    var w := |s.rings[i].ops|;
    s.(rings := s.rings[i := s.rings[i].(wptr := w)],
       regWptr := if passed then w else s.regWptr,
       disturbed := true,
       stale := if passed then false else s.stale || (s.cur == i && s.rings[i].wptr != w))
  }

  /** With nobody in between the two steps are the protocol's one. */
  lemma LandedAtOnce(s: Sys, i: nat)
    requires i < |s.rings|
    ensures Landed(s, i, Passes(s, i)) == Publish(s, i)
  {
  }

  /** `a` does without the lock of ring `i`, and does not reset the device. */
  predicate WithoutLock(s: Sys, a: Action, i: nat) {
    match a
    case APublish(j) => j != i
    case AStep(t, _) =>
      (match PcOf(s, t)
       case Scan(j) => j != i
       case Record(j) => j != i
       case Adopt => s.cur != i
       case Update(_) => s.cur != i
       case _ => true)
    case AReset(_) => false
    case _ => true
  }

  /** What can be done while somebody holds the lock of ring `i`. */
  ghost predicate LockHeld(s: Sys, acts: seq<Action>, i: nat)
    requires Feasible(s, acts)
    decreases |acts|
  {
    acts == [] || (WithoutLock(s, acts[0], i) && LockHeld(Next(s, acts[0]), acts[1..], i))
  }

  // ------------------------------------------------------- until the CP has switched

  /** The ring a thread is about to switch to. */
  function Target(p: Pc): Option<nat> {
    match p
    case Record(k) => Some(k)
    case Smmu(k, _) => Some(k)
    case Arm(k) => Some(k)
    case Fire(k) => Some(k)
    case _ => None
  }

  /** What a step of thread `t` does besides: it moves no other thread, and aims at ring `i` only if it did before. */
  predicate Aside(s: Sys, s': Sys, t: Tid, i: nat) {
    && s'.running == s.running && (!PcOf(s, t).Rotate? ==> s'.cur == s.cur)
    && (forall u | u in s'.pc && u != t :: u in s.pc && s'.pc[u] == s.pc[u])
    && (Target(PcOf(s, t)) != Some(i) ==>
          && Target(PcOf(s', t)) != Some(i)
          && (s'.restore == s.restore || s'.restore != i) && (s'.next == s.next || s'.next != Some(i)))
  }

  lemma CasAside(s: Sys, t: Tid, awake: bool, i: nat)
    requires Wf(s) && CanStep(s, t) && WithoutLock(s, AStep(t, awake), i)
    requires var p := PcOf(s, t); p.Cas?
    ensures Aside(s, ThreadStep(s, t, awake), t, i)
  {
    hide Wf, Empty, UpdateWptr, RotateRings, WriteRecord, FireSwitch;
  }

  lemma GotoAside(s: Sys, t: Tid, p: Pc, i: nat)
    requires Target(p) != Some(i)
    ensures Aside(s, Goto(s, t, p), t, i)
  {
  }

  lemma ScanAside(s: Sys, t: Tid, awake: bool, j: nat, i: nat)
    requires Wf(s) && PcOf(s, t) == Scan(j) && j != i
    ensures Aside(s, ThreadStep(s, t, awake), t, i)
  {
    hide Wf, Empty, Goto, Aside;
    GotoAside(s, t, Leave(false), i);
    GotoAside(s, t, Scan(j + 1), i);
    GotoAside(s, t, Adopt, i);
    GotoAside(s, t, Record(j), i);
  }

  lemma EndAside(s: Sys, t: Tid, awake: bool, i: nat)
    requires Wf(s) && CanStep(s, t) && WithoutLock(s, AStep(t, awake), i)
    requires var p := PcOf(s, t); p.Adopt? || p.Leave?
    ensures Aside(s, ThreadStep(s, t, awake), t, i)
  {
    hide Wf;
    match PcOf(s, t)
    case Adopt =>
    case Leave(_) =>
  }

  lemma ProgramAside(s: Sys, t: Tid, awake: bool, i: nat)
    requires Wf(s) && CanStep(s, t) && WithoutLock(s, AStep(t, awake), i)
    requires var p := PcOf(s, t); p.Record? || p.Smmu? || p.Arm? || p.Fire?
    ensures Aside(s, ThreadStep(s, t, awake), t, i)
  {
    hide Wf;
    match PcOf(s, t)
    case Record(_) =>
    case Smmu(_, _) =>
    case Arm(_) =>
    case Fire(_) =>
  }

  lemma CompleteAside(s: Sys, t: Tid, awake: bool, i: nat)
    requires Wf(s) && CanStep(s, t) && WithoutLock(s, AStep(t, awake), i)
    requires var p := PcOf(s, t); p.Check? || p.Rotate? || p.Update? || p.Clear?
    ensures Aside(s, ThreadStep(s, t, awake), t, i)
  {
    hide Wf;
    match PcOf(s, t)
    case Check(_) =>
    case Rotate(_) =>
    case Update(_) =>
    case Clear(_) =>
  }

  lemma DispatcherAside(s: Sys, t: Tid, awake: bool, i: nat)
    requires Wf(s) && CanStep(s, t) && WithoutLock(s, AStep(t, awake), i)
    requires var p := PcOf(s, t); p.Sched?
    ensures Aside(s, ThreadStep(s, t, awake), t, i)
  {
    hide Wf, Empty, UpdateWptr, RotateRings, WriteRecord, FireSwitch;
  }

  lemma WorkerAside(s: Sys, t: Tid, awake: bool, i: nat)
    requires Wf(s) && CanStep(s, t) && WithoutLock(s, AStep(t, awake), i)
    requires var p := PcOf(s, t); p.Work? || p.FaultCheck?
    ensures Aside(s, ThreadStep(s, t, awake), t, i)
  {
    hide Wf, Empty, UpdateWptr, RotateRings, WriteRecord, FireSwitch;
    match PcOf(s, t)
    case Work =>
    case FaultCheck =>
  }

  lemma IdleAside(s: Sys, t: Tid, awake: bool, i: nat)
    requires Wf(s) && CanStep(s, t) && PcOf(s, t).Idle?
    ensures Aside(s, ThreadStep(s, t, awake), t, i)
  {
    hide Wf;
  }

  lemma StepAside(s: Sys, t: Tid, awake: bool, i: nat)
    requires Wf(s) && CanStep(s, t) && WithoutLock(s, AStep(t, awake), i)
    ensures Aside(s, ThreadStep(s, t, awake), t, i)
  {
    hide ThreadStep, Aside;
    var p := PcOf(s, t);
    if p.Cas? {
      CasAside(s, t, awake, i);
    } else if p.Scan? {
      ScanAside(s, t, awake, p.i, i);
    } else if p.Adopt? || p.Leave? {
      EndAside(s, t, awake, i);
    } else if p.Record? || p.Smmu? || p.Arm? || p.Fire? {
      ProgramAside(s, t, awake, i);
    } else if p.Check? || p.Rotate? || p.Update? || p.Clear? {
      CompleteAside(s, t, awake, i);
    } else if p.Sched? {
      DispatcherAside(s, t, awake, i);
    } else if p.Work? || p.FaultCheck? {
      WorkerAside(s, t, awake, i);
    } else {
      IdleAside(s, t, awake, i);
    }
  }

  /** As long as ring `i` is current and runs, only the CP can change that. */
  lemma StaysRunning(s: Sys, a: Action, i: nat)
    requires Inv(s) && Enabled(s, a) && WithoutLock(s, a, i) && a != ACpSwitch && s.running == s.cur == i
    ensures Next(s, a).running == Next(s, a).cur == i
  {
    hide RingsInv;
    if a.AStep? {
      StepAside(s, a.t, a.awake, i);
      assert Phase(s, PcOf(s, a.t));
    }
  }

  // ------------------------------------------------------------ and once it has

  /** Ring `i` does not run, and nobody is about to switch to it. */
  predicate Away(s: Sys, i: nat) {
    && s.running != i && s.restore != i && s.next != Some(i)
    && forall t | t in s.pc :: Target(s.pc[t]) != Some(i)
  }

  lemma SwitchesAway(s: Sys, i: nat)
    requires Inv(s) && Enabled(s, ACpSwitch) && s.cur == i
    ensures Away(Next(s, ACpSwitch), i)
  {
    hide RingsInv;
    forall t | t in s.pc ensures Target(s.pc[t]) != Some(i) {
      assert Target(s.pc[t]).Some? ==> Phase(s, s.pc[t]);
    }
  }

  /** A thread's step leaves ring `i` alone. */
  lemma StepStaysAway(s: Sys, t: Tid, awake: bool, i: nat)
    requires Inv(s) && CanStep(s, t) && WithoutLock(s, AStep(t, awake), i) && Away(s, i)
    requires Inv(ThreadStep(s, t, awake))
    ensures Away(ThreadStep(s, t, awake), i)
  {
    hide ThreadStep, RingsInv, Owners, WithoutLock;
    StepAside(s, t, awake, i);
  }

  lemma StaysAway(s: Sys, a: Action, i: nat)
    requires Inv(s) && Enabled(s, a) && WithoutLock(s, a, i) && Away(s, i)
    ensures Away(Next(s, a), i)
  {
    hide RingsInv, ThreadStep, Agree, Owners;
    InvNext(s, a);
    if a.AStep? {
      StepStaysAway(s, a.t, a.awake, i);
    }
  }

  // -------------------------------------------------------------------- all of it

  /**
    Whatever is done without the lock of ring `i`, as long as the CP has not switched the ring
    still runs; once it has, the ring does not run any more.
   */
  lemma {:induction false} Interleaved(s: Sys, acts: seq<Action>, i: nat)
    requires Feasible(s, acts) && LockHeld(s, acts, i) && Inv(s)
    requires (s.running == s.cur == i) || Away(s, i)
    ensures var s' := Exec(s, acts);
      && Inv(s')
      && if s.running == i && ACpSwitch !in acts then s'.running == s'.cur == i else Away(s', i)
    decreases |acts|
  {
    hide Inv, Next, Enabled, WithoutLock;
    if acts != [] {
      var a := acts[0];
      var m := Next(s, a);
      InvNext(s, a);
      InterleavedStep(s, a, i);
      Interleaved(m, acts[1..], i);
    }
  }

  lemma InterleavedStep(s: Sys, a: Action, i: nat)
    requires Inv(s) && Enabled(s, a) && WithoutLock(s, a, i)
    requires (s.running == s.cur == i) || Away(s, i)
    ensures var m := Next(s, a);
      if s.running == i && a != ACpSwitch then m.running == m.cur == i else Away(m, i)
  {
    hide Next, Enabled, WithoutLock;
    if s.running != i {
      StaysAway(s, a, i);
    } else if a == ACpSwitch {
      SwitchesAway(s, i);
    } else {
      StaysRunning(s, a, i);
    }
  }

  lemma CountKept(s: Sys, a: Action)
    requires Wf(s) && Enabled(s, a)
    ensures |Next(s, a).rings| == |s.rings|
  {
    hide ThreadStep;
    if a.AStep? {
      ThreadStepWrites(s, a.t, a.awake);
    }
  }

  lemma {:induction false} CountKeptInRun(s: Sys, acts: seq<Action>)
    requires Inv(s) && Feasible(s, acts)
    ensures |Exec(s, acts).rings| == |s.rings|
    decreases |acts|
  {
    hide RingsInv, Agree, Owners, Next, Enabled;
    if acts != [] {
      InvNext(s, acts[0]);
      CountKept(s, acts[0]);
      CountKeptInRun(Next(s, acts[0]), acts[1..]);
    }
  }

  lemma RingsLanded(s: Sys, i: nat, passed: bool)
    requires Wf(s) && RingsInv(s) && i < |s.rings| && (passed ==> s.running == i)
    ensures RingsInv(Landed(s, i, passed))
  {
    var s' := Landed(s, i, passed);
    forall j | 0 <= j < |s'.rings| ensures RingInv(s', j) {
      assert RingInv(s, j);
    }
  }

  /** The write keeps the invariant if the test failed, or if the ring is current and still runs. */
  lemma InvLanded(s: Sys, i: nat, passed: bool)
    requires Inv(s) && i < |s.rings| && (passed ==> s.running == s.cur == i)
    ensures Inv(Landed(s, i, passed))
  {
    assert RingInv(s, i);
    RingsLanded(s, i, passed);
    InvQuiet(s, Landed(s, i, passed));
  }

  /**
    Testing and writing apart, with anything in between that does without the ring's lock: a
    write that was let through still hits the running ring if and only if the CP has not
    switched in between.  Then, and also if the test failed, the write keeps the invariant.
   */
  lemma SplitPublication(s0: Sys, run: seq<Action>, s: Sys, i: nat, acts: seq<Action>)
    requires Reaches(s0, run, s) && i < |s.rings| && Feasible(s, acts) && LockHeld(s, acts, i)
    ensures i < |Exec(s, acts).rings|
    ensures Passes(s, i) ==> (Exec(s, acts).running == i <==> ACpSwitch !in acts)
    ensures Inv(Landed(Exec(s, acts), i, Passes(s, i))) || (Passes(s, i) && ACpSwitch in acts)
  {
    hide RingsInv, Owners;
    ReachesInv(s0, run, s);
    InvRun(s, acts);
    CountKeptInRun(s, acts);
    if Passes(s, i) {
      Interleaved(s, acts, i);
    }
    if !Passes(s, i) || ACpSwitch !in acts {
      InvLanded(Exec(s, acts), i, Passes(s, i));
    }
  }

  // ------------------------------------------------------------ and it can happen

  /** Ring 1 after its context switch was executed; a command is written to it. */
  function TestedRing(): Ring {
    BusyRing(3).(ops := [Sop(1), Eop(1), Yield, Sop(2), User(DEFAULT_PAGETABLE), Eop(2), Yield],
                 rptr := 3, sop := 1, eop := 1, ts := 2)
  }

  /** Ring 1 is current, ring 0 has work, and thread 1 makes the handler's own pass. */
  function Racing(p: Pc, record: nat): Sys {
    InHandler(p, true, START).(rings := [BusyRing(record), TestedRing()])
  }

  /** Where the submission to ring 1 tests. */
  function Testing(): Sys {
    Racing(Cas, 0).(state := NONE, owner := None, disturbed := true)
  }

  /** The CP has executed the context switch of ring 1. */
  function Executed(k: nat): Sys
    requires k <= 3
  {
    InHandler(Cas, true, NONE).(owner := None,
      rings := [FreshRing(), BusyRing(3).(rptr := k, sop := if k > 0 then 1 else 0, eop := if k > 1 then 1 else 0)])
  }

  lemma RingOneExecuted()
    ensures Reachable(Executed(3))
  {
    hide Reachable;
    HandlerCompletes();
    Hop(Executed(0), AExec, Executed(1));
    Hop(Executed(1), AExec, Executed(2));
    Hop(Executed(2), AExec, Executed(3));
  }

  /** Ring 0 gets a context switch, which is published. */
  lemma RingZeroBusy()
    ensures Reachable(Executed(3).(rings := [BusyRing(0), Executed(3).rings[1]], disturbed := true))
  {
    hide Reachable;
    RingOneExecuted();
    var s1 := Executed(3).(rings := [BusyRing(0).(wptr := 0), Executed(3).rings[1]]);
    assert Next(Executed(3), ASwitch(0, QUIET, ROOMY)).rings[0].ops == [Sop(1), Eop(1), Yield];
    Hop(Executed(3), ASwitch(0, QUIET, ROOMY), s1);
    Hop(s1, APublish(0), Executed(3).(rings := [BusyRing(0), Executed(3).rings[1]], disturbed := true));
  }

  lemma TestReached()
    ensures Reachable(Testing())
  {
    hide Reachable;
    RingZeroBusy();
    var s := Executed(3).(rings := [BusyRing(0), Executed(3).rings[1]], disturbed := true);
    var a := AUser(1, QUIET, 1, 16, ROOMY);
    assert Repeat(User(DEFAULT_PAGETABLE), 1) == [User(DEFAULT_PAGETABLE)];
    assert Next(s, a).rings[1].ops == TestedRing().ops;
    Hop(s, a, Testing());
  }

  /** These actions lead from the test to `m` while the lock of ring 1 is held. */
  ghost predicate RacesTo(acts: seq<Action>, m: Sys) {
    Feasible(Testing(), acts) && LockHeld(Testing(), acts, 1) && Exec(Testing(), acts) == m && Wf(m)
  }

  lemma {:induction false} LockStaysHeld(s0: Sys, acts: seq<Action>, s: Sys, a: Action, i: nat)
    requires Feasible(s0, acts) && LockHeld(s0, acts, i) && Exec(s0, acts) == s
    requires Wf(s) && Enabled(s, a) && Wf(Next(s, a)) && WithoutLock(s, a, i)
    ensures Feasible(s0, acts + [a]) && LockHeld(s0, acts + [a], i)
    decreases |acts|
  {
    hide Next, Enabled, WithoutLock, Wf;
    Extend(s0, acts, s, a);
    if acts == [] {
      assert acts + [a] == [a];
      assert [a][1..] == [];
    } else {
      LockStaysHeld(Next(s0, acts[0]), acts[1..], s, a, i);
      assert (acts + [a])[1..] == acts[1..] + [a];
    }
  }

  lemma RaceOn(acts: seq<Action>, m: Sys, a: Action, m': Sys)
    requires RacesTo(acts, m) && Enabled(m, a) && WithoutLock(m, a, 1) && m' == Next(m, a) && Wf(m')
    ensures RacesTo(acts + [a], m')
  {
    hide Next, Enabled, WithoutLock, Testing;
    Extend(Testing(), acts, m, a);
    LockStaysHeld(Testing(), acts, m, a, 1);
  }

  const GO := AStep(1, true)

  lemma RaceStarts()
    ensures RacesTo([GO], Racing(Scan(0), 0))
  {
    assert RacesTo([], Testing());
    RaceOn([], Testing(), GO, Racing(Scan(0), 0));
    assert [] + [GO] == [GO];
  }

  lemma RaceChooses()
    ensures RacesTo([GO, GO], Racing(Record(0), 0))
  {
    hide RacesTo;
    RaceStarts();
    RaceOn([GO], Racing(Scan(0), 0), GO, Racing(Record(0), 0));
    assert [GO] + [GO] == [GO, GO];
  }

  /** The handler's pass chooses ring 0 and writes its record, ... */
  lemma RaceRecords()
    ensures RacesTo([GO, GO, GO], Racing(Smmu(0, DEFAULT_PAGETABLE), 3))
  {
    hide RacesTo;
    RaceChooses();
    RaceOn([GO, GO], Racing(Record(0), 0), GO, Racing(Smmu(0, DEFAULT_PAGETABLE), 3));
    assert [GO, GO] + [GO] == [GO, GO, GO];
  }

  /** ... fires a switch to it, ... */
  function Firing(p: Pc): Sys { Racing(p, 3).(restore := 0, next := Some(0)) }

  lemma RaceFires()
    ensures RacesTo([GO, GO, GO, GO, GO], Firing(Fire(0)))
  {
    hide RacesTo;
    RaceRecords();
    var three := [GO, GO, GO];
    RaceOn(three, Racing(Smmu(0, DEFAULT_PAGETABLE), 3), GO, Racing(Arm(0), 3));
    RaceOn(three + [GO], Racing(Arm(0), 3), GO, Firing(Fire(0)));
    assert three + [GO] + [GO] == [GO, GO, GO, GO, GO];
  }

  /** ... which the CP makes. */
  function Triggered(): Sys {
    Firing(Idle).(state := TRIGGERED, cntl := true, owner := None, triggered := [(0, 1), (1, 0)])
  }

  const RACE := [GO, GO, GO, GO, GO, GO, ACpSwitch]

  lemma RaceSwitches()
    ensures RacesTo(RACE, Triggered().(running := 0, cntl := false))
  {
    hide RacesTo;
    RaceFires();
    var five := [GO, GO, GO, GO, GO];
    RaceOn(five, Firing(Fire(0)), GO, Triggered());
    var s' := Triggered().(running := 0, cntl := false);
    assert Triggered().rings[1 := TestedRing()] == Triggered().rings;
    RaceOn(five + [GO], Triggered(), ACpSwitch, s');
    assert five + [GO] + [ACpSwitch] == RACE;
  }

  /**
    The lock does not keep the CP from switching between the test and the write: from a state
    that is reached, a write that was let through sets RB_WPTR past the words of another ring.
   */
  lemma LateWriteHitsAnotherRing() returns (s: Sys, i: nat, acts: seq<Action>)
    ensures Reachable(s) && Passes(s, i) && Feasible(s, acts) && LockHeld(s, acts, i) && i < |Exec(s, acts).rings|
    ensures var s' := Landed(Exec(s, acts), i, true);
      Wf(s') && s'.running != i && s'.regWptr > |s'.rings[s'.running].ops|
  {
    hide Reachable;
    TestReached();
    RaceSwitches();
    s, i, acts := Testing(), 1, RACE;
  }
}
