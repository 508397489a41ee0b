/**
  What the preemption protocol promises, over every run from a fresh device.
 */
module PreemptTheorems {
  import opened Basics
  import opened PreemptModel
  import opened PreemptInvariant

  /** `acts` leads from a fresh device to `s` (whose indices are then in range). */
  ghost predicate Reaches(s0: Sys, acts: seq<Action>, s: Sys) {
    Initial(s0) && Feasible(s0, acts) && Exec(s0, acts) == s && Wf(s)
  }

  /** A thread step writes no ring but one record's write pointer, ... */
  lemma ThreadStepWrites(s: Sys, t: Tid, awake: bool)
    requires Wf(s) && CanStep(s, t)
    ensures var s' := ThreadStep(s, t, awake);
      s'.rings == s.rings || (PcOf(s, t).Record? && s'.rings == WriteRecord(s, PcOf(s, t).k).rings)
  {
    if !PcOf(s, t).Record? {
      ThreadStepKeepsRings(s, t, awake);
    }
  }

  lemma ThreadStepKeepsRings(s: Sys, t: Tid, awake: bool)
    requires Wf(s) && CanStep(s, t) && !PcOf(s, t).Record?
    ensures ThreadStep(s, t, awake).rings == s.rings
  {
    hide Wf;
    match PcOf(s, t)
    case Idle =>
    case Cas =>
    case Scan(_) =>
    case Adopt =>
    case Leave(_) =>
    case Smmu(_, _) =>
    case Arm(_) =>
    case Fire(_) =>
    case Check(_) =>
    case Rotate(_) =>
    case Update(_) =>
    case Clear(_) =>
    case Sched =>
    case Work =>
    case FaultCheck =>
  }

  /** ... and RB_WPTR only in _update_wptr. */
  lemma ThreadStepWptr(s: Sys, t: Tid, awake: bool)
    requires Wf(s) && CanStep(s, t) && !PcOf(s, t).Adopt? && !PcOf(s, t).Update?
    ensures ThreadStep(s, t, awake).regWptr == s.regWptr
  {
    hide Wf;
    match PcOf(s, t)
    case Idle =>
    case Cas =>
    case Scan(_) =>
    case Leave(_) =>
    case Record(_) =>
    case Smmu(_, _) =>
    case Arm(_) =>
    case Fire(_) =>
    case Check(_) =>
    case Rotate(_) =>
    case Clear(_) =>
    case Sched =>
    case Work =>
    case FaultCheck =>
  }

  lemma ReachesInv(s0: Sys, acts: seq<Action>, s: Sys)
    requires Reaches(s0, acts, s)
    ensures Inv(s)
  {
    InitialInv(s0);
    InvRun(s0, acts);
  }

  // ------------------------------------------------------ agreement with the CP

  /** Driver and CP agree on the running ring. */
  lemma RunningRingAgrees(s0: Sys, acts: seq<Action>, s: Sys)
    requires Reaches(s0, acts, s)
    ensures s.state in {NONE, START} ==> s.running == s.cur && !s.cntl
    ensures InFlight(s) ==> s.next.Some? && s.running == if s.cntl then s.cur else s.next.value
    ensures !InFlight(s) ==> s.running == s.cur && !s.cntl
  {
    ReachesInv(s0, acts, s);
  }

  /** Whenever the driver writes RB_WPTR, it writes the write pointer of the ring the CP runs. */
  lemma WptrWritesHitTheRunningRing(s0: Sys, acts: seq<Action>, s: Sys, a: Action)
    requires Reaches(s0, acts, s) && Enabled(s, a) && (a.APublish? || a.AStep?)
    requires Next(s, a).regWptr != s.regWptr
    ensures var s' := Next(s, a);
      s'.running == s'.cur == s.running < |s'.rings| && s'.regWptr == s'.rings[s'.running].wptr
  {
    ReachesInv(s0, acts, s);
    if a.AStep? {
      if !PcOf(s, a.t).Adopt? && !PcOf(s, a.t).Update? {
        ThreadStepWptr(s, a.t, a.awake);
      }
      assert Phase(s, PcOf(s, a.t));
    }
  }

  // -------------------------------------------------------- rotation, exclusion

  /** At most one thread is past a compare-and-swap or a state test; in flight there is a target. */
  lemma OneOwner(s0: Sys, acts: seq<Action>, s: Sys, t: Tid, u: Tid)
    requires Reaches(s0, acts, s)
    requires Owning(PcOf(s, t)) && Owning(PcOf(s, u))
    ensures t == u
  {
    ReachesInv(s0, acts, s);
  }

  lemma InFlightHasTarget(s0: Sys, acts: seq<Action>, s: Sys)
    requires Reaches(s0, acts, s)
    ensures s.state in {TRIGGERED, FAULTED} ==> InFlight(s)
    ensures InFlight(s) ==> s.next.Some? && s.next.value != s.cur && s.next.value < |s.rings|
    ensures forall t | PcOf(s, t).Check? || PcOf(s, t).Rotate? :: InFlight(s)
  {
    ReachesInv(s0, acts, s);
    forall t | PcOf(s, t).Check? || PcOf(s, t).Rotate? ensures InFlight(s) {
      assert Phase(s, PcOf(s, t));
    }
  }

  /** Each trigger is rotated once and in order: the completed history trails by at most one. */
  lemma OneRotationPerTrigger(s0: Sys, acts: seq<Action>, s: Sys)
    requires Reaches(s0, acts, s)
    ensures s.completed <= s.triggered && |s.triggered| <= |s.completed| + 1
    ensures InFlight(s) ==> s.next.Some? && s.triggered == s.completed + [(s.cur, s.next.value)]
  {
    ReachesInv(s0, acts, s);
  }

  /** No thread ever rotates through a null next_rb. */
  lemma NeverStuck(s0: Sys, acts: seq<Action>, s: Sys, t: Tid)
    requires Reaches(s0, acts, s)
    ensures CanStep(s, t)
  {
    ReachesInv(s0, acts, s);
    InvThread(s, t, true);
  }

  /** What prev_rb remembers: the last completed switch led from there to the current ring. */
  predicate Remembers(s: Sys) {
    s.completed != [] ==> s.prev.Some? && s.completed[|s.completed| - 1] == (s.prev.value, s.cur)
  }

  lemma ThreadKeepsCompleted(s: Sys, t: Tid, awake: bool)
    requires Wf(s) && CanStep(s, t) && !PcOf(s, t).Rotate?
    ensures ThreadStep(s, t, awake).completed == s.completed
  {
    hide Wf, Empty;
    match PcOf(s, t)
    case Idle =>
    case Cas =>
    case Scan(_) =>
    case Adopt =>
    case Leave(_) =>
    case Record(_) =>
    case Smmu(_, _) =>
    case Arm(_) =>
    case Fire(_) =>
    case Check(_) =>
    case Update(_) =>
    case Clear(_) =>
    case Sched =>
    case Work =>
    case FaultCheck =>
  }

  lemma ThreadKeepsPrevious(s: Sys, t: Tid, awake: bool)
    requires Wf(s) && CanStep(s, t) && !PcOf(s, t).Rotate?
    ensures ThreadStep(s, t, awake).prev == s.prev
  {
    hide Wf, Empty;
    match PcOf(s, t)
    case Idle =>
    case Cas =>
    case Scan(_) =>
    case Adopt =>
    case Leave(_) =>
    case Record(_) =>
    case Smmu(_, _) =>
    case Arm(_) =>
    case Fire(_) =>
    case Check(_) =>
    case Update(_) =>
    case Clear(_) =>
    case Sched =>
    case Work =>
    case FaultCheck =>
  }

  lemma ThreadKeepsCurrent(s: Sys, t: Tid, awake: bool)
    requires Wf(s) && CanStep(s, t) && !PcOf(s, t).Rotate?
    ensures ThreadStep(s, t, awake).cur == s.cur
  {
    hide Wf, Empty;
    match PcOf(s, t)
    case Idle =>
    case Cas =>
    case Scan(_) =>
    case Adopt =>
    case Leave(_) =>
    case Record(_) =>
    case Smmu(_, _) =>
    case Arm(_) =>
    case Fire(_) =>
    case Check(_) =>
    case Update(_) =>
    case Clear(_) =>
    case Sched =>
    case Work =>
    case FaultCheck =>
  }

  lemma ThreadRemembers(s: Sys, t: Tid, awake: bool)
    requires Wf(s) && CanStep(s, t) && Remembers(s)
    ensures Remembers(ThreadStep(s, t, awake))
  {
    if !PcOf(s, t).Rotate? {
      hide ThreadStep;
      ThreadKeepsCompleted(s, t, awake);
      ThreadKeepsPrevious(s, t, awake);
      ThreadKeepsCurrent(s, t, awake);
    }
  }

  lemma StepRemembers(s: Sys, a: Action)
    requires Wf(s) && Enabled(s, a) && Remembers(s)
    ensures Remembers(Next(s, a))
  {
    hide ThreadStep;
    if a.AStep? {
      ThreadRemembers(s, a.t, a.awake);
    }
  }

  lemma {:induction false} RunRemembers(s: Sys, acts: seq<Action>)
    requires Feasible(s, acts) && Remembers(s)
    ensures Remembers(Exec(s, acts))
    decreases |acts|
  {
    hide Next, Enabled, Remembers;
    if acts != [] {
      StepRemembers(s, acts[0]);
      RunRemembers(Next(s, acts[0]), acts[1..]);
    }
  }

  /** In every reachable state prev_rb is the ring the last completed switch left, and cur_rb the one it went to. */
  lemma PrevIsLeft(s0: Sys, acts: seq<Action>, s: Sys)
    requires Reaches(s0, acts, s)
    ensures s.completed != [] ==> s.prev.Some? && s.completed[|s.completed| - 1] == (s.prev.value, s.cur)
  {
    RunRemembers(s0, acts);
  }

  // ------------------------------------------------------------- published work

  lemma PointerOrder(s0: Sys, acts: seq<Action>, s: Sys, i: nat)
    requires Reaches(s0, acts, s) && i < |s.rings|
    ensures var r := s.rings[i]; r.shadow <= r.rptr <= Visible(s, i) <= r.wptr <= |r.ops|
  {
    ReachesInv(s0, acts, s);
    assert RingInv(s, i);
  }

  /**
    A trigger pass during which nothing was published leaves no work behind: it ends
    in NONE with RB_WPTR at the current ring's write pointer and every ring of higher
    priority empty (every ring, when the scan found none), ...
   */
  lemma QuietPassEndsInNone(s0: Sys, acts: seq<Action>, s: Sys, t: Tid, awake: bool)
    requires Reaches(s0, acts, s) && PcOf(s, t).Leave? && !s.disturbed
    ensures var s' := Next(s, AStep(t, awake));
      && s'.state == NONE && s'.running == s'.cur
      && s'.regWptr == s'.rings[s'.cur].wptr
      && EmptyBelow(s'.rings, if PcOf(s, t).found then s'.cur else |s'.rings|)
  {
    ReachesInv(s0, acts, s);
    assert Phase(s, PcOf(s, t));
  }

  /** ... or in TRIGGERED, with the record of the highest-priority ring that has work complete. */
  lemma QuietPassEndsInTriggered(s0: Sys, acts: seq<Action>, s: Sys, t: Tid, awake: bool)
    requires Reaches(s0, acts, s) && PcOf(s, t).Fire? && !s.disturbed
    ensures var s' := Next(s, AStep(t, awake)); var k := PcOf(s, t).k;
      && s'.state == TRIGGERED && s'.cntl && s'.next == Some(k) && s'.restore == k && k != s'.cur
      && s'.rings[k].recWptr == s'.rings[k].wptr
      && EmptyBelow(s'.rings, k) && !Empty(s'.rings[k])
  {
    ReachesInv(s0, acts, s);
    assert Phase(s, PcOf(s, t));
  }

  /**
    With no trigger in progress the CP can see all of the current ring's work exactly
    when no submission to it was published outside NONE since RB_WPTR was last updated.
   */
  lemma PublishedWorkVisible(s0: Sys, acts: seq<Action>, s: Sys)
    requires Reaches(s0, acts, s) && s.state == NONE
    ensures s.regWptr == s.rings[s.cur].wptr <==> !s.stale
  {
    ReachesInv(s0, acts, s);
  }

  // ---------------------------------------------------------------- timestamps

  /** retired <= consumed <= queued, whatever was preempted, refused or reset. */
  lemma TimestampOrder(s0: Sys, acts: seq<Action>, s: Sys, i: nat)
    requires Reaches(s0, acts, s) && i < |s.rings|
    ensures s.rings[i].eop <= s.rings[i].sop <= s.rings[i].ts
  {
    ReachesInv(s0, acts, s);
    var r := s.rings[i];
    assert RingInv(s, i);
    assert SoundAt(r.base, r.ops, r.rptr, r.ts);
  }

  /**
    Recovery loses no waiter: everything queued on the ring that hung counts as started and
    retired, and on the other rings exactly what had started or retired still does.
   */
  lemma ResetRetires(s0: Sys, acts: seq<Action>, s: Sys, hung: Option<nat>, i: nat, t: nat)
    requires Reaches(s0, acts, s) && Enabled(s, AReset(hung)) && i < |s.rings| && t <= s.rings[i].ts
    ensures i < |Next(s, AReset(hung)).rings|
    ensures var r, r' := s.rings[i], Next(s, AReset(hung)).rings[i];
      && r'.ts == r.ts
      && (t <= r'.sop <==> hung == Some(i) || t <= r.sop)
      && (t <= r'.eop <==> hung == Some(i) || t <= r.eop)
  {
  }

  // ------------------------------------------------------------------ witnesses

  function TwoRings(): Sys {
    Sys([FreshRing(), FreshRing()], 0, None, None, NONE, true, 0, 0, false, 0,
        DEFAULT_PAGETABLE, DEFAULT_PAGETABLE, map[], None, None, [], [], false, false)
  }

  /** A reservation that finds space, and one that does not. */
  const ROOMY := Room(false, 0, 0)
  const CRAMPED := Room(false, 1, 0)

  ghost predicate Reachable(s: Sys) {
    exists s0, acts :: Reaches(s0, acts, s)
  }

  lemma Hop(s: Sys, a: Action, s': Sys)
    requires Reachable(s) && Wf(s) && Enabled(s, a) && s' == Next(s, a) && Wf(s')
    ensures Reachable(s')
  {
    var s0, acts :| Reaches(s0, acts, s);
    Extend(s0, acts, s, a);
    assert Reaches(s0, acts + [a], s');
  }

  const QUIET := Context(1, DEFAULT_PAGETABLE)

  /** Ring 1 after one published context-switch submission, before and after its record is written. */
  function BusyRing(recWptr: nat): Ring {
    FreshRing().(ops := [Sop(1), Eop(1), Yield], wptr := 3, ts := 1, active := Some(QUIET), recWptr := recWptr)
  }

  /** Thread 0 is in the dispatcher pass, ring 1 has work, ring 0 is current. */
  function InPass(recWptr: nat, p: Pc): Sys {
    TwoRings().(rings := [FreshRing(), BusyRing(recWptr)], mutex := Some(0), state := START, owner := Some(0),
                pc := map[0 := p])
  }

  /** The CP has switched to ring 1; thread 1 handles the interrupt. */
  function InHandler(p: Pc, rotated: bool, st: PreemptState): Sys {
    TwoRings().(rings := [FreshRing(), BusyRing(3)], running := 1, regWptr := 3, restore := 1, state := st,
                owner := Some(1), pc := map[0 := Idle, 1 := p], triggered := [(0, 1)],
                next := if rotated then None else Some(1), cur := if rotated then 1 else 0,
                prev := if rotated then Some(0) else None, completed := if rotated then [(0, 1)] else [])
  }

  lemma RingOneBusy()
    ensures Reachable(TwoRings().(rings := [FreshRing(), BusyRing(0)], disturbed := true))
  {
    var s0 := TwoRings();
    assert Exec(s0, []) == s0;
    assert Reaches(s0, [], s0);
    var s1 := s0.(rings := [FreshRing(), BusyRing(0).(wptr := 0)]);
    assert Next(s0, ASwitch(1, QUIET, ROOMY)).rings[1].ops == [Sop(1), Eop(1), Yield];
    Hop(s0, ASwitch(1, QUIET, ROOMY), s1);
    var s2 := s0.(rings := [FreshRing(), BusyRing(0)], disturbed := true);
    Hop(s1, APublish(1), s2);
  }

  /** Ring 1 has work, and thread 0 has entered the dispatcher pass. */
  function Entered(p: Pc): Sys {
    TwoRings().(rings := [FreshRing(), BusyRing(0)], disturbed := true, mutex := Some(0), pc := map[0 := p])
  }

  lemma PassEnters()
    ensures Reachable(Entered(Cas))
  {
    RingOneBusy();
    Hop(TwoRings().(rings := [FreshRing(), BusyRing(0)], disturbed := true), ASched(0), Entered(Sched));
    Hop(Entered(Sched), AStep(0, true), Entered(Cas));
  }

  lemma PassStarts()
    ensures Reachable(InPass(0, Scan(0)))
  {
    PassEnters();
    Hop(Entered(Cas), AStep(0, true), InPass(0, Scan(0)));
  }

  lemma PassChooses()
    ensures Reachable(InPass(0, Record(1)))
  {
    PassStarts();
    var go := AStep(0, true);
    Hop(InPass(0, Scan(0)), go, InPass(0, Scan(1)));
    Hop(InPass(0, Scan(1)), go, InPass(0, Record(1)));
  }

  lemma PassRecords()
    ensures Reachable(InPass(3, Arm(1)))
  {
    hide Reachable;
    PassChooses();
    var go := AStep(0, true);
    Hop(InPass(0, Record(1)), go, InPass(3, Smmu(1, DEFAULT_PAGETABLE)));
    Hop(InPass(3, Smmu(1, DEFAULT_PAGETABLE)), go, InPass(3, Arm(1)));
  }

  lemma PassFires()
    ensures Reachable(InPass(3, Fire(1)).(next := Some(1), restore := 1))
  {
    PassRecords();
    Hop(InPass(3, Arm(1)), AStep(0, true), InPass(3, Fire(1)).(next := Some(1), restore := 1));
  }

  /** Thread 0 has fired the switch and left. */
  function Fired(): Sys {
    InPass(3, Idle).(next := Some(1), restore := 1, state := TRIGGERED, cntl := true, mutex := None,
                     owner := None, triggered := [(0, 1)])
  }

  lemma PassLeaves()
    ensures Reachable(Fired())
  {
    PassFires();
    Hop(InPass(3, Fire(1)).(next := Some(1), restore := 1), AStep(0, true), Fired());
  }

  lemma HandlerStarts()
    ensures Reachable(InHandler(Check(true), false, PENDING))
  {
    hide Reachable;
    PassLeaves();
    var s1 := Fired();
    var s2 := Next(s1, ACpSwitch);
    Hop(s1, ACpSwitch, s2);
    Hop(s2, AIrq(1), InHandler(Check(true), false, PENDING));
  }

  lemma HandlerChecks()
    ensures Reachable(InHandler(Rotate(true), false, PENDING))
  {
    HandlerStarts();
    Hop(InHandler(Check(true), false, PENDING), AStep(1, true), InHandler(Rotate(true), false, PENDING));
  }

  lemma HandlerRotates()
    ensures Reachable(InHandler(Update(true), true, PENDING))
  {
    HandlerChecks();
    Hop(InHandler(Rotate(true), false, PENDING), AStep(1, true), InHandler(Update(true), true, PENDING));
  }

  /** The handler completes the switch. */
  lemma HandlerCompletes()
    ensures Reachable(InHandler(Cas, true, NONE).(owner := None))
  {
    hide Reachable;
    HandlerRotates();
    var go := AStep(1, true);
    Hop(InHandler(Update(true), true, PENDING), go, InHandler(Clear(true), true, PENDING));
    Hop(InHandler(Clear(true), true, PENDING), go, InHandler(Cas, true, NONE).(owner := None));
  }

  /** It starts a pass of its own. */
  lemma HandlerTriggers()
    ensures Reachable(InHandler(Scan(0), true, START))
  {
    HandlerCompletes();
    Hop(InHandler(Cas, true, NONE).(owner := None), AStep(1, true), InHandler(Scan(0), true, START));
  }

  lemma HandlerScans()
    ensures Reachable(InHandler(Scan(1), true, START))
  {
    HandlerTriggers();
    Hop(InHandler(Scan(0), true, START), AStep(1, true), InHandler(Scan(1), true, START));
  }

  lemma HandlerAdopts()
    ensures Reachable(InHandler(Leave(true), true, START))
  {
    hide Reachable;
    HandlerScans();
    var go := AStep(1, true);
    Hop(InHandler(Scan(1), true, START), go, InHandler(Adopt, true, START));
    Hop(InHandler(Adopt, true, START), go, InHandler(Leave(true), true, START));
  }

  /** A command is written to the current ring just before the pass goes back to NONE. */
  function Overlapped(): Sys
  {
    Next(InHandler(Leave(true), true, START), AUser(1, QUIET, 1, 16, ROOMY))
  }

  lemma OverlapReached()
    ensures Reachable(Overlapped())
  {
    HandlerAdopts();
    Hop(InHandler(Leave(true), true, START), AUser(1, QUIET, 1, 16, ROOMY), Overlapped());
  }

  lemma OverlapPublished()
    ensures Enabled(Overlapped(), APublish(1)) && Reachable(Next(Overlapped(), APublish(1)))
  {
    OverlapReached();
    Hop(Overlapped(), APublish(1), Next(Overlapped(), APublish(1)));
  }

  /**
    The "nothing was published meanwhile" condition is needed: a submission that lands
    between a pass's write-pointer update and its return to NONE stays invisible to the CP.
   */
  lemma OverlappedPassLeavesWorkBehind() returns (s: Sys)
    ensures Reachable(s) && Wf(s) && s.state == NONE && s.stale && s.regWptr < s.rings[s.cur].wptr
  {
    hide Reachable;
    OverlapPublished();
    var s2 := Next(Overlapped(), APublish(1));
    s := Next(s2, AStep(1, true));
    Hop(s2, AStep(1, true), s);
  }
}
