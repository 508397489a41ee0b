/**
  Pagetable safety of preemption: which pagetable is loaded when the CP executes a user
  buffer, over every run and whatever submissions were refused.
 */
module PreemptPagetables {
  import opened Basics
  import opened PreemptModel
  import opened PreemptInvariant
  import opened PreemptTheorems

  // ------------------------------------------------------------ shared memory

  /** Wherever the CP may leave the running ring, its TTBR0 is that ring's scratch value. */
  lemma TableMatchesScratch(s0: Sys, acts: seq<Action>, s: Sys)
    requires Reaches(s0, acts, s) && s.perProcess
    requires var r := s.rings[s.running]; YieldPoint(r.ops, r.rptr, s.regWptr)
    ensures s.ttbr0 == s.rings[s.running].scratch
  {
    ReachesInv(s0, acts, s);
    var r := s.rings[s.running];
    assert RingInv(s, s.running);
    assert Calm(r.ops, r.rptr);
    assert SoundAt(r.base, r.ops, r.rptr, r.ts);
  }

  /** While the CP has yet to switch, the SMMU info holds the next ring's scratch value. */
  lemma SmmuMatchesTarget(s0: Sys, acts: seq<Action>, s: Sys)
    requires Reaches(s0, acts, s) && s.perProcess && s.cntl
    ensures s.next.Some? && s.smmu == s.rings[s.next.value].scratch
  {
    ReachesInv(s0, acts, s);
  }

  // --------------------------------------------------- what a run loads on a ring

  /** The table a ring ends under. */
  function Carried(r: Ring): Pagetable {
    After(r.base, r.ops, |r.ops|).table
  }

  /** A ring's active context, the table last written into it, and how many ops are in it. */
  datatype Held = Held(active: Option<Context>, table: Pagetable, ops: nat)

  /** What a ring holds after a reset. */
  const NOTHING := Held(None, DEFAULT_PAGETABLE, 0)

  /**
    What one action of a run does to ring `i`.  A context switch loads its table exactly when
    the table is missing and the reservation for its words finds space.
   */
  function HeldStep(h: Held, i: nat, a: Action): Held {
    match a
    case ASwitch(j, c, room) =>
      if j != i || h.active == Some(c) then h
      else
        var granted, missing := OutcomeOf(room, SwitchWords(h.active, c)).Granted?, TableMissing(h.active, c);
        Held(Some(c), if missing && granted then c.pagetable else h.table,
             h.ops + if !granted then 0 else if missing then 5 else 3)
    case AUser(j, _, ibs, dwords, room) =>
      if j == i && OutcomeOf(room, dwords).Granted? then h.(ops := h.ops + ibs + 3) else h
    case AReset(_) => NOTHING
    case _ => h
  }

  function HeldFrom(h: Held, acts: seq<Action>, i: nat): Held
    decreases |acts|
  {
    if acts == [] then h else HeldFrom(HeldStep(h, i, acts[0]), acts[1..], i)
  }

  /** What ring `i` of a fresh device holds after some actions. */
  function HeldBy(acts: seq<Action>, i: nat): Held {
    HeldFrom(NOTHING, acts, i)
  }

  lemma {:induction false} HeldMore(h: Held, acts: seq<Action>, a: Action, i: nat)
    ensures HeldFrom(h, acts + [a], i) == HeldStep(HeldFrom(h, acts, i), i, a)
    decreases |acts|
  {
    if acts == [] {
      assert (acts + [a])[1..] == [];
    } else {
      HeldMore(HeldStep(h, i, acts[0]), acts[1..], a, i);
      assert (acts + [a])[1..] == acts[1..] + [a];
    }
  }

  predicate Holds(s: Sys, i: nat, h: Held)
    requires i < |s.rings|
  {
    s.rings[i].active == h.active && Carried(s.rings[i]) == h.table && |s.rings[i].ops| == h.ops
  }

  /** Only submissions and resets change what is written in a ring. */
  lemma RingKept(s: Sys, a: Action, i: nat)
    requires Wf(s) && Enabled(s, a) && i < |s.rings| && !a.AReset?
    requires (a.ASwitch? || a.AUser?) ==> a.i != i
    ensures var s' := Next(s, a);
      && |s'.rings| == |s.rings| && s'.rings[i].ops == s.rings[i].ops
      && s'.rings[i].base == s.rings[i].base && s'.rings[i].active == s.rings[i].active
  {
    if a.AStep? {
      ThreadStepWrites(s, a.t, a.awake);
    }
  }

  /** A context switch's block ends under the new table, if it loads one. */
  lemma SwitchCarries(r: Ring, c: Context, out: Outcome)
    requires Written(r)
    ensures var r' := SwitchContext(r, c, out); var missing := TableMissing(r.active, c);
      && Carried(r') == (if missing && out.Granted? then c.pagetable else Carried(r))
      && |r'.ops| == |r.ops| + (if r.active == Some(c) || !out.Granted? then 0 else if missing then 5 else 3)
  {
    if r.active != Some(c) && out.Granted? {
      var m, b := After(r.base, r.ops, |r.ops|), Block(r.ts + 1, SwitchPayload(r.active, c));
      assert SoundAt(r.base, r.ops, |r.ops|, r.ts);
      SwitchBlockSound(m, r.ts + 1, c.pagetable, TableMissing(r.active, c));
      AfterConcat(r.base, r.ops, b, |r.ops + b|);
    }
  }

  lemma UserCarries(r: Ring, c: Context, ibs: nat, out: Outcome)
    ensures var r' := SubmitUser(r, c, ibs, out);
      Carried(r') == Carried(r) && |r'.ops| == |r.ops| + (if out.Granted? then ibs + 3 else 0)
  {
    if out.Granted? {
      var m, b := After(r.base, r.ops, |r.ops|), Block(r.ts + 1, Repeat(User(c.pagetable), ibs));
      UserBlockAfter(m, r.ts + 1, c.pagetable, ibs, |b|);
      AfterConcat(r.base, r.ops, b, |r.ops + b|);
    }
  }

  lemma HeldNextSwitch(s: Sys, a: Action, i: nat, h: Held)
    requires Inv(s) && Enabled(s, a) && i < |s.rings| && Holds(s, i, h) && a.ASwitch? && a.i == i
    ensures |Next(s, a).rings| == |s.rings| && Holds(Next(s, a), i, HeldStep(h, i, a))
  {
    assert RingInv(s, i);
    SwitchCarries(s.rings[i], a.ctx, OutcomeOf(a.room, SwitchWords(s.rings[i].active, a.ctx)));
  }

  lemma HeldNext(s: Sys, a: Action, i: nat, h: Held)
    requires Inv(s) && Enabled(s, a) && i < |s.rings| && Holds(s, i, h)
    ensures |Next(s, a).rings| == |s.rings| && Holds(Next(s, a), i, HeldStep(h, i, a))
  {
    if a.ASwitch? && a.i == i {
      HeldNextSwitch(s, a, i, h);
    } else if a.AUser? && a.i == i {
      UserCarries(s.rings[i], a.ctx, a.ibs, OutcomeOf(a.room, a.dwords));
    } else if !a.AReset? {
      RingKept(s, a, i);
    }
  }

  /** The actions of a run alone say what every ring holds. */
  lemma {:induction false} HeldIs(s: Sys, h: Held, acts: seq<Action>, i: nat)
    requires Inv(s) && Feasible(s, acts) && i < |s.rings| && Holds(s, i, h)
    ensures |Exec(s, acts).rings| == |s.rings| && Holds(Exec(s, acts), i, HeldFrom(h, acts, i))
    decreases |acts|
  {
    if acts != [] {
      HeldNext(s, acts[0], i, h);
      InvNext(s, acts[0]);
      HeldIs(Next(s, acts[0]), HeldStep(h, i, acts[0]), acts[1..], i);
    }
  }

  // ---------------------------------------------------------- where a user op is from

  /** An op of ring `i` after one more action: it was there, or the action submitted it. */
  predicate OpKept(s: Sys, a: Action, i: nat, k: nat)
    requires Wf(s) && Enabled(s, a) && i < |s.rings| == |Next(s, a).rings|
  {
    var r, r' := s.rings[i], Next(s, a).rings[i];
    k < |r.ops| && k < |r'.ops| && r'.ops[k] == r.ops[k] && After(r'.base, r'.ops, k) == After(r.base, r.ops, k)
  }

  predicate Submits(a: Action, i: nat, p: Pagetable) {
    a.AUser? && a.i == i && a.ctx.pagetable == p && OutcomeOf(a.room, a.dwords).Granted?
  }

  lemma SwitchOp(s: Sys, a: Action, i: nat, k: nat)
    requires Wf(s) && Enabled(s, a) && a.ASwitch? && a.i == i && i < |s.rings|
    requires k < |Next(s, a).rings[i].ops| && Next(s, a).rings[i].ops[k].User?
    ensures OpKept(s, a, i, k)
  {
    var r, r' := s.rings[i], Next(s, a).rings[i];
    assert r.ops <= r'.ops;
    if r.ops < r'.ops {
      AfterConcat(r.base, r.ops, Block(r.ts + 1, SwitchPayload(r.active, a.ctx)), k);
    }
  }

  lemma UserOp(s: Sys, a: Action, i: nat, k: nat)
    requires Wf(s) && Enabled(s, a) && a.AUser? && a.i == i && i < |s.rings|
    requires k < |Next(s, a).rings[i].ops| && Next(s, a).rings[i].ops[k].User?
    ensures var r' := Next(s, a).rings[i];
      OpKept(s, a, i, k)
      || (Submits(a, i, r'.ops[k].pagetable) && |s.rings[i].ops| <= k
          && After(r'.base, r'.ops, k).table == Carried(s.rings[i]))
  {
    var r, n := s.rings[i], |s.rings[i].ops|;
    if OutcomeOf(a.room, a.dwords).Granted? {
      var b := Block(r.ts + 1, Repeat(User(a.ctx.pagetable), a.ibs));
      AfterConcat(r.base, r.ops, b, k);
      if k >= n {
        UserBlockAfter(After(r.base, r.ops, n), r.ts + 1, a.ctx.pagetable, a.ibs, k - n);
      }
    }
  }

  lemma OpFrom(s: Sys, a: Action, i: nat, k: nat)
    requires Wf(s) && Enabled(s, a) && i < |s.rings| == |Next(s, a).rings|
    requires k < |Next(s, a).rings[i].ops| && Next(s, a).rings[i].ops[k].User?
    ensures var r' := Next(s, a).rings[i];
      OpKept(s, a, i, k)
      || (Submits(a, i, r'.ops[k].pagetable) && |s.rings[i].ops| <= k
          && After(r'.base, r'.ops, k).table == Carried(s.rings[i]))
  {
    if a.ASwitch? && a.i == i {
      SwitchOp(s, a, i, k);
    } else if a.AUser? && a.i == i {
      UserOp(s, a, i, k);
    } else if !a.AReset? {
      RingKept(s, a, i);
    }
  }

  predicate NoReset(acts: seq<Action>) {
    forall m | 0 <= m < |acts| :: !acts[m].AReset?
  }

  /**
    Action `j` submitted op `k`: the ring had no more than `k` ops before it and more after it,
    and was not reset since.  The op executes under the table the ring held just before.
   */
  predicate Fated(r: Ring, k: nat, h: Held, acts: seq<Action>, i: nat, j: nat)
    requires k < |r.ops| && r.ops[k].User?
  {
    && j < |acts| && Submits(acts[j], i, r.ops[k].pagetable) && NoReset(acts[j..])
    && HeldFrom(h, acts[..j], i).ops <= k < HeldFrom(h, acts[..j + 1], i).ops
    && After(r.base, r.ops, k).table == HeldFrom(h, acts[..j], i).table
  }

  /** Unchanged since it was in ring `r`. */
  predicate SameOp(r: Ring, r': Ring, k: nat)
    requires k < |r'.ops|
  {
    k < |r.ops| && r'.ops[k] == r.ops[k] && After(r'.base, r'.ops, k) == After(r.base, r.ops, k)
  }

  /**
    Every user op of every ring was there when the run began, or was submitted by one of its
    actions and executes under the table the ring held just before that action.
   */
  lemma {:induction false} UserOpFate(s: Sys, h: Held, acts: seq<Action>, i: nat, k: nat) returns (j: nat)
    requires Inv(s) && Feasible(s, acts) && i < |s.rings| == |Exec(s, acts).rings| && Holds(s, i, h)
    requires k < |Exec(s, acts).rings[i].ops| && Exec(s, acts).rings[i].ops[k].User?
    ensures var r := Exec(s, acts).rings[i];
      (SameOp(s.rings[i], r, k) && NoReset(acts)) || Fated(r, k, h, acts, i, j)
    decreases |acts|
  {
    j := 0;
    if acts != [] {
      var h' := HeldStep(h, i, acts[0]);
      HeldNext(s, acts[0], i, h);
      InvNext(s, acts[0]);
      j := UserOpFate(Next(s, acts[0]), h', acts[1..], i, k);
      if Fated(Exec(s, acts).rings[i], k, h', acts[1..], i, j) {
        LaterFate(Exec(s, acts).rings[i], k, h, acts, i, j);
        j := j + 1;
      } else {
        j := 0;
        FirstFate(s, h, acts, i, k, Exec(s, acts).rings[i]);
      }
    }
  }

  lemma FirstFate(s: Sys, h: Held, acts: seq<Action>, i: nat, k: nat, r: Ring)
    requires Wf(s) && acts != [] && Enabled(s, acts[0]) && i < |s.rings| == |Next(s, acts[0]).rings|
    requires Holds(s, i, h) && Holds(Next(s, acts[0]), i, HeldStep(h, i, acts[0]))
    requires k < |r.ops| && r.ops[k].User? && SameOp(Next(s, acts[0]).rings[i], r, k) && NoReset(acts[1..])
    ensures (SameOp(s.rings[i], r, k) && NoReset(acts)) || Fated(r, k, h, acts, i, 0)
  {
    OpFrom(s, acts[0], i, k);
    ResetEmpties(s, acts[0], i);
    forall m | 0 <= m < |acts| ensures !acts[m].AReset? {
      assert m > 0 ==> acts[m] == acts[1..][m - 1];
    }
    assert acts[..0] == [] && acts[..1] == [acts[0]] && [acts[0]][1..] == [] && acts[0..] == acts;
    assert HeldFrom(h, acts[..0], i) == h;
    assert HeldFrom(h, acts[..1], i) == HeldFrom(HeldStep(h, i, acts[0]), [], i) == HeldStep(h, i, acts[0]);
  }

  lemma ResetEmpties(s: Sys, a: Action, i: nat)
    requires Wf(s) && Enabled(s, a) && i < |s.rings| == |Next(s, a).rings|
    ensures a.AReset? ==> Next(s, a).rings[i].ops == []
  {
  }

  lemma LaterFate(r: Ring, k: nat, h: Held, acts: seq<Action>, i: nat, j: nat)
    requires acts != [] && k < |r.ops| && r.ops[k].User? && Fated(r, k, HeldStep(h, i, acts[0]), acts[1..], i, j)
    ensures Fated(r, k, h, acts, i, j + 1)
  {
    assert acts[..j + 1][1..] == acts[1..][..j] && acts[..j + 2][1..] == acts[1..][..j + 1];
    assert acts[j + 1..] == acts[1..][j..];
  }

  /** Without a reset a ring only grows. */
  lemma {:induction false} HeldGrows(h: Held, acts: seq<Action>, i: nat, m: nat, n: nat)
    requires m <= n <= |acts| && NoReset(acts[m..])
    ensures HeldFrom(h, acts[..m], i).ops <= HeldFrom(h, acts[..n], i).ops
    decreases n
  {
    if m < n {
      HeldGrows(h, acts, i, m, n - 1);
      assert acts[..n] == acts[..n - 1] + [acts[n - 1]] && acts[m..][n - 1 - m] == acts[n - 1];
      HeldMore(h, acts[..n - 1], acts[n - 1], i);
    }
  }

  /** So no other action of the run can be meant. */
  lemma FateIsUnique(r: Ring, k: nat, h: Held, acts: seq<Action>, i: nat, j: nat, j': nat)
    requires k < |r.ops| && r.ops[k].User? && Fated(r, k, h, acts, i, j) && Fated(r, k, h, acts, i, j')
    ensures j == j'
  {
    if j < j' {
      AfterFate(r, k, h, acts, i, j, j');
    } else if j' < j {
      AfterFate(r, k, h, acts, i, j', j);
    }
  }

  lemma AfterFate(r: Ring, k: nat, h: Held, acts: seq<Action>, i: nat, j: nat, j': nat)
    requires k < |r.ops| && r.ops[k].User? && Fated(r, k, h, acts, i, j) && j < j' <= |acts|
    ensures k < HeldFrom(h, acts[..j'], i).ops
  {
    var y := acts[j + 1..];
    forall m | 0 <= m < |y| ensures !y[m].AReset? {
      assert y[m] == acts[j..][m + 1];
    }
    HeldGrows(h, acts, i, j + 1, j');
  }

  // ---------------------------------------------------------------- the guarantee

  /**
    Whenever the CP executes a user buffer, in any run, exactly one action of the run submitted
    it, and TTBR0 is the table its ring held just before: the one of the last context switch of
    that ring, since the last reset, that missed its table and found space for its words.  So
    the buffer runs under its own context's pagetable if and only if that switch was for this
    pagetable.
   */
  lemma UserRunsUnderHeldTable(s0: Sys, acts: seq<Action>, s: Sys) returns (j: nat)
    requires Reaches(s0, acts, s) && s.perProcess && Enabled(s, AExec)
    requires var r := s.rings[s.running]; r.ops[r.rptr].User?
    ensures j < |acts|
    ensures var r := s.rings[s.running]; var h := HeldBy(acts[..j], s.running);
      && Fated(r, r.rptr, NOTHING, acts, s.running, j)
      && s.ttbr0 == h.table && h.active == Some(acts[j].ctx)
      && (s.ttbr0 == acts[j].ctx.pagetable <==> h.table == acts[j].ctx.pagetable)
    ensures forall j' | Fated(s.rings[s.running], s.rings[s.running].rptr, NOTHING, acts, s.running, j') :: j' == j
  {
    ReachesInv(s0, acts, s);
    assert RingInv(s, s.running);
    StartsEmpty(s0, acts);
    var r := s.rings[s.running];
    j := UserOpFate(s0, NOTHING, acts, s.running, r.rptr);
    SubmitterIsActive(s0, NOTHING, acts, s.running, j);
    forall j' | Fated(r, r.rptr, NOTHING, acts, s.running, j') ensures j' == j {
      FateIsUnique(r, r.rptr, NOTHING, acts, s.running, j, j');
    }
  }

  lemma StartsEmpty(s0: Sys, acts: seq<Action>)
    requires Initial(s0) && Feasible(s0, acts)
    ensures Inv(s0) && |Exec(s0, acts).rings| == |s0.rings|
    ensures forall i | 0 <= i < |s0.rings| :: Holds(s0, i, NOTHING) && s0.rings[i].ops == []
  {
    InitialInv(s0);
    forall i | 0 <= i < |s0.rings|
      ensures Holds(s0, i, NOTHING) && s0.rings[i].ops == []
    {
      assert s0.rings[i] == FreshRing();
    }
    HeldIs(s0, NOTHING, acts, 0);
  }

  /**
    One context switch, on any ring and after any refusals: afterwards the ring is under the
    context's own pagetable if and only if it was already, or the table was missing and the
    reservation for the switch found space.
   */
  lemma SwitchExact(r: Ring, c: Context, room: Room)
    requires Written(r) && c.pagetable != DEFAULT_PAGETABLE
    ensures var out := OutcomeOf(room, SwitchWords(r.active, c));
      Carried(SwitchContext(r, c, out)) == c.pagetable
      <==> Carried(r) == c.pagetable || (TableMissing(r.active, c) && out.Granted?)
  {
    SwitchCarries(r, c, OutcomeOf(room, SwitchWords(r.active, c)));
  }

  /** Every context switch of ring `i` since the last reset found space if it missed its table. */
  predicate SwitchesFound(acts: seq<Action>, i: nat) {
    forall k | 0 <= k < |acts| && acts[k].ASwitch? && acts[k].i == i && NoReset(acts[k..]) ::
      var active := HeldBy(acts[..k], i).active;
      TableMissing(active, acts[k].ctx) ==> OutcomeOf(acts[k].room, SwitchWords(active, acts[k].ctx)).Granted?
  }

  predicate Own(h: Held) {
    h.active.Some? && h.active.value.pagetable != DEFAULT_PAGETABLE ==> h.table == h.active.value.pagetable
  }

  lemma {:induction false} HeldIsOwn(acts: seq<Action>, i: nat)
    requires SwitchesFound(acts, i)
    ensures Own(HeldBy(acts, i))
    decreases |acts|
  {
    if acts != [] {
      var n := |acts| - 1;
      assert acts == acts[..n] + [acts[n]];
      HeldMore(NOTHING, acts[..n], acts[n], i);
      if !acts[n].AReset? {
        FoundBefore(acts, i);
        HeldIsOwn(acts[..n], i);
        assert NoReset(acts[n..]);
      }
    }
  }

  lemma FoundBefore(acts: seq<Action>, i: nat)
    requires SwitchesFound(acts, i) && acts != [] && !acts[|acts| - 1].AReset?
    ensures SwitchesFound(acts[..|acts| - 1], i)
  {
    var p := acts[..|acts| - 1];
    forall k | 0 <= k < |p| && p[k].ASwitch? && p[k].i == i && NoReset(p[k..])
      ensures var active := HeldBy(p[..k], i).active;
        TableMissing(active, p[k].ctx) ==> OutcomeOf(p[k].room, SwitchWords(active, p[k].ctx)).Granted?
    {
      assert acts[k..] == p[k..] + [acts[|acts| - 1]] && p[..k] == acts[..k];
      assert NoReset(acts[k..]);
    }
  }

  /** The context of a submission is the ring's active one. */
  lemma {:induction false} SubmitterIsActive(s: Sys, h: Held, acts: seq<Action>, i: nat, j: nat)
    requires Inv(s) && Feasible(s, acts) && i < |s.rings| && Holds(s, i, h)
    requires j < |acts| && acts[j].AUser? && acts[j].i == i
    ensures HeldFrom(h, acts[..j], i).active == Some(acts[j].ctx)
    decreases |acts|
  {
    if j > 0 {
      HeldNext(s, acts[0], i, h);
      InvNext(s, acts[0]);
      SubmitterIsActive(Next(s, acts[0]), HeldStep(h, i, acts[0]), acts[1..], i, j - 1);
      assert acts[..j][1..] == acts[1..][..j - 1];
    } else {
      assert acts[..0] == [];
    }
  }

  /**
    So a buffer of a context with its own pagetable runs under it if its ring's switches, from
    the last reset before its submission up to that, found space when they missed their table.
   */
  lemma UserRunsUnderItsPagetable(s0: Sys, acts: seq<Action>, s: Sys, j: nat)
    requires Reaches(s0, acts, s) && s.perProcess && Enabled(s, AExec)
    requires var r := s.rings[s.running];
      && r.ops[r.rptr].User? && r.ops[r.rptr].pagetable != DEFAULT_PAGETABLE
      && Fated(r, r.rptr, NOTHING, acts, s.running, j)
    requires SwitchesFound(acts[..j], s.running)
    ensures var r := s.rings[s.running]; s.ttbr0 == r.ops[r.rptr].pagetable
  {
    var j' := UserRunsUnderHeldTable(s0, acts, s);
    assert j' == j;
    HeldIsOwn(acts[..j], s.running);
  }

  /**
    A refused switch does matter: the command that follows it runs under the default
    pagetable, ...
   */
  lemma RefusedSwitchRunsUnderTheWrongPagetable() returns (s0: Sys, acts: seq<Action>, s: Sys)
    ensures Reaches(s0, acts, s) && s.perProcess && Enabled(s, AExec)
    ensures var r := s.rings[s.running];
      r.ops[r.rptr] == User(7) && s.ttbr0 == DEFAULT_PAGETABLE
  {
    var c := Context(1, 7);
    s0 := TwoRings();
    var a0 := ASwitch(0, c, CRAMPED);
    var a1 := AUser(0, c, 1, 16, ROOMY);
    var a2 := APublish(0);
    var s1 := Next(s0, a0);
    assert s1.rings[0] == FreshRing().(ts := 1, active := Some(c));
    Extend(s0, [], s0, a0);
    var s2 := Next(s1, a1);
    assert Repeat(User(7), 1) == [User(7)] by { RepeatAt(User(7), 1, 0); }
    assert s2.rings[0].ops == [Sop(2), User(7), Eop(2), Yield];
    Extend(s0, [] + [a0], s1, a1);
    var s3 := Next(s2, a2);
    Extend(s0, [] + [a0] + [a1], s2, a2);
    s := Next(s3, AExec);
    Extend(s0, [] + [a0] + [a1] + [a2], s3, AExec);
    acts := [] + [a0] + [a1] + [a2] + [AExec];
  }

  /**
    ... and so do those of later contexts with the same pagetable, whose switches find space
    but load nothing.
   */
  lemma RefusalOutlivesTheNextSwitch()
    ensures var h := HeldBy([ASwitch(0, Context(1, 7), CRAMPED), ASwitch(0, Context(2, 7), ROOMY)], 0);
      h == Held(Some(Context(2, 7)), DEFAULT_PAGETABLE, 3)
  {
    var a, b := ASwitch(0, Context(1, 7), CRAMPED), ASwitch(0, Context(2, 7), ROOMY);
    var start, h := NOTHING, Held(Some(Context(1, 7)), DEFAULT_PAGETABLE, 0);
    assert [a, b][1..] == [b] && [b][1..] == [];
    assert HeldStep(start, 0, a) == h;
    assert HeldFrom(h, [b], 0) == HeldStep(h, 0, b);
  }
}
