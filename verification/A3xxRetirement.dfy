/**
  Which commands have retired, in whole A3XX runs.
 */
module A3xxRetirement {
  import opened Basics
  import opened RingLife
  import opened Adreno
  import opened A3xxRingbuffer
  import opened A3xxCommands
  import opened A3xxSafety
  import opened StreamEffects
  import opened A3xxEffects

  /** The end timestamp of entry `index`, which was `v`, once the CP has executed all that a turn delivers. */
  function EndAfter(d: Device, id: nat, active: Option<DrawContext>, q: Turn, index: nat, v: Option<word>): Option<word>
    requires q.Some? ==> ValidRequest(q.value)
  {
    if q.None? then v
    else
      var sent := CommandStatus(active, q.value) == OK;
      if sent && index == RbIndex(id) then Some(q.value.cmdTs)
      else if sent && index == q.value.ctx.id then Some(q.value.ts)
      else if Sent(d, active, q.value) && index == RbIndex(id) then Some(q.value.switchTs)
      else v
  }

  /** After `k` turns. */
  function EndAt(d: Device, id: nat, active: Option<DrawContext>, qs: seq<Turn>, index: nat, v: Option<word>, k: nat):
    Option<word>
    requires ValidTurns(qs) && k <= |qs|
    decreases k
  {
    if k == 0 then v
    else EndAfter(d, id, ActiveAt(active, qs, k - 1), qs[k - 1], index, EndAt(d, id, active, qs, index, v, k - 1))
  }

  lemma SwitchEnds(d: Device, id: nat, active: Option<DrawContext>, q: Request, index: nat, v: Option<word>)
    requires ValidDevice(d) && id < RB_LEVELS && index < ENTRIES
    ensures WordAfter(SwitchPart(d, id, active, q), Lo(Eop(d, index)), v)
         == if Sent(d, active, q) && index == RbIndex(id) then Some(q.switchTs) else v
  {
    forall i: nat | i < ENTRIES
      ensures Leaves(SwitchEvents(d, id, active, q.ctx), Lo(Sop(d, i)))
      ensures Leaves(SwitchEvents(d, id, active, q.ctx), Lo(Eop(d, i)))
    {
      SwitchLeaves(d, id, active, q.ctx, i, None);
    }
    SubmissionTimestamps(d, id, None, F_NOTPROTECTED, 0, q.switchTs, q.o1, SwitchEvents(d, id, active, q.ctx), index,
                         v);
  }

  lemma CommandEnds(d: Device, id: nat, active: Option<DrawContext>, q: Request, index: nat, v: Option<word>)
    requires ValidDevice(d) && id < RB_LEVELS && ValidRequest(q) && index < ENTRIES
    ensures var sent := CommandStatus(active, q) == OK;
      WordAfter(CommandPart(d, id, active, q), Lo(Eop(d, index)), v)
         == if sent && index == RbIndex(id) then Some(q.cmdTs)
            else if sent && index == q.ctx.id then Some(q.ts)
            else v
  {
    CommandIsQuiet(d, q.list, q.flags);
    SubmissionTimestamps(d, id, Some(q.ctx), q.flags, q.ts, q.cmdTs, q.o2, CommandEvents(q.list, q.flags), index, v);
  }

  lemma TurnEnds(d: Device, id: nat, active: Option<DrawContext>, q: Turn, index: nat, v: Option<word>)
    requires ValidDevice(d) && id < RB_LEVELS && (q.Some? ==> ValidRequest(q.value)) && index < ENTRIES
    ensures WordAfter(TurnEvents(d, id, active, q), Lo(Eop(d, index)), v) == EndAfter(d, id, active, q, index, v)
  {
    hide SwitchPart, CommandPart, WordAfter, Eop, Lo;
    if q.Some? {
      var x, a := Lo(Eop(d, index)), SwitchPart(d, id, active, q.value);
      SwitchEnds(d, id, active, q.value, index, v);
      CommandEnds(d, id, active, q.value, index, WordAfter(a, x, v));
      WordConcat(a, CommandPart(d, id, active, q.value), x, v);
    } else {
      LeavesWord([], Lo(Eop(d, index)), v);
    }
  }

  /** After any turns the bursts delivered leave the end timestamps of their last commands. */
  lemma {:induction false} RunEnds(d: Device, id: nat, active: Option<DrawContext>, qs: seq<Turn>, index: nat,
                                   v: Option<word>, k: nat)
    requires ValidDevice(d) && id < RB_LEVELS && ValidTurns(qs) && index < ENTRIES && k <= |qs|
    ensures WordAfter(Joined(Bursts(d, id, active, qs)[..k]), Lo(Eop(d, index)), v)
         == EndAt(d, id, active, qs, index, v, k)
    decreases k
  {
    hide WordAfter, TurnEvents, EndAfter, Eop, Lo, Bursts, ValidTurns;
    var bursts, x := Bursts(d, id, active, qs), Lo(Eop(d, index));
    if k == 0 {
      NothingEnds(x, v);
      assert bursts[..0] == [];
    } else {
      var v' := EndAt(d, id, active, qs, index, v, k - 1);
      RunEnds(d, id, active, qs, index, v, k - 1);
      JoinedMore(bursts, k - 1);
      TurnOf(d, id, active, qs, k - 1);
      hide Joined;
      WordConcat(Joined(bursts[..k - 1]), bursts[k - 1], x, v);
      TurnEnds(d, id, ActiveAt(active, qs, k - 1), qs[k - 1], index, v');
    }
  }

  lemma NothingEnds(x: nat, v: Option<word>)
    ensures WordAfter([], x, v) == v
  {
  }

  lemma TurnOf(d: Device, id: nat, active: Option<DrawContext>, qs: seq<Turn>, k: nat)
    requires ValidDevice(d) && id < RB_LEVELS && ValidTurns(qs) && k < |qs|
    ensures qs[k].Some? ==> ValidRequest(qs[k].value)
    ensures Bursts(d, id, active, qs)[k] == TurnEvents(d, id, ActiveAt(active, qs, k), qs[k])
  {
  }

  /**
    When the CP has executed everything, the end timestamp of every context is that of its last
    command that was delivered; nobody else's has changed, whatever was refused.
   */
  lemma EverythingRetires(d: Device, id: nat, active: Option<DrawContext>, qs: seq<Turn>, xs: seq<Snapshot>,
                          index: nat, v: Option<word>, k: nat)
    requires ValidDevice(d) && id < RB_LEVELS && ValidTurns(qs) && TurnsTaken(d, id, active, qs, xs) && k <= |qs|
    requires Given(xs[0], []) && index < ENTRIES && ValidSnapshot(xs[k]) && Pending(xs[k]) == Some([])
    ensures WordAfter(xs[k].done, Lo(Eop(d, index)), v) == EndAt(d, id, active, qs, index, v, k)
  {
    TurnsLive(d, id, active, qs, xs);
    LifeGives(xs, Bursts(d, id, active, qs), k);
    RunEnds(d, id, active, qs, index, v, k);
    assert xs[k].done + [] == xs[k].done;
  }
}
