/**
  The life of a ring: submissions append what they deliver, and in between the CP executes
  what is there.
 */
module RingLife {
  import opened Basics
  import Sequences
  import opened CommandProcessor
  import opened Reservations
  import opened Ringbuffer

  /** The words of a ring, _wptr, wptr and the timestamp. */
  datatype RingState = RingState(buf: seq<word>, pending: nat, wptr: nat, ts: word)

  predicate ValidState(x: RingState) { |x.buf| == RB_DWORDS && x.pending <= RB_DWORDS - 2 }

  // ------------------------------------------------------------ what a delivery does

  /** A CP at `r` that has whole packets to execute goes on to cause `events` after them. */
  ghost predicate Continues(buf: seq<word>, wptr: nat, buf': seq<word>, wptr': nat, r: nat, events: seq<Event>)
    requires |buf| == |buf'| == RB_DWORDS && wptr <= RB_DWORDS - 2 && wptr' <= RB_DWORDS - 2 && r < RB_DWORDS
  {
    Meaning(Unread(buf, r, wptr)).Some? ==>
      Meaning(Unread(buf', r, wptr')) == Some(Meaning(Unread(buf, r, wptr)).value + events)
  }

  lemma TwoDeliveries(buf: seq<word>, wptr: nat, mid: seq<word>, midW: nat, buf': seq<word>, wptr': nat, r: nat,
                      a: seq<Event>, b: seq<Event>)
    requires |buf| == |mid| == |buf'| == RB_DWORDS && r < RB_DWORDS
    requires wptr <= RB_DWORDS - 2 && midW <= RB_DWORDS - 2 && wptr' <= RB_DWORDS - 2
    requires Continues(buf, wptr, mid, midW, r, a) && Continues(mid, midW, buf', wptr', r, b)
    ensures Continues(buf, wptr, buf', wptr', r, a + b)
  {
    hide Meaning, Unread;
    if Meaning(Unread(buf, r, wptr)).Some? {
      Sequences.Associative(Meaning(Unread(buf, r, wptr)).value, a, b);
    }
  }

  lemma NoDelivery(buf: seq<word>, wptr: nat, r: nat)
    requires |buf| == RB_DWORDS && r < RB_DWORDS && wptr <= RB_DWORDS - 2
    ensures Continues(buf, wptr, buf, wptr, r, [])
  {
    hide Meaning, Unread;
    if Meaning(Unread(buf, r, wptr)).Some? {
      assert Meaning(Unread(buf, r, wptr)).value + [] == Meaning(Unread(buf, r, wptr)).value;
    }
  }

  // --------------------------------------------------------------------- snapshots

  /** The ring, the CP's position in it, and what the CP has executed. */
  datatype Snapshot = Snapshot(buf: seq<word>, wptr: nat, r: nat, done: seq<Event>)

  predicate ValidSnapshot(x: Snapshot) { |x.buf| == RB_DWORDS && x.wptr <= RB_DWORDS - 2 && x.r < RB_DWORDS }

  /** What the CP has still to execute. */
  function Pending(x: Snapshot): Option<seq<Event>>
    requires ValidSnapshot(x)
  {
    Meaning(Unread(x.buf, x.r, x.wptr))
  }

  ghost predicate Executes(x: Snapshot, y: Snapshot, e: seq<Event>)
    requires ValidSnapshot(x) && ValidSnapshot(y)
  {
    Pending(y).Some? && Pending(x) == Some(e + Pending(y).value) && y.done == x.done + e
  }

  /** The CP executes the first part of what it has to, and nobody writes. */
  ghost predicate CpMoves(x: Snapshot, y: Snapshot)
    requires ValidSnapshot(x) && ValidSnapshot(y)
  {
    y.buf == x.buf && y.wptr == x.wptr && exists e :: Executes(x, y, e)
  }

  /** A submission delivers `events` behind what the CP has to execute. */
  ghost predicate Receives(x: Snapshot, y: Snapshot, events: seq<Event>)
    requires ValidSnapshot(x) && ValidSnapshot(y)
  {
    y.r == x.r && y.done == x.done && Continues(x.buf, x.wptr, y.buf, y.wptr, x.r, events)
  }

  /** A call delivers `a` and then `b`, and the CP may execute something in between. */
  ghost predicate Calls(x: Snapshot, m: Snapshot, n: Snapshot, y: Snapshot, a: seq<Event>, b: seq<Event>)
    requires ValidSnapshot(x) && ValidSnapshot(y)
  {
    ValidSnapshot(m) && ValidSnapshot(n) && Receives(x, m, a) && CpMoves(m, n) && Receives(n, y, b)
  }

  ghost predicate Moves(x: Snapshot, y: Snapshot, events: seq<Event>) {
    && ValidSnapshot(x) && ValidSnapshot(y)
    && ((events == [] && CpMoves(x, y)) || exists m, n, a, b :: Calls(x, m, n, y, a, b) && events == a + b)
  }

  /** Everything ever given to the CP: what it has executed, and what it still has to. */
  ghost predicate Given(x: Snapshot, all: seq<Event>) {
    ValidSnapshot(x) && Pending(x).Some? && x.done + Pending(x).value == all
  }

  lemma DoneIsPrefix(x: Snapshot, all: seq<Event>)
    requires Given(x, all)
    ensures x.done <= all
  {
  }

  lemma CpKeeps(x: Snapshot, y: Snapshot, all: seq<Event>)
    requires ValidSnapshot(x) && ValidSnapshot(y) && CpMoves(x, y) && Given(x, all)
    ensures Given(y, all)
  {
    hide Meaning, Unread;
    var e :| Executes(x, y, e);
    assert x.done + (e + Pending(y).value) == x.done + e + Pending(y).value;
  }

  lemma ReceiptAdds(x: Snapshot, y: Snapshot, all: seq<Event>, events: seq<Event>)
    requires Given(x, all) && ValidSnapshot(y) && Receives(x, y, events)
    ensures Given(y, all + events)
  {
    hide Meaning, Unread;
    assert x.done + (Pending(x).value + events) == x.done + Pending(x).value + events;
  }

  lemma MoveGives(x: Snapshot, y: Snapshot, all: seq<Event>, events: seq<Event>)
    requires Given(x, all) && Moves(x, y, events)
    ensures Given(y, all + events)
  {
    if events == [] && CpMoves(x, y) {
      CpKeeps(x, y, all);
      assert all + [] == all;
    } else {
      hide Given, Receives, CpMoves;
      var m, n, a, b :| Calls(x, m, n, y, a, b) && events == a + b;
      ReceiptAdds(x, m, all, a);
      CpKeeps(m, n, all + a);
      ReceiptAdds(n, y, all + a, b);
      Sequences.Associative(all, a, b);
    }
  }

  // -------------------------------------------------------------------------- lives

  function Joined<T>(segs: seq<seq<T>>): seq<T>
    decreases |segs|
  {
    if segs == [] then [] else Joined(segs[..|segs| - 1]) + segs[|segs| - 1]
  }

  lemma JoinedMore<T>(segs: seq<seq<T>>, k: nat)
    requires k < |segs|
    ensures Joined(segs[..k + 1]) == Joined(segs[..k]) + segs[k]
  {
    assert segs[..k + 1][..k] == segs[..k];
  }

  /** The snapshots are what the moves make of the first one; the CP's own moves deliver nothing. */
  ghost predicate Life(xs: seq<Snapshot>, moves: seq<seq<Event>>) {
    |xs| == |moves| + 1 && forall k | 0 <= k < |moves| :: Moves(xs[k], xs[k + 1], moves[k])
  }

  /** At any time what the CP has executed and still has to is what was delivered, in order. */
  lemma {:induction false} LifeGives(xs: seq<Snapshot>, moves: seq<seq<Event>>, k: nat)
    requires Life(xs, moves) && k <= |moves| && Given(xs[0], [])
    ensures Given(xs[k], Joined(moves[..k]))
    decreases k
  {
    if k == 0 {
      assert moves[..0] == [];
    } else {
      LifeGives(xs, moves, k - 1);
      assert Moves(xs[k - 1], xs[k], moves[k - 1]);
      MoveGives(xs[k - 1], xs[k], Joined(moves[..k - 1]), moves[k - 1]);
      JoinedMore(moves, k - 1);
    }
  }
}
