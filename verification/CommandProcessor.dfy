/**
  What the command processor does with a stream: each packet becomes the events it
  causes, and a NOP causes none whatever its payload.
 */
module CommandProcessor {
  import opened Basics
  import opened Pm4
  import Sequences

  const CP_NOP := 0x10
  const CP_WAIT_MEM_WRITES := 0x12
  const CP_WAIT_FOR_ME := 0x13
  const CP_YIELD_ENABLE := 0x1C
  const CP_REG_RMW := 0x21
  const CP_WAIT_FOR_IDLE := 0x26
  const CP_SET_CONSTANT := 0x2d
  const CP_INVALIDATE_STATE := 0x3b
  const CP_MEM_WRITE := 0x3d
  const CP_REG_TO_MEM := 0x3e
  const CP_INDIRECT_BUFFER_PFE := 0x3F
  const CP_EVENT_WRITE := 0x46
  const CP_WAIT_REG_EQ := 0x52
  const CP_SMMU_TABLE_UPDATE := 0x53
  const CP_SET_PROTECTED_MODE := 0x5f
  const CP_WHERE_AM_I := 0x62
  const CP_SET_SECURE_MODE := 0x66
  const CP_PREEMPT_ENABLE_GLOBAL := 0x69
  const CP_PREEMPT_ENABLE_LOCAL := 0x6A
  const CP_CONTEXT_SWITCH_YIELD := 0x6B
  const CP_SET_RENDER_MODE := 0x6C
  const CP_REG_WR_NO_CTXT := 0x78

  // The kind of a timestamp event, and the bit that makes it raise an interrupt.
  const CACHE_FLUSH_TS: word := 4
  const IRQ: word := 0x8000_0000

  datatype Event =
    | RunIb(addr: qword, dwords: word)
    | MemWrite(addr: qword, data: seq<word>)
    | EventWrite(kind: word, addr: qword, value: word)
    | TableUpdate(ttbr0: qword, id: word)
    | RegWrite(reg: nat, values: seq<word>)
    | RegRmw(reg: nat, andMask: word, orMask: word)
    | WaitReg(reg: nat, value: word, mask: word)
    | SetProtected(on: bool)
    | SetSecure(on: bool)
    | ContextYield
    | Other(op: nat, payload: seq<word>)

  /**
    A5XX: type 4 and 7 packets, two words to an address.  A yield is one that stores nothing,
    its address being null, and raises an interrupt once the CP has switched.
   */
  function Type7Events(op: nat, pl: seq<word>): seq<Event> {
    if op == CP_NOP then []
    else if op == CP_INDIRECT_BUFFER_PFE && |pl| == 3 then [RunIb(Join(pl[0], pl[1]), pl[2])]
    else if op == CP_MEM_WRITE && |pl| >= 2 then [MemWrite(Join(pl[0], pl[1]), pl[2..])]
    else if op == CP_EVENT_WRITE && |pl| == 4 then [EventWrite(pl[0], Join(pl[1], pl[2]), pl[3])]
    else if op == CP_SMMU_TABLE_UPDATE && |pl| == 3 then [TableUpdate(Join(pl[0], pl[1]), pl[2])]
    else if op == CP_SET_PROTECTED_MODE && |pl| == 1 then [SetProtected(pl[0] != 0)]
    else if op == CP_SET_SECURE_MODE && |pl| == 1 then [SetSecure(pl[0] != 0)]
    else if op == CP_CONTEXT_SWITCH_YIELD && pl == [0, 0, 1, 1] then [ContextYield]
    else [Other(op, pl)]
  }

  /** A3XX: type 0 and 3 packets, one word to an address. */
  function Type3Events(op: nat, pl: seq<word>): seq<Event> {
    if op == CP_NOP then []
    else if op == CP_INDIRECT_BUFFER_PFE && |pl| == 2 then [RunIb(pl[0], pl[1])]
    else if op == CP_MEM_WRITE && |pl| >= 1 then [MemWrite(pl[0], pl[1..])]
    else if op == CP_EVENT_WRITE && |pl| == 3 then [EventWrite(pl[0], pl[1], pl[2])]
    else if op == CP_SET_PROTECTED_MODE && |pl| == 1 then [SetProtected(pl[0] != 0)]
    else if op == CP_REG_RMW && |pl| == 3 then [RegRmw(pl[0], pl[1], pl[2])]
    else if op == CP_WAIT_REG_EQ && |pl| == 4 then [WaitReg(pl[0], pl[1], pl[2])]
    else if op == CP_REG_WR_NO_CTXT && |pl| >= 1 then [RegWrite(pl[0], pl[1..])]
    else [Other(op, pl)]
  }

  function PacketEvents(p: Packet): seq<Event> {
    match p
    case Type0(reg, pl) => [RegWrite(reg, pl)]
    case Type4(reg, pl) => [RegWrite(reg, pl)]
    case Type3(op, pl) => Type3Events(op, pl)
    case Type7(op, pl) => Type7Events(op, pl)
  }

  function Events(ps: seq<Packet>): seq<Event> {
    Sequences.FlatMap(PacketEvents, ps)
  }

  /** What executing the words does, if they are whole packets. */
  function Meaning(ws: seq<word>): Option<seq<Event>> {
    var ps := Parse(ws);
    if ps.None? then None else Some(Events(ps.value))
  }

  lemma MeaningConcat(a: seq<word>, b: seq<word>)
    requires Meaning(a).Some?
    ensures Meaning(a + b) == Then(Meaning(a).value, Meaning(b))
  {
    ParseConcat(a, b);
    if Parse(b).Some? {
      Sequences.FlatMapConcat(PacketEvents, Parse(a).value, Parse(b).value);
    }
  }

  // ----------------------------------------------------------- building streams

  predicate AllValid(ps: seq<Packet>) {
    forall i | 0 <= i < |ps| :: Valid(ps[i])
  }

  function Flatten(ps: seq<Packet>): seq<word>
    requires AllValid(ps)
  {
    if ps == [] then [] else Words(ps[0]) + Flatten(ps[1..])
  }

  lemma {:induction false} FlattenConcat(a: seq<Packet>, b: seq<Packet>)
    requires AllValid(a) && AllValid(b)
    ensures AllValid(a + b) && Flatten(a + b) == Flatten(a) + Flatten(b)
  {
    if a == [] {
      assert a + b == b;
    } else {
      FlattenConcat(a[1..], b);
      assert (a + b)[1..] == a[1..] + b;
      Sequences.Associative(Words(a[0]), Flatten(a[1..]), Flatten(b));
    }
  }

  lemma FlattenOne(p: Packet)
    requires Valid(p)
    ensures Flatten([p]) == Words(p)
  {
    assert [p][1..] == [];
    assert Words(p) + [] == Words(p);
  }

  /** Parsing undoes flattening. */
  lemma {:induction false} ParseFlatten(ps: seq<Packet>)
    requires AllValid(ps)
    ensures Parse(Flatten(ps)) == Some(ps)
  {
    if ps != [] {
      ParseFlatten(ps[1..]);
      ParseOneMore(ps[0], ps[1..]);
      assert [ps[0]] + ps[1..] == ps;
    }
  }

  lemma ParseOneMore(p: Packet, rest: seq<Packet>)
    requires Valid(p) && AllValid(rest) && Parse(Flatten(rest)) == Some(rest)
    ensures Parse(Words(p) + Flatten(rest)) == Some([p] + rest)
  {
    ParsePacket(p, Flatten(rest));
  }

  /** `ws` is a flattened list of packets that causes `events`. */
  ghost predicate Causes(ws: seq<word>, events: seq<Event>) {
    exists ps :: AllValid(ps) && ws == Flatten(ps) && Events(ps) == events
  }

  /** Whoever parses such words finds those events and no others. */
  lemma CausesMeaning(ws: seq<word>, events: seq<Event>)
    requires Causes(ws, events)
    ensures Meaning(ws) == Some(events)
  {
    var ps :| AllValid(ps) && ws == Flatten(ps) && Events(ps) == events;
    ParseFlatten(ps);
  }

  lemma CausesNothing()
    ensures Causes([], [])
  {
    assert Flatten([]) == [] && Events([]) == [];
  }

  lemma CausesConcat(a: seq<word>, x: seq<Event>, b: seq<word>, y: seq<Event>)
    requires Causes(a, x) && Causes(b, y)
    ensures Causes(a + b, x + y)
  {
    var ps :| AllValid(ps) && a == Flatten(ps) && Events(ps) == x;
    var qs :| AllValid(qs) && b == Flatten(qs) && Events(qs) == y;
    FlattenConcat(ps, qs);
    Sequences.FlatMapConcat(PacketEvents, ps, qs);
    assert AllValid(ps + qs) && Events(ps + qs) == x + y;
  }

  lemma CausesPacket(p: Packet)
    requires Valid(p)
    ensures Causes(Words(p), PacketEvents(p))
  {
    var f := PacketEvents;
    Sequences.FlatMapOne(f, p);
    assert Events([p]) == f(p) == PacketEvents(p);
    FlattenOne(p);
    assert AllValid([p]);
  }

  /** Stores `ws` at `at`; nothing else changes. */
  method Store(buf: array<word>, at: nat, ws: seq<word>)
    requires at + |ws| <= buf.Length
    modifies buf
    ensures buf[at..at + |ws|] == ws
    ensures forall k | 0 <= k < buf.Length && !(at <= k < at + |ws|) :: buf[k] == old(buf[k])
  {
    for i := 0 to |ws|
      invariant forall j | 0 <= j < i :: buf[at + j] == ws[j]
      invariant forall k | 0 <= k < buf.Length && !(at <= k < at + i) :: buf[k] == old(buf[k])
    {
      buf[at + i] := ws[i];
    }
  }

  /** Appends one packet to a command window that causes `events` so far. */
  method Put(cmds: seq<word>, p: Packet, ghost events: seq<Event>) returns (out: seq<word>)
    requires Valid(p) && Causes(cmds, events)
    ensures |out| == |cmds| + 1 + |p.payload|
    ensures Causes(out, events + PacketEvents(p))
  {
    out := cmds + Words(p);
    CausesPacket(p);
    CausesConcat(cmds, events, Words(p), PacketEvents(p));
  }
}
