/**
  The packets the A5XX driver writes, one method for each.  A command window is the words
  written into it so far.
 */
module A5xxPackets {
  import opened Basics
  import opened Pm4
  import opened CommandProcessor

  const A5XX_CP_CNTL := 0x831
  const A5XX_CP_CONTEXT_SWITCH_SAVE_ADDR_LO := 0x83E
  const A5XX_CP_CONTEXT_SWITCH_SAVE_ADDR_HI := 0x83F
  const A5XX_UCHE_INVALIDATE0 := 0xE95
  const A5XX_RBBM_ALWAYSON_COUNTER_LO := 0x4D2

  lemma JoinLoHi(a: qword)
    ensures Join(Lo(a), Hi(a)) == a
  {
  }

  // What each packet causes.

  lemma NopEvents(pl: seq<word>)
    ensures PacketEvents(Type7(CP_NOP, pl)) == []
  {
  }

  lemma IbEvents(addr: qword, dwords: word)
    ensures PacketEvents(Type7(CP_INDIRECT_BUFFER_PFE, [Lo(addr), Hi(addr), dwords])) == [RunIb(addr, dwords)]
  {
    JoinLoHi(addr);
  }

  lemma MemWriteEvents(addr: qword, data: seq<word>)
    ensures PacketEvents(Type7(CP_MEM_WRITE, [Lo(addr), Hi(addr)] + data)) == [MemWrite(addr, data)]
  {
    JoinLoHi(addr);
    assert ([Lo(addr), Hi(addr)] + data)[2..] == data;
  }

  lemma TimestampEvents(kind: word, addr: qword, ts: word)
    ensures PacketEvents(Type7(CP_EVENT_WRITE, [kind, Lo(addr), Hi(addr), ts])) == [EventWrite(kind, addr, ts)]
  {
    JoinLoHi(addr);
  }

  lemma TableEvents(ttbr0: qword, id: word)
    ensures PacketEvents(Type7(CP_SMMU_TABLE_UPDATE, [Lo(ttbr0), Hi(ttbr0), id])) == [TableUpdate(ttbr0, id)]
  {
    JoinLoHi(ttbr0);
  }

  lemma ModeEvents(on: word)
    ensures PacketEvents(Type7(CP_SET_PROTECTED_MODE, [on])) == [SetProtected(on != 0)]
    ensures PacketEvents(Type7(CP_SET_SECURE_MODE, [on])) == [SetSecure(on != 0)]
  {
  }

  // One method for each packet.  `events` is what the window causes before the packet.

  method PutNop(cmds: seq<word>, id: word, ghost events: seq<Event>) returns (out: seq<word>)
    requires Causes(cmds, events)
    ensures |out| == |cmds| + 2 && Causes(out, events)
  {
    NopEvents([id]);
    out := Put(cmds, Type7(CP_NOP, [id]), events);
    assert events + [] == events;
  }

  method PutIb(cmds: seq<word>, addr: qword, dwords: word, ghost events: seq<Event>)
    returns (out: seq<word>)
    requires Causes(cmds, events)
    ensures |out| == |cmds| + 4 && Causes(out, events + [RunIb(addr, dwords)])
  {
    IbEvents(addr, dwords);
    out := Put(cmds, Type7(CP_INDIRECT_BUFFER_PFE, [Lo(addr), Hi(addr), dwords]), events);
  }

  method PutMemWrite(cmds: seq<word>, addr: qword, data: seq<word>, ghost events: seq<Event>)
    returns (out: seq<word>)
    requires |data| <= 8 && Causes(cmds, events)
    ensures |out| == |cmds| + 3 + |data| && Causes(out, events + [MemWrite(addr, data)])
  {
    MemWriteEvents(addr, data);
    out := Put(cmds, Type7(CP_MEM_WRITE, [Lo(addr), Hi(addr)] + data), events);
  }

  method PutTimestamp(cmds: seq<word>, kind: word, addr: qword, ts: word,
                      ghost events: seq<Event>) returns (out: seq<word>)
    requires Causes(cmds, events)
    ensures |out| == |cmds| + 5 && Causes(out, events + [EventWrite(kind, addr, ts)])
  {
    TimestampEvents(kind, addr, ts);
    out := Put(cmds, Type7(CP_EVENT_WRITE, [kind, Lo(addr), Hi(addr), ts]), events);
  }

  method PutTableUpdate(cmds: seq<word>, ttbr0: qword, id: word, ghost events: seq<Event>)
    returns (out: seq<word>)
    requires Causes(cmds, events)
    ensures |out| == |cmds| + 4 && Causes(out, events + [TableUpdate(ttbr0, id)])
  {
    TableEvents(ttbr0, id);
    out := Put(cmds, Type7(CP_SMMU_TABLE_UPDATE, [Lo(ttbr0), Hi(ttbr0), id]), events);
  }

  method PutProtected(cmds: seq<word>, on: bool, ghost events: seq<Event>) returns (out: seq<word>)
    requires Causes(cmds, events)
    ensures |out| == |cmds| + 2 && Causes(out, events + [SetProtected(on)])
  {
    var value: word := if on then 1 else 0;
    ModeEvents(value);
    out := Put(cmds, Type7(CP_SET_PROTECTED_MODE, [value]), events);
  }

  method PutSecure(cmds: seq<word>, on: bool, ghost events: seq<Event>) returns (out: seq<word>)
    requires Causes(cmds, events)
    ensures |out| == |cmds| + 2 && Causes(out, events + [SetSecure(on)])
  {
    var value: word := if on then 1 else 0;
    ModeEvents(value);
    out := Put(cmds, Type7(CP_SET_SECURE_MODE, [value]), events);
  }

  method PutReg(cmds: seq<word>, reg: nat, value: word, ghost events: seq<Event>)
    returns (out: seq<word>)
    requires reg < 0x4_0000 && Causes(cmds, events)
    ensures |out| == |cmds| + 2 && Causes(out, events + [RegWrite(reg, [value])])
  {
    out := Put(cmds, Type4(reg, [value]), events);
  }

  /** Opcodes that have no effect the model tracks. */
  predicate Plain(op: nat) {
    op in {CP_WAIT_MEM_WRITES, CP_WAIT_FOR_ME, CP_YIELD_ENABLE, CP_WAIT_FOR_IDLE, CP_REG_TO_MEM,
           CP_PREEMPT_ENABLE_GLOBAL, CP_PREEMPT_ENABLE_LOCAL, CP_SET_RENDER_MODE}
  }

  method PutPlain(cmds: seq<word>, op: nat, pl: seq<word>, ghost events: seq<Event>)
    returns (out: seq<word>)
    requires Plain(op) && |pl| <= 8 && Causes(cmds, events)
    ensures |out| == |cmds| + 1 + |pl| && Causes(out, events + [Other(op, pl)])
  {
    out := Put(cmds, Type7(op, pl), events);
  }

  method PutYield(cmds: seq<word>, ghost events: seq<Event>) returns (out: seq<word>)
    requires Causes(cmds, events)
    ensures |out| == |cmds| + 5 && Causes(out, events + [ContextYield])
  {
    out := Put(cmds, Type7(CP_CONTEXT_SWITCH_YIELD, [0, 0, 1, 1]), events);
  }
}
