/**
  The packets the A3XX driver writes, one method for each.  Addresses are 32 bits wide:
  the upper half of a 64-bit one is dropped.
 */
module A3xxPackets {
  import opened Basics
  import opened Pm4
  import opened CommandProcessor

  method PutNop(cmds: seq<word>, id: word, ghost events: seq<Event>) returns (out: seq<word>)
    requires Causes(cmds, events)
    ensures |out| == |cmds| + 2 && Causes(out, events)
  {
    out := Put(cmds, Type3(CP_NOP, [id]), events);
    assert events + [] == events;
  }

  method PutIb(cmds: seq<word>, addr: qword, dwords: word, ghost events: seq<Event>) returns (out: seq<word>)
    requires Causes(cmds, events)
    ensures |out| == |cmds| + 3 && Causes(out, events + [RunIb(Lo(addr), dwords)])
  {
    out := Put(cmds, Type3(CP_INDIRECT_BUFFER_PFE, [Lo(addr), dwords]), events);
  }

  method PutMemWrite(cmds: seq<word>, addr: qword, value: word, ghost events: seq<Event>) returns (out: seq<word>)
    requires Causes(cmds, events)
    ensures |out| == |cmds| + 3 && Causes(out, events + [MemWrite(Lo(addr), [value])])
  {
    assert [Lo(addr), value][1..] == [value];
    out := Put(cmds, Type3(CP_MEM_WRITE, [Lo(addr), value]), events);
  }

  method PutTimestamp(cmds: seq<word>, kind: word, addr: qword, ts: word, ghost events: seq<Event>)
    returns (out: seq<word>)
    requires Causes(cmds, events)
    ensures |out| == |cmds| + 4 && Causes(out, events + [EventWrite(kind, Lo(addr), ts)])
  {
    out := Put(cmds, Type3(CP_EVENT_WRITE, [kind, Lo(addr), ts]), events);
  }

  method PutProtected(cmds: seq<word>, on: bool, ghost events: seq<Event>) returns (out: seq<word>)
    requires Causes(cmds, events)
    ensures |out| == |cmds| + 2 && Causes(out, events + [SetProtected(on)])
  {
    var value: word := if on then 1 else 0;
    out := Put(cmds, Type3(CP_SET_PROTECTED_MODE, [value]), events);
  }

  /** a3xx_wait_reg */
  method PutWaitReg(cmds: seq<word>, reg: word, value: word, mask: word, interval: word, ghost events: seq<Event>)
    returns (out: seq<word>)
    requires Causes(cmds, events)
    ensures |out| == |cmds| + 5 && Causes(out, events + [WaitReg(reg, value, mask)])
  {
    out := Put(cmds, Type3(CP_WAIT_REG_EQ, [reg, value, mask, interval]), events);
  }

  method PutRegRmw(cmds: seq<word>, reg: word, andMask: word, orMask: word, ghost events: seq<Event>)
    returns (out: seq<word>)
    requires Causes(cmds, events)
    ensures |out| == |cmds| + 4 && Causes(out, events + [RegRmw(reg, andMask, orMask)])
  {
    out := Put(cmds, Type3(CP_REG_RMW, [reg, andMask, orMask]), events);
  }

  const A3XX_GPU_OFFSET := 0xa000

  /** The register index of an SMMU register, as a3xx_cp_smmu_reg computes it. */
  function SmmuReg(reg: nat): word
    requires reg < 0x1000
  {
    (A3XX_GPU_OFFSET + reg) / 4
  }

  /** a3xx_cp_smmu_reg and the values behind it. */
  method PutSmmuReg(cmds: seq<word>, reg: nat, values: seq<word>, ghost events: seq<Event>) returns (out: seq<word>)
    requires reg < 0x1000 && |values| <= 8 && Causes(cmds, events)
    ensures |out| == |cmds| + 2 + |values| && Causes(out, events + [RegWrite(SmmuReg(reg), values)])
  {
    var pl := [SmmuReg(reg)] + values;
    assert pl[1..] == values;
    out := Put(cmds, Type3(CP_REG_WR_NO_CTXT, pl), events);
  }

  method PutRegs(cmds: seq<word>, reg: nat, values: seq<word>, ghost events: seq<Event>) returns (out: seq<word>)
    requires reg < 0x8000 && 1 <= |values| <= 8 && Causes(cmds, events)
    ensures |out| == |cmds| + 1 + |values| && Causes(out, events + [RegWrite(reg, values)])
  {
    out := Put(cmds, Type0(reg, values), events);
  }

  /** Packets with no effect the model tracks. */
  predicate Plain(op: nat, pl: seq<word>) {
    || (op in {CP_WAIT_FOR_ME, CP_WAIT_FOR_IDLE, CP_INVALIDATE_STATE, CP_SET_CONSTANT} && 1 <= |pl| <= 8)
    || (op == CP_EVENT_WRITE && |pl| == 1)
  }

  method PutPlain(cmds: seq<word>, op: nat, pl: seq<word>, ghost events: seq<Event>) returns (out: seq<word>)
    requires Plain(op, pl) && Causes(cmds, events)
    ensures |out| == |cmds| + 1 + |pl| && Causes(out, events + [Other(op, pl)])
  {
    out := Put(cmds, Type3(op, pl), events);
  }
}
