/**
  What a crash dump's data buffer holds, for every table: the register ranges, the GPMU's,
  all banks of the shader blocks.  The HLSQ registers are in CrashReader.
 */
module CrashContents {
  import opened Basics
  import opened CrashScript
  import opened CrashDump
  import opened CrashReader

  // ------------------------------------------------------------- where a bank goes

  /** The captures in front of bank `j` of block `i`, among the shader captures, and that bank's. */
  lemma {:induction false} BankAt(bs: seq<ShaderBlock>, i: nat, j: nat)
    requires (forall k | 0 <= k < |bs| :: ShaderOk(bs[k])) && i < |bs| && j < A5XX_NUM_SHADER_BANKS
    ensures var all := ShaderCaptures(bs); var front := ShaderCaptures(bs[..i]) + BankCaptures(bs[i])[..j];
      |front| < |all| && all[..|front|] == front && all[|front|] == BankCapture(bs[i], j)
    decreases |bs|
  {
    var n := |bs| - 1;
    var front := ShaderCaptures(bs[..i]) + BankCaptures(bs[i])[..j];
    var rest, last := ShaderCaptures(bs[..n]), BankCaptures(bs[n]);
    if i < n {
      BankAt(bs[..n], i, j);
      assert bs[..n][..i] == bs[..i];
      assert (rest + last)[..|front|] == rest[..|front|];
    } else {
      assert front == rest + last[..j];
      assert (rest + last)[..|front|] == front;
    }
  }

  lemma {:induction false} BankBytes(b: ShaderBlock, j: nat)
    requires ShaderOk(b) && j <= A5XX_NUM_SHADER_BANKS
    ensures Bytes(BankCaptures(b)[..j]) == 4 * (j * b.sz)
  {
    if j == 0 {
      assert BankCaptures(b)[..0] == [];
    } else {
      BankBytes(b, j - 1);
      WordsMore(BankCaptures(b), j - 1);
    }
  }

  /** Bank `j` of block `i` among all captures. */
  lemma BankCaptured(t: Tables, hasGpmu: bool, i: nat, j: nat) returns (n: nat)
    requires TablesOk(t) && i < |t.shaders| && j < A5XX_NUM_SHADER_BANKS
    ensures var cs := Captures(t, hasGpmu);
      && n < |cs| && cs[n] == BankCapture(t.shaders[i], j)
      && Bytes(cs[..n]) == ShaderOffset(t, hasGpmu, i) + 4 * (j * t.shaders[i].sz)
  {
    var cs, ranges := Captures(t, hasGpmu), RangeCaptures(t, hasGpmu);
    var front := ShaderCaptures(t.shaders[..i]) + BankCaptures(t.shaders[i])[..j];
    BankAt(t.shaders, i, j);
    n := |ranges| + |front|;
    FrontOf(ranges, ShaderCaptures(t.shaders), HlsqCaptures(t.hlsq), |front|);
    assert ranges + front == ranges + ShaderCaptures(t.shaders[..i]) + BankCaptures(t.shaders[i])[..j];
    WordsConcat(ranges + ShaderCaptures(t.shaders[..i]), BankCaptures(t.shaders[i])[..j]);
    BankBytes(t.shaders[i], j);
  }

  lemma FrontOf<T>(a: seq<T>, b: seq<T>, c: seq<T>, k: nat)
    requires k < |b|
    ensures (a + b + c)[..|a| + k] == a + b[..k] && (a + b + c)[|a| + k] == b[k]
  {
  }

  /** Word `k` of bank `j` of block `i` is what the aperture shows for that bank of that state type. */
  lemma ShaderCaptured(t: Tables, hasGpmu: bool, regs: Registers, sel: word, i: nat, j: nat, k: nat)
    requires TablesOk(t) && i < |t.shaders| && j < A5XX_NUM_SHADER_BANKS && k < t.shaders[i].sz
    ensures var b := t.shaders[i]; var p := ShaderOffset(t, hasGpmu, i) / 4 + j * b.sz + k;
      var host := Values(Captures(t, hasGpmu), regs, sel);
      && ShaderOffset(t, hasGpmu, i) % 4 == 0 && p < |host|
      && host[p] == regs(b.statetype * 0x100 + j, A5XX_HLSQ_DBG_AHB_READ_APERTURE + k)
  {
    hide Captures, Values, ShaderOffset;
    var n := BankCaptured(t, hasGpmu, i, j);
    ValuesAt(Captures(t, hasGpmu), regs, sel, n, k);
    DivideOut(ShaderOffset(t, hasGpmu, i), j * t.shaders[i].sz);
  }

  lemma DivideOut(a: nat, b: nat)
    requires (a + 4 * b) % 4 == 0
    ensures a % 4 == 0 && (a + 4 * b) / 4 == a / 4 + b
  {
  }

  // ------------------------------------------------------------------- the GPMU's

  /** Every register of the GPMU's ranges, behind all the others. */
  lemma GpmuCaptured(t: Tables, regs: Registers, sel: word, j: nat, r: word)
    requires TablesOk(t) && j < |t.gpmu| / 2 && t.gpmu[2 * j] <= r <= t.gpmu[2 * j + 1]
    ensures var host := Values(Captures(t, true), regs, sel);
      var p := Before(t.registers, |t.registers| / 2) + Before(t.gpmu, j) + (r - t.gpmu[2 * j]);
      p < |host| && host[p] == regs(sel, r)
  {
    var a, g := PairCaptures(t.registers), PairCaptures(t.gpmu);
    var cs, n := Captures(t, true), |a| + j;
    FrontOf(a, g, ShaderCaptures(t.shaders) + HlsqCaptures(t.hlsq), j);
    assert a + g + (ShaderCaptures(t.shaders) + HlsqCaptures(t.hlsq)) == cs;
    assert cs[n] == PairCapture(t.gpmu, j) && cs[..n] == a + g[..j];
    hide Captures, Values, Before, PairCaptures;
    RangesBytes(t, j);
    ValuesAt(cs, regs, sel, n, r - t.gpmu[2 * j]);
    RangesSelectNothing(t, j, sel);
  }

  lemma RangesBytes(t: Tables, j: nat)
    requires TablesOk(t) && j <= |t.gpmu| / 2
    ensures Bytes(PairCaptures(t.registers) + PairCaptures(t.gpmu)[..j])
         == 4 * (Before(t.registers, |t.registers| / 2) + Before(t.gpmu, j))
  {
    var a := PairCaptures(t.registers);
    assert a[..|a|] == a;
    BeforeIsBytes(t.registers, |a|);
    BeforeIsBytes(t.gpmu, j);
    WordsConcat(a, PairCaptures(t.gpmu)[..j]);
  }

  lemma RangesSelectNothing(t: Tables, j: nat, sel: word)
    requires TablesOk(t) && j <= |t.gpmu| / 2
    ensures SelectedAfter(PairCaptures(t.registers) + PairCaptures(t.gpmu)[..j], sel) == sel
  {
    NothingSelected(PairCaptures(t.registers) + PairCaptures(t.gpmu)[..j], sel);
  }

  // ------------------------------------------------------------------- end to end

  /** Word `k` of bank `j` of block `i`, where the block's stored offset says. */
  ghost predicate ShaderHeld(bs: seq<ShaderBlock>, offsets: seq<nat>, host: seq<word>, regs: Registers,
                             i: nat, j: nat, k: nat)
    requires i < |bs| == |offsets| && ShaderOk(bs[i]) && j < A5XX_NUM_SHADER_BANKS && k < bs[i].sz
  {
    var p := offsets[i] / 4 + j * bs[i].sz + k;
    offsets[i] % 4 == 0 && p < |host|
    && host[p] == regs(bs[i].statetype * 0x100 + j, A5XX_HLSQ_DBG_AHB_READ_APERTURE + k)
  }

  /** Register `r` of the GPMU's range `j`. */
  ghost predicate GpmuHeld(t: Tables, host: seq<word>, regs: Registers, sel: word, j: nat, r: word)
    requires TablesOk(t) && j < |t.gpmu| / 2 && t.gpmu[2 * j] <= r
  {
    var p := Before(t.registers, |t.registers| / 2) + Before(t.gpmu, j) + (r - t.gpmu[2 * j]);
    p < |host| && host[p] == regs(sel, r)
  }

  /**
    From the tables to the buffer: if the script and the offsets are those WritePass stores,
    then after the dumper has executed the script every word of all four banks of every block
    is there, each of its own bank, and with a GPMU so is every register of its ranges.
   */
  lemma DumpHoldsShaders(d: Dumper, regs: Registers, t: Tables, hasGpmu: bool, base: nat, script: seq<qword>,
                         offsets: seq<nat>, host: seq<word>)
    requires TablesOk(t) && base + Bytes(Captures(t, hasGpmu)) <= 0xFFFF_FFFF_FFFF_FFFF
    requires script == ScriptFor(Captures(t, hasGpmu), base) + [0, 0]
    requires |offsets| == |t.shaders| && forall i | 0 <= i < |t.shaders| :: offsets[i] == ShaderOffset(t, hasGpmu, i)
    requires 4 * |host| == Bytes(Captures(t, hasGpmu)) && HostOf(Run(d, regs, script).mem, base, host)
    ensures forall i, j, k | 0 <= i < |t.shaders| && 0 <= j < 4 && 0 <= k < t.shaders[i].sz ::
      ShaderHeld(t.shaders, offsets, host, regs, i, j, k)
    ensures hasGpmu ==> forall j, r: word | 0 <= j < |t.gpmu| / 2 && t.gpmu[2 * j] <= r <= t.gpmu[2 * j + 1] ::
      GpmuHeld(t, host, regs, d.sel, j, r)
  {
    HostIsValues(d, regs, t, hasGpmu, base, script, host);
    forall i, j, k | 0 <= i < |t.shaders| && 0 <= j < 4 && 0 <= k < t.shaders[i].sz
      ensures ShaderHeld(t.shaders, offsets, host, regs, i, j, k)
    {
      ShaderCaptured(t, hasGpmu, regs, d.sel, i, j, k);
    }
    if hasGpmu {
      forall j, r: word | 0 <= j < |t.gpmu| / 2 && t.gpmu[2 * j] <= r <= t.gpmu[2 * j + 1]
        ensures GpmuHeld(t, host, regs, d.sel, j, r)
      {
        GpmuCaptured(t, regs, d.sel, j, r);
      }
    }
  }

  lemma HostIsValues(d: Dumper, regs: Registers, t: Tables, hasGpmu: bool, base: nat, script: seq<qword>,
                     host: seq<word>)
    requires TablesOk(t) && base + Bytes(Captures(t, hasGpmu)) <= 0xFFFF_FFFF_FFFF_FFFF
    requires script == ScriptFor(Captures(t, hasGpmu), base) + [0, 0]
    requires 4 * |host| == Bytes(Captures(t, hasGpmu)) && HostOf(Run(d, regs, script).mem, base, host)
    ensures host == Values(Captures(t, hasGpmu), regs, d.sel)
  {
    DumpFillsTheBuffer(d, regs, t, hasGpmu, base, 0);
    SameHost(Run(d, regs, script).mem, base, host, Values(Captures(t, hasGpmu), regs, d.sel));
  }

  /** Of every range it has room for, the snapshot has every register, with what it held. */
  lemma EveryRegisterEmitted(t: Tables, hasGpmu: bool, regs: Registers, sel: word, host: seq<word>,
                             ranges: nat, j: nat, r: word)
    requires TablesOk(t) && j < ranges <= |t.registers| / 2 && t.registers[2 * j] <= r <= t.registers[2 * j + 1]
    requires host == Values(Captures(t, hasGpmu), regs, sel) && Before(t.registers, ranges) <= |host|
    ensures (r, regs(sel, r)) in RangesPairs(t.registers, ranges, host)
  {
    RegistersReadBack(t, hasGpmu, regs, sel, host, ranges, j, r - t.registers[2 * j]);
  }
}
