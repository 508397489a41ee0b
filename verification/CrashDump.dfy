/**
  The A5XX crash dump: sizing and building the script from the tables.  The script and data
  buffers are there already.
 */
module CrashDump {
  import opened Basics
  import Sequences
  import opened CrashScript

  const A5XX_NUM_SHADER_BANKS := 4

  /** struct a5xx_shader_block and struct a5xx_hlsq_sp_tp_regs, without their offsets. */
  datatype ShaderBlock = ShaderBlock(statetype: nat, sz: nat)
  datatype HlsqRegs = HlsqRegs(statetype: nat, ahbaddr: word, size: nat)

  /** `registers` and `gpmu` hold pairs: the first and the last register of a range. */
  datatype Tables = Tables(registers: seq<word>, gpmu: seq<word>, shaders: seq<ShaderBlock>, hlsq: seq<HlsqRegs>)

  predicate PairsOk(a: seq<word>) {
    forall j | 0 <= j < |a| / 2 :: a[2 * j] <= a[2 * j + 1] < 0x10_0000
  }

  predicate ShaderOk(b: ShaderBlock) { 0 < b.sz < WRITE_BIT && b.statetype < 0x10_0000 }

  predicate HlsqOk(h: HlsqRegs) {
    0 < h.size < WRITE_BIT && h.statetype < 0x10_0000 && h.ahbaddr + h.size < 0x1_0000_0000
  }

  predicate TablesOk(t: Tables) {
    && PairsOk(t.registers) && PairsOk(t.gpmu)
    && (forall i | 0 <= i < |t.shaders| :: ShaderOk(t.shaders[i]))
    && (forall i | 0 <= i < |t.hlsq| :: HlsqOk(t.hlsq[i]))
  }

  /** REG_PAIR_COUNT */
  function PairCount(a: seq<word>, j: nat): nat
    requires PairsOk(a) && j < |a| / 2
  {
    a[2 * j + 1] - a[2 * j] + 1
  }

  // ------------------------------------------------------------ what is captured

  function PairCapture(a: seq<word>, j: nat): Capture
    requires PairsOk(a) && j < |a| / 2
  {
    Capture(None, a[2 * j], PairCount(a, j))
  }

  function PairCaptures(a: seq<word>): (r: seq<Capture>)
    requires PairsOk(a)
    ensures AllOk(r)
  {
    seq(|a| / 2, j requires 0 <= j < |a| / 2 => PairCapture(a, j))
  }

  /** Selects bank `j` of a block. */
  function BankCapture(b: ShaderBlock, j: nat): Capture
    requires ShaderOk(b) && j < A5XX_NUM_SHADER_BANKS
  {
    Capture(Some(b.statetype * 0x100 + j), A5XX_HLSQ_DBG_AHB_READ_APERTURE, b.sz)
  }

  function BankCaptures(b: ShaderBlock): (r: seq<Capture>)
    requires ShaderOk(b)
    ensures AllOk(r)
  {
    seq(A5XX_NUM_SHADER_BANKS, j requires 0 <= j < A5XX_NUM_SHADER_BANKS => BankCapture(b, j))
  }

  function ShaderCaptures(bs: seq<ShaderBlock>): (r: seq<Capture>)
    requires forall i | 0 <= i < |bs| :: ShaderOk(bs[i])
    ensures AllOk(r)
    decreases |bs|
  {
    if bs == [] then [] else ShaderCaptures(bs[..|bs| - 1]) + BankCaptures(bs[|bs| - 1])
  }

  function HlsqCapture(h: HlsqRegs): (c: Capture)
    requires HlsqOk(h)
    ensures CaptureOk(c)
  {
    Capture(Some(h.statetype * 0x100), A5XX_HLSQ_DBG_AHB_READ_APERTURE, h.size)
  }

  function HlsqCaptures(hs: seq<HlsqRegs>): (r: seq<Capture>)
    requires forall i | 0 <= i < |hs| :: HlsqOk(hs[i])
    ensures AllOk(r)
  {
    seq(|hs|, i requires 0 <= i < |hs| => HlsqCapture(hs[i]))
  }

  /** The register ranges come first. */
  function RangeCaptures(t: Tables, hasGpmu: bool): (r: seq<Capture>)
    requires TablesOk(t)
    ensures AllOk(r)
  {
    PairCaptures(t.registers) + if hasGpmu then PairCaptures(t.gpmu) else []
  }

  /** Everything but the HLSQ registers, which come last. */
  function HeadCaptures(t: Tables, hasGpmu: bool): (r: seq<Capture>)
    requires TablesOk(t)
    ensures AllOk(r)
  {
    RangeCaptures(t, hasGpmu) + ShaderCaptures(t.shaders)
  }

  function Captures(t: Tables, hasGpmu: bool): (r: seq<Capture>)
    requires TablesOk(t)
    ensures AllOk(r)
  {
    HeadCaptures(t, hasGpmu) + HlsqCaptures(t.hlsq)
  }

  /** A script in the making, for captures `cs`; `offset` is where the next data goes. */
  ghost predicate Built(script: seq<qword>, offset: nat, cs: seq<Capture>, base: nat) {
    AllOk(cs) && base + Bytes(cs) <= 0xFFFF_FFFF_FFFF_FFFF && script == ScriptFor(cs, base) && offset == Bytes(cs)
  }

  // ------------------------------------------------------------------ the size pass

  lemma WordsConcat(a: seq<Capture>, b: seq<Capture>)
    ensures ScriptWords(a + b) == ScriptWords(a) + ScriptWords(b) && Bytes(a + b) == Bytes(a) + Bytes(b)
    decreases |a|
  {
    if a == [] {
      assert a + b == b;
    } else {
      WordsConcat(a[1..], b);
      assert (a + b)[1..] == a[1..] + b;
    }
  }

  lemma WordsMore(a: seq<Capture>, n: nat)
    requires n < |a|
    ensures ScriptWords(a[..n + 1]) == ScriptWords(a[..n]) + (if a[n].select.Some? then 4 else 2)
    ensures Bytes(a[..n + 1]) == Bytes(a[..n]) + 4 * a[n].count
  {
    assert a[..n + 1] == a[..n] + [a[n]];
    assert [a[n]][1..] == [];
    WordsConcat(a[..n], [a[n]]);
  }

  method SizePairs(a: seq<word>) returns (script: nat, data: nat)
    requires PairsOk(a)
    ensures script == 8 * ScriptWords(PairCaptures(a)) && data == Bytes(PairCaptures(a))
  {
    ghost var cs := PairCaptures(a);
    script := |a| / 2 * 16;
    data := 0;
    for j := 0 to |a| / 2
      invariant data == Bytes(cs[..j]) && ScriptWords(cs[..j]) == 2 * j
    {
      WordsMore(cs, j);
      data := data + PairCount(a, j) * 4;
    }
    assert cs[..|a| / 2] == cs;
  }

  lemma BankSizes(b: ShaderBlock)
    requires ShaderOk(b)
    ensures ScriptWords(BankCaptures(b)) == 16 && Bytes(BankCaptures(b)) == 4 * (4 * b.sz)
  {
    var cs := BankCaptures(b);
    WordsMore(cs, 0);
    WordsMore(cs, 1);
    WordsMore(cs, 2);
    WordsMore(cs, 3);
    assert cs[..0] == [] && cs[..4] == cs;
  }

  /** The sums of the first pass over the tables, in bytes, without the terminator. */
  method SizePass(t: Tables, hasGpmu: bool) returns (scriptSize: nat, dataSize: nat)
    requires TablesOk(t)
    ensures scriptSize == 8 * ScriptWords(Captures(t, hasGpmu)) && dataSize == Bytes(Captures(t, hasGpmu))
  {
    scriptSize, dataSize := SizePairs(t.registers);
    ghost var done := PairCaptures(t.registers);
    assert done + [] == done;
    if hasGpmu {
      var s, d := SizePairs(t.gpmu);
      scriptSize, dataSize := scriptSize + s, dataSize + d;
      WordsConcat(done, PairCaptures(t.gpmu));
    }
    done := done + if hasGpmu then PairCaptures(t.gpmu) else [];
    var s, d := SizeShaders(t.shaders);
    WordsConcat(done, ShaderCaptures(t.shaders));
    scriptSize, dataSize := scriptSize + s, dataSize + d;
    s, d := SizeHlsq(t.hlsq);
    WordsConcat(HeadCaptures(t, hasGpmu), HlsqCaptures(t.hlsq));
    scriptSize, dataSize := scriptSize + s, dataSize + d;
  }

  method SizeShaders(bs: seq<ShaderBlock>) returns (script: nat, data: nat)
    requires forall i | 0 <= i < |bs| :: ShaderOk(bs[i])
    ensures script == 8 * ScriptWords(ShaderCaptures(bs)) && data == Bytes(ShaderCaptures(bs))
  {
    script, data := 0, 0;
    for i := 0 to |bs|
      invariant script == 8 * ScriptWords(ShaderCaptures(bs[..i])) && data == Bytes(ShaderCaptures(bs[..i]))
    {
      assert bs[..i + 1][..i] == bs[..i];
      BankSizes(bs[i]);
      WordsConcat(ShaderCaptures(bs[..i]), BankCaptures(bs[i]));
      script := script + 32 * A5XX_NUM_SHADER_BANKS;
      data := data + bs[i].sz * 4 * A5XX_NUM_SHADER_BANKS;
    }
    assert bs[..|bs|] == bs;
  }

  method SizeHlsq(hs: seq<HlsqRegs>) returns (script: nat, data: nat)
    requires forall i | 0 <= i < |hs| :: HlsqOk(hs[i])
    ensures script == 8 * ScriptWords(HlsqCaptures(hs)) && data == Bytes(HlsqCaptures(hs))
  {
    ghost var cs := HlsqCaptures(hs);
    script, data := 0, 0;
    for i := 0 to |hs|
      invariant script == 8 * ScriptWords(cs[..i]) && data == Bytes(cs[..i])
    {
      WordsMore(cs, i);
      script := script + 32;
      data := data + hs[i].size * 4;
    }
    assert cs[..|hs|] == cs;
  }

  // ----------------------------------------------------------------- the write pass

  /** A plain read of one range. */
  method PutPairs(script: seq<qword>, offset: nat, a: seq<word>, base: nat, ghost done: seq<Capture>)
    returns (out: seq<qword>, next: nat)
    requires PairsOk(a) && Built(script, offset, done, base)
    requires base + Bytes(done + PairCaptures(a)) <= 0xFFFF_FFFF_FFFF_FFFF
    ensures Built(out, next, done + PairCaptures(a), base)
  {
    ghost var cs := PairCaptures(a);
    out, next := script, offset;
    assert done + cs[..0] == done;
    for j := 0 to |a| / 2
      invariant Built(out, next, done + cs[..j], base)
    {
      var r := PairCount(a, j);
      Fits(done, cs, j, base);
      ScriptMore(done + cs[..j], cs[j], base);
      assert done + cs[..j + 1] == done + cs[..j] + [cs[j]];
      out := out + [base + next, ReadEntry(a[2 * j], r)];
      next := next + r * 4;
    }
    assert cs[..|a| / 2] == cs;
  }

  lemma Fits(done: seq<Capture>, cs: seq<Capture>, j: nat, base: nat)
    requires j < |cs| && base + Bytes(done + cs) <= 0xFFFF_FFFF_FFFF_FFFF
    ensures base + Bytes(done + cs[..j]) + 4 * cs[j].count <= 0xFFFF_FFFF_FFFF_FFFF
  {
    WordsMore(cs, j);
    WordsConcat(done, cs[..j]);
    WordsConcat(done, cs);
    WordsConcat(cs[..j + 1], cs[j + 1..]);
    assert cs == cs[..j + 1] + cs[j + 1..];
  }

  /** _a5xx_crashdump_init_shader */
  method InitShader(script: seq<qword>, offset: nat, b: ShaderBlock, base: nat, ghost done: seq<Capture>)
    returns (out: seq<qword>, next: nat, first: nat)
    requires ShaderOk(b) && Built(script, offset, done, base)
    requires base + Bytes(done + BankCaptures(b)) <= 0xFFFF_FFFF_FFFF_FFFF
    ensures Built(out, next, done + BankCaptures(b), base) && first == offset
  {
    hide ScriptFor, Bytes, CaptureOk;
    ghost var cs := BankCaptures(b);
    out, next, first := script, offset, 0;
    assert done + cs[..0] == done;
    for j := 0 to A5XX_NUM_SHADER_BANKS
      invariant Built(out, next, done + cs[..j], base)
      invariant j > 0 ==> first == offset
      invariant j == 0 ==> next == offset
    {
      Fits(done, cs, j, base);
      ScriptMore(done + cs[..j], cs[j], base);
      assert done + cs[..j + 1] == done + cs[..j] + [cs[j]];
      out := out + [b.statetype * 0x100 + j, SELECT_ENTRY,
                    base + next, ReadEntry(A5XX_HLSQ_DBG_AHB_READ_APERTURE, b.sz)];
      if j == 0 {
        first := next;
      }
      next := next + b.sz * 4;
    }
    assert cs[..A5XX_NUM_SHADER_BANKS] == cs;
  }

  /** _a5xx_crashdump_init_hlsq */
  method InitHlsq(script: seq<qword>, offset: nat, h: HlsqRegs, base: nat, ghost done: seq<Capture>)
    returns (out: seq<qword>, next: nat, first: nat)
    requires HlsqOk(h) && Built(script, offset, done, base) && base + Bytes(done) + 4 * h.size <= 0xFFFF_FFFF_FFFF_FFFF
    ensures Built(out, next, done + [HlsqCapture(h)], base) && first == offset
  {
    ScriptMore(done, HlsqCapture(h), base);
    out := script + [h.statetype * 0x100, SELECT_ENTRY,
                     base + offset, ReadEntry(A5XX_HLSQ_DBG_AHB_READ_APERTURE, h.size)];
    first := offset;
    next := offset + h.size * 4;
  }

  /** A device's crash dump; the offsets are the tables' mutable part. */
  class CrashDumper {
    var script: seq<qword>
    var shaderOffsets: seq<nat>
    var hlsqOffsets: seq<nat>

    constructor ()
      ensures script == []
    {
      script, shaderOffsets, hlsqOffsets := [], [], [];
    }

    /**
      The second pass of a5xx_crashdump_init.  It writes exactly the script for the tables'
      captures and two zeros: as many bytes as were asked for.
     */
    method WritePass(t: Tables, hasGpmu: bool, base: nat)
      requires TablesOk(t) && base + Bytes(Captures(t, hasGpmu)) <= 0xFFFF_FFFF_FFFF_FFFF
      modifies this
      ensures script == ScriptFor(Captures(t, hasGpmu), base) + [0, 0]
      ensures 8 * |script| == 8 * ScriptWords(Captures(t, hasGpmu)) + 16
      ensures |shaderOffsets| == |t.shaders| && |hlsqOffsets| == |t.hlsq|
      ensures forall i | 0 <= i < |t.shaders| :: shaderOffsets[i] == ShaderOffset(t, hasGpmu, i)
      ensures forall i | 0 <= i < |t.hlsq| :: hlsqOffsets[i] == HlsqOffset(t, hasGpmu, i)
    {
      PartsFit(t, hasGpmu);
      ScriptLength(Captures(t, hasGpmu), base);
      var out, offset := PutRanges(t, hasGpmu, base);
      out, offset, shaderOffsets := PutShaders(out, offset, t.shaders, base, RangeCaptures(t, hasGpmu));
      out, offset, hlsqOffsets := PutHlsqs(out, offset, t.hlsq, base, HeadCaptures(t, hasGpmu));
      script := out + [0, 0];
    }
  }

  lemma PartsFit(t: Tables, hasGpmu: bool)
    requires TablesOk(t)
    ensures Bytes(RangeCaptures(t, hasGpmu)) <= Bytes(HeadCaptures(t, hasGpmu)) <= Bytes(Captures(t, hasGpmu))
  {
    WordsConcat(HeadCaptures(t, hasGpmu), HlsqCaptures(t.hlsq));
    WordsConcat(RangeCaptures(t, hasGpmu), ShaderCaptures(t.shaders));
  }

  function ShaderOffset(t: Tables, hasGpmu: bool, i: nat): nat
    requires TablesOk(t) && i <= |t.shaders|
  {
    Bytes(RangeCaptures(t, hasGpmu) + ShaderCaptures(t.shaders[..i]))
  }

  function HlsqOffset(t: Tables, hasGpmu: bool, i: nat): nat
    requires TablesOk(t) && i <= |t.hlsq|
  {
    Bytes(HeadCaptures(t, hasGpmu) + HlsqCaptures(t.hlsq)[..i])
  }

  lemma {:induction false} ShaderBytesGrow(bs: seq<ShaderBlock>, i: nat)
    requires i <= |bs| && forall k | 0 <= k < |bs| :: ShaderOk(bs[k])
    ensures Bytes(ShaderCaptures(bs[..i])) <= Bytes(ShaderCaptures(bs))
    decreases |bs|
  {
    if i < |bs| {
      var rest := bs[..|bs| - 1];
      ShaderBytesGrow(rest, i);
      assert rest[..i] == bs[..i];
      WordsConcat(ShaderCaptures(rest), BankCaptures(bs[|bs| - 1]));
    } else {
      assert bs[..i] == bs;
    }
  }

  method PutRanges(t: Tables, hasGpmu: bool, base: nat) returns (out: seq<qword>, next: nat)
    requires TablesOk(t) && base + Bytes(RangeCaptures(t, hasGpmu)) <= 0xFFFF_FFFF_FFFF_FFFF
    ensures Built(out, next, RangeCaptures(t, hasGpmu), base)
  {
    ghost var a := PairCaptures(t.registers);
    WordsConcat(a, if hasGpmu then PairCaptures(t.gpmu) else []);
    assert [] + a == a && a + [] == a;
    out, next := PutPairs([], 0, t.registers, base, []);
    if hasGpmu {
      out, next := PutPairs(out, next, t.gpmu, base, a);
    }
  }

  lemma ShaderFits(done: seq<Capture>, bs: seq<ShaderBlock>, i: nat, base: nat)
    requires i < |bs| && forall k | 0 <= k < |bs| :: ShaderOk(bs[k])
    requires base + Bytes(done + ShaderCaptures(bs)) <= 0xFFFF_FFFF_FFFF_FFFF
    ensures done + ShaderCaptures(bs[..i + 1]) == done + ShaderCaptures(bs[..i]) + BankCaptures(bs[i])
    ensures base + Bytes(done + ShaderCaptures(bs[..i]) + BankCaptures(bs[i])) <= 0xFFFF_FFFF_FFFF_FFFF
  {
    assert bs[..i + 1][..i] == bs[..i];
    Sequences.Associative(done, ShaderCaptures(bs[..i]), BankCaptures(bs[i]));
    ShaderBytesGrow(bs, i + 1);
    WordsConcat(done, ShaderCaptures(bs[..i + 1]));
    WordsConcat(done, ShaderCaptures(bs));
  }

  method PutShaders(script: seq<qword>, offset: nat, bs: seq<ShaderBlock>, base: nat, ghost done: seq<Capture>)
    returns (out: seq<qword>, next: nat, offsets: seq<nat>)
    requires forall i | 0 <= i < |bs| :: ShaderOk(bs[i])
    requires Built(script, offset, done, base) && base + Bytes(done + ShaderCaptures(bs)) <= 0xFFFF_FFFF_FFFF_FFFF
    ensures Built(out, next, done + ShaderCaptures(bs), base) && |offsets| == |bs|
    ensures forall i | 0 <= i < |bs| :: offsets[i] == Bytes(done + ShaderCaptures(bs[..i]))
  {
    out, next, offsets := script, offset, [];
    assert bs[..0] == [] && done + [] == done;
    for i := 0 to |bs|
      invariant Built(out, next, done + ShaderCaptures(bs[..i]), base)
      invariant |offsets| == i && forall k | 0 <= k < i :: offsets[k] == Bytes(done + ShaderCaptures(bs[..k]))
    {
      var first;
      ShaderFits(done, bs, i, base);
      out, next, first := InitShader(out, next, bs[i], base, done + ShaderCaptures(bs[..i]));
      offsets := offsets + [first];
    }
    assert bs[..|bs|] == bs;
  }

  lemma HlsqFits(done: seq<Capture>, hs: seq<HlsqRegs>, i: nat, base: nat)
    requires i < |hs| && forall k | 0 <= k < |hs| :: HlsqOk(hs[k])
    requires base + Bytes(done + HlsqCaptures(hs)) <= 0xFFFF_FFFF_FFFF_FFFF
    ensures base + Bytes(done + HlsqCaptures(hs)[..i]) + 4 * hs[i].size <= 0xFFFF_FFFF_FFFF_FFFF
    ensures done + HlsqCaptures(hs)[..i + 1] == done + HlsqCaptures(hs)[..i] + [HlsqCapture(hs[i])]
  {
    Fits(done, HlsqCaptures(hs), i, base);
  }

  method PutHlsqs(script: seq<qword>, offset: nat, hs: seq<HlsqRegs>, base: nat, ghost done: seq<Capture>)
    returns (out: seq<qword>, next: nat, offsets: seq<nat>)
    requires forall i | 0 <= i < |hs| :: HlsqOk(hs[i])
    requires Built(script, offset, done, base) && base + Bytes(done + HlsqCaptures(hs)) <= 0xFFFF_FFFF_FFFF_FFFF
    ensures Built(out, next, done + HlsqCaptures(hs), base) && |offsets| == |hs|
    ensures forall i | 0 <= i < |hs| :: offsets[i] == Bytes(done + HlsqCaptures(hs)[..i])
  {
    ghost var cs := HlsqCaptures(hs);
    out, next, offsets := script, offset, [];
    assert done + cs[..0] == done;
    for i := 0 to |hs|
      invariant Built(out, next, done + cs[..i], base)
      invariant |offsets| == i && forall k | 0 <= k < i :: offsets[k] == Bytes(done + cs[..k])
    {
      var first;
      HlsqFits(done, hs, i, base);
      out, next, first := InitHlsq(out, next, hs[i], base, done + cs[..i]);
      offsets := offsets + [first];
    }
    assert cs[..|hs|] == cs;
  }
}
