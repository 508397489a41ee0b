/**
  Reading a crash dump back into a snapshot.  `host` is the data buffer as the driver sees
  it, word by word.
 */
module CrashReader {
  import opened Basics
  import opened CrashScript
  import opened CrashDump

  /** sizeof(struct kgsl_snapshot_regs) */
  const HEADER := 4

  /** The registers in the first `j` ranges. */
  function Before(a: seq<word>, j: nat): nat
    requires PairsOk(a) && j <= |a| / 2
  {
    if j == 0 then 0 else Before(a, j - 1) + PairCount(a, j - 1)
  }

  lemma {:induction false} BeforeIsBytes(a: seq<word>, j: nat)
    requires PairsOk(a) && j <= |a| / 2
    ensures Bytes(PairCaptures(a)[..j]) == 4 * Before(a, j)
  {
    if j == 0 {
      assert PairCaptures(a)[..0] == [];
    } else {
      BeforeIsBytes(a, j - 1);
      WordsMore(PairCaptures(a), j - 1);
    }
  }

  lemma {:induction false} BeforeGrows(a: seq<word>, i: nat, j: nat)
    requires PairsOk(a) && i <= j <= |a| / 2
    ensures Before(a, i) <= Before(a, j)
    decreases j
  {
    if i < j {
      BeforeGrows(a, i, j - 1);
    }
  }

  /** Two words of a snapshot section: a register and what it held. */
  type Pair = (word, word)

  /** A range paired with the next captured words. */
  function RangePairs(a: seq<word>, j: nat, host: seq<word>): seq<Pair>
    requires PairsOk(a) && j < |a| / 2 && Before(a, j + 1) <= |host|
  {
    seq(PairCount(a, j), k requires 0 <= k < PairCount(a, j) => (a[2 * j] + k, host[Before(a, j) + k]))
  }

  /** The first `j` ranges. */
  function RangesPairs(a: seq<word>, j: nat, host: seq<word>): seq<Pair>
    requires PairsOk(a) && j <= |a| / 2 && Before(a, j) <= |host|
  {
    if j == 0 then [] else RangesPairs(a, j - 1, host) + RangePairs(a, j - 1, host)
  }

  lemma {:induction false} RangesPairsAt(a: seq<word>, n: nat, host: seq<word>, j: nat, k: nat)
    requires PairsOk(a) && j < n <= |a| / 2 && Before(a, n) <= |host| && k < PairCount(a, j)
    ensures |RangesPairs(a, n, host)| == Before(a, n) && Before(a, j) + k < Before(a, n)
    ensures RangesPairs(a, n, host)[Before(a, j) + k] == (a[2 * j] + k, host[Before(a, j) + k])
    decreases n
  {
    RangesPairsSize(a, n - 1, host);
    if j < n - 1 {
      RangesPairsAt(a, n - 1, host, j, k);
    }
  }

  lemma {:induction false} RangesPairsSize(a: seq<word>, n: nat, host: seq<word>)
    requires PairsOk(a) && n <= |a| / 2 && Before(a, n) <= |host|
    ensures |RangesPairs(a, n, host)| == Before(a, n)
    decreases n
  {
    if n > 0 {
      RangesPairsSize(a, n - 1, host);
    }
  }

  /** The inner loop of a5xx_snapshot_registers; `count` is also how far `src` has moved. */
  method CopyRange(out: seq<Pair>, count: nat, a: seq<word>, j: nat, host: seq<word>)
    returns (more: seq<Pair>, count': nat)
    requires PairsOk(a) && j < |a| / 2 && count == Before(a, j) && Before(a, j + 1) <= |host|
    ensures more == out + RangePairs(a, j, host) && count' == Before(a, j + 1)
  {
    var start, end := a[2 * j], a[2 * j + 1];
    var k: nat := start;
    more, count' := out, count;
    while k <= end
      invariant start <= k <= end + 1 && count' == count + (k - start)
      invariant more == out + RangePairs(a, j, host)[..k - start]
    {
      assert RangePairs(a, j, host)[k - start] == (k, host[count']);
      more := more + [(k, host[count'])];
      k, count' := k + 1, count' + 1;
    }
  }

  /**
    a5xx_snapshot_registers on a valid dump: as many whole ranges as fit, from the first on,
    and never more than `remain` bytes.  `ranges` is how many; `count` goes into the header.
   */
  method SnapshotRegisters(remain: nat, a: seq<word>, host: seq<word>)
    returns (out: seq<Pair>, count: nat, size: nat, ghost ranges: nat)
    requires PairsOk(a) && Before(a, |a| / 2) <= |host|
    ensures size <= remain && ranges <= |a| / 2 && count == Before(a, ranges) <= |host|
    ensures out == RangesPairs(a, ranges, host)
    ensures remain < HEADER ==> size == 0 && ranges == 0
    ensures remain >= HEADER ==> size == HEADER + 8 * count
    ensures remain >= HEADER && ranges < |a| / 2 ==> remain < HEADER + 8 * Before(a, ranges + 1)
  {
    out, count, ranges := [], 0, 0;
    if remain < HEADER {
      return out, 0, 0, 0;
    }
    var left := remain - HEADER;
    var j := 0;
    while j < |a| / 2
      invariant 0 <= j <= |a| / 2 && count == Before(a, j) <= |host| && out == RangesPairs(a, j, host)
      invariant left + 8 * count + HEADER == remain && left >= 0
    {
      var n := PairCount(a, j);
      if left < n * 8 {
        break;
      }
      left := left - n * 8;
      BeforeGrows(a, j + 1, |a| / 2);
      out, count := CopyRange(out, count, a, j, host);
      j := j + 1;
    }
    ranges := j;
    size := count * 8 + HEADER;
  }

  /** What get_hlsq_registers reads for one register set. */
  function HlsqPairs(h: HlsqRegs, offset: nat, host: seq<word>): seq<Pair>
    requires HlsqOk(h) && offset / 4 + h.size <= |host|
  {
    seq(h.size, i requires 0 <= i < h.size => (h.ahbaddr + i, host[offset / 4 + i]))
  }

  /** get_hlsq_registers; `offset` is in bytes. */
  method GetHlsqRegisters(h: HlsqRegs, offset: nat, host: seq<word>) returns (out: seq<Pair>)
    requires HlsqOk(h) && offset % 4 == 0 && offset / 4 + h.size <= |host|
    ensures out == HlsqPairs(h, offset, host)
  {
    out := [];
    for i := 0 to h.size
      invariant out == HlsqPairs(h, offset, host)[..i]
    {
      out := out + [(h.ahbaddr + i, host[offset / 4 + i])];
    }
  }

  function HlsqBefore(hs: seq<HlsqRegs>, i: nat): nat
    requires i <= |hs|
  {
    if i == 0 then 0 else HlsqBefore(hs, i - 1) + hs[i - 1].size
  }

  predicate HlsqReadable(hs: seq<HlsqRegs>, offsets: seq<nat>, host: seq<word>) {
    && |offsets| == |hs|
    && forall i | 0 <= i < |hs| :: HlsqOk(hs[i]) && offsets[i] % 4 == 0 && offsets[i] / 4 + hs[i].size <= |host|
  }

  function AllHlsqPairs(hs: seq<HlsqRegs>, offsets: seq<nat>, host: seq<word>, n: nat): seq<Pair>
    requires HlsqReadable(hs, offsets, host) && n <= |hs|
  {
    if n == 0 then [] else AllHlsqPairs(hs, offsets, host, n - 1) + HlsqPairs(hs[n - 1], offsets[n - 1], host)
  }

  lemma {:induction false} AllHlsqPairsAt(hs: seq<HlsqRegs>, offsets: seq<nat>, host: seq<word>, n: nat, i: nat, k: nat)
    requires HlsqReadable(hs, offsets, host) && i < n <= |hs| && k < hs[i].size
    ensures HlsqBefore(hs, i) + k < |AllHlsqPairs(hs, offsets, host, n)|
    ensures AllHlsqPairs(hs, offsets, host, n)[HlsqBefore(hs, i) + k] == (hs[i].ahbaddr + k, host[offsets[i] / 4 + k])
    decreases n
  {
    AllHlsqPairsSize(hs, offsets, host, n - 1);
    if i < n - 1 {
      AllHlsqPairsAt(hs, offsets, host, n - 1, i, k);
    }
  }

  lemma {:induction false} AllHlsqPairsSize(hs: seq<HlsqRegs>, offsets: seq<nat>, host: seq<word>, n: nat)
    requires HlsqReadable(hs, offsets, host) && n <= |hs|
    ensures |AllHlsqPairs(hs, offsets, host, n)| == HlsqBefore(hs, n)
    decreases n
  {
    if n > 0 {
      AllHlsqPairsSize(hs, offsets, host, n - 1);
    }
  }

  /** a5xx_snapshot_dump_hlsq_sp_tp_regs: every register set, or nothing. */
  method SnapshotHlsq(remain: nat, hs: seq<HlsqRegs>, offsets: seq<nat>, host: seq<word>)
    returns (out: seq<Pair>, size: nat)
    requires HlsqReadable(hs, offsets, host)
    ensures size <= remain
    ensures size == if remain < HEADER + 8 * HlsqBefore(hs, |hs|) then 0 else HEADER + 8 * HlsqBefore(hs, |hs|)
    ensures out == if size == 0 then [] else AllHlsqPairs(hs, offsets, host, |hs|)
  {
    out := [];
    var count := 0;
    for i := 0 to |hs|
      invariant count == HlsqBefore(hs, i)
    {
      count := count + hs[i].size;
    }
    if remain < count * 8 + HEADER {
      return [], 0;
    }
    for i := 0 to |hs|
      invariant out == AllHlsqPairs(hs, offsets, host, i)
    {
      var part := GetHlsqRegisters(hs[i], offsets[i], host);
      out := out + part;
    }
    size := count * 8 + HEADER;
  }

  // ------------------------------------------------------------------- round trips

  /** `host` is what memory holds from `base` on. */
  predicate HostOf(mem: map<nat, word>, base: nat, host: seq<word>) {
    forall k | 0 <= k < |host| :: Holds(mem, base + 4 * k, host[k])
  }

  predicate Holds(mem: map<nat, word>, p: nat, value: word) { p in mem && mem[p] == value }

  /** Executing the script fills the data buffer, all of it and nothing else. */
  lemma DumpFillsTheBuffer(d: Dumper, regs: Registers, t: Tables, hasGpmu: bool, base: nat, p: nat)
    requires TablesOk(t) && base + Bytes(Captures(t, hasGpmu)) <= 0xFFFF_FFFF_FFFF_FFFF
    ensures var cs := Captures(t, hasGpmu);
      var mem := Run(d, regs, ScriptFor(cs, base) + [0, 0]).mem;
      && 4 * |Values(cs, regs, d.sel)| == Bytes(cs)
      && HostOf(mem, base, Values(cs, regs, d.sel))
      && (!(base <= p < base + Bytes(cs)) ==> (p in mem <==> p in d.mem) && (p in mem ==> mem[p] == d.mem[p]))
  {
    var cs := Captures(t, hasGpmu);
    var ws := Values(cs, regs, d.sel);
    RunScript(d, regs, cs, base);
    ValuesConcat(cs, [], regs, d.sel);
    StoredAt(base, ws, p);
  }

  /** Where the `k`-th register of the `i`-th capture is, and what is there. */
  lemma {:induction false} ValuesAt(cs: seq<Capture>, regs: Registers, sel: word, i: nat, k: nat)
    requires i < |cs| && k < cs[i].count
    ensures var p := Bytes(cs[..i]) / 4 + k;
      && Bytes(cs[..i]) % 4 == 0 && p < |Values(cs, regs, sel)|
      && Values(cs, regs, sel)[p] == regs(Selected(cs[i], SelectedAfter(cs[..i], sel)), cs[i].reg + k)
    decreases i
  {
    var first := ReadOut(regs, Selected(cs[0], sel), cs[0].reg, cs[0].count);
    if i == 0 {
      assert cs[..0] == [];
    } else {
      ValuesAt(cs[1..], regs, Selected(cs[0], sel), i - 1, k);
      assert cs[..i][1..] == cs[1..][..i - 1] && cs[..i][0] == cs[0];
      assert |first| == cs[0].count;
    }
  }

  /** Ranges select nothing. */
  lemma {:induction false} NothingSelected(cs: seq<Capture>, sel: word)
    requires forall i | 0 <= i < |cs| :: cs[i].select.None?
    ensures SelectedAfter(cs, sel) == sel
  {
    if cs != [] {
      NothingSelected(cs[1..], sel);
    }
  }

  /** Each emitted register of `t.registers` reads back as it was when the dump was taken. */
  lemma RegistersReadBack(t: Tables, hasGpmu: bool, regs: Registers, sel: word, host: seq<word>,
                          ranges: nat, j: nat, k: nat)
    requires TablesOk(t) && j < ranges <= |t.registers| / 2 && k < PairCount(t.registers, j)
    requires host == Values(Captures(t, hasGpmu), regs, sel) && Before(t.registers, ranges) <= |host|
    ensures var out := RangesPairs(t.registers, ranges, host); var r := t.registers[2 * j] + k;
      Before(t.registers, j) + k < |out| && out[Before(t.registers, j) + k] == (r, regs(sel, r))
  {
    RangeCaptured(t, hasGpmu, regs, sel, j, k);
    RangesPairsAt(t.registers, ranges, host, j, k);
  }

  lemma RangeCaptured(t: Tables, hasGpmu: bool, regs: Registers, sel: word, j: nat, k: nat)
    requires TablesOk(t) && j < |t.registers| / 2 && k < PairCount(t.registers, j)
    ensures var host := Values(Captures(t, hasGpmu), regs, sel); var p := Before(t.registers, j) + k;
      p < |host| && host[p] == regs(sel, t.registers[2 * j] + k)
  {
    hide Values, Before, AllOk;
    var cs, a := Captures(t, hasGpmu), PairCaptures(t.registers);
    FirstCaptures(t, hasGpmu, j);
    BeforeIsBytes(t.registers, j);
    ValuesAt(cs, regs, sel, j, k);
    NothingSelected(a[..j], sel);
  }

  lemma FirstCaptures(t: Tables, hasGpmu: bool, j: nat)
    requires TablesOk(t) && j < |t.registers| / 2
    ensures j < |Captures(t, hasGpmu)|
    ensures Captures(t, hasGpmu)[..j] == PairCaptures(t.registers)[..j]
    ensures Captures(t, hasGpmu)[j] == PairCapture(t.registers, j)
  {
  }

  /** There is room in the data for every range. */
  lemma RangesFit(t: Tables, hasGpmu: bool, regs: Registers, sel: word)
    requires TablesOk(t)
    ensures Before(t.registers, |t.registers| / 2) <= |Values(Captures(t, hasGpmu), regs, sel)|
  {
    var a := PairCaptures(t.registers);
    assert a[..|a|] == a;
    BeforeIsBytes(t.registers, |a|);
    PartsFit(t, hasGpmu);
    WordsConcat(a, if hasGpmu then PairCaptures(t.gpmu) else []);
    ValuesConcat(Captures(t, hasGpmu), [], regs, sel);
  }

  lemma HlsqCaptured(t: Tables, hasGpmu: bool, regs: Registers, sel: word, i: nat, k: nat)
    requires TablesOk(t) && i < |t.hlsq| && k < t.hlsq[i].size
    ensures var p := HlsqOffset(t, hasGpmu, i) / 4 + k;
      var host := Values(Captures(t, hasGpmu), regs, sel);
      && HlsqOffset(t, hasGpmu, i) % 4 == 0 && p < |host|
      && host[p] == regs(t.hlsq[i].statetype * 0x100, A5XX_HLSQ_DBG_AHB_READ_APERTURE + k)
  {
    LastCaptures(t, hasGpmu, i);
    ValuesAt(Captures(t, hasGpmu), regs, sel, |HeadCaptures(t, hasGpmu)| + i, k);
  }

  lemma LastCaptures(t: Tables, hasGpmu: bool, i: nat)
    requires TablesOk(t) && i < |t.hlsq|
    ensures var cs, n := Captures(t, hasGpmu), |HeadCaptures(t, hasGpmu)| + i;
      n < |cs| && cs[n] == HlsqCapture(t.hlsq[i]) && Bytes(cs[..n]) == HlsqOffset(t, hasGpmu, i)
  {
    var head := HeadCaptures(t, hasGpmu);
    assert Captures(t, hasGpmu)[..|head| + i] == head + HlsqCaptures(t.hlsq)[..i];
  }

  lemma OffsetsReadable(t: Tables, hasGpmu: bool, regs: Registers, sel: word, offsets: seq<nat>)
    requires TablesOk(t) && |offsets| == |t.hlsq|
    requires forall i | 0 <= i < |t.hlsq| :: offsets[i] == HlsqOffset(t, hasGpmu, i)
    ensures HlsqReadable(t.hlsq, offsets, Values(Captures(t, hasGpmu), regs, sel))
  {
    forall i | 0 <= i < |t.hlsq|
      ensures HlsqOk(t.hlsq[i]) && offsets[i] % 4 == 0
      ensures offsets[i] / 4 + t.hlsq[i].size <= |Values(Captures(t, hasGpmu), regs, sel)|
    {
      HlsqCaptured(t, hasGpmu, regs, sel, i, t.hlsq[i].size - 1);
    }
  }

  /**
    With the offsets the builder stored, each HLSQ, SP or TP register reads back as the
    aperture showed it for its state type when the dump was taken.
   */
  lemma HlsqReadsBack(t: Tables, hasGpmu: bool, regs: Registers, sel: word, offsets: seq<nat>, i: nat, k: nat)
    requires TablesOk(t) && |offsets| == |t.hlsq| && i < |t.hlsq| && k < t.hlsq[i].size
    requires forall i | 0 <= i < |t.hlsq| :: offsets[i] == HlsqOffset(t, hasGpmu, i)
    ensures var host := Values(Captures(t, hasGpmu), regs, sel);
      && HlsqReadable(t.hlsq, offsets, host)
      && var out := AllHlsqPairs(t.hlsq, offsets, host, |t.hlsq|); var p := HlsqBefore(t.hlsq, i) + k;
         p < |out|
         && out[p] == (t.hlsq[i].ahbaddr + k,
                       regs(t.hlsq[i].statetype * 0x100, A5XX_HLSQ_DBG_AHB_READ_APERTURE + k))
  {
    OffsetsReadable(t, hasGpmu, regs, sel, offsets);
    AllHlsqPairsAt(t.hlsq, offsets, Values(Captures(t, hasGpmu), regs, sel), |t.hlsq|, i, k);
    HlsqCaptured(t, hasGpmu, regs, sel, i, k);
  }

  // ------------------------------------------------------------------- end to end

  /**
    From the tables to the snapshot: if the script and the offsets are those WritePass stores,
    and `host` is the data buffer after the dumper has executed the script, then both readers
    can read all they want, and every register either of them emits carries what it held.
   */
  lemma DumpReadsBack(d: Dumper, regs: Registers, t: Tables, hasGpmu: bool, base: nat, script: seq<qword>,
                      offsets: seq<nat>, host: seq<word>)
    requires TablesOk(t) && base + Bytes(Captures(t, hasGpmu)) <= 0xFFFF_FFFF_FFFF_FFFF
    requires script == ScriptFor(Captures(t, hasGpmu), base) + [0, 0]
    requires |offsets| == |t.hlsq| && forall i | 0 <= i < |t.hlsq| :: offsets[i] == HlsqOffset(t, hasGpmu, i)
    requires 4 * |host| == Bytes(Captures(t, hasGpmu)) && HostOf(Run(d, regs, script).mem, base, host)
    ensures Before(t.registers, |t.registers| / 2) <= |host| && HlsqReadable(t.hlsq, offsets, host)
    ensures forall ranges, j, k | 0 <= j < ranges <= |t.registers| / 2 && 0 <= k < PairCount(t.registers, j) ::
      RangeHolds(t.registers, ranges, j, k, host, regs, d.sel)
    ensures forall i, k | 0 <= i < |t.hlsq| && 0 <= k < t.hlsq[i].size ::
      HlsqHolds(t.hlsq, offsets, i, k, host, regs)
  {
    var values := Values(Captures(t, hasGpmu), regs, d.sel);
    DumpFillsTheBuffer(d, regs, t, hasGpmu, base, 0);
    SameHost(Run(d, regs, script).mem, base, host, values);
    RangesFit(t, hasGpmu, regs, d.sel);
    OffsetsReadable(t, hasGpmu, regs, d.sel, offsets);
    forall ranges, j, k | 0 <= j < ranges <= |t.registers| / 2 && 0 <= k < PairCount(t.registers, j)
      ensures RangeHolds(t.registers, ranges, j, k, host, regs, d.sel)
    {
      BeforeGrows(t.registers, ranges, |t.registers| / 2);
      RegistersReadBack(t, hasGpmu, regs, d.sel, host, ranges, j, k);
    }
    forall i, k | 0 <= i < |t.hlsq| && 0 <= k < t.hlsq[i].size ensures HlsqHolds(t.hlsq, offsets, i, k, host, regs) {
      HlsqReadsBack(t, hasGpmu, regs, d.sel, offsets, i, k);
    }
  }

  /** The `k`-th register of range `j`, in what SnapshotRegisters emits when `ranges` ranges fit. */
  ghost predicate RangeHolds(a: seq<word>, ranges: nat, j: nat, k: nat, host: seq<word>, regs: Registers, sel: word)
    requires PairsOk(a) && j < ranges <= |a| / 2 && k < PairCount(a, j)
  {
    && Before(a, ranges) <= |host| && Before(a, j) + k < |RangesPairs(a, ranges, host)|
    && RangesPairs(a, ranges, host)[Before(a, j) + k] == (a[2 * j] + k, regs(sel, a[2 * j] + k))
  }

  /** The `k`-th register of set `i`, in what SnapshotHlsq emits. */
  ghost predicate HlsqHolds(hs: seq<HlsqRegs>, offsets: seq<nat>, i: nat, k: nat, host: seq<word>, regs: Registers)
    requires i < |hs| && k < hs[i].size
  {
    && HlsqReadable(hs, offsets, host)
    && var out := AllHlsqPairs(hs, offsets, host, |hs|);
       && HlsqBefore(hs, i) + k < |out|
       && out[HlsqBefore(hs, i) + k]
            == (hs[i].ahbaddr + k, regs(hs[i].statetype * 0x100, A5XX_HLSQ_DBG_AHB_READ_APERTURE + k))
  }

  lemma SameHost(mem: map<nat, word>, base: nat, a: seq<word>, b: seq<word>)
    requires |a| == |b| && HostOf(mem, base, a) && HostOf(mem, base, b)
    ensures a == b
  {
    forall k | 0 <= k < |a| ensures a[k] == b[k] {
      assert Holds(mem, base + 4 * k, a[k]) && Holds(mem, base + 4 * k, b[k]);
    }
  }
}
