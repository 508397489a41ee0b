/**
  Crash scripts: what is to be captured, the script that captures it, and the crash dumper
  that executes the script.

  A script is a sequence of pairs of 64-bit words.  A pair either writes a register (bit 21
  of its second word) or copies registers into memory; two zeros end it.
 */
module CrashScript {
  import opened Basics
  import Sequences

  const A5XX_HLSQ_DBG_READ_SEL := 0xBC00
  const A5XX_HLSQ_DBG_AHB_READ_APERTURE := 0xA000

  const REG_SHIFT := 0x1000_0000_0000       // 1 << 44
  const WRITE_BIT := 0x20_0000              // 1 << 21

  /** `count` registers from `reg` on, after selecting what the aperture shows, if it is read. */
  datatype Capture = Capture(select: Option<word>, reg: nat, count: nat)

  predicate CaptureOk(c: Capture) { c.reg < 0x10_0000 && 0 < c.count < WRITE_BIT }

  predicate AllOk(cs: seq<Capture>) { forall i | 0 <= i < |cs| :: CaptureOk(cs[i]) }

  /** Bytes of captured data. */
  function Bytes(cs: seq<Capture>): nat {
    if cs == [] then 0 else 4 * cs[0].count + Bytes(cs[1..])
  }

  // --------------------------------------------------------------------- scripts

  function ReadEntry(reg: nat, count: nat): qword
    requires reg < 0x10_0000 && count < WRITE_BIT
  {
    reg * REG_SHIFT + count
  }

  const SELECT_ENTRY: qword := A5XX_HLSQ_DBG_READ_SEL * REG_SHIFT + WRITE_BIT + 1

  function ScriptOf(c: Capture, addr: qword): seq<qword>
    requires CaptureOk(c)
  {
    (if c.select.Some? then [c.select.value, SELECT_ENTRY] else []) + [addr, ReadEntry(c.reg, c.count)]
  }

  /** The script for a list of captures whose data goes to `base` and on. */
  function ScriptFor(cs: seq<Capture>, base: nat): seq<qword>
    requires AllOk(cs) && base + Bytes(cs) <= 0xFFFF_FFFF_FFFF_FFFF
  {
    if cs == [] then [] else ScriptOf(cs[0], base) + ScriptFor(cs[1..], base + 4 * cs[0].count)
  }

  lemma ScriptCons(c: Capture, cs: seq<Capture>, base: nat)
    requires CaptureOk(c) && AllOk(cs) && base + 4 * c.count + Bytes(cs) <= 0xFFFF_FFFF_FFFF_FFFF
    ensures Bytes([c] + cs) == 4 * c.count + Bytes(cs) && AllOk([c] + cs)
    ensures ScriptFor([c] + cs, base) == ScriptOf(c, base) + ScriptFor(cs, base + 4 * c.count)
  {
    assert ([c] + cs)[1..] == cs;
  }

  /** One more capture goes behind the data of the others. */
  lemma {:induction false} ScriptMore(cs: seq<Capture>, c: Capture, base: nat)
    requires AllOk(cs) && CaptureOk(c) && base + Bytes(cs) + 4 * c.count <= 0xFFFF_FFFF_FFFF_FFFF
    ensures Bytes(cs + [c]) == Bytes(cs) + 4 * c.count && AllOk(cs + [c])
    ensures ScriptFor(cs + [c], base) == ScriptFor(cs, base) + ScriptOf(c, base + Bytes(cs))
    decreases |cs|
  {
    hide ScriptOf;
    if cs == [] {
      ScriptCons(c, [], base);
      assert [c] + [] == [c] == cs + [c];
    } else {
      var h, t, next := cs[0], cs[1..], base + 4 * cs[0].count;
      ScriptMore(t, c, next);
      assert cs + [c] == [h] + (t + [c]) && cs == [h] + t;
      ScriptCons(h, t + [c], base);
      ScriptCons(h, t, base);
      Sequences.Associative(ScriptOf(h, base), ScriptFor(t, next), ScriptOf(c, base + Bytes(cs)));
    }
  }

  /** Two words for a plain capture, four for one through the aperture. */
  function ScriptWords(cs: seq<Capture>): nat {
    if cs == [] then 0 else (if cs[0].select.Some? then 4 else 2) + ScriptWords(cs[1..])
  }

  lemma {:induction false} ScriptLength(cs: seq<Capture>, base: nat)
    requires AllOk(cs) && base + Bytes(cs) <= 0xFFFF_FFFF_FFFF_FFFF
    ensures |ScriptFor(cs, base)| == ScriptWords(cs)
  {
    if cs != [] {
      ScriptLength(cs[1..], base + 4 * cs[0].count);
    }
  }

  // ---------------------------------------------------------------- the crash dumper

  /** What reading a register yields while the aperture shows a selection. */
  type Registers = (word, nat) -> word

  /** The selection, and the memory the dumper has written, by byte address. */
  datatype Dumper = Dumper(sel: word, mem: map<nat, word>)

  /** `ws` in consecutive words of memory. */
  function Stored(addr: nat, ws: seq<word>): map<nat, word>
    decreases |ws|
  {
    if ws == [] then map[]
    else
      var n := |ws| - 1;
      Stored(addr, ws[..n])[addr + 4 * n := ws[n]]
  }

  function ReadOut(regs: Registers, sel: word, reg: nat, count: nat): seq<word> {
    seq(count, i requires 0 <= i < count => regs(sel, reg + i))
  }

  function Step(d: Dumper, regs: Registers, first: qword, second: qword): Dumper {
    if second / WRITE_BIT % 2 == 1 then
      if second / REG_SHIFT == A5XX_HLSQ_DBG_READ_SEL then d.(sel := Lo(first)) else d
    else
      d.(mem := d.mem + Stored(first, ReadOut(regs, d.sel, second / REG_SHIFT, second % WRITE_BIT)))
  }

  function Run(d: Dumper, regs: Registers, script: seq<qword>): Dumper
    decreases |script|
  {
    if |script| < 2 || (script[0] == 0 && script[1] == 0) then d
    else Run(Step(d, regs, script[0], script[1]), regs, script[2..])
  }

  // --------------------------------------------------------------- what is captured

  function Selected(c: Capture, sel: word): word {
    if c.select.Some? then c.select.value else sel
  }

  /** All the captured words, in order. */
  function Values(cs: seq<Capture>, regs: Registers, sel: word): seq<word> {
    if cs == [] then []
    else ReadOut(regs, Selected(cs[0], sel), cs[0].reg, cs[0].count) + Values(cs[1..], regs, Selected(cs[0], sel))
  }

  function SelectedAfter(cs: seq<Capture>, sel: word): word {
    if cs == [] then sel else SelectedAfter(cs[1..], Selected(cs[0], sel))
  }

  lemma {:induction false} ValuesConcat(a: seq<Capture>, b: seq<Capture>, regs: Registers, sel: word)
    ensures Values(a + b, regs, sel) == Values(a, regs, sel) + Values(b, regs, SelectedAfter(a, sel))
    ensures 4 * |Values(a, regs, sel)| == Bytes(a)
  {
    if a == [] {
      assert a + b == b;
    } else {
      ValuesConcat(a[1..], b, regs, Selected(a[0], sel));
      assert (a + b)[1..] == a[1..] + b;
    }
  }

  lemma {:induction false} StoredConcat(addr: nat, a: seq<word>, b: seq<word>)
    ensures Stored(addr, a) + Stored(addr + 4 * |a|, b) == Stored(addr, a + b)
    decreases |b|
  {
    if b == [] {
      assert a + b == a;
    } else {
      var n := |b| - 1;
      StoredConcat(addr, a, b[..n]);
      assert (a + b)[..|a + b| - 1] == a + b[..n];
    }
  }

  lemma {:induction false} StoredAt(addr: nat, ws: seq<word>, p: nat)
    ensures p in Stored(addr, ws) <==> exists k | 0 <= k < |ws| :: p == addr + 4 * k
    ensures forall k | 0 <= k < |ws| :: addr + 4 * k in Stored(addr, ws) && Stored(addr, ws)[addr + 4 * k] == ws[k]
    decreases |ws|
  {
    if ws != [] {
      StoredAt(addr, ws[..|ws| - 1], p);
    }
  }

  lemma EntryFields(reg: nat, count: nat)
    requires reg < 0x10_0000 && count < WRITE_BIT
    ensures var q := ReadEntry(reg, count);
      q / REG_SHIFT == reg && q % WRITE_BIT == count && q / WRITE_BIT % 2 == 0
  {
    var q, k := ReadEntry(reg, count), 0x40_0000 * reg;
    assert q / REG_SHIFT == reg;
    assert q == 2 * k * WRITE_BIT + count;
    assert q / WRITE_BIT == 2 * k;
  }

  lemma SelectFields()
    ensures SELECT_ENTRY / WRITE_BIT % 2 == 1 && SELECT_ENTRY / REG_SHIFT == A5XX_HLSQ_DBG_READ_SEL
  {
  }

  lemma RunEntry(d: Dumper, regs: Registers, first: qword, second: qword, rest: seq<qword>)
    requires first != 0 || second != 0
    ensures Run(d, regs, [first, second] + rest) == Run(Step(d, regs, first, second), regs, rest)
  {
    assert ([first, second] + rest)[2..] == rest;
  }

  lemma EntrySteps(d: Dumper, regs: Registers, c: Capture, addr: qword)
    requires CaptureOk(c)
    ensures Step(d, regs, addr, ReadEntry(c.reg, c.count))
         == Dumper(d.sel, d.mem + Stored(addr, ReadOut(regs, d.sel, c.reg, c.count)))
    ensures c.select.Some? ==> Step(d, regs, c.select.value, SELECT_ENTRY) == Dumper(c.select.value, d.mem)
    ensures ReadEntry(c.reg, c.count) != 0 && SELECT_ENTRY != 0
  {
    EntryFields(c.reg, c.count);
    SelectFields();
  }

  /** Executing the script of one capture, with more script behind it. */
  lemma RunCapture(d: Dumper, regs: Registers, c: Capture, addr: qword, rest: seq<qword>)
    requires CaptureOk(c)
    ensures var sel := Selected(c, d.sel);
      Run(d, regs, ScriptOf(c, addr) + rest)
        == Run(Dumper(sel, d.mem + Stored(addr, ReadOut(regs, sel, c.reg, c.count))), regs, rest)
  {
    hide Run, Step, ReadEntry, Stored, ReadOut;
    var read := [addr, ReadEntry(c.reg, c.count)];
    EntrySteps(d, regs, c, addr);
    if c.select.Some? {
      var m := Dumper(c.select.value, d.mem);
      Sequences.Associative([c.select.value, SELECT_ENTRY], read, rest);
      RunEntry(d, regs, c.select.value, SELECT_ENTRY, read + rest);
      EntrySteps(m, regs, c, addr);
      RunEntry(m, regs, addr, ReadEntry(c.reg, c.count), rest);
    } else {
      assert [] + read == read;
      RunEntry(d, regs, addr, ReadEntry(c.reg, c.count), rest);
    }
  }

  /**
    Executing a script captures every word once, in order and without gaps, and leaves the
    rest of memory alone.
   */
  lemma {:induction false} RunCaptures(d: Dumper, regs: Registers, cs: seq<Capture>, base: nat, rest: seq<qword>)
    requires AllOk(cs) && base + Bytes(cs) <= 0xFFFF_FFFF_FFFF_FFFF
    ensures Run(d, regs, ScriptFor(cs, base) + rest)
         == Run(Dumper(SelectedAfter(cs, d.sel), d.mem + Stored(base, Values(cs, regs, d.sel))), regs, rest)
    decreases |cs|
  {
    if cs == [] {
      RunNone(d, base, rest);
    } else {
      hide Run, ReadOut, ScriptFor, Stored, Values, SelectedAfter;
      var c, sel := cs[0], Selected(cs[0], d.sel);
      var ws := ReadOut(regs, sel, c.reg, c.count);
      RunFirst(d, regs, cs, base, rest);
      RunCaptures(Dumper(sel, d.mem + Stored(base, ws)), regs, cs[1..], base + 4 * c.count, rest);
      FirstAndRest(d, regs, cs, base);
    }
  }

  /** What the first capture leaves, and then the others, is what all of them leave. */
  lemma FirstAndRest(d: Dumper, regs: Registers, cs: seq<Capture>, base: nat)
    requires cs != []
    ensures var c, sel := cs[0], Selected(cs[0], d.sel);
      && SelectedAfter(cs, d.sel) == SelectedAfter(cs[1..], sel)
      && d.mem + Stored(base, ReadOut(regs, sel, c.reg, c.count))
         + Stored(base + 4 * c.count, Values(cs[1..], regs, sel)) == d.mem + Stored(base, Values(cs, regs, d.sel))
  {
    hide Stored;
    var c, sel := cs[0], Selected(cs[0], d.sel);
    StoredTwice(d.mem, base, ReadOut(regs, sel, c.reg, c.count), Values(cs[1..], regs, sel));
  }

  lemma RunNone(d: Dumper, base: nat, rest: seq<qword>)
    ensures d.mem + Stored(base, []) == d.mem && [] + rest == rest
  {
  }

  lemma RunFirst(d: Dumper, regs: Registers, cs: seq<Capture>, base: nat, rest: seq<qword>)
    requires cs != [] && AllOk(cs) && base + Bytes(cs) <= 0xFFFF_FFFF_FFFF_FFFF
    ensures var c, sel := cs[0], Selected(cs[0], d.sel);
      Run(d, regs, ScriptFor(cs, base) + rest)
      == Run(Dumper(sel, d.mem + Stored(base, ReadOut(regs, sel, c.reg, c.count))), regs,
             ScriptFor(cs[1..], base + 4 * c.count) + rest)
  {
    hide Run, ReadOut, ScriptOf, Stored;
    var more := ScriptFor(cs[1..], base + 4 * cs[0].count);
    Sequences.Associative(ScriptOf(cs[0], base), more, rest);
    RunCapture(d, regs, cs[0], base, more + rest);
  }

  lemma StoredTwice(mem: map<nat, word>, base: nat, a: seq<word>, b: seq<word>)
    ensures mem + Stored(base, a) + Stored(base + 4 * |a|, b) == mem + Stored(base, a + b)
  {
    StoredConcat(base, a, b);
  }

  /** A finished script. */
  lemma RunScript(d: Dumper, regs: Registers, cs: seq<Capture>, base: nat)
    requires AllOk(cs) && base + Bytes(cs) <= 0xFFFF_FFFF_FFFF_FFFF
    ensures Run(d, regs, ScriptFor(cs, base) + [0, 0])
         == Dumper(SelectedAfter(cs, d.sel), d.mem + Stored(base, Values(cs, regs, d.sel)))
  {
    RunCaptures(d, regs, cs, base, [0, 0]);
  }
}
