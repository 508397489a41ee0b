/**
  What a stream leaves behind, followed event by event: words of memory, interrupts, register
  protection, when counters were stored, and what was still in flight.
 */
module StreamEffects {
  import opened Basics
  import opened Sequences
  import opened CommandProcessor
  import opened Adreno

  // ---------------------------------------------------------------- words of memory

  /** The word at `x`, which was `v`, after an event. */
  function WordStep(x: nat): (Option<word>, Event) -> Option<word> {
    (v: Option<word>, e: Event) =>
      match e
      case MemWrite(addr, data) =>
        if addr <= x < addr + 4 * |data| && (x - addr) % 4 == 0 then Some(data[(x - addr) / 4]) else v
      case EventWrite(_, addr, value) => if addr == x then Some(value) else v
      case _ => v
  }

  /** The word at `x`, which was `v`, after a stream. */
  function WordAfter(es: seq<Event>, x: nat, v: Option<word>): Option<word> {
    Fold(WordStep(x), v, es)
  }

  lemma WordConcat(a: seq<Event>, b: seq<Event>, x: nat, v: Option<word>)
    ensures WordAfter(a + b, x, v) == WordAfter(b, x, WordAfter(a, x, v))
  {
    FoldConcat(WordStep(x), v, a, b);
  }

  lemma WordOne(e: Event, x: nat, v: Option<word>)
    ensures WordAfter([e], x, v) == WordStep(x)(v, e)
  {
    FoldOne(WordStep(x), v, e);
  }

  lemma OneWordWrite(addr: qword, value: word, x: nat, v: Option<word>)
    ensures WordAfter([MemWrite(addr, [value])], x, v) == if x == addr then Some(value) else v
    ensures Leaves([MemWrite(addr, [value])], x) <==> x != addr
  {
    WordOne(MemWrite(addr, [value]), x, v);
    if addr <= x < addr + 4 && (x - addr) % 4 == 0 {
      assert x == addr;
    }
    assert Leaves([MemWrite(addr, [value])], x) ==> !(addr <= x < addr + 4 * |[value]| && (x - addr) % 4 == 0) by {
      assert [MemWrite(addr, [value])][0] == MemWrite(addr, [value]);
    }
  }

  /** No event of the stream writes the word at `x`. */
  predicate Leaves(es: seq<Event>, x: nat) {
    forall i | 0 <= i < |es| ::
      && (es[i].MemWrite? ==> !(es[i].addr <= x < es[i].addr + 4 * |es[i].data| && (x - es[i].addr) % 4 == 0))
      && (es[i].EventWrite? ==> es[i].addr != x)
  }

  lemma LeavesWord(es: seq<Event>, x: nat, v: Option<word>)
    requires Leaves(es, x)
    ensures WordAfter(es, x, v) == v
  {
    FoldStill(WordStep(x), v, es);
  }

  lemma LeavesJoin(a: seq<Event>, b: seq<Event>, c: seq<Event>, d: seq<Event>, x: nat)
    requires Leaves(a, x) && Leaves(b, x) && Leaves(c, x) && Leaves(d, x)
    ensures Leaves(a + b + c + d, x) && a + b + [] == a + b && a + b + c + [] == a + b + c
  {
  }

  lemma PrefixLeaves(a: seq<Event>, b: seq<Event>, x: nat, k: nat)
    requires Leaves(a, x) && k <= |a|
    ensures Leaves((a + b)[..k], x)
  {
  }

  /** Pieces that write nowhere at `x` can be left out. */
  lemma OnlyMiddle(a: seq<Event>, b: seq<Event>, c: seq<Event>, x: nat, v: Option<word>)
    requires Leaves(a, x) && Leaves(c, x)
    ensures WordAfter(a + b + c, x, v) == WordAfter(b, x, v)
  {
    WordConcat(a, b, x, v);
    WordConcat(a + b, c, x, v);
    LeavesWord(a, x, v);
    LeavesWord(c, x, WordAfter(b, x, v));
  }

  // --------------------------------------------------------------------- interrupts

  function Interrupts(es: seq<Event>): nat
    decreases |es|
  {
    if es == [] then 0
    else
      var e := es[|es| - 1];
      Interrupts(es[..|es| - 1]) + if e.EventWrite? && e.kind >= IRQ then 1 else 0
  }

  lemma {:induction false} InterruptsConcat(a: seq<Event>, b: seq<Event>)
    ensures Interrupts(a + b) == Interrupts(a) + Interrupts(b)
    decreases |b|
  {
    if b == [] {
      assert a + b == a;
    } else {
      InterruptsConcat(a, b[..|b| - 1]);
      assert (a + b)[..|a + b| - 1] == a + b[..|b| - 1];
    }
  }

  predicate NoEventWrite(es: seq<Event>) { forall i | 0 <= i < |es| :: !es[i].EventWrite? }

  lemma {:induction false} NoInterrupt(es: seq<Event>)
    requires NoEventWrite(es)
    ensures Interrupts(es) == 0
    decreases |es|
  {
    if es != [] {
      NoInterrupt(es[..|es| - 1]);
    }
  }

  lemma SilentJoin(a: seq<Event>, b: seq<Event>, c: seq<Event>, d: seq<Event>)
    requires NoEventWrite(a) && NoEventWrite(b) && NoEventWrite(c) && NoEventWrite(d)
    ensures NoEventWrite(a + b + c + d) && a + b + [] + [] == a + b && a + b + c + [] == a + b + c
  {
  }

  lemma Reassemble<T>(a: seq<T>, b: seq<T>, c: seq<T>)
    requires b != []
    ensures a + b + c == a + [b[0]] + (b[1..] + c)
  {
  }

  /** The first time stamp event of a stream, if it alone raises an interrupt: by then its word is written. */
  lemma FirstAnnounces(a: seq<Event>, e: Event, rest: seq<Event>, x: nat, v: Option<word>, k: nat)
    requires NoEventWrite(a) && e.EventWrite? && e.kind >= IRQ && e.addr == x
    requires Interrupts(rest) == 0 && Leaves(rest, x) && k <= |a + [e] + rest|
    ensures Interrupts(a + [e] + rest) == 1
    ensures Interrupts((a + [e] + rest)[..k]) > 0 ==> WordAfter((a + [e] + rest)[..k], x, v) == Some(e.value)
  {
    var es := a + [e] + rest;
    NoInterrupt(a);
    assert [e][..0] == [];
    InterruptsConcat(a, [e]);
    InterruptsConcat(a + [e], rest);
    if k <= |a| {
      assert es[..k] == a[..k];
      NoInterrupt(a[..k]);
    } else {
      var later := rest[..k - |a| - 1];
      assert es[..k] == a + [e] + later;
      WordConcat(a + [e], later, x, v);
      WordConcat(a, [e], x, v);
      WordOne(e, x, WordAfter(a, x, v));
      LeavesWord(later, x, WordAfter(a + [e], x, v));
    }
  }

  // --------------------------------------------------------------- whose timestamps

  /** The contexts and rings that have an entry in the memstore. */
  const ENTRIES := KGSL_MEMSTORE_MAX + RB_LEVELS

  /** A timestamp word of entry `index`, which held `v`, once a submission has written it. */
  function Stamped(id: nat, ctx: Option<DrawContext>, ts: word, rbTs: word, index: nat, v: Option<word>): Option<word> {
    if index == RbIndex(id) then Some(rbTs)
    else if ctx.Some? && index == ctx.value.id then Some(ts)
    else v
  }

  /** Whose end timestamp the interrupt announces, and its value. */
  function Announced(id: nat, ctx: Option<DrawContext>): nat
    requires id < RB_LEVELS
  {
    if ctx.Some? then ctx.value.id else RbIndex(id)
  }

  // --------------------------------------------------------------------- protection

  /** With protection on, a register write is refused. */
  datatype Guard = Guard(protected: bool, refused: bool)

  function GuardStep(g: Guard, e: Event): Guard {
    match e
    case SetProtected(on) => g.(protected := on)
    case RegWrite(_, _) => if g.protected then g.(refused := true) else g
    case RegRmw(_, _, _) => if g.protected then g.(refused := true) else g
    case _ => g
  }

  function GuardAfter(g: Guard, es: seq<Event>): Guard {
    Fold(GuardStep, g, es)
  }

  lemma GuardConcat(g: Guard, a: seq<Event>, b: seq<Event>)
    ensures GuardAfter(g, a + b) == GuardAfter(GuardAfter(g, a), b)
  {
    FoldConcat(GuardStep, g, a, b);
  }

  /** The stream neither touches the mode nor writes registers. */
  predicate Unguarded(es: seq<Event>) {
    forall i | 0 <= i < |es| :: !es[i].SetProtected? && !es[i].RegWrite? && !es[i].RegRmw?
  }

  lemma GuardStill(g: Guard, es: seq<Event>)
    requires Unguarded(es)
    ensures GuardAfter(g, es) == g
  {
    FoldStill(GuardStep, g, es);
  }

  // -------------------------------------------------------------------- time stamps

  /** How many buffers have run, and how many had when a counter was last stored at an address. */
  datatype Stamp = Stamp(runs: nat, taken: Option<nat>)

  function StampStep(x: qword): (Stamp, Event) -> Stamp {
    (s: Stamp, e: Event) =>
      match e
      case RunIb(_, _) => s.(runs := s.runs + 1)
      case Other(op, pl) =>
        if op == CP_REG_TO_MEM && |pl| == 3 && Join(pl[1], pl[2]) == x then s.(taken := Some(s.runs)) else s
      case _ => s
  }

  function StampAfter(es: seq<Event>, x: qword, s: Stamp): Stamp {
    Fold(StampStep(x), s, es)
  }

  lemma StampConcat(a: seq<Event>, b: seq<Event>, x: qword, s: Stamp)
    ensures StampAfter(a + b, x, s) == StampAfter(b, x, StampAfter(a, x, s))
  {
    FoldConcat(StampStep(x), s, a, b);
  }

  // ---------------------------------------------------------------- what is in flight

  /**
    Whether buffers may still have writes under way, whether anything was started since the CP
    was last idle, and whether a time stamp event came while buffers had writes under way.
   */
  datatype Flight = Flight(writing: bool, busy: bool, early: bool)

  function FlightStep(f: Flight, e: Event): Flight {
    match e
    case RunIb(_, _) => f.(writing := true, busy := true)
    case MemWrite(_, _) => f.(busy := true)
    case EventWrite(_, _, _) => f.(busy := true, early := f.early || f.writing)
    case Other(op, _) =>
      if op == CP_WAIT_MEM_WRITES then f.(writing := false)
      else if op == CP_WAIT_FOR_IDLE then f.(busy := false)
      else f
    case _ => f
  }

  function FlightAfter(f: Flight, es: seq<Event>): Flight {
    Fold(FlightStep, f, es)
  }

  lemma FlightConcat(f: Flight, a: seq<Event>, b: seq<Event>)
    ensures FlightAfter(f, a + b) == FlightAfter(FlightAfter(f, a), b)
  {
    FoldConcat(FlightStep, f, a, b);
  }
}
