/**
  The register sequence interpreter: a list of operations encoded as words.
 */
module RegSequence {
  import opened Basics
  import Sequences

  /** Addresses are 64 bits wide in the file. */
  datatype RegOp =
    | Write32(reg: qword, value: word)
    | Write64(reg: qword, wide: qword)
    | Delay(usec: word)

  function Encode(op: RegOp): seq<word> {
    match op
    case Write32(reg, value) => [1, Lo(reg), Hi(reg), value]
    case Write64(reg, wide) => [2, Lo(reg), Hi(reg), Lo(wide), Hi(wide)]
    case Delay(usec) => [3, usec]
  }

  function EncodeAll(ops: seq<RegOp>): seq<word> {
    Sequences.FlatMap(Encode, ops)
  }

  /** What the device sees. kgsl_regwrite takes 32 bits of either: the upper halves are dropped. */
  datatype Effect = RegisterWrite(reg: word, value: word) | Wait(usec: word)

  function EffectOf(op: RegOp): Effect {
    match op
    case Write32(reg, value) => RegisterWrite(Lo(reg), value)
    case Write64(reg, wide) => RegisterWrite(Lo(reg), Lo(wide))
    case Delay(usec) => Wait(usec)
  }

  /** A write is whole if and only if the upper halves are zero. */
  lemma WholeWrite(op: RegOp)
    requires !op.Delay?
    ensures var e := EffectOf(op);
      e.reg == op.reg && e.value == (if op.Write32? then op.value else op.wide)
      <==> Hi(op.reg) == 0 && (op.Write64? ==> Hi(op.wide) == 0)
  {
  }

  function Effects(ops: seq<RegOp>): seq<Effect> {
    seq(|ops|, i requires 0 <= i < |ops| => EffectOf(ops[i]))
  }

  /** No operation starts here. */
  ghost predicate Malformed(ws: seq<word>) {
    ws != [] && forall op: RegOp :: !(Encode(op) <= ws)
  }

  class SequenceRunner {
    var log: seq<Effect>                // what the device has seen

    constructor ()
      ensures log == []
    {
      log := [];
    }

    /** One step of the interpreter's loop; no operation starts at `cur` exactly when it fails. */
    method ExecuteOne(opcode: seq<word>, cur: nat) returns (ok: bool, next: nat, ghost op: RegOp)
      requires cur < |opcode|
      modifies this
      ensures ok ==> cur < next <= |opcode| && opcode[cur..next] == Encode(op) && log == old(log) + [EffectOf(op)]
      ensures !ok ==> Malformed(opcode[cur..]) && log == old(log)
    {
      var left := |opcode| - cur;
      op := Delay(0);
      if opcode[cur] == 1 && left >= 4 {
        var reg := Join(opcode[cur + 1], opcode[cur + 2]);
        op := Write32(reg, opcode[cur + 3]);
        log := log + [RegisterWrite(Lo(reg), opcode[cur + 3])];
        return true, cur + 4, op;
      } else if opcode[cur] == 2 && left >= 5 {
        var reg := Join(opcode[cur + 1], opcode[cur + 2]);
        var val := Join(opcode[cur + 3], opcode[cur + 4]);
        op := Write64(reg, val);
        log := log + [RegisterWrite(Lo(reg), Lo(val))];
        return true, cur + 5, op;
      } else if opcode[cur] == 3 && left >= 2 {
        op := Delay(opcode[cur + 1]);
        log := log + [Wait(opcode[cur + 1])];
        return true, cur + 2, op;
      } else {
        NothingStarts(opcode[cur..]);
        return false, cur, op;
      }
    }

    /**
      _execute_reg_sequence; true for 0, false for -EINVAL.  It performs `ops`, the longest
      well-formed prefix, and succeeds exactly when that is everything.
     */
    method ExecuteRegSequence(opcode: seq<word>) returns (ok: bool, ghost ops: seq<RegOp>)
      modifies this
      ensures log == old(log) + Effects(ops)
      ensures EncodeAll(ops) <= opcode
      ensures ok <==> EncodeAll(ops) == opcode
      ensures !ok ==> Malformed(opcode[|EncodeAll(ops)|..])
    {
      var cur := 0;
      ops := [];
      assert Effects([]) == [];
      while cur < |opcode|
        invariant 0 <= cur <= |opcode| && EncodeAll(ops) == opcode[..cur]
        invariant log == old(log) + Effects(ops)
      {
        var next;
        ghost var op;
        ok, next, op := ExecuteOne(opcode, cur);
        if !ok {
          return false, ops;
        }
        OpTaken(opcode, cur, next, ops, op);
        ops := ops + [op];
        cur := next;
      }
      return true, ops;
    }
  }

  lemma OpTaken(opcode: seq<word>, cur: nat, next: nat, ops: seq<RegOp>, op: RegOp)
    requires cur <= next <= |opcode| && EncodeAll(ops) == opcode[..cur] && opcode[cur..next] == Encode(op)
    ensures EncodeAll(ops + [op]) == opcode[..next]
    ensures Effects(ops + [op]) == Effects(ops) + [EffectOf(op)]
  {
    Sequences.FlatMapMore(Encode, ops, op);
    assert opcode[..next] == opcode[..cur] + opcode[cur..next];
  }

  /** The file's format: the three operations' codes, and the order of their words. */
  lemma FileFormat(a: qword, v: word, usec: word, b: qword, wide: qword)
    ensures EncodeAll([Write32(a, v)] + [Delay(usec)] + [Write64(b, wide)])
         == [1, Lo(a), Hi(a), v, 3, usec, 2, Lo(b), Hi(b), Lo(wide), Hi(wide)]
  {
    Sequences.FlatMapOne(Encode, Write32(a, v));
    Sequences.FlatMapMore(Encode, [Write32(a, v)], Delay(usec));
    Sequences.FlatMapMore(Encode, [Write32(a, v)] + [Delay(usec)], Write64(b, wide));
  }

  /** The interpreter's three tests recognise every operation. */
  lemma NothingStarts(ws: seq<word>)
    requires ws != []
    requires !(ws[0] == 1 && |ws| >= 4) && !(ws[0] == 2 && |ws| >= 5) && !(ws[0] == 3 && |ws| >= 2)
    ensures Malformed(ws)
  {
    forall op: RegOp | Encode(op) <= ws ensures false {
      Recognised(op, ws);
    }
  }

  lemma Recognised(op: RegOp, ws: seq<word>)
    requires Encode(op) <= ws
    ensures ws != []
    ensures (ws[0] == 1 && |ws| >= 4) || (ws[0] == 2 && |ws| >= 5) || (ws[0] == 3 && |ws| >= 2)
  {
    assert ws[0] == Encode(op)[0];
  }

  /** No operation's encoding starts another's. */
  lemma PrefixFree(a: RegOp, b: RegOp, ws: seq<word>)
    requires Encode(a) <= ws && Encode(b) <= ws
    ensures a == b
  {
    assert Encode(a)[0] == ws[0] == Encode(b)[0];
    assert |Encode(a)| == |Encode(b)|;
    assert Encode(a) == ws[..|Encode(a)|] == Encode(b);
    SameWords(a, b);
  }

  lemma SameWords(a: RegOp, b: RegOp)
    requires Encode(a) == Encode(b)
    ensures a == b
  {
    match a
    case Write32(r, v) =>
      assert Encode(b)[1] == Lo(r) && Encode(b)[2] == Hi(r) && Encode(b)[3] == v;
      assert Join(Lo(r), Hi(r)) == r;
    case Write64(r, v) =>
      assert Encode(b)[1] == Lo(r) && Encode(b)[2] == Hi(r) && Encode(b)[3] == Lo(v) && Encode(b)[4] == Hi(v);
      assert Join(Lo(r), Hi(r)) == r && Join(Lo(v), Hi(v)) == v;
    case Delay(u) =>
      assert Encode(b)[1] == u;
  }

  /**
    Whatever is executed is determined by the words: two lists of operations that start the
    same words agree as far as the shorter goes, so replaying an encoded list gives it back.
   */
  lemma {:induction false} DecodingIsUnique(a: seq<RegOp>, b: seq<RegOp>, ws: seq<word>)
    requires EncodeAll(a) <= ws && EncodeAll(b) <= ws
    ensures if |a| <= |b| then a <= b else b <= a
    decreases |a|
  {
    if a != [] && b != [] {
      PrefixFree(a[0], b[0], ws);
      var n := |Encode(a[0])|;
      TailPrefix(Encode(a[0]), EncodeAll(a[1..]), ws);
      TailPrefix(Encode(b[0]), EncodeAll(b[1..]), ws);
      DecodingIsUnique(a[1..], b[1..], ws[n..]);
      assert a == [a[0]] + a[1..] && b == [b[0]] + b[1..];
    }
  }

  /** The longest prefix: if what is left is malformed, no other list gets further. */
  lemma LongestPrefix(ops: seq<RegOp>, other: seq<RegOp>, ws: seq<word>)
    requires EncodeAll(ops) <= ws && EncodeAll(other) <= ws
    requires EncodeAll(ops) == ws || Malformed(ws[|EncodeAll(ops)|..])
    ensures other <= ops
  {
    DecodingIsUnique(ops, other, ws);
    if ops < other {
      LongerGoesOn(ops, other);
      GoesOn(EncodeAll(ops), other[|ops|], ws);
    }
  }

  lemma LongerGoesOn(a: seq<RegOp>, b: seq<RegOp>)
    requires a < b
    ensures EncodeAll(a) + Encode(b[|a|]) <= EncodeAll(b)
    ensures |EncodeAll(a)| < |EncodeAll(b)|
  {
    Sequences.FlatMapPrefix(Encode, b, |a| + 1);
    assert b[..|a| + 1] == a + [b[|a|]];
    Sequences.FlatMapMore(Encode, a, b[|a|]);
  }

  lemma GoesOn(done: seq<word>, op: RegOp, ws: seq<word>)
    requires done + Encode(op) <= ws
    ensures done != ws && !Malformed(ws[|done|..])
  {
    assert |Encode(op)| > 0 && ws[|done|..][..|Encode(op)|] == Encode(op);
  }

  lemma TailPrefix(x: seq<word>, y: seq<word>, ws: seq<word>)
    requires x + y <= ws
    ensures y <= ws[|x|..]
  {
  }

  /** What ExecuteRegSequence finds in an encoded list is that list. */
  lemma ReplayIsExact(list: seq<RegOp>, ops: seq<RegOp>)
    requires EncodeAll(ops) <= EncodeAll(list)
    requires EncodeAll(ops) == EncodeAll(list) || Malformed(EncodeAll(list)[|EncodeAll(ops)|..])
    ensures ops == list
  {
    LongestPrefix(ops, list, EncodeAll(list));
    if list != ops {
      LongerGoesOn(list, ops);
    }
  }
}
