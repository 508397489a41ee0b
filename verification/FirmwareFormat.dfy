/**
  The firmware formats, written from their parts: headers from fields, blocks from headers and
  data, images from blocks.  What the checks accept is exactly what is written so.
 */
module FirmwareFormat {
  import opened Basics
  import Sequences
  import opened Firmware
  import opened GpmuLoad

  // ------------------------------------------------------------------------- headers

  /** A header field: its kind and its value. */
  type Field = (word, word)

  function FieldWords(fs: seq<Field>): (r: seq<word>)
    ensures |r| == 2 * |fs|
  {
    if fs == [] then [] else [fs[0].0, fs[0].1] + FieldWords(fs[1..])
  }

  lemma {:induction false} FieldAt(fs: seq<Field>, i: nat)
    requires i < |fs|
    ensures FieldWords(fs)[2 * i] == fs[i].0 && FieldWords(fs)[2 * i + 1] == fs[i].1
  {
    if i > 0 {
      FieldAt(fs[1..], i - 1);
    }
  }

  /** A version, kind 1, that is too low is not acceptable; version 0 is any. */
  predicate FieldOk(f: Field, major: word) { f.0 == 1 ==> f.1 == 0 || f.1 >= major }

  /** A sequence's header starts with its number, kind 5. */
  predicate NumberOk(f: Field) { f.0 == 5 && f.1 < 3 }

  function HeaderWords(fs: seq<Field>): (r: seq<word>)
    requires |fs| < 0x8000_0000
    ensures |r| == 2 * |fs| + 1
  {
    [2 * |fs|] + FieldWords(fs)
  }

  predicate FieldsOk(fs: seq<Field>, sequence: bool, major: word) {
    && 1 <= |fs| <= 5
    && (sequence ==> NumberOk(fs[0]))
    && forall i | (if sequence then 1 else 0) <= i < |fs| :: FieldOk(fs[i], major)
  }

  lemma HeaderAt(fs: seq<Field>, rest: seq<word>, i: nat)
    requires i < |fs| < 0x8000_0000
    ensures var header := HeaderWords(fs) + rest;
      header[2 * i + 1] == fs[i].0 && header[2 * i + 2] == fs[i].1
  {
    FieldAt(fs, i);
  }

  /** A header is accepted exactly if its fields are acceptable, whatever follows it. */
  lemma HeaderRoundTrip(fs: seq<Field>, rest: seq<word>, id: word, major: word)
    requires |fs| < 0x8000_0000
    ensures HeaderOk(HeaderWords(fs) + rest, id, major) <==> FieldsOk(fs, id == 3, major)
  {
    var header := HeaderWords(fs) + rest;
    forall i | 0 <= i < |fs| ensures header[2 * i + 1] == fs[i].0 && header[2 * i + 2] == fs[i].1 {
      HeaderAt(fs, rest, i);
    }
    if 1 <= |fs| <= 5 && (id == 3 ==> NumberOk(fs[0])) {
      VersionsAreFields(fs, rest, if id == 3 then 1 else 0, major);
    }
  }

  lemma VersionsAreFields(fs: seq<Field>, rest: seq<word>, from: nat, major: word)
    requires |fs| < 0x8000_0000
    ensures VersionsOk(HeaderWords(fs) + rest, 2 * from + 1, 2 * |fs|, major)
       <==> forall i | from <= i < |fs| :: FieldOk(fs[i], major)
  {
    var header := HeaderWords(fs) + rest;
    if VersionsOk(header, 2 * from + 1, 2 * |fs|, major) {
      forall i | from <= i < |fs| ensures FieldOk(fs[i], major) {
        HeaderAt(fs, rest, i);
        assert (2 * i + 1) % 2 == 1;
      }
    }
    if forall i | from <= i < |fs| :: FieldOk(fs[i], major) {
      forall k | 2 * from + 1 <= k < 2 * |fs| && k % 2 == 1
        ensures header[k] == HEADER_MAJOR ==> header[k + 1] == 0 || major <= header[k + 1]
      {
        HeaderAt(fs, rest, k / 2);
        assert FieldOk(fs[k / 2], major) && k == 2 * (k / 2) + 1;
      }
    }
  }

  /** Every header that is accepted is written so. */
  lemma HeaderDecodes(header: seq<word>, id: word, major: word) returns (fs: seq<Field>, rest: seq<word>)
    requires HeaderOk(header, id, major)
    ensures |fs| < 0x8000_0000 && header == HeaderWords(fs) + rest && FieldsOk(fs, id == 3, major)
  {
    var n := header[0] / 2;
    fs := seq(n, i requires 0 <= i < n => (header[2 * i + 1], header[2 * i + 2]));
    rest := header[2 * n + 1..];
    FieldsRead(header, fs);
    assert header == header[..2 * n + 1] + rest;
    HeaderRoundTrip(fs, rest, id, major);
  }

  lemma FieldsRead(header: seq<word>, fs: seq<Field>)
    requires header != [] && header[0] == 2 * |fs| < |header|
    requires forall i | 0 <= i < |fs| :: fs[i] == (header[2 * i + 1], header[2 * i + 2])
    ensures |fs| < 0x8000_0000 && header[..2 * |fs| + 1] == HeaderWords(fs)
  {
    forall k | 1 <= k < 2 * |fs| + 1 ensures header[k] == HeaderWords(fs)[k] {
      HeaderAt(fs, [], (k - 1) / 2);
      assert HeaderWords(fs) + [] == HeaderWords(fs);
    }
  }

  // ----------------------------------------------------------------- GPMU firmware

  /** The image of a GPMU's microcode: the block's length, its type, its header, the microcode. */
  function GpmuImage(fs: seq<Field>, ucode: seq<word>, rest: seq<word>): seq<word>
    requires 2 + 2 * |fs| + |ucode| < U32
  {
    [2 + 2 * |fs| + |ucode|, 2] + HeaderWords(fs) + ucode + rest
  }

  /** An image is loaded exactly if its header is accepted and its microcode fits; then it is the microcode that is. */
  lemma GpmuRoundTrip(fs: seq<Field>, ucode: seq<word>, rest: seq<word>, major: word)
    requires 2 + 2 * |fs| + |ucode| < U32 && ucode != []
    ensures var image := GpmuImage(fs, ucode, rest);
      && (ImageOk(image, major) <==> FieldsOk(fs, false, major))
      && (ImageOk(image, major) ==> Microcode(image, major) == ucode)
      && (Loadable(image, major) <==> FieldsOk(fs, false, major) && |ucode| <= 0xFFF)
  {
    var image, n := GpmuImage(fs, ucode, rest), |ucode|;
    HeaderRoundTrip(fs, ucode[..n - 1], 2, major);
    GpmuWords([2 + 2 * |fs| + |ucode|, 2], HeaderWords(fs), ucode, rest);
    assert image[0] == 2 + 2 * |fs| + n;
  }

  /** Where the parts of an image are. */
  lemma GpmuWords(head: seq<word>, header: seq<word>, ucode: seq<word>, rest: seq<word>)
    requires |head| == 2 && header != [] && ucode != []
    ensures var image, h, n := head + header + ucode + rest, |header|, |ucode|;
      && image[1] == head[1] && image[2] == header[0]
      && image[2..1 + h + n] == header + ucode[..n - 1] && image[2 + h..2 + h + n] == ucode
  {
  }

  /** The code for such an image tells of a bad header only; for an image of another type it is zero. */
  lemma GpmuCodes(fs: seq<Field>, ucode: seq<word>, rest: seq<word>, major: word, kind: word)
    requires 2 + 2 * |fs| + |ucode| < U32 && ucode != [] && kind != 2
    ensures CodeFor(GpmuImage(fs, ucode, rest), major) == if FieldsOk(fs, false, major) then Zero else EINVAL
    ensures CodeFor(GpmuImage(fs, ucode, rest)[1 := kind], major) == Zero
  {
    GpmuRoundTrip(fs, ucode, rest, major);
    assert OuterOk(GpmuImage(fs, ucode, rest));
  }

  /** Every image that is loaded is written so. */
  lemma GpmuDecodes(image: seq<word>, major: word) returns (fs: seq<Field>, ucode: seq<word>, rest: seq<word>)
    requires image != [] && Loadable(image, major)
    ensures ucode == Microcode(image, major) && 2 + 2 * |fs| + |ucode| < U32 && image == GpmuImage(fs, ucode, rest)
  {
    var last;
    fs, last := HeaderDecodes(image[2..image[0]], 2, major);
    ucode, rest := Microcode(image, major), image[image[0] + 1..];
    MicrocodeIsNotEmpty(image, major);
    assert image[2..image[0]][0] == image[2] == 2 * |fs|;
    var h := 3 + image[2];
    assert image[2..h] == image[2..image[0]][..2 * |fs| + 1] == HeaderWords(fs);
    assert image == image[..2] + image[2..h] + image[h..image[0] + 1] + rest;
    assert image[..2] == [2 + 2 * |fs| + |ucode|, 2];
  }

  // ---------------------------------------------------------------- register files

  /** An LM sequence, or one of another number: everything behind its type. */
  datatype Block = Lm(fs: seq<Field>, data: seq<word>) | Sequence(body: seq<word>)

  predicate Sound(b: Block, major: word) {
    match b
    case Lm(fs, data) =>
      FieldsOk(fs, true, major) && fs[0].1 == 1 && data != [] && 2 + 2 * |fs| + |data| < U32
    case Sequence(body) => 4 <= |body| < U32 - 1 && body[2] != 1
  }

  function BlockWords(b: Block): seq<word>
    requires b.Lm? ==> 2 + 2 * |b.fs| + |b.data| < U32
    requires b.Sequence? ==> |b.body| < U32 - 1
  {
    match b
    case Lm(fs, data) => [2 + 2 * |fs| + |data|, 3] + HeaderWords(fs) + data
    case Sequence(body) => [1 + |body|, 3] + body
  }

  predicate AllSound(bs: seq<Block>, major: word) { forall i | 0 <= i < |bs| :: Sound(bs[i], major) }

  function FileWords(bs: seq<Block>, major: word): seq<word>
    requires AllSound(bs, major)
  {
    if bs == [] then [] else BlockWords(bs[0]) + FileWords(bs[1..], major)
  }

  /** The data of the last LM sequence. */
  function LastData(bs: seq<Block>): Option<seq<word>> {
    if bs == [] then None
    else if LastData(bs[1..]).Some? then LastData(bs[1..])
    else if bs[0].Lm? then Some(bs[0].data)
    else None
  }

  lemma LmParses(pre: seq<word>, fs: seq<Field>, data: seq<word>, rest: seq<word>, major: word)
    requires Sound(Lm(fs, data), major)
    ensures var image, at := pre + BlockWords(Lm(fs, data)) + rest, |pre|;
      && BlockGood(image, at, major) && IsLm(image, at) && NextBlock(image, at) == at + |BlockWords(Lm(fs, data))|
      && image[at + 2] < image[at] - 1
      && Within(DataOf(image, at), image)
      && image[DataOf(image, at).start..DataOf(image, at).start + DataOf(image, at).size] == data
  {
    var image, at, n := pre + BlockWords(Lm(fs, data)) + rest, |pre|, |data|;
    var head, header := [2 + 2 * |fs| + |data|, 3], HeaderWords(fs);
    LmWords(pre, head, header, data, rest);
    HeaderAt(fs, data, 0);
    assert image[at + 4] == (header + data)[2];
    assert HeaderRoom(image, at) == header + data[..n - 1];
    HeaderRoundTrip(fs, data[..n - 1], 3, major);
  }

  /** Where the parts of a block are in an image. */
  lemma LmWords(pre: seq<word>, head: seq<word>, header: seq<word>, data: seq<word>, rest: seq<word>)
    requires |head| == 2 && |header| >= 3 && data != []
    ensures var image, at, h, n := pre + (head + header + data) + rest, |pre|, |header|, |data|;
      && image[at] == head[0] && image[at + 1] == head[1] && image[at + 2] == header[0]
      && image[at + 4] == (header + data)[2]
      && image[at + 2..at + 1 + h + n] == header + data[..n - 1]
      && image[at + 2 + h..at + 2 + h + n] == data
  {
  }

  lemma SequenceParses(pre: seq<word>, body: seq<word>, rest: seq<word>, major: word)
    requires Sound(Sequence(body), major)
    ensures var image, at := pre + BlockWords(Sequence(body)) + rest, |pre|;
      && BlockGood(image, at, major) && !IsLm(image, at) && NextBlock(image, at) == at + |BlockWords(Sequence(body))|
  {
    var image, at := pre + BlockWords(Sequence(body)) + rest, |pre|;
    assert image[at] == 1 + |body| && image[at + 1] == 3 && image[at + 4] == body[2];
  }

  /** What `lm` records of an image is `data`. */
  predicate Records(image: seq<word>, lm: Option<Slice>, data: Option<seq<word>>) {
    && (lm.Some? <==> data.Some?)
    && (lm.Some? ==> Within(lm.value, image) && image[lm.value.start..lm.value.start + lm.value.size] == data.value)
  }

  lemma BlockParses(pre: seq<word>, b: Block, rest: seq<word>, major: word)
    requires Sound(b, major)
    ensures var image, at := pre + BlockWords(b) + rest, |pre|;
      && BlockGood(image, at, major) && NextBlock(image, at) == |pre + BlockWords(b)|
      && Records(image, Record(image, at, None, major), if b.Lm? then Some(b.data) else None)
  {
    if b.Lm? {
      LmParses(pre, b.fs, b.data, rest, major);
    } else {
      SequenceParses(pre, b.body, rest, major);
    }
  }

  /** A file of sound blocks is kept, and the data of its last LM sequence is what is recorded. */
  lemma {:induction false} FileRoundTrip(pre: seq<word>, bs: seq<Block>, major: word)
    requires AllSound(bs, major)
    ensures var image := pre + FileWords(bs, major);
      Tiles(image, |pre|, major) && Records(image, LastLm(image, |pre|, major), LastData(bs))
    decreases |bs|
  {
    var image := pre + FileWords(bs, major);
    if bs != [] {
      var first, rest := BlockWords(bs[0]), FileWords(bs[1..], major);
      assert Sound(bs[0], major);
      FileRoundTrip(pre + first, bs[1..], major);
      Sequences.Associative(pre, first, rest);
      BlockParses(pre, bs[0], rest, major);
      hide BlockGood, Sound, BlockWords, Tiles, LastLm, Record, Records;
      TilesOn(image, |pre|, major);
      RecordsLater(image, LastLm(image, |pre + first|, major), Record(image, |pre|, None, major), bs);
    }
  }

  lemma RecordsLater(image: seq<word>, later: Option<Slice>, here: Option<Slice>, bs: seq<Block>)
    requires bs != [] && Records(image, later, LastData(bs[1..]))
    requires Records(image, here, if bs[0].Lm? then Some(bs[0].data) else None)
    ensures Records(image, if later.Some? then later else here, LastData(bs))
  {
  }

  /** Every file that is kept is written so. */
  lemma {:induction false} FileDecodes(image: seq<word>, at: nat, major: word) returns (bs: seq<Block>)
    requires at <= |image| < U32 && Tiles(image, at, major)
    ensures AllSound(bs, major) && image[at..] == FileWords(bs, major)
    decreases |image| - at
  {
    if at == |image| {
      return [];
    }
    var next := NextBlock(image, at);
    var b := BlockDecodes(image, at, major);
    var rest := FileDecodes(image, next, major);
    bs := [b] + rest;
    assert bs[1..] == rest && image[at..] == image[at..next] + image[next..];
  }

  /** A block whose header is `header`, up to its last word, falls into these parts. */
  lemma InPlace(image: seq<word>, at: nat, next: nat, header: seq<word>, tail: seq<word>)
    requires at + 2 + |header + tail| + 1 == next <= |image| && image[at + 2..next - 1] == header + tail
    requires |header| >= 3
    ensures image[at..next] == [image[at], image[at + 1]] + header + image[at + 2 + |header|..next]
    ensures image[at + 4] == (header + tail)[2]
  {
    assert image[at + 2..at + 2 + |header|] == image[at + 2..next - 1][..|header|] == header;
    assert image[at + 4] == image[at + 2..next - 1][2];
  }

  lemma LmDecodes(image: seq<word>, at: nat, fs: seq<Field>, tail: seq<word>) returns (data: seq<word>)
    requires |image| < U32 && BlockFits(image, at) && 1 <= |fs| < 0x8000_0000
    requires HeaderRoom(image, at) == HeaderWords(fs) + tail
    ensures data != [] && image[at] == 2 + 2 * |fs| + |data| < U32 && fs[0].1 == image[at + 4]
    ensures image[at..NextBlock(image, at)] == BlockWords(Lm(fs, data))
  {
    hide HeaderWords;
    var next, header := NextBlock(image, at), HeaderWords(fs);
    assert |header + tail| == image[at] - 2 && |header| == 2 * |fs| + 1;
    InPlace(image, at, next, header, tail);
    data := image[at + 2 + |header|..next];
    assert |data| == image[at] - 2 - 2 * |fs|;
    HeaderAt(fs, tail, 0);
  }

  lemma BlockDecodes(image: seq<word>, at: nat, major: word) returns (b: Block)
    requires |image| < U32 && BlockGood(image, at, major)
    ensures Sound(b, major) && image[at..NextBlock(image, at)] == BlockWords(b)
  {
    if IsLm(image, at) {
      var fs, tail := HeaderDecodes(HeaderRoom(image, at), 3, major);
      hide HeaderOk, HeaderWords, HeaderRoom, BlockWords;
      var data := LmDecodes(image, at, fs, tail);
      b := Lm(fs, data);
    } else {
      var next := NextBlock(image, at);
      b := Sequence(image[at + 2..next]);
      assert image[at..next] == [image[at], 3] + image[at + 2..next];
    }
  }
}
