/**
  Firmware images: the block header check, and the walk over a register file's blocks.

  An image is a sequence of words.  A block is its length (not counting that word), its
  type, a header that starts with its own length, and data.
 */
module Firmware {
  import opened Basics

  const GPMU_FIRMWARE_ID: word := 2
  const GPMU_SEQUENCE_ID: word := 3
  const HEADER_MAJOR: word := 1
  const HEADER_SEQUENCE: word := 5
  const MAX_HEADER_SIZE := 10
  const LM_SEQUENCE_ID: word := 1
  const MAX_SEQUENCE_ID := 3

  // --------------------------------------------------------------- block headers

  /** The version fields among pairs `i`, `i + 2`, ... of a header of `size` words are acceptable. */
  predicate VersionsOk(header: seq<word>, i: nat, size: nat, major: word)
    requires size < |header|
  {
    forall k | i <= k < size && k % 2 == 1 ::
      header[k] == HEADER_MAJOR ==> header[k + 1] == 0 || major <= header[k + 1]
  }

  /** The header at the start of `header`, which has `|header|` words to live in. */
  predicate HeaderOk(header: seq<word>, id: word, major: word) {
    && header != []
    && 0 < header[0] <= MAX_HEADER_SIZE && header[0] < |header| && header[0] % 2 == 0
    && (id == GPMU_SEQUENCE_ID ==> header[1] == HEADER_SEQUENCE && header[2] < MAX_SEQUENCE_ID)
    && VersionsOk(header, if id == GPMU_SEQUENCE_ID then 3 else 1, header[0], major)
  }

  /**
    _read_fw2_block_header on the `remain` words from `at`; true for 0, false for -EINVAL.
    The size word itself is read even when nothing remains.
   */
  method ReadBlockHeader(image: seq<word>, at: nat, remain: nat, id: word, major: word) returns (ok: bool)
    requires at < |image| && at + remain <= |image|
    ensures ok <==> HeaderOk(image[at..at + remain], id, major)
  {
    var size := image[at];
    ghost var header := image[at..at + remain];
    if size > MAX_HEADER_SIZE || size >= remain || size % 2 != 0 || size == 0 {
      return false;
    }
    assert header[0] == size;
    var i := 1;
    if id == GPMU_SEQUENCE_ID {
      if image[at + i] != HEADER_SEQUENCE || image[at + i + 1] >= MAX_SEQUENCE_ID {
        return false;
      }
      i := i + 2;
    }
    ghost var start := i;
    while i < size
      invariant start <= i <= size + 1 && i % 2 == 1
      invariant forall k | start <= k < i && k % 2 == 1 ::
                  header[k] == HEADER_MAJOR ==> header[k + 1] == 0 || major <= header[k + 1]
    {
      // minor versions, dates, times and unknown fields are only logged
      if image[at + i] == HEADER_MAJOR {
        if major > image[at + i + 1] && image[at + i + 1] != 0 {
          assert header[i] == HEADER_MAJOR && header[i + 1] == image[at + i + 1];
          return false;
        }
      }
      i := i + 2;
    }
    return true;
  }

  // ---------------------------------------------------------------- register files

  datatype Slice = Slice(start: nat, size: nat)

  predicate Within(s: Slice, image: seq<word>) { s.start + s.size <= |image| }

  /** A block the walk steps over: it fits with a word to spare behind its length, and is a sequence. */
  predicate BlockFits(image: seq<word>, at: nat) {
    && at < |image| && 5 <= image[at] && at + image[at] < |image|
    && image[at + 1] == GPMU_SEQUENCE_ID
  }

  /** The next block starts here. */
  function NextBlock(image: seq<word>, at: nat): nat
    requires at < |image|
  {
    at + image[at] + 1
  }

  predicate IsLm(image: seq<word>, at: nat)
    requires BlockFits(image, at)
  {
    image[at + 4] == LM_SEQUENCE_ID
  }

  /** The words the header check is given: all but the block's last. */
  function HeaderRoom(image: seq<word>, at: nat): seq<word>
    requires BlockFits(image, at)
  {
    image[at + 2..NextBlock(image, at) - 1]
  }

  predicate BlockGood(image: seq<word>, at: nat, major: word) {
    BlockFits(image, at) && (IsLm(image, at) ==> HeaderOk(HeaderRoom(image, at), GPMU_SEQUENCE_ID, major))
  }

  /** From `at` on, good blocks tile the image to its very end. */
  predicate Tiles(image: seq<word>, at: nat, major: word)
    decreases |image| - at
  {
    at == |image| || (BlockGood(image, at, major) && Tiles(image, NextBlock(image, at), major))
  }

  /** What follows the header of the block at `at`, up to the block's end. */
  function DataOf(image: seq<word>, at: nat): Slice
    requires BlockFits(image, at) && image[at + 2] < image[at] - 1
  {
    Slice(at + 3 + image[at + 2], image[at] - image[at + 2] - 2)
  }

  /** The last LM sequence at or after `at`, if the blocks there tile. */
  function LastLm(image: seq<word>, at: nat, major: word): Option<Slice>
    requires Tiles(image, at, major)
    decreases |image| - at
  {
    if at == |image| then None
    else
      var later := LastLm(image, NextBlock(image, at), major);
      if later.Some? then later
      else if IsLm(image, at) then Some(DataOf(image, at))
      else None
  }

  /** `at` is where a block starts if the walk gets that far: `starts` are the blocks before it. */
  ghost predicate Reached(image: seq<word>, starts: seq<nat>, at: nat, major: word) {
    && (forall i | 0 <= i < |starts| :: BlockGood(image, starts[i], major))
    && (forall i | 0 <= i < |starts| - 1 :: starts[i + 1] == NextBlock(image, starts[i]))
    && (if starts == [] then at == 0 else starts[0] == 0 && at == NextBlock(image, starts[|starts| - 1]))
  }

  /** `lm` holds exactly the data of one of these blocks, an LM sequence. */
  ghost predicate RecordedFrom(image: seq<word>, starts: seq<nat>, lm: Slice, major: word) {
    exists i | 0 <= i < |starts| ::
      BlockGood(image, starts[i], major) && IsLm(image, starts[i]) && lm == DataOf(image, starts[i])
  }

  function Record(image: seq<word>, at: nat, lm: Option<Slice>, major: word): Option<Slice>
    requires BlockGood(image, at, major)
  {
    if IsLm(image, at) then Some(DataOf(image, at)) else lm
  }

  /** The data of the last LM sequence among some blocks. */
  function LastOf(image: seq<word>, starts: seq<nat>, major: word): Option<Slice>
    requires forall i | 0 <= i < |starts| :: BlockGood(image, starts[i], major)
    decreases |starts|
  {
    if starts == [] then None
    else Record(image, starts[|starts| - 1], LastOf(image, starts[..|starts| - 1], major), major)
  }

  /** Where the walk is: past good blocks, with the last LM sequence among them recorded. */
  ghost predicate Walking(image: seq<word>, starts: seq<nat>, at: nat, lm: Option<Slice>, major: word) {
    && at <= |image| && Reached(image, starts, at, major) && lm == LastOf(image, starts, major)
    && (lm.Some? ==> Within(lm.value, image) && RecordedFrom(image, starts, lm.value, major))
    && (lm.None? ==> forall i | 0 <= i < |starts| :: BlockFits(image, starts[i]) ==> !IsLm(image, starts[i]))
    && (Tiles(image, 0, major) <==> Tiles(image, at, major))
    && (Tiles(image, 0, major) ==>
          LastLm(image, 0, major) == if LastLm(image, at, major).Some? then LastLm(image, at, major) else lm)
  }

  lemma WalkGoesOn(image: seq<word>, starts: seq<nat>, at: nat, lm: Option<Slice>, major: word)
    requires Walking(image, starts, at, lm, major) && BlockGood(image, at, major)
    ensures Walking(image, starts + [at], NextBlock(image, at), Record(image, at, lm, major), major)
  {
    ReachedOn(image, starts, at, major);
    assert (starts + [at])[..|starts|] == starts;
    if IsLm(image, at) {
      RecordedOn(image, starts, at, at, major);
    } else if lm.Some? {
      var i :| 0 <= i < |starts| && BlockGood(image, starts[i], major) && IsLm(image, starts[i])
        && lm.value == DataOf(image, starts[i]);
      RecordedOn(image, starts, at, starts[i], major);
    }
    TilesOn(image, at, major);
  }

  lemma ReachedOn(image: seq<word>, starts: seq<nat>, at: nat, major: word)
    requires Reached(image, starts, at, major) && BlockGood(image, at, major)
    ensures Reached(image, starts + [at], NextBlock(image, at), major)
  {
  }

  lemma RecordedOn(image: seq<word>, starts: seq<nat>, at: nat, b: nat, major: word)
    requires b in starts + [at] && BlockGood(image, b, major) && IsLm(image, b)
    ensures RecordedFrom(image, starts + [at], DataOf(image, b), major)
  {
    var i :| 0 <= i < |starts + [at]| && (starts + [at])[i] == b;
    assert BlockGood(image, (starts + [at])[i], major);
  }

  /** Good blocks from `at` on are a good block there and good blocks behind it. */
  lemma TilesOn(image: seq<word>, at: nat, major: word)
    requires BlockGood(image, at, major)
    ensures Tiles(image, at, major) <==> Tiles(image, NextBlock(image, at), major)
    ensures Tiles(image, at, major) ==>
      var later := LastLm(image, NextBlock(image, at), major);
      LastLm(image, at, major) == if later.Some? then later else Record(image, at, None, major)
  {
  }

  lemma WalkStarts(image: seq<word>, major: word)
    ensures Walking(image, [], 0, None, major)
  {
  }

  /** A walk that stops at a bad block shows that the image is not tiled. */
  lemma WalkStops(image: seq<word>, starts: seq<nat>, at: nat, lm: Option<Slice>, major: word)
    requires Walking(image, starts, at, lm, major) && at < |image| && !BlockGood(image, at, major)
    ensures !Tiles(image, 0, major)
  {
  }

  /** One that gets to the end shows that it is. */
  lemma WalkEnds(image: seq<word>, starts: seq<nat>, lm: Option<Slice>, major: word)
    requires Walking(image, starts, |image|, lm, major)
    ensures Tiles(image, 0, major) && LastLm(image, 0, major) == lm
  {
  }

  function OrElse(a: Option<Slice>, b: Option<Slice>): Option<Slice> { if a.Some? then a else b }

  class RegisterFile {
    var lm: Option<Slice>               // lm_sequence and lm_size

    /** A device that has found no LM sequence yet. */
    constructor ()
      ensures lm == None
    {
      lm := None;
    }

    /** One block of the walk: recorded if it is an LM sequence, skipped if not, or refused. */
    method TakeBlock(image: seq<word>, at: nat, major: word) returns (ok: bool)
      requires at < |image| < 0x1_0000_0000
      modifies this
      ensures ok <==> BlockGood(image, at, major)
      ensures lm == if ok then Record(image, at, old(lm), major) else old(lm)
    {
      var size := image[at];
      if at + size >= |image| || size < 5 {
        return false;
      }
      if image[at + 1] != GPMU_SEQUENCE_ID {
        return false;
      }
      if image[at + 4] == LM_SEQUENCE_ID {
        ok := ReadBlockHeader(image, at + 2, size - 2, GPMU_SEQUENCE_ID, major);
        if !ok {
          return false;
        }
        if image[at + 2] > size - 2 {
          assert false;
          return false;
        }
        lm := Some(Slice(at + image[at + 2] + 3, size - image[at + 2] - 2));
      }
      return true;
    }

    /**
      _load_regfile.  The walk gets past the good blocks at `starts` and stops at `stop`, which
      is the end of the file or a bad block.  The last LM sequence among the blocks walked is
      recorded, in place of one left by an earlier file; so a file that is not kept leaves a
      sequence of its own recorded if and only if one precedes its first bad block.  The file
      is kept exactly when it is long enough, the walk reaches its end and some sequence is
      recorded by then, be it of an earlier file.
     */
    method LoadRegfile(image: seq<word>, major: word) returns (kept: bool, ghost starts: seq<nat>, ghost stop: nat)
      requires |image| < 0x1_0000_0000
      modifies this
      ensures stop <= |image| && Reached(image, starts, stop, major)
      ensures |image| < 6 ==> starts == []
      ensures |image| >= 6 ==> stop == |image| || !BlockGood(image, stop, major)
      ensures lm == OrElse(LastOf(image, starts, major), old(lm))
      ensures kept <==> |image| >= 6 && stop == |image| && lm.Some?
      ensures kept <==>
        |image| >= 6 && Tiles(image, 0, major) && (LastLm(image, 0, major).Some? || old(lm).Some?)
      ensures kept ==> lm == OrElse(LastLm(image, 0, major), old(lm))
      ensures var found := LastOf(image, starts, major);
        found.Some? ==> Within(found.value, image) && RecordedFrom(image, starts, found.value, major)
      ensures LastOf(image, starts, major).None? ==>
        forall i | 0 <= i < |starts| :: BlockFits(image, starts[i]) ==> !IsLm(image, starts[i])
    {
      hide Tiles, LastLm, LastOf, RecordedFrom, Reached;
      ghost var found: Option<Slice> := None;
      starts := [];
      WalkStarts(image, major);
      if |image| < 6 {
        return false, starts, 0;
      }
      var total := 0;
      while total < |image|
        invariant Walking(image, starts, total, found, major) && lm == OrElse(found, old(lm))
        decreases |image| - total
      {
        var ok := TakeBlock(image, total, major);
        if !ok {
          WalkStops(image, starts, total, found, major);
          return false, starts, total;
        }
        WalkGoesOn(image, starts, total, found, major);
        found := Record(image, total, found, major);
        starts := starts + [total];
        total := total + image[total] + 1;
      }
      WalkEnds(image, starts, found, major);
      return lm.Some?, starts, total;
    }
  }

  /** The recorded slice is the block's words behind its header, all of them. */
  lemma SliceIsTheData(image: seq<word>, at: nat, major: word)
    requires BlockGood(image, at, major) && IsLm(image, at)
    ensures var s, size := DataOf(image, at), image[at + 2];
      && Within(s, image) && s.size > 0
      && image[at + 2..NextBlock(image, at)]
           == [size] + image[at + 3..at + 3 + size] + image[s.start..s.start + s.size]
  {
  }
}
