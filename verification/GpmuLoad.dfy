/**
  Loading the GPMU's microcode: checking the firmware image and turning it into a command
  stream that writes it into the GPMU's instruction memory.
 */
module GpmuLoad {
  import opened Basics
  import opened Pm4
  import Sequences
  import opened CommandProcessor
  import opened A5xxPackets
  import opened Firmware

  const GPMU_INST_RAM_SIZE := 0xFFF
  const A5XX_GPMU_INST_RAM_BASE := 0x8800
  const A5XX_GPMU_DATA_RAM_BASE := 0x9800
  const TYPE4_MAX_PAYLOAD := 127

  // ------------------------------------------------------- what a stream writes

  /** The registers from `reg` on hold `values`. */
  function Block(reg: nat, values: seq<word>): map<nat, word>
    decreases |values|
  {
    if values == [] then map[]
    else
      var n := |values| - 1;
      Block(reg, values[..n])[reg + n := values[n]]
  }

  lemma {:induction false} BlockAt(reg: nat, values: seq<word>, r: nat)
    ensures r in Block(reg, values) <==> reg <= r < reg + |values|
    ensures r in Block(reg, values) ==> Block(reg, values)[r] == values[r - reg]
    decreases |values|
  {
    if values != [] {
      BlockAt(reg, values[..|values| - 1], r);
    }
  }

  /** Every register a stream writes, with the last value written. */
  function Written(es: seq<Event>): map<nat, word>
    decreases |es|
  {
    if es == [] then map[]
    else
      var e := es[|es| - 1];
      var before := Written(es[..|es| - 1]);
      if e.RegWrite? then before + Block(e.reg, e.values) else before
  }

  lemma WrittenMore(es: seq<Event>, e: Event)
    ensures Written(es + [e]) == if e.RegWrite? then Written(es) + Block(e.reg, e.values) else Written(es)
  {
    assert (es + [e])[..|es|] == es;
  }

  lemma {:induction false} BlockGrows(reg: nat, a: seq<word>, b: seq<word>)
    ensures Block(reg, a) + Block(reg + |a|, b) == Block(reg, a + b)
    decreases |b|
  {
    if b == [] {
      assert a + b == a;
    } else {
      var n := |b| - 1;
      BlockGrows(reg, a, b[..n]);
      assert (a + b)[..|a + b| - 1] == a + b[..n];
    }
  }

  /** All of `es` between its first and last event only writes registers. */
  predicate OnlyWrites(es: seq<Event>) {
    forall i | 0 <= i < |es| :: es[i].RegWrite?
  }

  /**
    Executed, the stream puts `ucode` into instruction memory from its first word on and
    writes no other register, in particular none of the data memory; register protection
    is off exactly meanwhile.
   */
  ghost predicate Loads(cmds: seq<word>, ucode: seq<word>) {
    exists writes :: OnlyWrites(writes)
      && Causes(cmds, [SetProtected(false)] + writes + [SetProtected(true)])
      && Written(writes) == Block(A5XX_GPMU_INST_RAM_BASE, ucode)
  }

  // ------------------------------------------------------------------ the chunker

  /** The words allocated for the stream. */
  function CmdsSize(size: nat): nat { size + size / TYPE4_MAX_PAYLOAD + 1 + 4 }

  lemma RoomForOneMore(done: nat, size: nat, packets: nat)
    requires done == packets * TYPE4_MAX_PAYLOAD && done < size
    ensures packets <= size / TYPE4_MAX_PAYLOAD
  {
  }

  /** The part of the stream that loads the first `done` words. */
  ghost predicate Loading(cmds: seq<word>, writes: seq<Event>, ucode: seq<word>, done: nat)
    requires done <= |ucode|
  {
    && OnlyWrites(writes)
    && Causes(cmds, [SetProtected(false)] + writes)
    && Written(writes) == Block(A5XX_GPMU_INST_RAM_BASE, ucode[..done])
  }

  /** One type 4 packet with the next `chunk` words. */
  method PutChunk(cmds: seq<word>, ucode: seq<word>, offset: nat, chunk: nat, ghost writes: seq<Event>)
    returns (out: seq<word>, ghost more: seq<Event>)
    requires offset + chunk <= |ucode| <= GPMU_INST_RAM_SIZE && chunk <= TYPE4_MAX_PAYLOAD
    requires Loading(cmds, writes, ucode, offset)
    ensures |out| == |cmds| + 1 + chunk && Loading(out, more, ucode, offset + chunk)
  {
    var words := ucode[offset..offset + chunk];
    ghost var e := RegWrite(A5XX_GPMU_INST_RAM_BASE + offset, words);
    out := Put(cmds, Type4(A5XX_GPMU_INST_RAM_BASE + offset, words), [SetProtected(false)] + writes);
    Sequences.Associative([SetProtected(false)], writes, [e]);
    ChunkWritten(writes, ucode, offset, chunk);
    more := writes + [e];
  }

  lemma ChunkWritten(writes: seq<Event>, ucode: seq<word>, offset: nat, chunk: nat)
    requires offset + chunk <= |ucode| && Written(writes) == Block(A5XX_GPMU_INST_RAM_BASE, ucode[..offset])
    ensures Written(writes + [RegWrite(A5XX_GPMU_INST_RAM_BASE + offset, ucode[offset..offset + chunk])])
         == Block(A5XX_GPMU_INST_RAM_BASE, ucode[..offset + chunk])
  {
    var words := ucode[offset..offset + chunk];
    WrittenMore(writes, RegWrite(A5XX_GPMU_INST_RAM_BASE + offset, words));
    BlockGrows(A5XX_GPMU_INST_RAM_BASE, ucode[..offset], words);
    assert ucode[..offset] + words == ucode[..offset + chunk];
  }

  /** The stream of _gpmu_create_load_cmds. */
  method CreateLoadCmds(ucode: seq<word>) returns (cmds: seq<word>)
    requires |ucode| <= GPMU_INST_RAM_SIZE
    ensures |cmds| <= CmdsSize(|ucode|) && Loads(cmds, ucode)
  {
    ghost var writes: seq<Event> := [];
    ghost var packets: nat := 0;
    CausesNothing();
    assert [] + [SetProtected(false)] == [SetProtected(false)] + writes;
    cmds := PutProtected([], false, []);
    var size: nat, offset: nat := |ucode|, 0;
    while size > 0
      invariant offset + size == |ucode| && |cmds| == 2 + offset + packets
      invariant size > 0 ==> offset == packets * TYPE4_MAX_PAYLOAD
      invariant size == 0 ==> packets <= |ucode| / TYPE4_MAX_PAYLOAD + 1
      invariant Loading(cmds, writes, ucode, offset)
    {
      RoomForOneMore(offset, |ucode|, packets);
      var chunk := size;
      if size >= TYPE4_MAX_PAYLOAD {
        chunk := TYPE4_MAX_PAYLOAD;
      }
      cmds, writes := PutChunk(cmds, ucode, offset, chunk, writes);
      packets := packets + 1;
      offset := offset + chunk;
      size := size - chunk;
    }
    assert ucode[..offset] == ucode;
    cmds := PutProtected(cmds, true, [SetProtected(false)] + writes);
  }

  /** What the registers look like afterwards: the microcode, and nothing in the data memory. */
  lemma LoadedMemory(ucode: seq<word>, r: nat)
    requires |ucode| <= GPMU_INST_RAM_SIZE
    ensures var m := Block(A5XX_GPMU_INST_RAM_BASE, ucode);
      && (r < |ucode| ==> A5XX_GPMU_INST_RAM_BASE + r in m && m[A5XX_GPMU_INST_RAM_BASE + r] == ucode[r])
      && (r in m ==> A5XX_GPMU_INST_RAM_BASE <= r < A5XX_GPMU_DATA_RAM_BASE)
  {
    BlockAt(A5XX_GPMU_INST_RAM_BASE, ucode, r);
    BlockAt(A5XX_GPMU_INST_RAM_BASE, ucode, A5XX_GPMU_INST_RAM_BASE + r);
  }

  // -------------------------------------------------------------------- the loader

  /** The block is long enough, lies in the image with a word to spare, and is GPMU firmware. */
  predicate OuterOk(image: seq<word>)
    requires image != []
  {
    2 <= image[0] < |image| && image[1] == GPMU_FIRMWARE_ID
  }

  predicate ImageOk(image: seq<word>, major: word)
    requires image != []
  {
    OuterOk(image) && HeaderOk(image[2..image[0]], GPMU_FIRMWARE_ID, major)
  }

  /** The block's words behind its header. */
  function Microcode(image: seq<word>, major: word): seq<word>
    requires image != [] && ImageOk(image, major)
  {
    image[3 + image[2]..image[0] + 1]
  }

  datatype Code = Zero | EINVAL | RequestFailed

  /** What a fresh load returns for an image. */
  function CodeFor(image: seq<word>, major: word): Code
    requires image != []
  {
    if OuterOk(image) && !ImageOk(image, major) then EINVAL else Zero
  }

  /** The image's microcode becomes a command stream. */
  predicate Loadable(image: seq<word>, major: word)
    requires image != []
  {
    ImageOk(image, major) && |Microcode(image, major)| <= GPMU_INST_RAM_SIZE
  }

  /** Zero means loaded exactly for images with a sound outer block whose microcode is not too long. */
  lemma ZeroMeansLoaded(image: seq<word>, major: word)
    requires image != [] && CodeFor(image, major) == Zero
    ensures Loadable(image, major)
       <==> OuterOk(image) && image[0] - image[2] - 2 <= GPMU_INST_RAM_SIZE
  {
    if ImageOk(image, major) {
      MicrocodeIsNotEmpty(image, major);
    }
  }

  /** An image that is not GPMU firmware is refused with a zero. */
  lemma RefusedWithZero()
    ensures CodeFor([2, 7, 0], 1) == Zero && !Loadable([2, 7, 0], 1)
  {
  }

  class Gpmu {
    var cmds: seq<word>                 // gpmu_cmds, empty while it is null; gpmu_cmds_size is its length

    constructor ()
      ensures cmds == []
    {
      cmds := [];
    }

    /**
      _load_gpmu_firmware; `image` is what request_firmware returns.  A command stream is
      built exactly for an acceptable image whose microcode fits the instruction memory,
      but zero is also returned for three kinds of image that are refused.
     */
    method LoadFirmware(hasGpmu: bool, a540: bool, named: bool, image: Option<seq<word>>) returns (code: Code)
      requires image.Some? ==> image.value != []
      modifies this
      ensures !hasGpmu || !named || old(cmds) != [] ==> code == Zero && cmds == old(cmds)
      ensures hasGpmu && named && old(cmds) == [] && image.None? ==> code == RequestFailed && cmds == []
      ensures hasGpmu && named && old(cmds) == [] && image.Some? ==>
        var major: word := if a540 then 3 else 1;
        && code == CodeFor(image.value, major)
        && (if Loadable(image.value, major)
            then |cmds| <= CmdsSize(|Microcode(image.value, major)|) && Loads(cmds, Microcode(image.value, major))
            else cmds == [])
    {
      if !hasGpmu {
        return Zero;
      }
      var major: word := if a540 then 3 else 1;
      if cmds != [] {
        return Zero;
      }
      if !named {
        return Zero;
      }
      if image.None? {
        return RequestFailed;
      }
      var data := image.value;
      if data[0] >= |data| || data[0] < 2 {
        return Zero;
      }
      if data[1] != GPMU_FIRMWARE_ID {
        return Zero;
      }
      var ok := ReadBlockHeader(data, 2, data[0] - 2, GPMU_FIRMWARE_ID, major);
      if !ok {
        return EINVAL;
      }
      if data[2] > data[0] - 2 {
        assert false;
        return Zero;
      }
      var start, size := data[2] + 3, data[0] - data[2] - 2;
      if size > GPMU_INST_RAM_SIZE {
        return Zero;
      }
      cmds := CreateLoadCmds(data[start..start + size]);
      return Zero;
    }
  }

  /** The microcode is never empty, so a built stream is never mistaken for none. */
  lemma MicrocodeIsNotEmpty(image: seq<word>, major: word)
    requires image != [] && ImageOk(image, major)
    ensures |Microcode(image, major)| == image[0] - image[2] - 2 > 0
    ensures image[2..image[0] + 1] == [image[2]] + image[3..3 + image[2]] + Microcode(image, major)
  {
  }
}
