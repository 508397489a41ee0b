/**
  The ring memory: reserving space in a wrapping buffer, and what the CP then reads.
 */
module Ringbuffer {
  import opened Basics
  import opened Pm4
  import opened Reservations
  import opened CommandProcessor

  /** Where `r` can be if the CP last reported `rptr` and works towards `wptr`. */
  predicate Behind(rptr: nat, r: nat, wptr: nat) {
    if rptr <= wptr then rptr <= r <= wptr
    else (rptr <= r < RB_DWORDS) || r <= wptr
  }

  /** The words a CP at `r` reads on its way to `wptr`. */
  function Unread(buf: seq<word>, r: nat, wptr: nat): seq<word>
    requires |buf| == RB_DWORDS && r < RB_DWORDS && wptr <= RB_DWORDS
  {
    if r <= wptr then buf[r..wptr] else buf[r..] + buf[..wptr]
  }

  /**
    A granted window lies in the buffer, clear of everything unread, exactly when the
    32-bit sum did not wrap.
   */
  lemma GrantFits(rptr: nat, wptr: nat, dwords: word)
    requires rptr < RB_DWORDS && wptr <= RB_DWORDS - 2 && Reserve(rptr, wptr, dwords).Space?
    ensures var g := Reserve(rptr, wptr, dwords);
      (g.at + dwords <= RB_DWORDS - 2 && g.next == g.at + dwords && (rptr > wptr || g.wrapped ==> g.next < rptr))
      <==> wptr + dwords < U32
  {
    if wptr + dwords < U32 {
      assert (wptr + dwords) % U32 == wptr + dwords;
    } else {
      assert (wptr + dwords) % U32 == wptr + dwords - U32;
    }
  }

  /** Such a sum can wrap: a request for nearly 2^32 words is granted. */
  lemma HugeRequestGranted()
    ensures Reserve(0, 1, 0xFFFF_FFFF) == Space(1, 0, false)
  {
  }

  /** A CP at `r` reads cell `k` on its way to `wptr`. */
  predicate OnTheWay(r: nat, wptr: nat, k: nat) {
    if r <= wptr then r <= k < wptr else r <= k < RB_DWORDS || k < wptr
  }

  /** These are the cells that what it reads depends on, each of them. */
  lemma ReadsOnTheWay(buf: seq<word>, buf': seq<word>, r: nat, wptr: nat)
    requires |buf| == |buf'| == RB_DWORDS && r < RB_DWORDS && wptr <= RB_DWORDS
    ensures Unread(buf, r, wptr) == Unread(buf', r, wptr)
       <==> forall k | 0 <= k < RB_DWORDS && OnTheWay(r, wptr, k) :: buf[k] == buf'[k]
  {
    if r <= wptr {
      SameSlice(buf, buf', r, wptr);
    } else {
      SameSlice(buf, buf', r, RB_DWORDS);
      SameSlice(buf, buf', 0, wptr);
      assert buf[r..] == Unread(buf, r, wptr)[..RB_DWORDS - r] && buf[..wptr] == Unread(buf, r, wptr)[RB_DWORDS - r..];
      assert buf'[r..] == Unread(buf', r, wptr)[..RB_DWORDS - r]
          && buf'[..wptr] == Unread(buf', r, wptr)[RB_DWORDS - r..];
    }
  }

  lemma SameSlice<T>(a: seq<T>, b: seq<T>, lo: nat, hi: nat)
    requires lo <= hi <= |a| == |b|
    ensures a[lo..hi] == b[lo..hi] <==> forall k | lo <= k < hi :: a[k] == b[k]
  {
    if a[lo..hi] == b[lo..hi] {
      forall k | lo <= k < hi ensures a[k] == b[k] {
        assert a[lo..hi][k - lo] == b[lo..hi][k - lo];
      }
    }
  }

  /**
    A window of `dwords` words can go to `at`: it starts where writing goes on or, if nothing
    is unread there, at the start of the ring; it leaves the last two words alone and covers
    nothing that a CP anywhere behind has still to read; and afterwards a CP at `rptr` has all
    of that and the whole window on its way.
   */
  ghost predicate Usable(rptr: nat, wptr: nat, at: nat, dwords: nat) {
    && (at == wptr || (at == 0 && rptr <= wptr)) && at + dwords <= RB_DWORDS - 2
    && Clear(rptr, wptr, at, at + dwords) && Ahead(rptr, wptr, at, at + dwords)
  }

  /** No CP anywhere behind has a cell from `at` to `next` still to read. */
  ghost predicate Clear(rptr: nat, wptr: nat, at: nat, next: nat) {
    forall r: nat, k: nat | r < RB_DWORDS && Behind(rptr, r, wptr) && at <= k < next :: !OnTheWay(r, wptr, k)
  }

  /** On its way to `next` a CP at `rptr` reads all it had to read before, and the cells from `at` to `next`. */
  ghost predicate Ahead(rptr: nat, wptr: nat, at: nat, next: nat) {
    forall k: nat | k < RB_DWORDS && (OnTheWay(rptr, wptr, k) || at <= k < next) :: OnTheWay(rptr, next, k)
  }

  /**
    A request is granted exactly if there is a place for it, or its 32-bit sum wraps.  It gets
    the place where writing goes on whenever that can be used.
   */
  lemma GrantedExactly(rptr: nat, wptr: nat, dwords: word)
    requires rptr < RB_DWORDS && wptr <= RB_DWORDS - 2
    ensures Reserve(rptr, wptr, dwords).Space? <==> wptr + dwords >= U32 || exists at :: Usable(rptr, wptr, at, dwords)
    ensures wptr + dwords < U32 && Reserve(rptr, wptr, dwords).Space? ==>
      var g := Reserve(rptr, wptr, dwords);
      && Usable(rptr, wptr, g.at, dwords) && g.next == g.at + dwords && (g.wrapped <==> g.at != wptr)
      && (Usable(rptr, wptr, wptr, dwords) ==> g.at == wptr)
  {
    if wptr + dwords < U32 {
      assert (wptr + dwords) % U32 == wptr + dwords;
      UsableHere(rptr, wptr, dwords);
      if 0 < wptr && rptr <= wptr { UsableAtStart(rptr, wptr, dwords); }
      assert forall at | Usable(rptr, wptr, at, dwords) :: at == wptr || at == 0;
    } else {
      assert (wptr + dwords) % U32 == wptr + dwords - U32;
    }
  }

  /** Where writing goes on there is room up to the end of the ring, or else up to the CP. */
  lemma UsableHere(rptr: nat, wptr: nat, dwords: nat)
    requires rptr < RB_DWORDS && wptr <= RB_DWORDS - 2
    ensures Usable(rptr, wptr, wptr, dwords)
       <==> if rptr <= wptr then wptr + dwords <= RB_DWORDS - 2 else wptr + dwords < rptr
  {
    if rptr > wptr {
      assert Behind(rptr, rptr, wptr) && OnTheWay(rptr, wptr, rptr);
      assert wptr + dwords == rptr ==> !OnTheWay(rptr, wptr + dwords, wptr);
    }
  }

  /** At the start there is room up to the CP. */
  lemma UsableAtStart(rptr: nat, wptr: nat, dwords: nat)
    requires 0 < wptr <= RB_DWORDS - 2 && rptr <= wptr
    ensures dwords > 0 ==> (Usable(rptr, wptr, 0, dwords) <==> dwords < rptr)
    ensures dwords == 0 ==> Usable(rptr, wptr, wptr, dwords)
  {
    assert OnTheWay(rptr, dwords, 0) && rptr <= dwords ==> rptr == 0;
    assert rptr == 0 ==> Behind(rptr, 0, wptr) && OnTheWay(0, wptr, 0);
  }

  /** The header of the NOP that fills the ring to its end. */
  function GapPacket(buf: seq<word>, wptr: nat, legacy: bool): Packet
    requires |buf| == RB_DWORDS && wptr <= RB_DWORDS - 2
  {
    if legacy then Type3(CP_NOP, buf[wptr + 1..]) else Type7(CP_NOP, buf[wptr + 1..])
  }

  lemma GapIsSkipped(buf: seq<word>, wptr: nat, legacy: bool)
    requires |buf| == RB_DWORDS && wptr <= RB_DWORDS - 2
    ensures var p := GapPacket(buf, wptr, legacy);
      Valid(p) && |Words(p)| == RB_DWORDS - wptr && Causes(Words(p), [])
  {
    CausesPacket(GapPacket(buf, wptr, legacy));
  }

  /** The gap the CP crosses before a window granted in a reservation. */
  function Gap(buf: seq<word>, wptr: nat, legacy: bool, wrapped: bool): seq<word>
    requires |buf| == RB_DWORDS && wptr <= RB_DWORDS - 2
  {
    if wrapped then Words(GapPacket(buf, wptr, legacy)) else []
  }

  lemma SpliceWrapped<T>(buf: seq<T>, buf': seq<T>, r: nat, w: nat, h: T, ws: seq<T>)
    requires |buf| == |buf'| && |ws| <= r <= w < |buf|
    requires buf'[..|ws|] == ws && buf'[w] == h
    requires forall k | r <= k < |buf| && k != w :: buf'[k] == buf[k]
    ensures buf'[r..] + buf'[..|ws|] == buf[r..w] + ([h] + buf[w + 1..]) + ws
  {
    assert buf'[r..] == buf[r..w] + ([h] + buf[w + 1..]);
  }

  lemma SpliceBelow<T>(buf: seq<T>, buf': seq<T>, lo: nat, w: nat, ws: seq<T>)
    requires |buf| == |buf'| && lo <= w && w + |ws| <= |buf|
    requires buf'[w..w + |ws|] == ws
    requires forall k | lo <= k < w :: buf'[k] == buf[k]
    ensures buf'[lo..w + |ws|] == buf[lo..w] + ws
  {
    assert buf'[lo..w + |ws|] == buf'[lo..w] + buf'[w..w + |ws|];
  }

  /** `buf'` is `buf` with the window reserved by `g` filled from its start with `ws`. */
  ghost predicate Filled(buf: seq<word>, buf': seq<word>, g: Reservation, wptr: nat, dwords: nat,
                         ws: seq<word>, legacy: bool)
    requires |buf| == |buf'| == RB_DWORDS && wptr <= RB_DWORDS - 2 && g.Space?
  {
    && |ws| <= dwords && g.at + dwords <= RB_DWORDS
    && buf'[g.at..g.at + |ws|] == ws
    && (forall k | 0 <= k < RB_DWORDS && !(g.at <= k < g.at + dwords) ::
          buf'[k] == if g.wrapped && k == wptr then Header(GapPacket(buf, wptr, legacy)) else buf[k])
  }

  /**
    Filling a granted window with `ws` and giving the rest back appends exactly the gap
    and `ws` to what the CP will read, wherever it is by now.
   */
  lemma UnreadGrows(buf: seq<word>, buf': seq<word>, rptr: nat, r: nat, wptr: nat, dwords: word,
                    ws: seq<word>, legacy: bool)
    requires |buf| == |buf'| == RB_DWORDS && rptr < RB_DWORDS && wptr <= RB_DWORDS - 2
    requires Behind(rptr, r, wptr) && wptr + dwords < U32 && r < RB_DWORDS
    requires var g := Reserve(rptr, wptr, dwords); g.Space? && Filled(buf, buf', g, wptr, dwords, ws, legacy)
    ensures var g := Reserve(rptr, wptr, dwords);
      && g.at + |ws| <= RB_DWORDS - 2
      && Unread(buf', r, g.at + |ws|) == Unread(buf, r, wptr) + Gap(buf, wptr, legacy, g.wrapped) + ws
      && Behind(rptr, r, g.at + |ws|)
  {
    var g := Reserve(rptr, wptr, dwords);
    GrantFits(rptr, wptr, dwords);
    if g.wrapped {
      var h := Header(GapPacket(buf, wptr, legacy));
      SpliceWrapped(buf, buf', r, wptr, h, ws);
    } else if r <= wptr {
      SpliceBelow(buf, buf', r, wptr, ws);
      assert buf[r..wptr] + [] + ws == buf[r..wptr] + ws;
    } else {
      SpliceBelow(buf, buf', 0, wptr, ws);
      assert buf'[r..] == buf[r..];
      assert buf[r..] + (buf[..wptr] + ws) == buf[r..] + buf[..wptr] + [] + ws;
    }
  }

  /** `buf'` holds, behind what a CP at `r` had still to read, a gap (if the ring wrapped) and `ws`. */
  ghost predicate Appended(buf: seq<word>, wptr: nat, buf': seq<word>, wptr': nat, r: nat, legacy: bool,
                           wrapped: bool, ws: seq<word>)
    requires |buf| == |buf'| == RB_DWORDS && r < RB_DWORDS && wptr <= RB_DWORDS - 2 && wptr' <= RB_DWORDS - 2
  {
    Unread(buf', r, wptr') == Unread(buf, r, wptr) + Gap(buf, wptr, legacy, wrapped) + ws
  }

  /** What the CP goes on to execute is what `ws` means; the gap means nothing. */
  lemma AppendedMeaning(buf: seq<word>, wptr: nat, buf': seq<word>, wptr': nat, r: nat, legacy: bool,
                        wrapped: bool, ws: seq<word>)
    requires |buf| == |buf'| == RB_DWORDS && r < RB_DWORDS && wptr <= RB_DWORDS - 2 && wptr' <= RB_DWORDS - 2
    requires Appended(buf, wptr, buf', wptr', r, legacy, wrapped, ws)
    requires Meaning(Unread(buf, r, wptr)).Some? && Meaning(ws).Some?
    ensures Meaning(Unread(buf', r, wptr')) == Some(Meaning(Unread(buf, r, wptr)).value + Meaning(ws).value)
  {
    var u, gap := Unread(buf, r, wptr), Gap(buf, wptr, legacy, wrapped);
    assert Causes(gap, []) by {
      CausesNothing();
      GapIsSkipped(buf, wptr, legacy);
    }
    CausesMeaning(gap, []);
    MeaningConcat(u, gap);
    assert Meaning(u).value + [] == Meaning(u).value;
    MeaningConcat(u + gap, ws);
  }

  class Ring {
    const id: nat
    const buffer: array<word>
    var pending: nat                 // _wptr
    var wptr: nat
    var timestamp: word

    ghost predicate Valid()
      reads this
    {
      buffer.Length == RB_DWORDS && pending <= RB_DWORDS - 2 && wptr <= RB_DWORDS - 2
    }

    /** A ring as adreno_ringbuffer_setup leaves it. */
    constructor (id: nat)
      ensures Valid() && this.id == id && fresh(buffer) && pending == 0 && wptr == 0 && timestamp == 0
    {
      this.id, buffer := id, new word[RB_DWORDS];
      pending, wptr, timestamp := 0, 0, 0;
    }

    /**
      adreno_ringbuffer_allocspace; None is -ENOSPC.  The NOP never has an empty payload,
      so the legacy header's count, which is stored minus one, cannot wrap.
     */
    method AllocSpace(dwords: word, rptr: nat, legacy: bool) returns (at: Option<nat>)
      requires Valid() && rptr < RB_DWORDS
      modifies this`pending, buffer
      ensures Valid()
      ensures at.Some? <==> old(pending) + dwords >= U32 || exists w :: Usable(rptr, old(pending), w, dwords)
      ensures var g := Reserve(rptr, old(pending), dwords);
        && (at.None? <==> g.NoSpace?)
        && pending == (if g.NoSpace? then old(pending) else g.next)
        && (at.Some? ==> at.value == g.at)
        && (forall k | 0 <= k < RB_DWORDS ::
              buffer[k] == if g.Space? && g.wrapped && k == old(pending)
                           then Header(GapPacket(old(buffer[..]), old(pending), legacy)) else old(buffer[k]))
    {
      GrantedExactly(rptr, pending, dwords);
      var sum := (pending + dwords) % U32;
      if rptr <= pending {
        if sum <= RB_DWORDS - 2 {
          var ret := pending;
          pending := sum % RB_DWORDS;
          return Some(ret);
        }
        if dwords < rptr {
          var count := RB_DWORDS - pending - 1;
          buffer[pending] := if legacy then Type3Header(CP_NOP, count) else Type7Header(CP_NOP, count);
          pending := dwords;
          return Some(0);
        }
      }
      if sum < rptr {
        var ret := pending;
        pending := sum % RB_DWORDS;
        return Some(ret);
      }
      return None;
    }

    /** Reserves `size` words, stores `cmds` at their start and gives the rest back. */
    method Insert(size: word, cmds: seq<word>, rptr: nat, legacy: bool) returns (granted: bool)
      requires Valid() && rptr < RB_DWORDS && |cmds| <= size && RB_DWORDS + size < U32
      modifies this`pending, buffer
      ensures Valid()
      ensures granted <==> Reserve(rptr, old(pending), size).Space?
      ensures !granted ==> pending == old(pending) && buffer[..] == old(buffer[..])
      ensures granted ==> var g := Reserve(rptr, old(pending), size);
        && pending == g.at + |cmds|
        && forall r: nat | Behind(rptr, r, old(pending)) && r < RB_DWORDS ::
             Appended(old(buffer[..]), old(pending), buffer[..], pending, r, legacy, g.wrapped, cmds)
    {
      ghost var g := Reserve(rptr, pending, size);
      if g.Space? {
        GrantFits(rptr, pending, size);
      }
      var at := AllocSpace(size, rptr, legacy);
      if at.None? {
        return false;
      }
      Store(buffer, at.value, cmds);
      pending := pending - (size - |cmds|);
      assert Filled(old(buffer[..]), buffer[..], g, old(pending), size, cmds, legacy);
      forall r: nat | Behind(rptr, r, old(pending)) && r < RB_DWORDS
        ensures Appended(old(buffer[..]), old(pending), buffer[..], pending, r, legacy, g.wrapped, cmds)
      {
        UnreadGrows(old(buffer[..]), buffer[..], rptr, r, old(pending), size, cmds, legacy);
      }
      return true;
    }
  }
}
