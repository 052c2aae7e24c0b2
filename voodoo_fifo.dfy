/**
 * The Voodoo 2 command FIFO (CMDFIFO): a region of frame-buffer memory the
 * host fills with command packets.  The device keeps a read pointer and a
 * depth (how many complete words are ready), tracks out-of-order writes
 * through a window `amin .. amax` and a count of the words still missing in
 * it ("holes"), and executes the packet at the read pointer once the depth
 * covers it.  All counters are unsigned 32-bit values.
 */
module VoodooFifo {
  import opened Wrappers
  import opened Word32

  // ---------------------------------------------------------------------
  // Packet lengths

  predicate Bit(w: bv32, i: nat)
    requires i < 32
  {
    w & (1 << i) != 0
  }

  /** The number of set bits of `w` among positions `lo .. hi - 1`. */
  function PopCount(w: bv32, lo: nat, hi: nat): (r: nat)
    requires lo <= hi <= 32
    ensures r <= hi - lo
    decreases hi - lo
  {
    if lo == hi then 0 else PopCount(w, lo, hi - 1) + (if Bit(w, hi - 1) then 1 else 0)
  }

  /** Low three bits of the first word. */
  function PacketType(command: bv32): nat
  {
    (command & 7) as nat
  }

  /** Bits 5:3 of a type-0 packet: 0 NOP, 1 JSR, 2 RET, 3 JMP LOCAL, 4 JMP AGP. */
  function JumpFunction(command: bv32): nat
  {
    ((command >> 3) & 7) as nat
  }

  /** The byte address a type-0 jump goes to: bits 28:6 of the command as address bits 24:2. */
  function JumpTarget(command: bv32): (r: U32)
    ensures r % 4 == 0
  {
    ((command >> 4) & 0x1ff_fffc) as int
  }

  /** Bits 31:16 of a type-1 packet: the number of data words. */
  function WordCount(command: bv32): nat
  {
    (command >> 16) as nat
  }

  /** Bits 9:6 of a type-3 packet: the number of vertices. */
  function VertexCount(command: bv32): nat
  {
    ((command >> 6) & 15) as nat
  }

  /** Bits 31:29 of type-3 and type-4 packets: padding words after the data. */
  function DummyCount(command: bv32): nat
  {
    (command >> 29) as nat
  }

  /** Bits 21:3 of a type-5 packet: the number of data words after the address word. */
  function DataCount(command: bv32): nat
  {
    ((command >> 3) & 0x7_ffff) as nat
  }

  /** The colour words of a vertex: packed ARGB in one word, or separate RGB and alpha words. */
  function ColorWords(command: bv32): (r: nat)
    ensures r <= 4
  {
    if command & 0x1000_0000 != 0 then (if command & 0xC00 != 0 then 1 else 0)
    else (if command & 0x400 != 0 then 3 else 0) + (if command & 0x800 != 0 then 1 else 0)
  }

  /** Words a type-3 packet carries for each vertex, from its setup bits. */
  function VertexWords(command: bv32): (r: nat)
    ensures 2 <= r <= 14
  {
    2
    + ColorWords(command)
    + (if command & 0x1000 != 0 then 1 else 0)
    + (if command & 0x2000 != 0 then 1 else 0)
    + (if command & 0x4000 != 0 then 1 else 0)
    + (if command & 0x8000 != 0 then 2 else 0)
    + (if command & 0x1_0000 != 0 then 1 else 0)
    + (if command & 0x2_0000 != 0 then 2 else 0)
  }

  /** The data words of a type-3 packet: the per-vertex words for each vertex. */
  function VertexDataWords(command: bv32): nat
  {
    VertexWords(command) * VertexCount(command)
  }

  /**
   * The number of words the packet whose first word is `command` occupies,
   * that word included.
   */
  function ExpectedDepth(command: bv32): (r: nat)
    ensures 1 <= r
  {
    match PacketType(command)
    case 0 => if JumpFunction(command) == 4 then 2 else 1
    case 1 => 1 + WordCount(command)
    case 2 => 1 + PopCount(command, 3, 32)
    case 3 => 1 + VertexDataWords(command) + DummyCount(command)
    case 4 => 1 + PopCount(command, 15, 29) + DummyCount(command)
    case 5 => 2 + DataCount(command)
    case _ => 1
  }

  /**
   * Where the read pointer stands after the packet at `rdptr` has run, or
   * None for the type-0 functions that stop the emulator (RET, JMP AGP and
   * the undefined ones).  A jump goes to its target; every other packet is
   * stepped over word by word, starting from the word holding `rdptr`.
   */
  function NextReadPointer(rdptr: U32, command: bv32): Option<U32>
  {
    if PacketType(command) == 0 then
      match JumpFunction(command)
      case 0 => Some(Wrap32(4 * (rdptr / 4 + 1)))
      case 1 => Some(JumpTarget(command))
      case 3 => Some(JumpTarget(command))
      case _ => None
    else
      Some(Wrap32(4 * (rdptr / 4 + ExpectedDepth(command))))
  }

  /**
   * The read pointer and halt flag after the packet `command` at `rdptr0`
   * has run: a packet that stops the emulator leaves the read pointer where
   * it was.
   */
  predicate AfterPacket(rdptr0: U32, halted0: bool, command: bv32, rdptr1: U32, halted1: bool)
  {
    match NextReadPointer(rdptr0, command)
    case None => halted1 && rdptr1 == rdptr0
    case Some(next) => halted1 == halted0 && rdptr1 == next
  }

  /** The depth left once the packet is taken, or None when it is not complete yet. */
  function ReadyDepth(depth: U32, command: bv32): (r: Option<U32>)
    ensures r.Some? <==> depth != 0 && depth >= ExpectedDepth(command)
    ensures r.Some? ==> r.value + ExpectedDepth(command) == depth
  {
    if depth == 0 || depth < ExpectedDepth(command) then None else Some(depth - ExpectedDepth(command))
  }

  /** The FIFO registers a packet run changes. */
  datatype RunState = RunState(rdptr: U32, depth: U32, halted: bool)

  /**
   * The ready check and packet run on values: the registers after, and the
   * value returned, -1 when the packet is not complete.  A complete packet
   * is taken off the depth and run, moving the read pointer.
   */
  function RunIfReady(s: RunState, command: bv32, cycles: nat): (RunState, int)
  {
    match ReadyDepth(s.depth, command)
    case None => (s, -1)
    case Some(left) =>
      var after := match NextReadPointer(s.rdptr, command)
        case None => s.(depth := left, halted := true)
        case Some(next) => s.(depth := left, rdptr := next);
      (after, if 1 <= PacketType(command) <= 5 then cycles else 0)
  }

  /**
   * Execution is gated on the whole packet being present: the result is -1,
   * with nothing changed, exactly when the depth is zero or short of the
   * packet's length; otherwise the depth drops by exactly that length.
   */
  lemma RunIfReadyGate(s: RunState, command: bv32, cycles: nat)
    ensures var (after, r) := RunIfReady(s, command, cycles);
      && (r == -1 <==> s.depth == 0 || s.depth < ExpectedDepth(command))
      && (r == -1 ==> after == s)
      && (r != -1 ==> after.depth + ExpectedDepth(command) == s.depth && r >= 0)
  {
  }

  /** A NOP and every packet of types 1 to 7 move the read pointer by exactly four bytes per word of the packet. */
  lemma ReadPointerAdvancesByDepth(rdptr: U32, command: bv32)
    requires rdptr % 4 == 0
    requires PacketType(command) != 0 || JumpFunction(command) == 0
    ensures NextReadPointer(rdptr, command) == Some(Wrap32(rdptr + 4 * ExpectedDepth(command)))
  {
    assert 4 * (rdptr / 4) == rdptr;
  }

  // ---------------------------------------------------------------------
  // Out-of-order write tracking

  /** The counters of the write tracker. */
  datatype Tracker = Tracker(amin: U32, amax: U32, depth: U32, holes: U32)

  /**
   * The tracker after a write to byte address `addr`: an in-order write right
   * after `amin` with no holes is counted at once; a write below `amin` restarts
   * the window at `base`; a write inside the window fills one hole, and filling
   * the last one counts the whole window; a write beyond `amax` extends the
   * window, opening a hole for every word skipped.
   */
  function TrackWrite(t: Tracker, base: U32, addr: U32): Tracker
  {
    if t.holes == 0 && addr == Wrap32(t.amin + 4) then
      Tracker(addr, addr, Wrap32(t.depth + 1), t.holes)
    else if addr < t.amin then
      Tracker(base, addr, Wrap32(t.depth + 1), Wrap32(t.holes + Wrap32(addr - base) / 4))
    else if addr < t.amax then
      var holes := Wrap32(t.holes - 1);
      if holes == 0 then Tracker(t.amax, t.amax, Wrap32(t.depth + Wrap32(t.amax - t.amin) / 4), holes)
      else t.(holes := holes)
    else
      Tracker(t.amin, addr, t.depth, Wrap32(t.holes + Wrap32(addr - t.amax) / 4 - 1))
  }

  /** The number of word addresses `hi, hi - 4, ...` above `lo` that have not been written. */
  ghost function Missing(written: set<int>, lo: int, hi: int): nat
    decreases hi - lo
  {
    if hi <= lo then 0 else Missing(written, lo, hi - 4) + (if hi in written then 0 else 1)
  }

  /**
   * The meaning of the tracker, against the set of word addresses written
   * inside the window and not yet counted: every word up to `amin` has been
   * counted into the depth, the window ends at a written word, `holes` is
   * exactly the number of words in the window still missing, and an open
   * window always has a hole.
   */
  ghost predicate Consistent(t: Tracker, written: set<int>)
  {
    && t.amin % 4 == 0 && t.amax % 4 == 0 && t.amin <= t.amax
    && (forall a :: a in written ==> t.amin < a <= t.amax && a % 4 == 0)
    && (t.amin < t.amax ==> t.amax in written && t.holes > 0)
    && t.holes == Missing(written, t.amin, t.amax)
  }

  lemma {:induction false} MissingIgnoresAbove(written: set<int>, lo: int, hi: int, a: int)
    requires a > hi
    ensures Missing(written + {a}, lo, hi) == Missing(written, lo, hi)
    decreases hi - lo
  {
    if hi > lo {
      MissingIgnoresAbove(written, lo, hi - 4, a);
    }
  }

  lemma {:induction false} MissingInsert(written: set<int>, lo: int, hi: int, a: int)
    requires lo < a <= hi && a % 4 == hi % 4 && a !in written
    ensures Missing(written, lo, hi) >= 1
    ensures Missing(written + {a}, lo, hi) == Missing(written, lo, hi) - 1
    decreases hi - lo
  {
    if a == hi {
      MissingIgnoresAbove(written, lo, hi - 4, a);
    } else {
      MissingInsert(written, lo, hi - 4, a);
    }
  }

  lemma {:induction false} MissingExtend(written: set<int>, lo: int, hi: int, top: int)
    requires lo <= hi <= top && top % 4 == hi % 4
    requires forall a :: a in written ==> a <= hi
    ensures Missing(written, lo, top) == Missing(written, lo, hi) + (top - hi) / 4
    decreases top - hi
  {
    if top > hi {
      MissingExtend(written, lo, hi, top - 4);
    }
  }

  lemma {:induction false} MissingNone(written: set<int>, lo: int, hi: int, a: int)
    requires Missing(written, lo, hi) == 0
    requires lo < a <= hi && a % 4 == hi % 4
    ensures a in written
    decreases hi - lo
  {
    if a != hi {
      MissingNone(written, lo, hi - 4, a);
    }
  }

  /** An empty window is consistent with nothing written. */
  lemma EmptyWindowConsistent(amin: U32, depth: U32)
    requires amin % 4 == 0
    ensures Consistent(Tracker(amin, amin, depth, 0), {})
  {
  }

  /**
   * The window a driver sets up for a fresh FIFO ends one word below the
   * base, wrapping at 32 bits for base 0.  It is consistent with nothing
   * written, and the first write, at the base, takes the in-order path: it
   * is counted at once and the window closes on it.
   */
  lemma FreshWindowFirstWrite(base: U32, depth: U32)
    requires base % 4 == 0
    ensures var t := Tracker(Wrap32(base - 4), Wrap32(base - 4), depth, 0);
            Consistent(t, {}) && TrackWrite(t, base, base) == Tracker(base, base, Wrap32(depth + 1), 0)
  {
    var amin: int := Wrap32(base - 4);
    if base == 0 {
      assert amin == Two32 - 4;
    } else {
      assert amin == base - 4;
    }
    assert Wrap32(amin + 4) == base;
    EmptyWindowConsistent(amin, depth);
  }

  /**
   * What a tracked write must do for the tracker to count every word exactly
   * once: `amin` moves only forward and only over words that have all been
   * written, the depth grows by exactly the number of words `amin` moved
   * over, and the new counters are consistent with what is still uncounted.
   */
  ghost predicate CountsOnce(t: Tracker, r: Tracker, written: set<int>, addr: int)
  {
    && t.amin <= r.amin
    && r.depth == Wrap32(t.depth + (r.amin - t.amin) / 4)
    && (forall a :: t.amin < a <= r.amin && a % 4 == 0 ==> a in written + {addr})
    && Consistent(r, if r.amin == r.amax then {} else written + {addr})
  }

  lemma TrackInOrder(t: Tracker, written: set<int>, base: U32, addr: U32)
    requires Consistent(t, written)
    requires addr % 4 == 0 && t.amin < addr && addr !in written
    requires t.holes == 0 && addr == t.amin + 4
    ensures CountsOnce(t, TrackWrite(t, base, addr), written, addr)
  {
    assert Wrap32(t.amin + 4) == t.amin + 4;
    if t.amin < t.amax {
      assert false;
    }
  }

  lemma TrackInsideWindow(t: Tracker, written: set<int>, base: U32, addr: U32)
    requires Consistent(t, written)
    requires addr % 4 == 0 && t.amin < addr < t.amax && addr !in written
    ensures CountsOnce(t, TrackWrite(t, base, addr), written, addr)
  {
    MissingInsert(written, t.amin, t.amax, addr);
    var holes := t.holes - 1;
    assert Wrap32(t.holes - 1) == holes;
    if holes == 0 {
      assert Wrap32(t.amax - t.amin) == t.amax - t.amin;
      assert TrackWrite(t, base, addr) == Tracker(t.amax, t.amax, Wrap32(t.depth + (t.amax - t.amin) / 4), 0);
      forall a | t.amin < a <= t.amax && a % 4 == 0
        ensures a in written + {addr}
      {
        MissingNone(written + {addr}, t.amin, t.amax, a);
      }
    } else {
      assert TrackWrite(t, base, addr) == t.(holes := holes);
    }
  }

  lemma {:induction false} MissingBound(written: set<int>, lo: int, hi: int)
    requires lo <= hi && hi % 4 == lo % 4
    ensures Missing(written, lo, hi) <= (hi - lo) / 4
    decreases hi - lo
  {
    if hi > lo {
      MissingBound(written, lo, hi - 4);
    }
  }

  /** Extending a window past its top by unwritten words adds one missing word per word skipped. */
  lemma SkippedWordsMissing(written: set<int>, lo: int, hi: int, addr: int)
    requires lo <= hi < addr && hi % 4 == 0 && addr % 4 == 0
    requires forall a :: a in written ==> a <= hi
    ensures Missing(written + {addr}, lo, addr) == Missing(written, lo, hi) + (addr - hi) / 4 - 1
  {
    var w := written + {addr};
    assert Missing(w, lo, addr) == Missing(w, lo, addr - 4);
    MissingIgnoresAbove(written, lo, addr - 4, addr);
    MissingExtend(written, lo, hi, addr - 4);
  }

  /** The arithmetic behind `BeyondWindowCount`: a write past the window leaves at least one hole. */
  lemma SkipLeavesHole(lo: int, hi: int, holes: int, addr: int)
    requires lo % 4 == 0 && hi % 4 == 0 && addr % 4 == 0 && lo <= hi <= addr && lo < addr
    requires lo == hi ==> holes == 0
    requires lo < hi ==> holes > 0 && hi != addr
    requires !(holes == 0 && addr == lo + 4)
    ensures hi < addr && holes + (addr - hi) / 4 - 1 > 0
  {
  }

  /** The counting behind `BeyondWindowHoles`, on the window bounds alone. */
  lemma BeyondWindowCount(written: set<int>, lo: int, hi: int, holes: int, addr: int)
    requires lo % 4 == 0 && hi % 4 == 0 && addr % 4 == 0 && lo <= hi <= addr && lo < addr
    requires forall a :: a in written ==> a <= hi
    requires holes == Missing(written, lo, hi)
    requires lo < hi ==> hi in written && holes > 0
    requires addr !in written && !(holes == 0 && addr == lo + 4)
    ensures hi < addr
    ensures 0 < Missing(written + {addr}, lo, addr) == holes + (addr - hi) / 4 - 1 <= (addr - lo) / 4
  {
    SkipLeavesHole(lo, hi, holes, addr);
    SkippedWordsMissing(written, lo, hi, addr);
    MissingBound(written + {addr}, lo, addr);
  }

  /** A write beyond the window opens one hole for each word it skips. */
  lemma BeyondWindowHoles(t: Tracker, written: set<int>, addr: int)
    requires Consistent(t, written)
    requires addr % 4 == 0 && t.amin < addr && t.amax <= addr && addr !in written
    requires !(t.holes == 0 && addr == t.amin + 4)
    ensures t.amax < addr
    ensures 0 < Missing(written + {addr}, t.amin, addr) == t.holes + (addr - t.amax) / 4 - 1 <= (addr - t.amin) / 4
  {
    BeyondWindowCount(written, t.amin, t.amax, t.holes, addr);
  }

  lemma TrackBeyondWindow(t: Tracker, written: set<int>, base: U32, addr: U32)
    requires Consistent(t, written)
    requires addr % 4 == 0 && t.amin < addr && t.amax <= addr && addr !in written
    requires !(t.holes == 0 && addr == t.amin + 4)
    ensures CountsOnce(t, TrackWrite(t, base, addr), written, addr)
  {
    BeyondWindowHoles(t, written, addr);
    TrackWriteBeyond(t, base, addr, t.holes + (addr - t.amax) / 4 - 1);
  }

  /** The tracker a write beyond the window produces, when the new hole count needs no wrap-around. */
  lemma TrackWriteBeyond(t: Tracker, base: U32, addr: U32, holes: int)
    requires t.amin % 4 == 0 && addr % 4 == 0 && t.amin < addr && t.amax < addr
    requires !(t.holes == 0 && addr == t.amin + 4)
    requires holes == t.holes + (addr - t.amax) / 4 - 1 && 0 < holes <= (addr - t.amin) / 4
    ensures TrackWrite(t, base, addr) == Tracker(t.amin, addr, t.depth, holes)
  {
    assert Wrap32(t.amin + 4) == t.amin + 4;
    assert Wrap32(addr - t.amax) == addr - t.amax;
    assert Wrap32(holes) == holes;
  }

  /**
   * The tracker counts every word exactly once: a write of a new word above
   * `amin` keeps the tracker consistent.  In particular an in-order write
   * with no holes counts one word, and filling the last hole counts the
   * whole window.
   */
  lemma TrackWriteCountsOnce(t: Tracker, written: set<int>, base: U32, addr: U32)
    requires Consistent(t, written)
    requires addr % 4 == 0 && t.amin < addr && addr !in written
    ensures CountsOnce(t, TrackWrite(t, base, addr), written, addr)
  {
    if t.holes == 0 && addr == t.amin + 4 {
      TrackInOrder(t, written, base, addr);
    } else if addr < t.amax {
      TrackInsideWindow(t, written, base, addr);
    } else {
      TrackBeyondWindow(t, written, base, addr);
    }
  }

  // ---------------------------------------------------------------------
  // Type-3 vertices

  /** The per-vertex word count, added up field by field the way the length decoder does. */
  method CountVertexWords(command: bv32) returns (count: nat)
    ensures count == VertexWords(command)
  {
    count := 2;
    if command & 0x1000_0000 != 0 {
      if command & 0xC00 != 0 {
        count := count + 1;
      }
    } else {
      if command & 0x400 != 0 {
        count := count + 3;
      }
      if command & 0x800 != 0 {
        count := count + 1;
      }
    }
    assert count == 2 + ColorWords(command);
    if command & 0x1000 != 0 {
      count := count + 1;
    }
    if command & 0x2000 != 0 {
      count := count + 1;
    }
    if command & 0x4000 != 0 {
      count := count + 1;
    }
    if command & 0x8000 != 0 {
      count := count + 2;
    }
    if command & 0x1_0000 != 0 {
      count := count + 1;
    }
    if command & 0x2_0000 != 0 {
      count := count + 2;
    }
  }

  /** Steps `src` over one vertex's words, field by field the way the executor reads them. */
  method SkipVertex(command: bv32, src: int) returns (next: int)
    ensures next == src + VertexWords(command)
  {
    next := src + 2;
    if command & 0x1000_0000 != 0 {
      if command & 0xC00 != 0 {
        next := next + 1;
      }
    } else {
      if command & 0x400 != 0 {
        next := next + 3;
      }
      if command & 0x800 != 0 {
        next := next + 1;
      }
    }
    assert next == src + 2 + ColorWords(command);
    if command & 0x1000 != 0 {
      next := next + 1;
    }
    if command & 0x2000 != 0 {
      next := next + 1;
    }
    if command & 0x4000 != 0 {
      next := next + 1;
    }
    if command & 0x8000 != 0 {
      next := next + 2;
    }
    if command & 0x1_0000 != 0 {
      next := next + 1;
    }
    if command & 0x2_0000 != 0 {
      next := next + 2;
    }
  }

  lemma SteppedOver(rdptr: U32, command: bv32, src: int)
    requires PacketType(command) != 0 && src == rdptr / 4 + ExpectedDepth(command)
    ensures NextReadPointer(rdptr, command) == Some(Wrap32(4 * src))
  {
  }

  /** A jump's target is word aligned, so pointing `src` at its word and back gives the target. */
  lemma JumpLands(target: U32)
    requires target % 4 == 0
    ensures Wrap32(4 * (target / 4)) == target
  {
    WrapInRange(4 * (target / 4));
  }

  // ---------------------------------------------------------------------
  // Loops over packet words

  /** Counts the set bits at positions `first` to `last`, one position at a time. */
  method CountSetBits(command: bv32, first: nat, last: nat) returns (count: nat)
    requires first <= last < 32
    ensures count == PopCount(command, first, last + 1)
  {
    count := 0;
    var i := first;
    while i <= last
      invariant first <= i <= last + 1 && count == PopCount(command, first, i)
    {
      if Bit(command, i) {
        count := count + 1;
      }
      i := i + 1;
    }
  }

  /** Steps over `n` data words. */
  method SkipWords(src: int, n: nat) returns (next: int)
    ensures next == src + n
  {
    next := src;
    var i := 0;
    while i < n
      invariant 0 <= i <= n && next == src + i
    {
      next := next + 1;
      i := i + 1;
    }
  }

  /** Steps over one data word for each set bit at positions `first` to `last`. */
  method SkipMaskedWords(command: bv32, src: int, first: nat, last: nat) returns (next: int)
    requires first <= last < 32
    ensures next == src + PopCount(command, first, last + 1)
  {
    next := src;
    var i := first;
    while i <= last
      invariant first <= i <= last + 1 && next == src + PopCount(command, first, i)
    {
      if Bit(command, i) {
        next := next + 1;
      }
      i := i + 1;
    }
  }

  /** Steps over the vertices of a type-3 packet, one vertex at a time. */
  method SkipVertices(command: bv32, src: int) returns (next: int)
    ensures next == src + VertexDataWords(command)
  {
    var perVertex := VertexWords(command);
    next := src;
    var i := 0;
    while i < VertexCount(command)
      invariant 0 <= i <= VertexCount(command) && next == src + perVertex * i
    {
      next := SkipVertex(command, next);
      assert perVertex * (i + 1) == perVertex * i + perVertex;
      i := i + 1;
    }
  }

  // ---------------------------------------------------------------------
  // The FIFO

  class CmdFifo {
    /** Frame-buffer memory seen as 32-bit words, which the FIFO lives in. */
    var ram: array<bv32>
    var base: U32
    var end: U32
    var rdptr: U32
    var amin: U32
    var amax: U32
    var depth: U32
    var holes: U32
    var countHoles: bool
    /** A packet is executing and the next one waits for it. */
    var opPending: bool
    /** A packet stopped the emulator. */
    var halted: bool

    /** The FIFO's end lies inside frame-buffer memory. */
    predicate Valid()
      reads this
    {
      end <= 4 * ram.Length
    }

    function Counters(): Tracker
      reads this
    {
      Tracker(amin, amax, depth, holes)
    }

    function Run(): RunState
      reads this
    {
      RunState(rdptr, depth, halted)
    }

    /** The first word of the packet at the read pointer. */
    function Command(): bv32
      reads this, ram
      requires rdptr / 4 < ram.Length
    {
      ram[rdptr / 4]
    }

    /** The counters after a write to `addr` has been tracked, if tracking is on. */
    function Tracked(addr: U32): Tracker
      reads this
    {
      if countHoles then TrackWrite(Counters(), base, addr) else Counters()
    }

    constructor(ram: array<bv32>, base: U32, end: U32, countHoles: bool)
      requires end <= 4 * ram.Length && base % 4 == 0
      ensures Valid() && this.ram == ram && this.base == base && this.end == end
      ensures this.countHoles == countHoles && rdptr == base && depth == 0 && holes == 0
      ensures amin == Wrap32(base - 4) && amax == Wrap32(base - 4) && !opPending && !halted
      ensures Consistent(Counters(), {})
      ensures TrackWrite(Counters(), base, base) == Tracker(base, base, 1, 0)
    {
      FreshWindowFirstWrite(base, 0);
      this.ram := ram;
      this.base := base;
      this.end := end;
      this.countHoles := countHoles;
      rdptr := base;
      amin := Wrap32(base - 4);
      amax := Wrap32(base - 4);
      depth := 0;
      holes := 0;
      opPending := false;
      halted := false;
    }

    /** The length of the packet at the read pointer, counting bits the way the device does. */
    method ComputeExpectedDepth() returns (d: nat)
      requires rdptr / 4 < ram.Length
      ensures d == ExpectedDepth(Command())
    {
      var command := ram[rdptr / 4];
      match PacketType(command) {
      case 0 =>
        d := if JumpFunction(command) == 4 then 2 else 1;
      case 1 =>
        d := 1 + WordCount(command);
      case 2 =>
        var count := CountSetBits(command, 3, 31);
        d := 1 + count;
      case 3 =>
        var count := CountVertexWords(command);
        count := count * VertexCount(command);
        d := 1 + count + DummyCount(command);
      case 4 =>
        var count := CountSetBits(command, 15, 28);
        d := 1 + count + DummyCount(command);
      case 5 =>
        d := 2 + DataCount(command);
      case _ =>
        d := 1;
      }
    }

    /**
     * Runs the packet at the read pointer as far as the words it consumes:
     * the read pointer ends past the packet, or at the jump target.
     * `cycles` is the cost the packet's register and memory writes report.
     */
    method Execute(cycles: nat) returns (r: nat)
      requires rdptr / 4 < ram.Length
      modifies this`rdptr, this`halted
      ensures AfterPacket(old(rdptr), old(halted), old(Command()), rdptr, halted)
      ensures r == if 1 <= PacketType(old(Command())) <= 5 then cycles else 0
    {
      var command := ram[rdptr / 4];
      ghost var next := NextReadPointer(rdptr, command);
      var src := rdptr / 4 + 1;
      r := 0;
      match PacketType(command) {
      case 0 =>
        var target := JumpTarget(command);
        match JumpFunction(command) {
        case 0 =>
        case 1 =>
          src := target / 4;
          JumpLands(target);
        case 3 =>
          src := target / 4;
          JumpLands(target);
        case _ =>
          halted := true;
          return;
        }
      case 1 =>
        src := SkipWords(src, WordCount(command));
        SteppedOver(rdptr, command, src);
        r := cycles;
      case 2 =>
        src := SkipMaskedWords(command, src, 3, 31);
        SteppedOver(rdptr, command, src);
        r := cycles;
      case 3 =>
        src := SkipVertices(command, src);
        src := src + DummyCount(command);
        SteppedOver(rdptr, command, src);
        r := cycles;
      case 4 =>
        src := SkipMaskedWords(command, src, 15, 28);
        src := src + DummyCount(command);
        SteppedOver(rdptr, command, src);
        r := cycles;
      case 5 =>
        src := src + 1;
        src := SkipWords(src, DataCount(command));
        SteppedOver(rdptr, command, src);
        r := cycles;
      case _ =>
        SteppedOver(rdptr, command, src);
      }
      assert next == Some(Wrap32(4 * src));
      rdptr := Wrap32(4 * src);
    }
 
    /**
     * Runs the packet at the read pointer if the FIFO holds all of it and
     * takes its words off the depth; -1 when there is nothing to run yet.
     */
    method ExecuteIfReady(cycles: nat) returns (r: int)
      requires depth != 0 ==> rdptr / 4 < ram.Length
      modifies this`rdptr, this`halted, this`depth
      ensures old(depth) == 0 ==> r == -1 && Run() == old(Run())
      ensures old(depth) != 0 ==> (Run(), r) == RunIfReady(old(Run()), old(Command()), cycles)
    {
      if depth == 0 {
        return -1;
      }
      var needed := ComputeExpectedDepth();
      if depth < needed {
        return -1;
      }
      var c := Execute(cycles);
      depth := depth - needed;
      r := c;
    }

    /** Hole counting for one write, when it is switched on. */
    method CountWrite(addr: U32)
      modifies this`amin, this`amax, this`depth, this`holes
      ensures Counters() == old(Tracked(addr))
    {
      if countHoles {
        var t := TrackWrite(Counters(), base, addr);
        amin, amax, depth, holes := t.amin, t.amax, t.depth, t.holes;
      }
    }

    /**
     * The host writes `data` to word `offset` of the FIFO: the word is stored
     * if it lies before the FIFO's end, the write is tracked, and unless a
     * packet is still running the next packet runs if it is complete, which
     * marks an operation pending when it reports a cost.
     */
    method Write(offset: U32, data: bv32, cycles: nat)
      requires Valid()
      requires !opPending && Tracked(Wrap32(base + offset * 4)).depth != 0 ==> rdptr / 4 < ram.Length
      modifies this, ram
      ensures Valid() && ram == old(ram) && base == old(base) && end == old(end) && countHoles == old(countHoles)
      ensures var addr := Wrap32(base + offset * 4);
        ram[..] == if addr < end then old(ram[..])[addr / 4 := data] else old(ram[..])
      ensures var t := old(Tracked(Wrap32(base + offset * 4)));
        amin == t.amin && amax == t.amax && holes == t.holes
      ensures var s := old(Run()).(depth := old(Tracked(Wrap32(base + offset * 4))).depth);
        if old(opPending) || s.depth == 0 then Run() == s && opPending == old(opPending)
        else
          var (after, r) := RunIfReady(s, ram[s.rdptr / 4], cycles);
          Run() == after && opPending == (r > 0)
    {
      var addr := Wrap32(base + offset * 4);
      if addr < end {
        ram[addr / 4] := data;
      }
      CountWrite(addr);
      if !opPending {
        var c := ExecuteIfReady(cycles);
        if c > 0 {
          opPending := true;
        }
      }
    }
  }
}
