/**
 * The VGA adapter's state (`VGABase`): the CRTC, graphics-controller,
 * sequencer and attribute register banks with their per-register write
 * masks, the attribute address/data flip-flop, the DAC palette state
 * machine, the 32-bit latch and the planar video memory, with the port and
 * memory handlers that update them in place, `Reset`, and the snapshot
 * save/load.
 *
 * Register numbering and bit positions are the standard VGA ones; the
 * storage of each bank holds exactly the bank's register count.
 */
module Vga {
  import opened Wrappers
  import opened VgaPlanes
  import opened VgaLogic
  import opened Serial
  import opened Word32
  import opened VramAddress

  const CrtcRegisterCount: nat := 0x19
  const GraphicsRegisterCount: nat := 9
  const SequencerRegisterCount: nat := 5
  const AttributeRegisterCount: nat := 0x15
  const PaletteSize: nat := 256

  // Graphics-controller register indices.
  const GraphicsSetReset: nat := 0
  const GraphicsEnableSetReset: nat := 1
  const GraphicsColorCompare: nat := 2
  const GraphicsDataRotate: nat := 3
  const GraphicsReadMapSelect: nat := 4
  const GraphicsMode: nat := 5
  const GraphicsMiscellaneous: nat := 6
  const GraphicsColorDontCare: nat := 7
  const GraphicsBitMask: nat := 8

  // Sequencer register indices.
  const SequencerClockingMode: bv8 := 1
  const SequencerPlaneMask: nat := 2
  const SequencerMemoryMode: nat := 4

  /** The write masks `Reset` installs. */
  const GraphicsMasksAtReset: seq<bv8> := [0x0f, 0x0f, 0x0f, 0x1f, 0x03, 0x7b, 0x0f, 0x0f, 0xff]
  const SequencerMasksAtReset: seq<bv8> := [0x03, 0x3d, 0x0f, 0x3f, 0x0e]
  const AttributeMasksAtReset: seq<bv8> :=
    [0x3f, 0x3f, 0x3f, 0x3f, 0x3f, 0x3f, 0x3f, 0x3f, 0x3f, 0x3f, 0x3f, 0x3f, 0x3f, 0x3f, 0x3f, 0x3f,
     0xff, 0xff, 0xff, 0xff, 0xff]

  // ---------------------------------------------------------------------
  // Register banks

  /** `n` registers all holding `v`. */
  function Filled(n: nat, v: bv8): (r: seq<bv8>)
    ensures |r| == n && forall i :: 0 <= i < n ==> r[i] == v
  {
    seq(n, _ => v)
  }

  /** An index register with the data registers and write masks it selects. */
  datatype RegisterBank = RegisterBank(values: seq<bv8>, masks: seq<bv8>, index: bv8)

  predicate BankOfSize(b: RegisterBank, n: nat)
  {
    |b.values| == n && |b.masks| == n
  }

  /** Bits set in `mask` from `value`, the others from `previous`. */
  function MaskedMerge(value: bv8, previous: bv8, mask: bv8): (r: bv8)
    ensures r & mask == value & mask
    ensures r & !mask == previous & !mask
  {
    (value & mask) | (previous & !mask)
  }

  /** A data-port read: the selected register, or 0 when the index is past the bank. */
  function ReadData(b: RegisterBank): (r: bv8)
    ensures b.index as int < |b.values| ==> r == b.values[b.index]
    ensures b.index as int >= |b.values| ==> r == 0
  {
    if b.index as int < |b.values| then b.values[b.index] else 0
  }

  /** A data-port write through the register's mask; nothing changes when the index is past the bank. */
  function WriteMasked(b: RegisterBank, value: bv8): (r: RegisterBank)
    requires |b.values| == |b.masks|
    ensures r.masks == b.masks && r.index == b.index && |r.values| == |b.values|
    ensures b.index as int >= |b.values| ==> r == b
    ensures forall i :: 0 <= i < |b.values| && i != b.index as int ==> r.values[i] == b.values[i]
  {
    if b.index as int < |b.values| then
      var i := b.index as int;
      b.(values := b.values[i := MaskedMerge(value, b.values[i], b.masks[i])])
    else b
  }

  /** A data-port write that stores the value as given (the graphics controller). */
  function WriteRaw(b: RegisterBank, value: bv8): (r: RegisterBank)
    ensures r.masks == b.masks && r.index == b.index && |r.values| == |b.values|
    ensures b.index as int >= |b.values| ==> r == b
    ensures forall i :: 0 <= i < |b.values| && i != b.index as int ==> r.values[i] == b.values[i]
  {
    if b.index as int < |b.values| then b.(values := b.values[b.index as int := value]) else b
  }

  /** Reading back a masked write gives the written bits under the mask and the previous bits elsewhere. */
  lemma ReadAfterWriteMasked(b: RegisterBank, value: bv8)
    requires |b.values| == |b.masks|
    ensures var r := ReadData(WriteMasked(b, value));
            b.index as int < |b.values| ==>
              r & b.masks[b.index] == value & b.masks[b.index] &&
              r & !b.masks[b.index] == ReadData(b) & !b.masks[b.index]
    ensures b.index as int >= |b.values| ==> ReadData(WriteMasked(b, value)) == 0
  {
  }

  /** With a full mask the value is stored as given; with an empty one the register keeps its value. */
  lemma WriteMaskedExtremes(b: RegisterBank, value: bv8)
    requires |b.values| == |b.masks| && b.index as int < |b.values|
    ensures b.masks[b.index] == 0xFF ==> ReadData(WriteMasked(b, value)) == value
    ensures b.masks[b.index] == 0 ==> WriteMasked(b, value) == b
  {
    var i := b.index as int;
    if b.masks[i] == 0 {
      assert MaskedMerge(value, b.values[i], 0) == b.values[i];
      assert b.values[i := b.values[i]] == b.values;
    }
  }

  /** The graphics controller stores the raw byte: reading back gives it whatever the mask. */
  lemma ReadAfterWriteRaw(b: RegisterBank, value: bv8)
    requires b.index as int < |b.values|
    ensures ReadData(WriteRaw(b, value)) == value
  {
  }

  /** CRTC registers whose write marks the display timing as changed. */
  predicate IsCrtcTimingRegister(i: bv8)
  {
    i <= 0x07 || (0x10 <= i && i <= 0x12) || i == 0x15 || i == 0x16
  }

  // ---------------------------------------------------------------------
  // Attribute controller

  /** One write to the combined attribute address/data port: an address write when the flip-flop is clear, a data write when it is set. */
  function AttributeWrite(b: RegisterBank, flipflop: bool, value: bv8): (r: (RegisterBank, bool))
    requires |b.values| == |b.masks|
    ensures r.1 == !flipflop
    ensures !flipflop ==> r.0 == b.(index := value & 0x1F)
    ensures flipflop ==> r.0 == WriteMasked(b, value)
  {
    if !flipflop then (b.(index := value & 0x1F), true) else (WriteMasked(b, value), false)
  }

  /** An address write followed by a data write stores the data at the addressed register and leaves the port expecting an address again. */
  lemma AttributeAddressThenData(b: RegisterBank, address: bv8, data: bv8)
    requires BankOfSize(b, AttributeRegisterCount)
    ensures var (b1, f1) := AttributeWrite(b, false, address);
            var (b2, f2) := AttributeWrite(b1, f1, data);
            !f2 && b2.index == address & 0x1F && b2.masks == b.masks &&
            ((address & 0x1F) as int < AttributeRegisterCount ==>
               b2.values == b.values[(address & 0x1F) as int := MaskedMerge(data, b.values[(address & 0x1F) as int], b.masks[(address & 0x1F) as int])]) &&
            ((address & 0x1F) as int >= AttributeRegisterCount ==> b2.values == b.values)
  {
  }

  // ---------------------------------------------------------------------
  // DAC

  /**
   * The palette component selected by the colour index.  The source shifts by
   * `color_index * 8` truncated to a byte; a 32-bit x86 shift uses the count
   * modulo 32, so the component is the byte `color_index mod 4`.
   */
  function DacComponent(color: bv32, colorIndex: bv8): bv8
  {
    Plane(color, (colorIndex & 3) as bv32)
  }

  /** The palette entry with the selected component replaced by `value`. */
  function ReplaceComponent(color: bv32, colorIndex: bv8, value: bv8): (r: bv32)
  {
    var shift := ((colorIndex & 3) as bv32) << 3;
    (color & !(0xFF << shift)) | ((value as bv32) << shift)
  }

  /** The replaced component reads back as the value. */
  lemma ReplaceComponentReads(color: bv32, colorIndex: bv8, value: bv8)
    ensures DacComponent(ReplaceComponent(color, colorIndex, value), colorIndex) == value
  {
  }

  /** The other components are unchanged. */
  lemma ReplaceComponentKeepsOthers(color: bv32, colorIndex: bv8, value: bv8, other: bv8)
    requires other & 3 != colorIndex & 3
    ensures DacComponent(ReplaceComponent(color, colorIndex, value), other) == DacComponent(color, other)
  {
  }

  /** The colour index and palette address after one data access: after the third component the index returns to 0 and the address moves on, modulo the 256-entry palette. */
  function DacAdvance(colorIndex: bv8, address: bv8): (r: (bv8, bv8))
    ensures colorIndex < 2 ==> r == (colorIndex + 1, address)
    ensures 2 <= colorIndex < 0xFF ==> r == (0, address + 1)
    ensures colorIndex == 0xFF ==> r == (0, address)
  {
    var next := colorIndex + 1;
    if next >= 3 then (0, address + 1) else (next, address)
  }

  /** Three accesses from index 0 visit components 0, 1 and 2 of one entry and end at index 0 of the next entry. */
  lemma DacThreeAccesses(address: bv8)
    ensures DacAdvance(0, address) == (1, address)
    ensures DacAdvance(1, address) == (2, address)
    ensures DacAdvance(2, address) == (0, address + 1)
  {
  }

  // ---------------------------------------------------------------------
  // Video memory

  /**
   * The four bytes from `a` as a little-endian word (the latch load).  A word
   * that starts in the last three bytes continues at the start of memory.
   */
  function WordAt(vram: seq<bv8>, a: int): bv32
    requires 4 <= |vram| && 0 <= a < |vram|
  {
    var n := |vram|;
    DecodeU32([vram[a], vram[WordByte(a, 1, n)], vram[WordByte(a, 2, n)], vram[WordByte(a, 3, n)]])
  }

  /** Whether byte `i` is one of the four bytes of the word from `a`. */
  predicate InWord(i: int, a: int, n: nat)
    requires 0 <= a < n && 4 <= n
  {
    i == a || i == WordByte(a, 1, n) || i == WordByte(a, 2, n) || i == WordByte(a, 3, n)
  }

  /** Memory with the four bytes from `a` replaced by the word, little-endian. */
  function StoreWord(vram: seq<bv8>, a: int, w: bv32): (r: seq<bv8>)
    requires 4 <= |vram| && 0 <= a < |vram|
    ensures |r| == |vram|
    ensures forall i :: 0 <= i < |vram| && !InWord(i, a, |vram|) ==> r[i] == vram[i]
  {
    var n, b := |vram|, EncodeU32(w);
    vram[a := b[0]][WordByte(a, 1, n) := b[1]][WordByte(a, 2, n) := b[2]][WordByte(a, 3, n) := b[3]]
  }

  /** A stored word reads back, wherever it starts. */
  lemma WordAtStoreWord(vram: seq<bv8>, a: int, w: bv32)
    requires 4 <= |vram| && 0 <= a < |vram|
    ensures WordAt(StoreWord(vram, a, w), a) == w
  {
    var n, r := |vram|, StoreWord(vram, a, w);
    assert [r[a], r[WordByte(a, 1, n)], r[WordByte(a, 2, n)], r[WordByte(a, 3, n)]] == EncodeU32(w);
    DecodeEncodeU32(w);
  }

  /** The source's latch access: a four-byte copy starting at `a`, which must end inside memory. */
  function CopiedWordAt(vram: seq<bv8>, a: int): bv32
    requires 0 <= a && a + 4 <= |vram|
  {
    DecodeU32(vram[a..a + 4])
  }

  /**
   * Wherever the four-byte copy stays inside memory, the word load and store
   * are exactly that copy.
   */
  lemma WordAtMatchesCopy(vram: seq<bv8>, a: int, w: bv32)
    requires 4 <= |vram| && 0 <= a && a + 4 <= |vram|
    ensures WordAt(vram, a) == CopiedWordAt(vram, a)
    ensures StoreWord(vram, a, w) == vram[..a] + EncodeU32(w) + vram[a + 4..]
  {
    var n := |vram|;
    assert vram[a..a + 4] == [vram[a], vram[WordByte(a, 1, n)], vram[WordByte(a, 2, n)], vram[WordByte(a, 3, n)]];
    var r, c := StoreWord(vram, a, w), vram[..a] + EncodeU32(w) + vram[a + 4..];
    forall i | 0 <= i < n
      ensures r[i] == c[i]
    {
      if a <= i < a + 4 {
        assert c[i] == EncodeU32(w)[i - a];
      }
    }
  }

  /** The graphics-controller fields the planar write path reads. */
  function WriteSettingsOf(g: seq<bv8>): (w: WriteSettings)
    requires |g| == GraphicsRegisterCount
    ensures WellFormed(w)
  {
    WriteSettings(
      writeMode := g[GraphicsMode] & 0x03,
      setReset := g[GraphicsSetReset] & 0x0F,
      enableSetReset := g[GraphicsEnableSetReset] & 0x0F,
      bitMask := g[GraphicsBitMask],
      rotateCount := g[GraphicsDataRotate] & 0x07,
      logicOp := (g[GraphicsDataRotate] >> 3) & 0x03)
  }

  predicate Chain4(s: seq<bv8>)
    requires |s| == SequencerRegisterCount
  {
    s[SequencerMemoryMode] & 0x08 != 0
  }

  /** Odd/even host addressing is selected when the sequencer's odd/even-disable bit is clear. */
  predicate HostOddEven(s: seq<bv8>)
    requires |s| == SequencerRegisterCount
  {
    s[SequencerMemoryMode] & 0x04 == 0
  }

  /** Whether plane `plane` (0..3) is enabled in the sequencer's plane mask. */
  predicate PlaneWriteEnabled(s: seq<bv8>, plane: int)
    requires |s| == SequencerRegisterCount && 0 <= plane < 4
  {
    s[SequencerPlaneMask] & (if plane == 0 then 1 else if plane == 1 then 2 else if plane == 2 then 4 else 8) != 0
  }

  function PlaneIndex(k: int): bv32
    requires 0 <= k < 4
  {
    if k == 0 then 0 else if k == 1 then 1 else if k == 2 then 2 else 3
  }

  /** `HandleVGAVRAMWrite`: video memory after the host writes `value` at `offset`. */
  function VramWrite(vram: seq<bv8>, s: seq<bv8>, g: seq<bv8>, latch: bv32, segmentBase: U32, offset: U32, value: bv8): (r: seq<bv8>)
    requires VramSizeOk(|vram|) && |s| == SequencerRegisterCount && |g| == GraphicsRegisterCount
    ensures |r| == |vram|
  {
    if Chain4(s) then
      if PlaneWriteEnabled(s, offset % 4) then vram[Chain4Address(segmentBase, offset, |vram|) := value] else vram
    else if HostOddEven(s) then
      if PlaneWriteEnabled(s, offset % 2) then vram[OddEvenAddress(segmentBase, offset, |vram|) := value] else vram
    else
      var a := PlanarAddress(segmentBase, offset, |vram|);
      var written := WriteModeValue(WriteSettingsOf(g), latch, value);
      StoreWord(vram, a, MergePlanes(written, WordAt(vram, a), (s[SequencerPlaneMask] & 0x0F) as bv32))
  }

  /** A planar write changes only the addressed word. */
  lemma PlanarWriteFrame(vram: seq<bv8>, s: seq<bv8>, g: seq<bv8>, latch: bv32, segmentBase: U32, offset: U32, value: bv8, i: int)
    requires VramSizeOk(|vram|) && |s| == SequencerRegisterCount && |g| == GraphicsRegisterCount
    requires !Chain4(s) && !HostOddEven(s)
    requires 0 <= i < |vram| && !InWord(i, PlanarAddress(segmentBase, offset, |vram|), |vram|)
    ensures VramWrite(vram, s, g, latch, segmentBase, offset, value)[i] == vram[i]
  {
  }

  /** The word a planar write stores: the write-mode result in the enabled planes, the previous contents in the others. */
  lemma PlanarWriteStores(vram: seq<bv8>, s: seq<bv8>, g: seq<bv8>, latch: bv32, segmentBase: U32, offset: U32, value: bv8)
    requires VramSizeOk(|vram|) && |s| == SequencerRegisterCount && |g| == GraphicsRegisterCount
    requires !Chain4(s) && !HostOddEven(s)
    ensures var a := PlanarAddress(segmentBase, offset, |vram|);
            WordAt(VramWrite(vram, s, g, latch, segmentBase, offset, value), a) ==
            MergePlanes(WriteModeValue(WriteSettingsOf(g), latch, value), WordAt(vram, a), (s[SequencerPlaneMask] & 0x0F) as bv32)
  {
    var a := PlanarAddress(segmentBase, offset, |vram|);
    WordAtStoreWord(vram, a, MergePlanes(WriteModeValue(WriteSettingsOf(g), latch, value), WordAt(vram, a), (s[SequencerPlaneMask] & 0x0F) as bv32));
  }

  /** A chain-4 or odd/even write to a disabled plane changes nothing; to an enabled plane it changes one byte. */
  lemma LinearWriteFrame(vram: seq<bv8>, s: seq<bv8>, g: seq<bv8>, latch: bv32, segmentBase: U32, offset: U32, value: bv8)
    requires VramSizeOk(|vram|) && |s| == SequencerRegisterCount && |g| == GraphicsRegisterCount
    requires Chain4(s)
    ensures var r := VramWrite(vram, s, g, latch, segmentBase, offset, value);
            var a := Chain4Address(segmentBase, offset, |vram|);
            (PlaneWriteEnabled(s, offset % 4) ==> r == vram[a := value]) &&
            (!PlaneWriteEnabled(s, offset % 4) ==> r == vram)
  {
  }

  // Reads

  /** The result of `HandleVGAVRAMRead`: the byte returned and the new latch. */
  datatype ReadResult = ReadResult(value: bv8, latch: bv32)

  /** The planar offset the latch is loaded from: the host offset, made even in odd/even mode. */
  function PlanarReadOffset(g: seq<bv8>, offset: U32): U32
    requires |g| == GraphicsRegisterCount
  {
    if g[GraphicsMiscellaneous] & 0x02 == 0 then offset else offset - offset % 2
  }

  /** The plane read mode 0 returns: the read map select register, or in odd/even mode its bit 1 with bit 0 of the offset. */
  function ReadPlane(g: seq<bv8>, offset: U32): (p: bv32)
    requires |g| == GraphicsRegisterCount
    ensures p < 4
  {
    if g[GraphicsMiscellaneous] & 0x02 == 0 then (g[GraphicsReadMapSelect] & 0x03) as bv32
    else ((g[GraphicsReadMapSelect] & 0x02) as bv32) | PlaneIndex(offset % 2)
  }

  /** The byte a planar read returns from the loaded latch: read mode 1 compares colours, read mode 0 returns one plane. */
  function ReadValue(g: seq<bv8>, latch: bv32, offset: U32): bv8
    requires |g| == GraphicsRegisterCount
  {
    if g[GraphicsMode] & 0x08 != 0 then
      ColorCompare(latch, (g[GraphicsColorCompare] & 0x0F) as bv32, (g[GraphicsColorDontCare] & 0x0F) as bv32)
    else
      Plane(latch, ReadPlane(g, offset))
  }

  /** `HandleVGAVRAMRead`, with the planar latch address computed as the write path computes it (see `AsWrittenPlanarReadAddress`). */
  function VramRead(vram: seq<bv8>, s: seq<bv8>, g: seq<bv8>, segmentBase: U32, offset: U32): ReadResult
    requires VramSizeOk(|vram|) && |s| == SequencerRegisterCount && |g| == GraphicsRegisterCount
  {
    if Chain4(s) then
      var latch := WordAt(vram, Chain4WordAddress(segmentBase, offset, |vram|));
      ReadResult(Plane(latch, PlaneIndex(offset % 4)), latch)
    else
      var latch := WordAt(vram, PlanarAddress(segmentBase, PlanarReadOffset(g, offset), |vram|));
      ReadResult(ReadValue(g, latch, offset), latch)
  }

  /** A planar read after a planar write at the same offset loads the latch with the word the write stored. */
  lemma PlanarWriteThenRead(vram: seq<bv8>, s: seq<bv8>, g: seq<bv8>, latch: bv32, segmentBase: U32, offset: U32, value: bv8)
    requires VramSizeOk(|vram|) && |s| == SequencerRegisterCount && |g| == GraphicsRegisterCount
    requires !Chain4(s) && !HostOddEven(s)
    requires g[GraphicsMiscellaneous] & 0x02 == 0
    ensures var a := PlanarAddress(segmentBase, offset, |vram|);
            VramRead(VramWrite(vram, s, g, latch, segmentBase, offset, value), s, g, segmentBase, offset).latch ==
            MergePlanes(WriteModeValue(WriteSettingsOf(g), latch, value), WordAt(vram, a), (s[SequencerPlaneMask] & 0x0F) as bv32)
  {
    PlanarWriteStores(vram, s, g, latch, segmentBase, offset, value);
  }

  /** In chain-4 mode a byte written to an enabled plane reads back. */
  lemma Chain4WriteThenRead(vram: seq<bv8>, s: seq<bv8>, g: seq<bv8>, latch: bv32, segmentBase: U32, offset: U32, value: bv8)
    requires VramSizeOk(|vram|) && |s| == SequencerRegisterCount && |g| == GraphicsRegisterCount
    requires Chain4(s) && PlaneWriteEnabled(s, offset % 4)
    ensures VramRead(VramWrite(vram, s, g, latch, segmentBase, offset, value), s, g, segmentBase, offset).value == value
  {
    var n := |vram|;
    var w := Chain4WordAddress(segmentBase, offset, n);
    var k := offset % 4;
    Chain4AddressSplit(segmentBase, offset, n);
    var r := vram[Chain4Address(segmentBase, offset, n) := value];
    assert r[WordByte(w, k, n)] == value;
    PlaneOfWord(r, w, k);
  }

  /** Plane `k` of the word from `w` is the word's byte `k`. */
  lemma PlaneOfWord(vram: seq<bv8>, w: int, k: int)
    requires 4 <= |vram| && 0 <= w < |vram| && 0 <= k < 4
    ensures Plane(WordAt(vram, w), PlaneIndex(k)) == vram[WordByte(w, k, |vram|)]
  {
    var n := |vram|;
    DecodePlanes(vram[w], vram[WordByte(w, 1, n)], vram[WordByte(w, 2, n)], vram[WordByte(w, 3, n)]);
  }

  /** The four planes of a little-endian word are its four bytes. */
  lemma DecodePlanes(b0: bv8, b1: bv8, b2: bv8, b3: bv8)
    ensures var w := DecodeU32([b0, b1, b2, b3]);
            Plane(w, 0) == b0 && Plane(w, 1) == b1 && Plane(w, 2) == b2 && Plane(w, 3) == b3
  {
  }

  // ---------------------------------------------------------------------
  // Snapshot

  /** Everything `SaveState` writes after the tag. */
  datatype Snapshot = Snapshot(
    latch: bv32, vram: seq<bv8>,
    crtc: RegisterBank, graphics: RegisterBank,
    miscOutput: bv8, featureControl: bv8,
    attribute: RegisterBank, attributeFlipflop: bool,
    sequencer: RegisterBank,
    dacPalette: seq<bv32>, dacState: bv8, dacWriteAddress: bv8, dacReadAddress: bv8, dacColorIndex: bv8,
    outputPalette: seq<bv32>, cursorCounter: bv8, cursorState: bool)

  predicate SnapshotOfSize(s: Snapshot, vramSize: nat)
  {
    |s.vram| == vramSize &&
    BankOfSize(s.crtc, CrtcRegisterCount) && BankOfSize(s.graphics, GraphicsRegisterCount) &&
    BankOfSize(s.attribute, AttributeRegisterCount) && BankOfSize(s.sequencer, SequencerRegisterCount) &&
    |s.dacPalette| == PaletteSize && |s.outputPalette| == PaletteSize
  }

  /** A register bank is written as its data registers, its masks, then its index. */
  function BankFields(b: RegisterBank): seq<Field>
  {
    [Bytes(b.values), Bytes(b.masks), U8(b.index)]
  }

  function BankLayout(count: nat): seq<Kind>
  {
    [KBytes(count), KBytes(count), KU8]
  }

  /** The fields in the order `SaveState` writes them. */
  function SnapshotFields(s: Snapshot): seq<Field>
  {
    [U32(s.latch), Bytes(s.vram)] +
    BankFields(s.crtc) + BankFields(s.graphics) +
    [U8(s.miscOutput), U8(s.featureControl)] +
    (BankFields(s.attribute) + [Flag(s.attributeFlipflop)]) +
    BankFields(s.sequencer) +
    [Words(s.dacPalette), U8(s.dacState), U8(s.dacWriteAddress), U8(s.dacReadAddress), U8(s.dacColorIndex)] +
    [Words(s.outputPalette), U8(s.cursorCounter), Flag(s.cursorState)]
  }

  /** The kinds `LoadState` reads, in the same order. */
  function Layout(vramSize: nat): seq<Kind>
  {
    [KU32, KBytes(vramSize)] +
    BankLayout(CrtcRegisterCount) + BankLayout(GraphicsRegisterCount) +
    [KU8, KU8] +
    (BankLayout(AttributeRegisterCount) + [KFlag]) +
    BankLayout(SequencerRegisterCount) +
    [KWords(PaletteSize), KU8, KU8, KU8, KU8] +
    [KWords(PaletteSize), KU8, KFlag]
  }

  lemma SnapshotConforms(s: Snapshot, n: nat)
    requires SnapshotOfSize(s, n)
    ensures Conforms(SnapshotFields(s), Layout(n))
  {
    var f1, k1 := [U32(s.latch), Bytes(s.vram)], [KU32, KBytes(n)];
    ConformsAppend(f1, k1, BankFields(s.crtc), BankLayout(CrtcRegisterCount));
    var f2, k2 := f1 + BankFields(s.crtc), k1 + BankLayout(CrtcRegisterCount);
    ConformsAppend(f2, k2, BankFields(s.graphics), BankLayout(GraphicsRegisterCount));
    var f3, k3 := f2 + BankFields(s.graphics), k2 + BankLayout(GraphicsRegisterCount);
    ConformsAppend(f3, k3, [U8(s.miscOutput), U8(s.featureControl)], [KU8, KU8]);
    var f4, k4 := f3 + [U8(s.miscOutput), U8(s.featureControl)], k3 + [KU8, KU8];
    ConformsAppend(BankFields(s.attribute), BankLayout(AttributeRegisterCount), [Flag(s.attributeFlipflop)], [KFlag]);
    ConformsAppend(f4, k4, BankFields(s.attribute) + [Flag(s.attributeFlipflop)], BankLayout(AttributeRegisterCount) + [KFlag]);
    var f5, k5 := f4 + (BankFields(s.attribute) + [Flag(s.attributeFlipflop)]), k4 + (BankLayout(AttributeRegisterCount) + [KFlag]);
    ConformsAppend(f5, k5, BankFields(s.sequencer), BankLayout(SequencerRegisterCount));
    var f6, k6 := f5 + BankFields(s.sequencer), k5 + BankLayout(SequencerRegisterCount);
    var d := [Words(s.dacPalette), U8(s.dacState), U8(s.dacWriteAddress), U8(s.dacReadAddress), U8(s.dacColorIndex)];
    var dk := [KWords(PaletteSize), KU8, KU8, KU8, KU8];
    ConformsAppend(f6, k6, d, dk);
    ConformsAppend(f6 + d, k6 + dk, [Words(s.outputPalette), U8(s.cursorCounter), Flag(s.cursorState)], [KWords(PaletteSize), KU8, KFlag]);
  }

  /** The fields of a decoded snapshot, by position: their types and block sizes. */
  lemma LayoutKinds(fs: seq<Field>, n: nat)
    requires Conforms(fs, Layout(n))
    ensures |fs| == 25
    ensures fs[0].U32? && fs[1].Bytes? && |fs[1].bytes| == n && fs[2].Bytes? && |fs[2].bytes| == CrtcRegisterCount
    ensures fs[3].Bytes? && |fs[3].bytes| == CrtcRegisterCount && fs[4].U8? && fs[5].Bytes? && |fs[5].bytes| == GraphicsRegisterCount
    ensures fs[6].Bytes? && |fs[6].bytes| == GraphicsRegisterCount && fs[7].U8? && fs[8].U8?
    ensures fs[9].U8? && fs[10].Bytes? && |fs[10].bytes| == AttributeRegisterCount && fs[11].Bytes? && |fs[11].bytes| == AttributeRegisterCount
    ensures fs[12].U8? && fs[13].Flag? && fs[14].Bytes? && |fs[14].bytes| == SequencerRegisterCount
    ensures fs[15].Bytes? && |fs[15].bytes| == SequencerRegisterCount && fs[16].U8? && fs[17].Words? && |fs[17].words| == PaletteSize
    ensures fs[18].U8? && fs[19].U8? && fs[20].U8?
    ensures fs[21].U8? && fs[22].Words? && |fs[22].words| == PaletteSize && fs[23].U8?
    ensures fs[24].Flag?
  {
    var ks := Layout(n);
    assert HasKind(fs[0], ks[0]);
    assert HasKind(fs[1], ks[1]);
    assert HasKind(fs[2], ks[2]);
    assert HasKind(fs[3], ks[3]);
    assert HasKind(fs[4], ks[4]);
    assert HasKind(fs[5], ks[5]);
    assert HasKind(fs[6], ks[6]);
    assert HasKind(fs[7], ks[7]);
    assert HasKind(fs[8], ks[8]);
    assert HasKind(fs[9], ks[9]);
    assert HasKind(fs[10], ks[10]);
    assert HasKind(fs[11], ks[11]);
    assert HasKind(fs[12], ks[12]);
    assert HasKind(fs[13], ks[13]);
    assert HasKind(fs[14], ks[14]);
    assert HasKind(fs[15], ks[15]);
    assert HasKind(fs[16], ks[16]);
    assert HasKind(fs[17], ks[17]);
    assert HasKind(fs[18], ks[18]);
    assert HasKind(fs[19], ks[19]);
    assert HasKind(fs[20], ks[20]);
    assert HasKind(fs[21], ks[21]);
    assert HasKind(fs[22], ks[22]);
    assert HasKind(fs[23], ks[23]);
    assert HasKind(fs[24], ks[24]);
  }

  /** The snapshot a decoded field list describes. */
  function FromFields(fs: seq<Field>, n: nat): (s: Snapshot)
    requires Conforms(fs, Layout(n))
    ensures SnapshotOfSize(s, n)
  {
    LayoutKinds(fs, n);
    Snapshot(
      fs[0].word, fs[1].bytes,
      RegisterBank(fs[2].bytes, fs[3].bytes, fs[4].byte),
      RegisterBank(fs[5].bytes, fs[6].bytes, fs[7].byte),
      fs[8].byte, fs[9].byte,
      RegisterBank(fs[10].bytes, fs[11].bytes, fs[12].byte), fs[13].flag,
      RegisterBank(fs[14].bytes, fs[15].bytes, fs[16].byte),
      fs[17].words, fs[18].byte, fs[19].byte, fs[20].byte, fs[21].byte,
      fs[22].words, fs[23].byte, fs[24].flag)
  }

  /** Reading the fields of a snapshot gives the snapshot back. */
  lemma FromFieldsOfFields(s: Snapshot, n: nat)
    requires SnapshotOfSize(s, n)
    ensures Conforms(SnapshotFields(s), Layout(n)) && FromFields(SnapshotFields(s), n) == s
  {
    SnapshotConforms(s, n);
  }

  /** `SaveState`'s stream: the tag, then the fields. */
  function Serialize(tag: bv32, s: Snapshot): seq<bv8>
  {
    EncodeU32(tag) + Encode(SnapshotFields(s))
  }

  /** What `LoadState` reads: nothing unless the stream starts with the tag and holds every field. */
  function Deserialize(tag: bv32, vramSize: nat, bytes: seq<bv8>): (r: Option<Snapshot>)
    ensures r.Some? ==> SnapshotOfSize(r.value, vramSize)
    ensures (|bytes| < 4 || DecodeU32(bytes) != tag) ==> r.None?
  {
    if |bytes| < 4 || DecodeU32(bytes) != tag then None
    else
      match Decode(Layout(vramSize), bytes[4..])
      case None => None
      case Some((fs, _)) => Some(FromFields(fs, vramSize))
  }

  /** A load succeeds exactly when the stream starts with the tag and is long enough for every field. */
  lemma DeserializeSucceeds(tag: bv32, vramSize: nat, bytes: seq<bv8>)
    ensures Deserialize(tag, vramSize, bytes).Some? <==>
            |bytes| >= 4 && DecodeU32(bytes) == tag && |bytes| >= 4 + LayoutSize(Layout(vramSize))
  {
    if |bytes| >= 4 {
      DecodeLength(Layout(vramSize), bytes[4..]);
    }
  }

  /** Save then load with the same tag restores the snapshot. */
  lemma DeserializeSerialize(tag: bv32, s: Snapshot, vramSize: nat, rest: seq<bv8>)
    requires SnapshotOfSize(s, vramSize)
    ensures Deserialize(tag, vramSize, Serialize(tag, s) + rest) == Some(s)
  {
    var bytes := Serialize(tag, s) + rest;
    var body := Encode(SnapshotFields(s));
    assert bytes[..4] == EncodeU32(tag);
    DecodeEncodeU32(tag);
    assert DecodeU32(bytes) == DecodeU32(bytes[..4]);
    assert bytes[4..] == body + rest;
    FromFieldsOfFields(s, vramSize);
    DecodeEncode(SnapshotFields(s), Layout(vramSize), rest);
  }

  /** Loading with another tag than the one saved fails. */
  lemma DeserializeOtherTag(tag: bv32, other: bv32, s: Snapshot, vramSize: nat)
    requires other != tag
    ensures Deserialize(other, vramSize, Serialize(tag, s)).None?
  {
    var bytes := Serialize(tag, s);
    assert bytes[..4] == EncodeU32(tag);
    DecodeEncodeU32(tag);
    assert DecodeU32(bytes) == DecodeU32(bytes[..4]);
  }

  // ---------------------------------------------------------------------
  // The adapter

  class VgaBase {
    var crtc: RegisterBank
    var graphics: RegisterBank
    var sequencer: RegisterBank
    var attribute: RegisterBank
    var attributeFlipflop: bool
    var miscOutput: bv8
    var featureControl: bv8
    var dacPalette: array<bv32>
    var dacState: bv8
    var dacReadAddress: bv8
    var dacWriteAddress: bv8
    var dacColorIndex: bv8
    var outputPalette: seq<bv32>
    var cursorCounter: bv8
    var cursorState: bool
    var latch: bv32
    var vram: array<bv8>
    var crtcTimingChanged: bool

    predicate Valid()
      reads this
    {
      BankOfSize(crtc, CrtcRegisterCount) && BankOfSize(graphics, GraphicsRegisterCount) &&
      BankOfSize(sequencer, SequencerRegisterCount) && BankOfSize(attribute, AttributeRegisterCount) &&
      dacPalette.Length == PaletteSize && |outputPalette| == PaletteSize &&
      VramSizeOk(vram.Length)
    }

    /** An adapter with `vramSize` bytes of video memory, all registers zero. */
    constructor(vramSize: nat)
      requires VramSizeOk(vramSize)
      ensures Valid() && fresh(vram) && fresh(dacPalette) && vram.Length == vramSize
    {
      crtc := RegisterBank(Filled(CrtcRegisterCount, 0), Filled(CrtcRegisterCount, 0), 0);
      graphics := RegisterBank(Filled(GraphicsRegisterCount, 0), Filled(GraphicsRegisterCount, 0), 0);
      sequencer := RegisterBank(Filled(SequencerRegisterCount, 0), Filled(SequencerRegisterCount, 0), 0);
      attribute := RegisterBank(Filled(AttributeRegisterCount, 0), Filled(AttributeRegisterCount, 0), 0);
      attributeFlipflop := false;
      miscOutput := 0;
      featureControl := 0;
      dacPalette := new bv32[PaletteSize](_ => 0);
      dacState, dacReadAddress, dacWriteAddress, dacColorIndex := 0, 0, 0, 0;
      outputPalette := seq(PaletteSize, _ => 0);
      cursorCounter, cursorState := 0, false;
      latch := 0;
      vram := new bv8[vramSize](_ => 0);
      crtcTimingChanged := false;
    }

    /**
     * `Reset`: the write masks return to their power-on values, every data
     * register to zero, the DAC to its initial state with every palette entry
     * 0xFFFFFFFF.  The miscellaneous output register gets I/O address select 0,
     * RAM enabled, clock 0, odd/even page 0 and both sync polarities set; its
     * unused bit 4 is kept.
     */
    method Reset()
      requires Valid()
      modifies this, dacPalette
      ensures Valid()
      ensures crtc == RegisterBank(Filled(CrtcRegisterCount, 0), Filled(CrtcRegisterCount, 0xFF), old(crtc.index))
      ensures graphics == RegisterBank(Filled(GraphicsRegisterCount, 0), GraphicsMasksAtReset, old(graphics.index))
      ensures sequencer == RegisterBank(Filled(SequencerRegisterCount, 0), SequencerMasksAtReset, old(sequencer.index))
      ensures attribute == RegisterBank(Filled(AttributeRegisterCount, 0), AttributeMasksAtReset, old(attribute.index))
      ensures !attributeFlipflop && crtcTimingChanged
      ensures miscOutput == (old(miscOutput) & 0x10) | 0xC2
      ensures dacState == 0 && dacReadAddress == 0 && dacWriteAddress == 0 && dacColorIndex == 0
      ensures forall i :: 0 <= i < dacPalette.Length ==> dacPalette[i] == 0xFFFF_FFFF
      ensures cursorCounter == 0 && !cursorState
      ensures dacPalette == old(dacPalette) && vram == old(vram) && vram[..] == old(vram[..])
      ensures latch == old(latch) && featureControl == old(featureControl) && outputPalette == old(outputPalette)
    {
      ResetRegisterBanks();
      ResetControl();
      ResetDac();
    }

    /** The flip-flop, timing flag, miscellaneous output and cursor part of `Reset`. */
    method ResetControl()
      modifies this`attributeFlipflop, this`crtcTimingChanged, this`miscOutput, this`cursorCounter, this`cursorState
      ensures !attributeFlipflop && crtcTimingChanged
      ensures miscOutput == (old(miscOutput) & 0x10) | 0xC2
      ensures cursorCounter == 0 && !cursorState
    {
      attributeFlipflop, crtcTimingChanged := false, true;
      miscOutput := (miscOutput & 0x10) | 0xC2;
      cursorCounter, cursorState := 0, false;
    }

    /** The register banks' part of `Reset`: masks to their power-on values, data registers to zero, indices kept. */
    method ResetRegisterBanks()
      modifies this`crtc, this`graphics, this`sequencer, this`attribute
      ensures crtc == RegisterBank(Filled(CrtcRegisterCount, 0), Filled(CrtcRegisterCount, 0xFF), old(crtc.index))
      ensures graphics == RegisterBank(Filled(GraphicsRegisterCount, 0), GraphicsMasksAtReset, old(graphics.index))
      ensures sequencer == RegisterBank(Filled(SequencerRegisterCount, 0), SequencerMasksAtReset, old(sequencer.index))
      ensures attribute == RegisterBank(Filled(AttributeRegisterCount, 0), AttributeMasksAtReset, old(attribute.index))
    {
      crtc := RegisterBank(Filled(CrtcRegisterCount, 0), Filled(CrtcRegisterCount, 0xFF), crtc.index);
      graphics := RegisterBank(Filled(GraphicsRegisterCount, 0), GraphicsMasksAtReset, graphics.index);
      sequencer := RegisterBank(Filled(SequencerRegisterCount, 0), SequencerMasksAtReset, sequencer.index);
      attribute := RegisterBank(Filled(AttributeRegisterCount, 0), AttributeMasksAtReset, attribute.index);
    }

    /** The DAC's part of `Reset`: state, addresses and component index to zero, every palette entry to 0xFFFFFFFF. */
    method ResetDac()
      modifies this`dacState, this`dacReadAddress, this`dacWriteAddress, this`dacColorIndex, dacPalette
      ensures dacState == 0 && dacReadAddress == 0 && dacWriteAddress == 0 && dacColorIndex == 0
      ensures forall i :: 0 <= i < dacPalette.Length ==> dacPalette[i] == 0xFFFF_FFFF
    {
      dacState, dacReadAddress, dacWriteAddress, dacColorIndex := 0, 0, 0, 0;
      FillWords(dacPalette, 0xFFFF_FFFF);
    }

    // Register banks

    method CrtcDataRead() returns (value: bv8)
      ensures value == ReadData(crtc)
    {
      value := if crtc.index as int < |crtc.values| then crtc.values[crtc.index] else 0;
    }

    /** `IOCRTCDataRegisterWrite`: a masked write; a write to a timing register marks the timing as changed. */
    method CrtcDataWrite(value: bv8)
      requires Valid()
      modifies this`crtc, this`crtcTimingChanged
      ensures Valid()
      ensures crtc == WriteMasked(old(crtc), value)
      ensures crtcTimingChanged == (old(crtcTimingChanged) || (crtc.index as int < CrtcRegisterCount && IsCrtcTimingRegister(crtc.index)))
    {
      if crtc.index as int >= CrtcRegisterCount {
        return;
      }
      var i := crtc.index as int;
      crtc := crtc.(values := crtc.values[i := MaskedMerge(value, crtc.values[i], crtc.masks[i])]);
      if IsCrtcTimingRegister(crtc.index) {
        crtcTimingChanged := true;
      }
    }

    method GraphicsDataRead() returns (value: bv8)
      ensures value == ReadData(graphics)
    {
      value := if graphics.index as int < |graphics.values| then graphics.values[graphics.index] else 0;
    }

    /** `IOGraphicsRegisterWrite`: the byte is stored as given; the mask only decides which bits count as changed for the memory mapping, whose update does nothing. */
    method GraphicsDataWrite(value: bv8)
      requires Valid()
      modifies this`graphics
      ensures Valid()
      ensures graphics == WriteRaw(old(graphics), value)
    {
      if graphics.index as int >= GraphicsRegisterCount {
        return;
      }
      graphics := graphics.(values := graphics.values[graphics.index as int := value]);
    }

    method SequencerDataRead() returns (value: bv8)
      ensures value == ReadData(sequencer)
    {
      value := if sequencer.index as int < |sequencer.values| then sequencer.values[sequencer.index] else 0;
    }

    /** `IOSequencerDataRegisterWrite`: a masked write; a write to the clocking mode register marks the timing as changed. */
    method SequencerDataWrite(value: bv8)
      requires Valid()
      modifies this`sequencer, this`crtcTimingChanged
      ensures Valid()
      ensures sequencer == WriteMasked(old(sequencer), value)
      ensures crtcTimingChanged == (old(crtcTimingChanged) || (sequencer.index as int < SequencerRegisterCount && sequencer.index == SequencerClockingMode))
    {
      if sequencer.index as int >= SequencerRegisterCount {
        return;
      }
      var i := sequencer.index as int;
      sequencer := sequencer.(values := sequencer.values[i := MaskedMerge(value, sequencer.values[i], sequencer.masks[i])]);
      if sequencer.index == SequencerClockingMode {
        crtcTimingChanged := true;
      }
    }

    // Attribute controller

    method AttributeDataRead() returns (value: bv8)
      ensures value == ReadData(attribute)
    {
      value := if attribute.index as int < |attribute.values| then attribute.values[attribute.index] else 0;
    }

    /** `IOAttributeAddressDataWrite`: the flip-flop decides whether the byte is the index or the data. */
    method AttributeAddressDataWrite(value: bv8)
      requires Valid()
      modifies this`attribute, this`attributeFlipflop
      ensures Valid()
      ensures (attribute, attributeFlipflop) == AttributeWrite(old(attribute), old(attributeFlipflop), value)
    {
      if !attributeFlipflop {
        attribute := attribute.(index := value & 0x1F);
        attributeFlipflop := true;
        return;
      }
      attributeFlipflop := false;
      if attribute.index as int >= AttributeRegisterCount {
        return;
      }
      var i := attribute.index as int;
      attribute := attribute.(values := attribute.values[i := MaskedMerge(value, attribute.values[i], attribute.masks[i])]);
    }

    /**
     * `IOReadStatusRegister1`: bit 3 is the vertical retrace, bit 0 "display
     * disabled"; the read resets the attribute flip-flop to expect an address.
     * The display timing snapshot is given as the two flags.
     */
    method ReadStatusRegister1(displayActive: bool, vsyncActive: bool) returns (value: bv8)
      modifies this`attributeFlipflop
      ensures value & 0x08 != 0 <==> vsyncActive
      ensures value & 0x01 != 0 <==> !displayActive
      ensures value & 0xF6 == 0
      ensures !attributeFlipflop
    {
      value := (if vsyncActive then 0x08 else 0) | (if displayActive then 0 else 0x01);
      attributeFlipflop := false;
    }

    // DAC

    /** `IODACStateRegisterRead`: returns the state and clears it. */
    method DacStateRead() returns (value: bv8)
      modifies this`dacState
      ensures value == old(dacState) && dacState == 0
    {
      value := dacState;
      dacState := 0;
    }

    /** `IODACReadAddressWrite`. */
    method DacReadAddressWrite(value: bv8)
      modifies this`dacReadAddress, this`dacState
      ensures dacReadAddress == value && dacState == 0
    {
      dacReadAddress := value;
      dacState := dacState & 0;
    }

    /** `IODACWriteAddressRead`. */
    method DacWriteAddressRead() returns (value: bv8)
      modifies this`dacState
      ensures value == dacWriteAddress && dacState == 0
    {
      value := dacWriteAddress;
      dacState := 0;
    }

    /** `IODACWriteAddressWrite`: the write address is set, the component index restarts and both state bits are set. */
    method DacWriteAddressWrite(value: bv8)
      modifies this`dacWriteAddress, this`dacColorIndex, this`dacState
      ensures dacWriteAddress == value && dacColorIndex == 0
      ensures dacState == old(dacState) | 0x03
    {
      dacWriteAddress := value;
      dacColorIndex := 0;
      dacState := dacState | 0x03;
    }

    /** `IODACDataRegisterRead`: the selected component of the entry at the read address, then the index advances. */
    method DacDataRead() returns (value: bv8)
      requires Valid()
      modifies this`dacColorIndex, this`dacReadAddress, this`dacState
      ensures value == DacComponent(dacPalette[old(dacReadAddress)], old(dacColorIndex))
      ensures (dacColorIndex, dacReadAddress) == DacAdvance(old(dacColorIndex), old(dacReadAddress))
      ensures dacState == 0
    {
      var color := dacPalette[dacReadAddress];
      value := Plane(color, (dacColorIndex & 3) as bv32);
      dacColorIndex := dacColorIndex + 1;
      if dacColorIndex >= 3 {
        dacColorIndex := 0;
        dacReadAddress := dacReadAddress + 1;
      }
      dacState := 0;
    }

    /** `IODACDataRegisterWrite`: the value's low six bits replace the selected component of the entry at the write address, then the index advances. */
    method DacDataWrite(value: bv8)
      requires Valid()
      modifies dacPalette, this`dacColorIndex, this`dacWriteAddress, this`dacState
      ensures dacPalette[..] == old(dacPalette[..])[old(dacWriteAddress) as int :=
        ReplaceComponent(old(dacPalette[dacWriteAddress]), old(dacColorIndex), value & 0x3F)]
      ensures (dacColorIndex, dacWriteAddress) == DacAdvance(old(dacColorIndex), old(dacWriteAddress))
      ensures dacState == 0
    {
      var v := value & 0x3F;
      var a := dacWriteAddress as int;
      dacPalette[a] := ReplaceComponent(dacPalette[a], dacColorIndex, v);
      dacColorIndex := dacColorIndex + 1;
      if dacColorIndex >= 3 {
        dacColorIndex := 0;
        dacWriteAddress := dacWriteAddress + 1;
      }
      dacState := 0;
    }

    // Video memory

    /** `HandleVGAVRAMWrite`. */
    method HandleVramWrite(segmentBase: U32, offset: U32, value: bv8)
      requires Valid()
      modifies vram
      ensures vram[..] == VramWrite(old(vram[..]), sequencer.values, graphics.values, latch, segmentBase, offset, value)
    {
      var s, g := sequencer.values, graphics.values;
      var n := vram.Length;
      if Chain4(s) {
        if PlaneWriteEnabled(s, offset % 4) {
          vram[Chain4Address(segmentBase, offset, n)] := value;
        }
      } else if HostOddEven(s) {
        if PlaneWriteEnabled(s, offset % 2) {
          vram[OddEvenAddress(segmentBase, offset, n)] := value;
        }
      } else {
        var a := PlanarAddress(segmentBase, offset, n);
        var current := LoadWord(vram, a);
        var written := WriteModeValue(WriteSettingsOf(g), latch, value);
        var merged := MergePlanes(written, current, (s[SequencerPlaneMask] & 0x0F) as bv32);
        StoreWordInPlace(vram, a, merged);
      }
    }

    /** `HandleVGAVRAMRead`: loads the latch and returns the byte the read mode selects. */
    method HandleVramRead(segmentBase: U32, offset: U32) returns (value: bv8)
      requires Valid()
      modifies this`latch
      ensures ReadResult(value, latch) == VramRead(vram[..], sequencer.values, graphics.values, segmentBase, offset)
    {
      var s, g := sequencer.values, graphics.values;
      var n := vram.Length;
      if Chain4(s) {
        var a := Chain4WordAddress(segmentBase, offset, n);
        latch := LoadWord(vram, a);
        value := Plane(latch, PlaneIndex(offset % 4));
      } else {
        var a := PlanarAddress(segmentBase, PlanarReadOffset(g, offset), n);
        latch := LoadWord(vram, a);
        value := ReadValue(g, latch, offset);
      }
    }

    // Snapshot

    /** The state `SaveState` records. */
    function State(): Snapshot
      reads this, vram, dacPalette
    {
      Snapshot(
        latch, vram[..], crtc, graphics, miscOutput, featureControl, attribute, attributeFlipflop, sequencer,
        dacPalette[..], dacState, dacWriteAddress, dacReadAddress, dacColorIndex,
        outputPalette, cursorCounter, cursorState)
    }

    /**
     * `SaveState`: writes the tag followed by every field, and loading those
     * bytes back restores this state.  It reports success exactly when the
     * writer (whose error state is `writerError` once everything is written)
     * did not fail.
     */
    method SaveState(tag: bv32, writerError: bool) returns (ok: bool, bytes: seq<bv8>)
      requires Valid()
      ensures ok == !writerError
      ensures bytes == Serialize(tag, State())
      ensures Deserialize(tag, vram.Length, bytes) == Some(State())
    {
      ok := !writerError;
      bytes := EncodeU32(tag) + Encode(SnapshotFields(State()));
      DeserializeSerialize(tag, State(), vram.Length, []);
      assert bytes + [] == bytes;
    }

    /** Overwrites every recorded field with the snapshot's, copying the memory and palette contents in place. */
    method Restore(s: Snapshot)
      requires Valid() && SnapshotOfSize(s, vram.Length)
      modifies this, vram, dacPalette
      ensures Valid() && State() == s
      ensures vram == old(vram) && dacPalette == old(dacPalette) && crtcTimingChanged == old(crtcTimingChanged)
    {
      RestoreRegisterBanks(s);
      RestoreDac(s);
      RestoreOthers(s);
    }

    method RestoreRegisterBanks(s: Snapshot)
      modifies this`crtc, this`graphics, this`attribute, this`attributeFlipflop, this`sequencer
      ensures crtc == s.crtc && graphics == s.graphics && sequencer == s.sequencer
      ensures attribute == s.attribute && attributeFlipflop == s.attributeFlipflop
    {
      crtc, graphics, sequencer := s.crtc, s.graphics, s.sequencer;
      attribute, attributeFlipflop := s.attribute, s.attributeFlipflop;
    }

    method RestoreDac(s: Snapshot)
      requires dacPalette.Length == |s.dacPalette|
      modifies this`dacState, this`dacWriteAddress, this`dacReadAddress, this`dacColorIndex, dacPalette
      ensures dacState == s.dacState && dacWriteAddress == s.dacWriteAddress
      ensures dacReadAddress == s.dacReadAddress && dacColorIndex == s.dacColorIndex
      ensures dacPalette[..] == s.dacPalette
    {
      dacState, dacWriteAddress, dacReadAddress, dacColorIndex := s.dacState, s.dacWriteAddress, s.dacReadAddress, s.dacColorIndex;
      CopyWords(dacPalette, s.dacPalette);
    }

    method RestoreOthers(s: Snapshot)
      requires vram.Length == |s.vram|
      modifies this`latch, this`miscOutput, this`featureControl, this`outputPalette, this`cursorCounter, this`cursorState, vram
      ensures vram[..] == s.vram
      ensures latch == s.latch && miscOutput == s.miscOutput && featureControl == s.featureControl
      ensures outputPalette == s.outputPalette && cursorCounter == s.cursorCounter && cursorState == s.cursorState
    {
      latch, miscOutput, featureControl := s.latch, s.miscOutput, s.featureControl;
      outputPalette, cursorCounter, cursorState := s.outputPalette, s.cursorCounter, s.cursorState;
      CopyBytes(vram, s.vram);
    }

    /**
     * `LoadState`: fails, changing nothing, unless the stream starts with the
     * tag; otherwise every field is read back in the order `SaveState` wrote
     * it, and the display timing is marked as changed.
     */
    method LoadState(tag: bv32, bytes: seq<bv8>) returns (ok: bool)
      requires Valid()
      modifies this, vram, dacPalette
      ensures Valid() && vram == old(vram) && dacPalette == old(dacPalette)
      ensures ok <==> Deserialize(tag, vram.Length, bytes).Some?
      ensures ok ==> State() == Deserialize(tag, vram.Length, bytes).value
      ensures !ok ==> State() == old(State())
      ensures crtcTimingChanged == (old(crtcTimingChanged) || (|bytes| >= 4 && DecodeU32(bytes) == tag))
    {
      if |bytes| < 4 || DecodeU32(bytes) != tag {
        return false;
      }
      crtcTimingChanged := true;
      var loaded := Deserialize(tag, vram.Length, bytes);
      if loaded.None? {
        return false;
      }
      Restore(loaded.value);
      ok := true;
    }
  }

  /** Loads the little-endian word from `a` (the four-byte copy into the latch). */
  method LoadWord(vram: array<bv8>, a: int) returns (w: bv32)
    requires 4 <= vram.Length && 0 <= a < vram.Length
    ensures w == WordAt(vram[..], a)
  {
    var n := vram.Length;
    w := DecodeU32([vram[a], vram[WordByte(a, 1, n)], vram[WordByte(a, 2, n)], vram[WordByte(a, 3, n)]]);
  }

  /** Stores a word little-endian from `a` (the four-byte copy of the planar write). */
  method StoreWordInPlace(vram: array<bv8>, a: int, w: bv32)
    requires 4 <= vram.Length && 0 <= a < vram.Length
    modifies vram
    ensures vram[..] == StoreWord(old(vram[..]), a, w)
  {
    var n := vram.Length;
    var bytes := EncodeU32(w);
    vram[a] := bytes[0];
    vram[WordByte(a, 1, n)] := bytes[1];
    vram[WordByte(a, 2, n)] := bytes[2];
    vram[WordByte(a, 3, n)] := bytes[3];
  }

  /** Sets every entry of a palette array to `value`. */
  method FillWords(dst: array<bv32>, value: bv32)
    modifies dst
    ensures forall i :: 0 <= i < dst.Length ==> dst[i] == value
  {
    var i := 0;
    while i < dst.Length
      invariant 0 <= i <= dst.Length
      invariant forall j :: 0 <= j < i ==> dst[j] == value
    {
      dst[i] := value;
      i := i + 1;
    }
  }

  /** Copies a byte block into an array of the same length in place. */
  method CopyBytes(dst: array<bv8>, src: seq<bv8>)
    requires dst.Length == |src|
    modifies dst
    ensures dst[..] == src
  {
    var i := 0;
    while i < dst.Length
      invariant 0 <= i <= dst.Length
      invariant dst[..i] == src[..i]
    {
      dst[i] := src[i];
      i := i + 1;
      assert dst[..i] == dst[..i - 1] + [dst[i - 1]];
    }
    assert dst[..] == dst[..dst.Length];
  }

  /** Copies a word block into an array of the same length in place. */
  method CopyWords(dst: array<bv32>, src: seq<bv32>)
    requires dst.Length == |src|
    modifies dst
    ensures dst[..] == src
  {
    var i := 0;
    while i < dst.Length
      invariant 0 <= i <= dst.Length
      invariant dst[..i] == src[..i]
    {
      dst[i] := src[i];
      i := i + 1;
      assert dst[..i] == dst[..i - 1] + [dst[i - 1]];
    }
    assert dst[..] == dst[..dst.Length];
  }
}
