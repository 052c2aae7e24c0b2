/**
 * The Voodoo frame-buffer interface's memory bookkeeping: the layout of
 * the colour buffers, the auxiliary (depth/alpha) buffer and the memory
 * FIFO in frame-buffer RAM, recomputed from the `fbiInit` registers; the
 * front/back buffer rotation performed at a buffer swap; and the vertical
 * blank counter that triggers a pending swap.
 *
 * Offsets are unsigned 32-bit byte offsets into frame-buffer RAM;
 * `NoBuffer` (`~0`) marks a buffer that the configuration does not have.
 * The `fbiInit` field-extraction macros are not part of this model: the
 * fields arrive already decoded in `InitFields`.
 */
module VoodooFbi {
  import opened Wrappers
  import opened Word32

  const NoBuffer: U32 := 0xFFFF_FFFF
  const PageSize: nat := 0x1000
  /** The largest memory FIFO, in 32-bit words. */
  const MaxFifoWords: nat := 65536 * 2
  /** `vblank_count` saturates here. */
  const MaxVblankCount: nat := 250

  // ---------------------------------------------------------------------
  // Chip generations and configuration

  /** `vd_type`, in the order the source compares it. */
  datatype VoodooType = Voodoo1 | Voodoo2 | Banshee | Voodoo3

  predicate AtLeastVoodoo2(t: VoodooType)
  {
    t != Voodoo1
  }

  /** The decoded `fbiInit0`-`fbiInit6` fields the layout depends on. */
  datatype InitFields = InitFields(
    bufferPages: U32,        // fbiInit2: pages per colour buffer
    fifoStartPage: U32,      // fbiInit4: first page of the memory FIFO
    fifoStopPage: U32,       // fbiInit4: last page of the memory FIFO
    tripleBuffer: U32,       // fbiInit2: triple-buffering enable
    bufferAllocation: U32,   // fbiInit5 (Voodoo 2): buffer allocation
    xTiles: bv32,            // fbiInit1: horizontal video tiles
    xTilesBit5: bv32,        // fbiInit1 (Voodoo 2): tile count bit 5
    xTilesBit0: bv32,        // fbiInit6 (Voodoo 2): tile count bit 0
    fifoEnabled: bool)       // fbiInit0: memory FIFO enable

  /** Which buffers exist: 0 two colour + aux, 1 three colour, 2 three colour + aux, 3 reserved (treated as 0). */
  function MemoryConfig(t: VoodooType, f: InitFields): U32
  {
    if t == Voodoo2 && f.tripleBuffer == 0 then f.bufferAllocation else f.tripleBuffer
  }

  function TileWidth(t: VoodooType): nat
  {
    if t == Voodoo1 then 64 else 32
  }

  function TileHeight(t: VoodooType): nat
  {
    if t == Voodoo1 then 16 else 32
  }

  /** The number of half-tiles across; the Voodoo 2 adds a sixth bit and a low bit from other registers. */
  function XTiles(t: VoodooType, f: InitFields): bv32
  {
    if t == Voodoo2 then (f.xTiles << 1) | (f.xTilesBit5 << 5) | f.xTilesBit0 else f.xTiles
  }

  // ---------------------------------------------------------------------
  // Buffer offsets

  /** The start of buffer `n` (0-based) when every buffer is `pages` pages long. */
  function BufferStart(pages: U32, n: nat): U32
  {
    Wrap32(n * pages * PageSize)
  }

  /** Third colour buffer and aux buffer before clamping; a configuration above 3 leaves both as they were. */
  function ThirdAndAux(config: U32, pages: U32, rgb2: U32, aux: U32): (U32, U32)
  {
    match config
    case 0 => (NoBuffer, BufferStart(pages, 2))
    case 1 => (BufferStart(pages, 2), NoBuffer)
    case 2 => (BufferStart(pages, 2), BufferStart(pages, 3))
    case 3 => (NoBuffer, BufferStart(pages, 2))
    case _ => (rgb2, aux)
  }

  /** Pulls an offset past the end of memory back to the end; `NoBuffer` stays. */
  function ClampOffset(off: U32, mask: U32): (r: U32)
    ensures r == NoBuffer <==> off == NoBuffer
    ensures r != NoBuffer ==> r <= mask
    ensures off <= mask ==> r == off
  {
    if off != NoBuffer && off > mask then mask else off
  }

  /** The colour-buffer offsets and the aux offset after a recomputation. */
  datatype Layout = Layout(rgb: seq<U32>, aux: U32)

  function BufferOffsets(t: VoodooType, f: InitFields, mask: U32, rgb2: U32, aux: U32): (o: Layout)
    ensures |o.rgb| == 3
  {
    var (third, aux') := ThirdAndAux(MemoryConfig(t, f), f.bufferPages, rgb2, aux);
    Layout([ClampOffset(0, mask), ClampOffset(BufferStart(f.bufferPages, 1), mask), ClampOffset(third, mask)],
            ClampOffset(aux', mask))
  }

  /** Every buffer that exists starts inside frame-buffer memory; the first starts at 0 and the second one buffer later. */
  lemma BufferOffsetsInMemory(t: VoodooType, f: InitFields, mask: U32, rgb2: U32, aux: U32)
    requires (rgb2 != NoBuffer ==> rgb2 <= mask) && (aux != NoBuffer ==> aux <= mask)
    ensures var o := BufferOffsets(t, f, mask, rgb2, aux);
            (forall i :: 0 <= i < 3 && o.rgb[i] != NoBuffer ==> o.rgb[i] <= mask) &&
            (o.aux != NoBuffer ==> o.aux <= mask) &&
            o.rgb[0] == 0 &&
            (f.bufferPages * PageSize < Two32 ==>
               o.rgb[1] == if f.bufferPages * PageSize <= mask then f.bufferPages * PageSize else mask)
  {
  }

  /**
   * Double buffering is configurations 0 and 3: then there is no third
   * colour buffer and the aux buffer takes its place.  When the buffers fit
   * in memory they follow each other without overlapping.
   */
  lemma BufferOffsetsLayout(t: VoodooType, f: InitFields, mask: U32, rgb2: U32, aux: U32)
    requires MemoryConfig(t, f) <= 3
    requires 4 * f.bufferPages * PageSize <= mask
    ensures var o, size := BufferOffsets(t, f, mask, rgb2, aux), f.bufferPages * PageSize;
            var config := MemoryConfig(t, f);
            o.rgb[0] + size == o.rgb[1] &&
            (o.rgb[2] == NoBuffer <==> config == 0 || config == 3) &&
            (o.aux == NoBuffer <==> config == 1) &&
            (o.rgb[2] != NoBuffer ==> o.rgb[1] + size == o.rgb[2]) &&
            (config == 2 ==> o.rgb[2] + size == o.aux) &&
            (config == 0 || config == 3 ==> o.rgb[1] + size == o.aux)
  {
    var p := f.bufferPages;
    assert BufferStart(p, 1) == p * PageSize;
    assert BufferStart(p, 2) == 2 * p * PageSize;
    assert BufferStart(p, 3) == 3 * p * PageSize;
  }

  // ---------------------------------------------------------------------
  // The memory FIFO

  /** The FIFO's last page, pulled back to the last page of memory. */
  function FifoLastPage(f: InitFields, mask: U32): U32
  {
    if f.fifoStopPage > mask / PageSize then mask / PageSize else f.fifoStopPage
  }

  predicate FifoActive(f: InitFields, mask: U32)
  {
    f.fifoStartPage <= FifoLastPage(f, mask) && f.fifoEnabled
  }

  /** The FIFO's byte offset in memory, if it is enabled, and its size in words. */
  function FifoWindow(f: InitFields, mask: U32): (Option<U32>, nat)
  {
    if FifoActive(f, mask) then
      var words := Wrap32((FifoLastPage(f, mask) + 1 - f.fifoStartPage) * PageSize) / 4;
      (Some(Wrap32(f.fifoStartPage * PageSize)), if words > MaxFifoWords then MaxFifoWords else words)
    else (None, 0)
  }

  /**
   * The FIFO never exceeds 128K words, is empty exactly when it is off, and
   * when memory is a whole number of pages it lies inside memory.
   */
  lemma FifoWindowBounds(f: InitFields, mask: U32)
    ensures var (base, size) := FifoWindow(f, mask);
            size <= MaxFifoWords &&
            (base == None <==> !FifoActive(f, mask)) &&
            (!FifoActive(f, mask) ==> size == 0)
    ensures (mask + 1) % PageSize == 0 && FifoActive(f, mask) ==>
            var (base, size) := FifoWindow(f, mask);
            base == Some(f.fifoStartPage * PageSize) && base.value + 4 * size <= mask + 1
  {
    if (mask + 1) % PageSize == 0 && FifoActive(f, mask) {
      var last := FifoLastPage(f, mask);
      assert last <= mask / PageSize;
      assert (last + 1) * PageSize <= mask + 1;
      var bytes := (last + 1 - f.fifoStartPage) * PageSize;
      assert bytes + f.fifoStartPage * PageSize == (last + 1) * PageSize;
      assert f.fifoStartPage * PageSize <= mask;
      assert Wrap32(f.fifoStartPage * PageSize) == f.fifoStartPage * PageSize;
      if bytes < Two32 {
        assert Wrap32(bytes) == bytes;
      } else {
        assert bytes == Two32 && Wrap32(bytes) == 0;
      }
    }
  }

  // ---------------------------------------------------------------------
  // Buffer rotation

  /** The buffer index after a swap: toggles between two buffers, or steps through three. */
  function NextBuffer(b: nat, triple: bool): nat
    requires b < (if triple then 3 else 2)
  {
    if triple then (b + 1) % 3 else 1 - b
  }

  /** Front and back buffer name buffers that exist. */
  predicate BuffersInRange(front: nat, back: nat, triple: bool)
  {
    front < 3 && back < 3 && (!triple ==> front < 2 && back < 2)
  }

  /** A swap keeps the indices in range and distinct buffers distinct. */
  lemma NextBufferInRange(front: nat, back: nat, triple: bool)
    requires BuffersInRange(front, back, triple)
    ensures BuffersInRange(NextBuffer(front, triple), NextBuffer(back, triple), triple)
    ensures (NextBuffer(front, triple) == NextBuffer(back, triple)) == (front == back)
  {
  }

  /** Two double-buffered swaps, or three triple-buffered ones, bring each buffer back. */
  lemma NextBufferCycles(b: nat, triple: bool)
    requires b < (if triple then 3 else 2)
    ensures !triple ==> NextBuffer(NextBuffer(b, false), false) == b
    ensures triple ==> NextBuffer(NextBuffer(NextBuffer(b, true), true), true) == b
  {
  }

  /** The buffer indices after a recomputation: without a third buffer, an index of 2 falls back to 0. */
  function DropThirdBuffer(b: nat, rgb2: U32): (r: nat)
  {
    if rgb2 == NoBuffer && b == 2 then 0 else b
  }

  /** After a recomputation the indices name buffers that exist... */
  lemma DropThirdBufferInRange(front: nat, back: nat, rgb2: U32)
    requires front < 3 && back < 3
    ensures BuffersInRange(DropThirdBuffer(front, rgb2), DropThirdBuffer(back, rgb2), rgb2 != NoBuffer)
  {
  }

  /** ...but leaving triple buffering with the front on the third buffer puts front and back on the same buffer. */
  lemma DropThirdBufferCanAlias()
    ensures DropThirdBuffer(2, NoBuffer) == DropThirdBuffer(0, NoBuffer)
  {
  }

  /** `reg[fbiSwapHistory]` after a swap. */
  function SwapHistory(history: bv32, vblankCount: nat): bv32
  {
    var recent: bv32 := if vblankCount < 15 then vblankCount as bv32 else 15;
    (history << 4) | recent
  }

  /** The old history moves up a nibble and the low nibble records the vblank count, capped at 15. */
  lemma SwapHistoryShifts(history: bv32, vblankCount: nat)
    ensures SwapHistory(history, vblankCount) >> 4 == history & 0x0FFF_FFFF
    ensures SwapHistory(history, vblankCount) & 0xF == (if vblankCount < 15 then vblankCount else 15) as bv32
  {
  }

  /** `reg[intrCtrl]` at the start of vertical blank on a Voodoo 2 or later. */
  function VsyncLatched(intrCtrl: bv32): bv32
  {
    if intrCtrl & 4 != 0 then (intrCtrl | 0x100) & !0x8000_0000 else intrCtrl
  }

  /** With the rising-vsync interrupt enabled (bit 2) it becomes active (bit 8) and bit 31 clears; nothing else changes. */
  lemma VsyncLatchedBits(intrCtrl: bv32)
    ensures intrCtrl & 4 != 0 ==> VsyncLatched(intrCtrl) & 0x100 != 0 && VsyncLatched(intrCtrl) & 0x8000_0000 == 0
    ensures VsyncLatched(intrCtrl) & 0x7FFF_FEFF == intrCtrl & 0x7FFF_FEFF
    ensures intrCtrl & 4 == 0 ==> VsyncLatched(intrCtrl) == intrCtrl
  {
  }

  // ---------------------------------------------------------------------
  // The frame-buffer interface

  class Fbi {
    const vdType: VoodooType
    /** Frame-buffer memory size minus one. */
    const mask: U32
    var rgboffs: array<U32>
    var auxoffs: U32
    var frontbuf: nat
    var backbuf: nat
    var tileWidth: nat
    var tileHeight: nat
    var xTiles: bv32
    var rowpixels: U32
    var fifoBase: Option<U32>
    var fifoSize: nat
    var swapsPending: nat
    var vblankCount: nat
    var vblankSwapPending: bool
    var vblankSwap: nat
    var vblankDontSwap: bool
    var vblank: bool
    var videoChanged: bool
    /** `reg[fbiSwapHistory]`. */
    var swapHistory: bv32
    /** `reg[intrCtrl]`. */
    var intrCtrl: bv32

    predicate Valid()
      reads this, rgboffs
    {
      rgboffs.Length == 3 &&
      (forall i :: 0 <= i < 3 && rgboffs[i] != NoBuffer ==> rgboffs[i] <= mask) &&
      (auxoffs != NoBuffer ==> auxoffs <= mask) &&
      BuffersInRange(frontbuf, backbuf, rgboffs[2] != NoBuffer) &&
      vblankCount <= MaxVblankCount
    }

    function Offsets(): Layout
      reads this, rgboffs
    {
      Layout(rgboffs[..], auxoffs)
    }

    /** `init_fbi`: three colour buffers at 0, no aux buffer, front 0 and back 1, not in vblank, and no memory FIFO. */
    constructor(vdType: VoodooType, memorySize: nat)
      requires 0 < memorySize <= Two32
      ensures Valid() && fresh(rgboffs) && this.vdType == vdType && mask == memorySize - 1
      ensures rgboffs[..] == [0, 0, 0] && auxoffs == NoBuffer && frontbuf == 0 && backbuf == 1
      ensures swapsPending == 0 && vblankCount == 0 && !vblankSwapPending
      ensures !vblank && fifoBase == None && fifoSize == 0
    {
      this.vdType := vdType;
      mask := memorySize - 1;
      rgboffs := new U32[3](_ => 0);
      auxoffs := NoBuffer;
      frontbuf, backbuf := 0, 1;
      swapsPending, vblankCount, vblankSwapPending, vblankSwap := 0, 0, false, 0;
      vblank := false;
      fifoBase, fifoSize := None, 0;
    }

    /**
     * `soft_reset`'s effect on the swap state: front buffer 0, back buffer
     * 1, nothing pending, and the display marked as changed.
     */
    method SoftReset()
      requires Valid()
      modifies this`frontbuf, this`backbuf, this`swapsPending, this`vblankSwapPending
      modifies this`vblankSwap, this`vblankDontSwap, this`videoChanged
      ensures Valid()
      ensures frontbuf == 0 && backbuf == 1 && swapsPending == 0 && !vblankSwapPending
      ensures vblankSwap == 0 && !vblankDontSwap && videoChanged
    {
      frontbuf, backbuf := 0, 1;
      swapsPending, vblankSwapPending := 0, false;
      vblankSwap, vblankDontSwap := 0, false;
      videoChanged := true;
    }

    /**
     * `recompute_video_memory`: lays out the buffers and the memory FIFO
     * from the `fbiInit` fields and drops a front or back buffer index that
     * names a third buffer the new layout does not have.
     */
    method RecomputeVideoMemory(f: InitFields)
      requires Valid()
      modifies rgboffs, this`auxoffs, this`tileWidth, this`tileHeight, this`xTiles, this`rowpixels
      modifies this`fifoBase, this`fifoSize, this`frontbuf, this`backbuf
      ensures Valid()
      ensures Offsets() == BufferOffsets(vdType, f, mask, old(rgboffs[2]), old(auxoffs))
      ensures (fifoBase, fifoSize) == FifoWindow(f, mask)
      ensures tileWidth == TileWidth(vdType) && tileHeight == TileHeight(vdType)
      ensures xTiles == XTiles(vdType, f) && rowpixels == Wrap32(tileWidth * xTiles as int)
      ensures frontbuf == DropThirdBuffer(old(frontbuf), rgboffs[2])
      ensures backbuf == DropThirdBuffer(old(backbuf), rgboffs[2])
    {
      SetTiles(f);
      ghost var before := Offsets();
      SetBufferOffsets(f);
      ClampBuffers();
      assert Offsets() == BufferOffsets(vdType, f, mask, before.rgb[2], before.aux);
      SetFifo(f);
      if rgboffs[2] == NoBuffer {
        if frontbuf == 2 {
          frontbuf := 0;
        }
        if backbuf == 2 {
          backbuf := 0;
        }
      }
      DropThirdBufferInRange(old(frontbuf), old(backbuf), rgboffs[2]);
    }

    /** The tile geometry part of the recomputation. */
    method SetTiles(f: InitFields)
      modifies this`tileWidth, this`tileHeight, this`xTiles, this`rowpixels
      ensures tileWidth == TileWidth(vdType) && tileHeight == TileHeight(vdType)
      ensures xTiles == XTiles(vdType, f) && rowpixels == Wrap32(tileWidth * xTiles as int)
    {
      tileWidth := if vdType == Voodoo1 then 64 else 32;
      tileHeight := if vdType == Voodoo1 then 16 else 32;
      xTiles := f.xTiles;
      if vdType == Voodoo2 {
        xTiles := (xTiles << 1) | (f.xTilesBit5 << 5) | f.xTilesBit0;
      }
      rowpixels := Wrap32(tileWidth * xTiles as int);
    }

    /** The buffer offsets before clamping: 0, one buffer on, then the configuration's third and aux buffers. */
    method SetBufferOffsets(f: InitFields)
      requires rgboffs.Length == 3
      modifies rgboffs, this`auxoffs
      ensures rgboffs[0] == 0 && rgboffs[1] == BufferStart(f.bufferPages, 1)
      ensures (rgboffs[2], auxoffs) == ThirdAndAux(MemoryConfig(vdType, f), f.bufferPages, old(rgboffs[2]), old(auxoffs))
    {
      var bufferPages := f.bufferPages;
      var memoryConfig := f.tripleBuffer;
      if vdType == Voodoo2 && memoryConfig == 0 {
        memoryConfig := f.bufferAllocation;
      }
      rgboffs[0] := 0;
      rgboffs[1] := Wrap32(bufferPages as int * 0x1000);
      match memoryConfig {
      case 0 =>
        rgboffs[2] := NoBuffer;
        auxoffs := Wrap32(2 * bufferPages as int * 0x1000);
      case 3 =>
        rgboffs[2] := NoBuffer;
        auxoffs := Wrap32(2 * bufferPages as int * 0x1000);
      case 1 =>
        rgboffs[2] := Wrap32(2 * bufferPages as int * 0x1000);
        auxoffs := NoBuffer;
      case 2 =>
        rgboffs[2] := Wrap32(2 * bufferPages as int * 0x1000);
        auxoffs := Wrap32(3 * bufferPages as int * 0x1000);
      case _ =>
      }
    }

    /** Clamps each colour buffer and the aux buffer to video memory. */
    method ClampBuffers()
      requires rgboffs.Length == 3
      modifies rgboffs, this`auxoffs
      ensures rgboffs[..] == [ClampOffset(old(rgboffs[0]), mask), ClampOffset(old(rgboffs[1]), mask), ClampOffset(old(rgboffs[2]), mask)]
      ensures auxoffs == ClampOffset(old(auxoffs), mask)
    {
      var buf := 0;
      while buf < 3
        invariant 0 <= buf <= 3
        invariant forall i :: 0 <= i < buf ==> rgboffs[i] == ClampOffset(old(rgboffs[i]), mask)
        invariant forall i :: buf <= i < 3 ==> rgboffs[i] == old(rgboffs[i])
        invariant auxoffs == old(auxoffs)
      {
        if rgboffs[buf] != NoBuffer && rgboffs[buf] > mask {
          rgboffs[buf] := mask;
        }
        buf := buf + 1;
      }
      if auxoffs != NoBuffer && auxoffs > mask {
        auxoffs := mask;
      }
    }

    /** Places the memory FIFO, or disables it. */
    method SetFifo(f: InitFields)
      modifies this`fifoBase, this`fifoSize
      ensures (fifoBase, fifoSize) == FifoWindow(f, mask)
    {
      var fifoLastPage := f.fifoStopPage;
      if fifoLastPage > mask / 0x1000 {
        fifoLastPage := mask / 0x1000;
      }
      if f.fifoStartPage <= fifoLastPage && f.fifoEnabled {
        fifoBase := Some(Wrap32(f.fifoStartPage as int * 0x1000));
        fifoSize := Wrap32((fifoLastPage as int + 1 - f.fifoStartPage) * 0x1000) / 4;
        if fifoSize > 65536 * 2 {
          fifoSize := 65536 * 2;
        }
      } else {
        fifoBase := None;
        fifoSize := 0;
      }
    }

    /**
     * `swap_buffers`: records the vblank count in the swap history, rotates
     * the front and back buffers unless a Voodoo 2 or later was told not
     * to, takes one swap off the pending count and restarts the vblank count.
     */
    method SwapBuffers()
      requires Valid()
      modifies this`swapHistory, this`videoChanged, this`frontbuf, this`backbuf
      modifies this`swapsPending, this`vblankCount, this`vblankSwapPending
      ensures Valid()
      ensures swapHistory == SwapHistory(old(swapHistory), old(vblankCount))
      ensures var rotate, triple := !AtLeastVoodoo2(vdType) || !vblankDontSwap, rgboffs[2] != NoBuffer;
              frontbuf == (if rotate then NextBuffer(old(frontbuf), triple) else old(frontbuf)) &&
              backbuf == (if rotate then NextBuffer(old(backbuf), triple) else old(backbuf)) &&
              videoChanged == (rotate || old(videoChanged))
      ensures swapsPending == if old(swapsPending) > 0 then old(swapsPending) - 1 else 0
      ensures vblankCount == 0 && !vblankSwapPending
    {
      swapHistory := SwapHistory(swapHistory, vblankCount);
      if !AtLeastVoodoo2(vdType) || !vblankDontSwap {
        videoChanged := true;
        RotateBuffers();
      }
      if swapsPending > 0 {
        swapsPending := swapsPending - 1;
      }
      vblankCount := 0;
      vblankSwapPending := false;
    }

    /** The rotation step of a swap: toggle with two colour buffers, step modulo 3 with three. */
    method RotateBuffers()
      requires rgboffs.Length == 3 && BuffersInRange(frontbuf, backbuf, rgboffs[2] != NoBuffer)
      modifies this`frontbuf, this`backbuf
      ensures frontbuf == NextBuffer(old(frontbuf), rgboffs[2] != NoBuffer)
      ensures backbuf == NextBuffer(old(backbuf), rgboffs[2] != NoBuffer)
      ensures BuffersInRange(frontbuf, backbuf, rgboffs[2] != NoBuffer)
    {
      if rgboffs[2] == NoBuffer {
        frontbuf := 1 - frontbuf;
        backbuf := 1 - backbuf;
      } else {
        frontbuf := (frontbuf + 1) % 3;
        backbuf := (backbuf + 1) % 3;
      }
      NextBufferInRange(old(frontbuf), old(backbuf), rgboffs[2] != NoBuffer);
    }

    /**
     * `vblank_callback`: counts the vertical blank (saturating at 250),
     * swaps if a swap is pending and its interval has elapsed, enters
     * vblank, and on a Voodoo 2 or later latches the rising-vsync
     * interrupt when it is enabled.
     */
    method VblankCallback()
      requires Valid()
      modifies this`swapHistory, this`videoChanged, this`frontbuf, this`backbuf
      modifies this`swapsPending, this`vblankCount, this`vblankSwapPending, this`vblank, this`intrCtrl
      ensures Valid() && vblank
      ensures var count := if old(vblankCount) + 1 > MaxVblankCount then MaxVblankCount else old(vblankCount) + 1;
              if old(vblankSwapPending) && count >= vblankSwap then
                var rotate, triple := !AtLeastVoodoo2(vdType) || !vblankDontSwap, rgboffs[2] != NoBuffer;
                vblankCount == 0 && !vblankSwapPending && swapHistory == SwapHistory(old(swapHistory), count) &&
                swapsPending == (if old(swapsPending) > 0 then old(swapsPending) - 1 else 0) &&
                frontbuf == (if rotate then NextBuffer(old(frontbuf), triple) else old(frontbuf)) &&
                backbuf == (if rotate then NextBuffer(old(backbuf), triple) else old(backbuf)) &&
                videoChanged == (rotate || old(videoChanged))
              else
                vblankCount == count && vblankSwapPending == old(vblankSwapPending) &&
                swapHistory == old(swapHistory) && swapsPending == old(swapsPending) &&
                frontbuf == old(frontbuf) && backbuf == old(backbuf) && videoChanged == old(videoChanged)
      ensures intrCtrl == if AtLeastVoodoo2(vdType) then VsyncLatched(old(intrCtrl)) else old(intrCtrl)
    {
      vblankCount := vblankCount + 1;
      if vblankCount > 250 {
        vblankCount := 250;
      }
      if vblankSwapPending && vblankCount >= vblankSwap {
        SwapBuffers();
      }
      vblank := true;
      if AtLeastVoodoo2(vdType) {
        LatchVsyncInterrupt();
      }
    }

    /** The vsync-interrupt part of the vertical blank. */
    method LatchVsyncInterrupt()
      modifies this`intrCtrl
      ensures intrCtrl == VsyncLatched(old(intrCtrl))
    {
      if intrCtrl & 0x4 != 0 {
        intrCtrl := intrCtrl | 0x100;
        intrCtrl := intrCtrl & !0x8000_0000;
      }
    }
  }
}
