/**
 * The pure parts of the VGA memory path built on four-plane words: the ALU,
 * the data rotator, the memory-map window, the read-mode-1 colour compare,
 * the combination of host data, latch and bit mask in the four write modes,
 * the plane write enable, and the CRTC address wrap.
 */
module VgaLogic {
  import opened Wrappers
  import opened VgaPlanes

  /** The ALU operation on one plane byte, as the graphics controller defines it. */
  function ByteLogicOp(op: bv8, latch: bv8, value: bv8): bv8
  {
    if op == 1 then value & latch
    else if op == 2 then value | latch
    else if op == 3 then value ^ latch
    else value
  }

  /** `VGALogicOp` */
  function LogicOp(op: bv8, latch: bv32, value: bv32): bv32
  {
    if op == 0 then value
    else if op == 1 then value & latch
    else if op == 2 then value | latch
    else if op == 3 then value ^ latch
    else value
  }

  /** The ALU works plane by plane: each plane of the result is the byte operation on that plane of the latch and the value. */
  lemma LogicOpPlanes(op: bv8, latch: bv32, value: bv32, p: bv32)
    requires p < 4
    ensures Plane(LogicOp(op, latch, value), p) == ByteLogicOp(op, Plane(latch, p), Plane(value, p))
  {
    if op == 1 {
      PlaneOfAndOp(op, latch, value, p);
    } else if op == 2 {
      PlaneOfOrOp(op, latch, value, p);
    } else if op == 3 {
      PlaneOfXorOp(op, latch, value, p);
    } else {
      assert LogicOp(op, latch, value) == value;
    }
  }

  lemma PlaneOfAndOp(op: bv8, latch: bv32, value: bv32, p: bv32)
    requires p < 4 && op == 1
    ensures Plane(LogicOp(op, latch, value), p) == ByteLogicOp(op, Plane(latch, p), Plane(value, p))
  {
    PlaneOfAnd(value, latch, p);
  }

  lemma PlaneOfOrOp(op: bv8, latch: bv32, value: bv32, p: bv32)
    requires p < 4 && op == 2
    ensures Plane(LogicOp(op, latch, value), p) == ByteLogicOp(op, Plane(latch, p), Plane(value, p))
  {
    PlaneOfOr(value, latch, p);
  }

  lemma PlaneOfXorOp(op: bv8, latch: bv32, value: bv32, p: bv32)
    requires p < 4 && op == 3
    ensures Plane(LogicOp(op, latch, value), p) == ByteLogicOp(op, Plane(latch, p), Plane(value, p))
  {
    PlaneOfXor(value, latch, p);
  }

  /** The data rotator: the host byte rotated right by `count`, bits shifted out fed back into bit 7. */
  function Rotate(value: bv8, count: bv8): bv8
    requires count < 8
  {
    (value >> count) | (value << (8 - count))
  }

  /** Rotating right by `count` and then by the remaining `8 - count` positions gives the byte back: no bit is lost. */
  lemma RotateInverse(value: bv8, count: bv8)
    requires count < 8
    ensures Rotate(Rotate(value, count), (8 - count) & 7) == value
  {
  }

  // ---------------------------------------------------------------------
  // Memory-map window

  /** `MapToVGAVRAMOffset`: the offset into the adapter's window for a memory-map select value (bits 3..2 of the miscellaneous graphics register), or None when the window does not cover it. */
  function MapToVramOffset(select: bv8, offset: bv32): (r: Option<bv32>)
    ensures select == 0 ==> r == Some(offset)
    ensures select == 1 ==> (r.Some? <==> offset < 0x10000) && (r.Some? ==> r.value == offset)
    ensures select == 2 ==> (r.Some? <==> 0x10000 <= offset < 0x18000) && (r.Some? ==> r.value == offset - 0x10000)
    ensures select >= 3 ==> (r.Some? <==> 0x18000 <= offset) && (r.Some? ==> r.value == offset - 0x18000)
  {
    match select
    case 0 => Some(offset)
    case 1 => if offset >= 0x10000 then None else Some(offset)
    case 2 => if offset < 0x10000 || offset >= 0x18000 then None else Some(offset - 0x10000)
    case _ => if offset < 0x18000 then None else Some(offset - 0x18000)
  }

  /** The three small windows split the 128K window into disjoint pieces, each translated into the window's own range. */
  lemma SmallWindowsPartition(offset: bv32)
    requires offset < 0x20000
    ensures MapToVramOffset(1, offset).Some? || MapToVramOffset(2, offset).Some? || MapToVramOffset(3, offset).Some?
    ensures !(MapToVramOffset(1, offset).Some? && MapToVramOffset(2, offset).Some?)
    ensures !(MapToVramOffset(1, offset).Some? && MapToVramOffset(3, offset).Some?)
    ensures !(MapToVramOffset(2, offset).Some? && MapToVramOffset(3, offset).Some?)
    ensures MapToVramOffset(1, offset).Some? ==> MapToVramOffset(1, offset).value < 0x10000
    ensures MapToVramOffset(2, offset).Some? ==> MapToVramOffset(2, offset).value < 0x8000
    ensures MapToVramOffset(3, offset).Some? ==> MapToVramOffset(3, offset).value < 0x8000
  {
  }

  // ---------------------------------------------------------------------
  // Read mode 1

  /** The bits of one plane byte that match the colour-compare bit, all ones when the plane is "don't care". */
  function PlaneMatch(b: bv8, compare: bool, care: bool): bv8
  {
    if !care then 0xFF else if compare then b else !b
  }

  /** Read mode 1: a one in each bit position where every plane selected by `dontCare` matches `compare`. */
  function ColorCompare(latch: bv32, compare: bv32, dontCare: bv32): bv8
    requires compare < 16 && dontCare < 16
  {
    var result := (latch ^ Mask16(compare)) & Mask16(dontCare);
    !(Plane(result, 0) | Plane(result, 1) | Plane(result, 2) | Plane(result, 3))
  }

  /** The colour compare is the conjunction, over the four planes, of the per-plane match. */
  lemma ColorCompareMatchesPlanes(latch: bv32, compare: bv32, dontCare: bv32)
    requires compare < 16 && dontCare < 16
    ensures ColorCompare(latch, compare, dontCare) ==
            PlaneMatch(Plane(latch, 0), PlaneEnabled(compare, 0), PlaneEnabled(dontCare, 0)) &
            PlaneMatch(Plane(latch, 1), PlaneEnabled(compare, 1), PlaneEnabled(dontCare, 1)) &
            PlaneMatch(Plane(latch, 2), PlaneEnabled(compare, 2), PlaneEnabled(dontCare, 2)) &
            PlaneMatch(Plane(latch, 3), PlaneEnabled(compare, 3), PlaneEnabled(dontCare, 3))
  {
  }

  // ---------------------------------------------------------------------
  // Write modes

  /** The graphics-controller settings the planar write path reads. */
  datatype WriteSettings = WriteSettings(
    writeMode: bv8,       // mode register bits 1..0
    setReset: bv8,        // set/reset register, 4 bits
    enableSetReset: bv8,  // enable set/reset register, 4 bits
    bitMask: bv8,         // bit mask register
    rotateCount: bv8,     // data rotate register bits 2..0
    logicOp: bv8)         // data rotate register bits 4..3

  predicate WellFormed(w: WriteSettings)
  {
    w.writeMode < 4 && w.setReset < 16 && w.enableSetReset < 16 && w.rotateCount < 8 && w.logicOp < 4
  }

  /** Bits set in `bitMask` from `alu`, the others from the latch. */
  function SelectBits(alu: bv32, latch: bv32, bitMask: bv8): bv32
  {
    Mix(alu, latch, ExpandMask(bitMask))
  }

  /** Write mode 0's data before the ALU: the rotated host byte in every plane, replaced by all zeros or all ones in the planes enabled for set/reset. */
  function SetResetValue(w: WriteSettings, value: bv8): bv32
    requires WellFormed(w)
  {
    Mix(Mask16(w.setReset as bv32), ExpandMask(Rotate(value, w.rotateCount)), Mask16(w.enableSetReset as bv32))
  }

  /** The ALU output of write modes 0, 2 and 3: the logical operation of the latch with the mode's data. */
  function AluResult(w: WriteSettings, latch: bv32, value: bv8): bv32
    requires WellFormed(w)
  {
    if w.writeMode == 0 then LogicOp(w.logicOp, latch, SetResetValue(w, value))
    else if w.writeMode == 2 then LogicOp(w.logicOp, latch, Mask16((value & 0x0F) as bv32))
    else LogicOp(w.logicOp, latch, Mask16(w.setReset as bv32))
  }

  /** The bit mask applied after the ALU: write mode 3 ANDs the rotated host byte into the bit mask register. */
  function EffectiveBitMask(w: WriteSettings, value: bv8): (r: bv8)
    requires WellFormed(w)
    ensures r & !w.bitMask == 0
    ensures w.writeMode != 3 ==> r == w.bitMask
  {
    if w.writeMode == 3 then w.bitMask & Rotate(value, w.rotateCount) else w.bitMask
  }

  /** The four-plane value the write modes produce from the host byte and the latch (before the plane write enable); mode 1 writes the latch back. */
  function WriteModeValue(w: WriteSettings, latch: bv32, value: bv8): bv32
    requires WellFormed(w)
  {
    if w.writeMode == 1 then latch
    else SelectBits(AluResult(w, latch, value), latch, EffectiveBitMask(w, value))
  }

  /**
   * The byte the ALU receives in plane `p`, stated plane by plane: in mode 0
   * the rotated host byte, or the set/reset fill where set/reset is enabled;
   * in mode 2 the fill of host bit p; in mode 3 the set/reset fill.
   */
  function PlaneData(w: WriteSettings, value: bv8, p: bv32): bv8
    requires WellFormed(w) && p < 4
  {
    if w.writeMode == 0 then
      (if PlaneEnabled(w.enableSetReset as bv32, p) then Fill(w.setReset as bv32, p) else Rotate(value, w.rotateCount))
    else if w.writeMode == 2 then Fill((value & 0x0F) as bv32, p)
    else Fill(w.setReset as bv32, p)
  }

  /**
   * Each plane of the written value is, where the effective bit mask is set,
   * the byte ALU operation on that plane of the latch and the mode's data for
   * the plane, and the latch's plane byte elsewhere; mode 1 writes the latch.
   */
  lemma WriteModeSelects(w: WriteSettings, latch: bv32, value: bv8, p: bv32)
    requires WellFormed(w) && p < 4
    ensures w.writeMode == 1 ==> Plane(WriteModeValue(w, latch, value), p) == Plane(latch, p)
    ensures var eff := EffectiveBitMask(w, value);
            w.writeMode != 1 ==>
              Plane(WriteModeValue(w, latch, value), p) ==
              (ByteLogicOp(w.logicOp, Plane(latch, p), PlaneData(w, value, p)) & eff) | (Plane(latch, p) & !eff)
  {
    if w.writeMode != 1 {
      var alu, eff := AluResult(w, latch, value), EffectiveBitMask(w, value);
      PlaneOfSelect(alu, latch, eff, p);
      AluPlane(w, latch, value, p);
    }
  }

  /** One plane of a bit-mask selection selects within the plane byte. */
  lemma PlaneOfSelect(alu: bv32, latch: bv32, bitMask: bv8, p: bv32)
    requires p < 4
    ensures Plane(SelectBits(alu, latch, bitMask), p) == ByteMix(Plane(alu, p), Plane(latch, p), bitMask)
  {
    MixPlane(alu, latch, ExpandMask(bitMask), p);
    ExpandMaskPlanes(bitMask, p);
  }

  /** One plane of the ALU output is the byte operation on the plane's data. */
  lemma AluPlane(w: WriteSettings, latch: bv32, value: bv8, p: bv32)
    requires WellFormed(w) && w.writeMode != 1 && p < 4
    ensures Plane(AluResult(w, latch, value), p) == ByteLogicOp(w.logicOp, Plane(latch, p), PlaneData(w, value, p))
  {
    if w.writeMode == 0 {
      SetResetPlane(w, value, p);
      LogicOpPlanes(w.logicOp, latch, SetResetValue(w, value), p);
    } else if w.writeMode == 2 {
      Mask16Planes((value & 0x0F) as bv32, p);
      LogicOpPlanes(w.logicOp, latch, Mask16((value & 0x0F) as bv32), p);
    } else {
      Mask16Planes(w.setReset as bv32, p);
      LogicOpPlanes(w.logicOp, latch, Mask16(w.setReset as bv32), p);
    }
  }

  lemma SetResetPlane(w: WriteSettings, value: bv8, p: bv32)
    requires WellFormed(w) && p < 4
    ensures Plane(SetResetValue(w, value), p) ==
            if PlaneEnabled(w.enableSetReset as bv32, p) then Fill(w.setReset as bv32, p) else Rotate(value, w.rotateCount)
  {
    var rotated := Rotate(value, w.rotateCount);
    MixPlane(Mask16(w.setReset as bv32), ExpandMask(rotated), Mask16(w.enableSetReset as bv32), p);
    ExpandMaskPlanes(rotated, p);
    Mask16Planes(w.enableSetReset as bv32, p);
    Mask16Planes(w.setReset as bv32, p);
    ByteMixFill(Fill(w.setReset as bv32, p), rotated, w.enableSetReset as bv32, p);
  }

  /** Bits clear in a bit mask no wider than `bitMask` come from the latch. */
  lemma SelectWithinKeepsLatch(result: bv32, alu: bv32, latch: bv32, mask: bv8, bitMask: bv8)
    requires result == SelectBits(alu, latch, mask)
    requires mask & !bitMask == 0
    ensures var m := ExpandMask(bitMask);
            result & !m == latch & !m
  {
    var m := ExpandMask(bitMask);
    var n := ExpandMask(mask);
    var mn := mask as bv32;
    var mb := bitMask as bv32;
    assert mn & !mb == 0;
    assert n & !m == 0;
  }

  /** In every write mode each bit clear in the bit mask register comes from the latch; mode 1 writes the latch unchanged. */
  lemma BitMaskKeepsLatch(w: WriteSettings, latch: bv32, value: bv8)
    requires WellFormed(w)
    ensures var m := ExpandMask(w.bitMask);
            WriteModeValue(w, latch, value) & !m == latch & !m
    ensures w.writeMode == 1 ==> WriteModeValue(w, latch, value) == latch
  {
    if w.writeMode != 1 {
      SelectWithinKeepsLatch(WriteModeValue(w, latch, value), AluResult(w, latch, value), latch, EffectiveBitMask(w, value), w.bitMask);
    }
  }

  /** Write mode 0 with no rotation, no set/reset, the copy operation and a full bit mask stores the host byte in all four planes. */
  lemma PlainWriteReplicates(w: WriteSettings, latch: bv32, value: bv8)
    requires WellFormed(w) && w.writeMode == 0 && w.rotateCount == 0 && w.enableSetReset == 0
    requires w.logicOp == 0 && w.bitMask == 0xFF
    ensures WriteModeValue(w, latch, value) == ExpandMask(value)
  {
    assert Rotate(value, 0) == value;
    assert Mask16(0) == 0;
    assert ExpandMask(0xFF) == 0xFFFF_FFFF;
  }

  /** The plane write enable: planes enabled in `planeMask` from `value`, the others from `current`. */
  function MergePlanes(value: bv32, current: bv32, planeMask: bv32): bv32
    requires planeMask < 16
  {
    Mix(value, current, Mask16(planeMask))
  }

  /** Each plane of the merge comes from the new value exactly when the plane is enabled. */
  lemma MergePlanesSelects(value: bv32, current: bv32, planeMask: bv32, p: bv32)
    requires planeMask < 16 && p < 4
    ensures Plane(MergePlanes(value, current, planeMask), p) ==
            if PlaneEnabled(planeMask, p) then Plane(value, p) else Plane(current, p)
  {
    MixPlane(value, current, Mask16(planeMask), p);
    Mask16Planes(planeMask, p);
    ByteMixFill(Plane(value, p), Plane(current, p), planeMask, p);
  }

  // ---------------------------------------------------------------------
  // CRTC address generation

  /** Bits of the CRTC mode control register (index 0x17). */
  const ModeControlAlternateLa13: bv8 := 0x01
  const ModeControlAlternateLa14: bv8 := 0x02
  const ModeControlCountBy2: bv8 := 0x08
  const ModeControlAlternateMa00: bv8 := 0x20
  const ModeControlByteMode: bv8 := 0x40

  /** The address counter divided for count-by-4 (underline bit 5) or count-by-2 (mode control bit 3). */
  function CrtcDividedCounter(modeControl: bv8, underline: bv8, counter: bv32): bv32
  {
    if underline & 0x20 != 0 then counter >> 2
    else if modeControl & ModeControlCountBy2 != 0 then counter >> 1
    else counter
  }

  /** Count-by-4 takes precedence over count-by-2; either divides the counter, rounding down. */
  lemma CrtcCountByDivides(modeControl: bv8, underline: bv8, counter: bv32)
    ensures underline & 0x20 != 0 ==> CrtcDividedCounter(modeControl, underline, counter) == counter / 4
    ensures underline & 0x20 == 0 && modeControl & ModeControlCountBy2 != 0 ==>
              CrtcDividedCounter(modeControl, underline, counter) == counter / 2
    ensures underline & 0x20 == 0 && modeControl & ModeControlCountBy2 == 0 ==>
              CrtcDividedCounter(modeControl, underline, counter) == counter
  {
    if underline & 0x20 != 0 {
      ShiftDivides(counter);
    } else if modeControl & ModeControlCountBy2 != 0 {
      ShiftDivides(counter);
    }
  }

  lemma ShiftDivides(x: bv32)
    ensures x >> 2 == x / 4 && x >> 1 == x / 2
  {
  }

  /** Double-word mode's widening: the counter shifted left by two, its bits 14 and 15 moved into bits 0 and 1. */
  function DoubleWordAddress(c: bv32): bv32
  {
    (c << 2) | ((c >> 14) & 0x3)
  }

  /** The address counter divided for count-by-4 or count-by-2 and widened for word or double-word mode. */
  function CrtcCountedAddress(modeControl: bv8, underline: bv8, counter: bv32): bv32
  {
    var counter' := CrtcDividedCounter(modeControl, underline, counter);
    if underline & 0x40 != 0 then DoubleWordAddress(counter')
    else if modeControl & ModeControlByteMode == 0 then
      (if modeControl & ModeControlAlternateMa00 != 0 then (counter' << 1) | ((counter' >> 15) & 0x1)
       else (counter' << 1) | ((counter' >> 13) & 0x1))
    else counter'
  }

  /** The address before the row-scan substitution: the counted address plus the start address (wrapping at 32 bits). */
  function CrtcLinearAddress(modeControl: bv8, underline: bv8, base: bv32, counter: bv32): bv32
  {
    CrtcCountedAddress(modeControl, underline, counter) + base
  }

  /** Output bits 13 and 14 taken from row-scan bits 0 and 1 unless the mode control register selects the address. */
  function SubstituteRowScan(modeControl: bv8, address: bv32, rowScan: bv32): bv32
  {
    var address' :=
      if modeControl & ModeControlAlternateLa13 == 0 then (address & !(1 << 13)) | ((rowScan & 1) << 13)
      else address;
    if modeControl & ModeControlAlternateLa14 == 0 then (address' & !(1 << 14)) | ((rowScan & 2) << 13)
    else address'
  }

  /** `CRTCWrapAddress`: the display address for a character-clock address counter and a row-scan counter. */
  function CrtcWrapAddress(modeControl: bv8, underline: bv8, base: bv32, counter: bv32, rowScan: bv32): bv32
  {
    SubstituteRowScan(modeControl, CrtcLinearAddress(modeControl, underline, base, counter), rowScan)
  }

  /** Bit 13 is row-scan bit 0 unless the mode control register selects the address bit. */
  lemma RowScanBit13(modeControl: bv8, address: bv32, rowScan: bv32)
    ensures var a := SubstituteRowScan(modeControl, address, rowScan);
            (a >> 13) & 1 == if modeControl & ModeControlAlternateLa13 == 0 then rowScan & 1 else (address >> 13) & 1
  {
  }

  /** Bit 14 is row-scan bit 1 unless the mode control register selects the address bit. */
  lemma RowScanBit14(modeControl: bv8, address: bv32, rowScan: bv32)
    ensures var a := SubstituteRowScan(modeControl, address, rowScan);
            (a >> 14) & 1 == if modeControl & ModeControlAlternateLa14 == 0 then (rowScan >> 1) & 1 else (address >> 14) & 1
  {
  }

  /** Every bit other than 13 and 14 is the address's own. */
  lemma RowScanKeepsOtherBits(modeControl: bv8, address: bv32, rowScan: bv32)
    ensures SubstituteRowScan(modeControl, address, rowScan) & !0x6000 == address & !0x6000
  {
    if modeControl & ModeControlAlternateLa13 == 0 {
      if modeControl & ModeControlAlternateLa14 == 0 {
      } else {
      }
    } else {
      if modeControl & ModeControlAlternateLa14 == 0 {
      } else {
      }
    }
  }

  /** In byte mode, counting by one, the counted address is the counter itself. */
  lemma CrtcByteModeIsLinear(modeControl: bv8, underline: bv8, counter: bv32)
    requires modeControl & ModeControlByteMode != 0 && modeControl & ModeControlCountBy2 == 0
    requires underline & 0x60 == 0
    ensures CrtcCountedAddress(modeControl, underline, counter) == counter
  {
    assert underline & 0x20 == 0 && underline & 0x40 == 0;
  }

  /** In word mode, counting by one, the counter is doubled: the counted address shifted back down is the counter without its top bit. */
  lemma CrtcWordModeDoubles(modeControl: bv8, underline: bv8, counter: bv32)
    requires modeControl & ModeControlByteMode == 0 && modeControl & ModeControlCountBy2 == 0
    requires underline & 0x60 == 0
    ensures CrtcCountedAddress(modeControl, underline, counter) >> 1 == counter & 0x7FFF_FFFF
  {
    assert underline & 0x20 == 0 && underline & 0x40 == 0;
  }

  /** In double-word mode the divided counter is widened by `DoubleWordAddress`, whatever the other mode bits say. */
  lemma CrtcDoubleWordMode(modeControl: bv8, underline: bv8, counter: bv32)
    requires underline & 0x40 != 0
    ensures CrtcCountedAddress(modeControl, underline, counter) == DoubleWordAddress(CrtcDividedCounter(modeControl, underline, counter))
  {
  }

  /** Only the count-by-2 bit of the mode control register affects the divided counter. */
  lemma DividedCounterAgrees(m1: bv8, m2: bv8, underline: bv8, counter: bv32)
    requires m1 & ModeControlCountBy2 == m2 & ModeControlCountBy2
    ensures CrtcDividedCounter(m1, underline, counter) == CrtcDividedCounter(m2, underline, counter)
  {
  }

  /**
   * In double-word mode only the count-by-2 bit of the mode control register
   * reaches the counted address: the byte-mode bit, the alternate MA00 bit
   * and the others make no difference.
   */
  lemma CrtcDoubleWordIgnoresMode(m1: bv8, m2: bv8, underline: bv8, counter: bv32)
    requires underline & 0x40 != 0
    requires m1 & ModeControlCountBy2 == m2 & ModeControlCountBy2
    ensures CrtcCountedAddress(m1, underline, counter) == CrtcCountedAddress(m2, underline, counter)
  {
    DividedCounterAgrees(m1, m2, underline, counter);
    CrtcDoubleWordMode(m1, underline, counter);
    CrtcDoubleWordMode(m2, underline, counter);
  }

  /** The low field of a double-word address: counter bits 14 and 15. */
  lemma DoubleWordFields(c: bv32)
    ensures DoubleWordAddress(c) & 3 == (c >> 14) & 3
  {
  }

  /** In double-word mode, address bits 0 and 1 are bits 14 and 15 of the divided counter. */
  lemma CrtcDoubleWordLowBits(modeControl: bv8, underline: bv8, counter: bv32)
    requires underline & 0x40 != 0
    ensures CrtcCountedAddress(modeControl, underline, counter) & 3 == (CrtcDividedCounter(modeControl, underline, counter) >> 14) & 3
  {
    CrtcDoubleWordMode(modeControl, underline, counter);
    DoubleWordFields(CrtcDividedCounter(modeControl, underline, counter));
  }

  /** In word mode, counting by one, bit 0 of the address is bit 13 of the counter, or bit 15 with the alternate MA00 bit. */
  lemma CrtcWordModeWrapBit(modeControl: bv8, underline: bv8, counter: bv32)
    requires modeControl & ModeControlByteMode == 0 && modeControl & ModeControlCountBy2 == 0
    requires underline & 0x60 == 0
    ensures modeControl & ModeControlAlternateMa00 != 0 ==> CrtcCountedAddress(modeControl, underline, counter) & 1 == (counter >> 15) & 1
    ensures modeControl & ModeControlAlternateMa00 == 0 ==> CrtcCountedAddress(modeControl, underline, counter) & 1 == (counter >> 13) & 1
  {
    assert underline & 0x20 == 0 && underline & 0x40 == 0;
  }

  /** With both multiplexer bits set in the mode control register the row-scan counter does not reach the address. */
  lemma CrtcAddressBitsKept(modeControl: bv8, underline: bv8, base: bv32, counter: bv32, rowScan: bv32)
    requires modeControl & 0x03 == 0x03
    ensures CrtcWrapAddress(modeControl, underline, base, counter, rowScan) == CrtcLinearAddress(modeControl, underline, base, counter)
  {
    BothAddressBits(modeControl, CrtcLinearAddress(modeControl, underline, base, counter), rowScan);
  }

  lemma BothAddressBits(modeControl: bv8, address: bv32, rowScan: bv32)
    requires modeControl & 0x03 == 0x03
    ensures SubstituteRowScan(modeControl, address, rowScan) == address
  {
    assert modeControl & ModeControlAlternateLa13 != 0 && modeControl & ModeControlAlternateLa14 != 0;
  }
}
