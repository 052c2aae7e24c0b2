/**
 * A Voodoo texture unit's NCC (narrow-channel compression) table: twelve
 * 32-bit registers that hold sixteen 8-bit Y intensities (registers 0-3,
 * four bytes each), four I colour offsets (registers 4-7) and four Q colour
 * offsets (registers 8-11), each offset three signed 9-bit components
 * (red in bits 26:18, green in bits 17:9, blue in bits 8:0).  From them the
 * table expands the 256 texel colours of the YIQ 4:2:2 texture formats.
 * An I/Q write with bit 31 set instead loads one entry of the texture
 * palette, when the table is attached to one.
 */
module VoodooNcc {

  const NccRegisterCount: nat := 12
  const YCount: nat := 16
  const OffsetCount: nat := 4
  const TexelCount: nat := 256
  const PaletteSize: nat := 256

  // ---------------------------------------------------------------------
  // Colour words

  /** `rgb_t(a, r, g, b)`: alpha in bits 31:24, then red, green and blue. */
  function Argb(a: bv8, r: bv8, g: bv8, b: bv8): bv32
  {
    ((a as bv32) << 24) | ((r as bv32) << 16) | ((g as bv32) << 8) | (b as bv32)
  }

  /** Byte `k` (0 = lowest) of a word. */
  function ByteOf(w: bv32, k: bv32): bv8
    requires k < 4
  {
    ((w >> (k << 3)) & 0xFF) as bv8
  }

  /** The four channels of a colour word read back as they were packed. */
  lemma ArgbChannels(a: bv8, r: bv8, g: bv8, b: bv8)
    ensures ByteOf(Argb(a, r, g, b), 3) == a && ByteOf(Argb(a, r, g, b), 2) == r
    ensures ByteOf(Argb(a, r, g, b), 1) == g && ByteOf(Argb(a, r, g, b), 0) == b
  {
  }

  /** `CLAMP(v, lo, hi)`. */
  function Clamp(v: int, lo: int, hi: int): (r: int)
    requires lo <= hi
    ensures lo <= r <= hi
    ensures lo <= v <= hi ==> r == v
    ensures v < lo ==> r == lo
    ensures v > hi ==> r == hi
  {
    if v < lo then lo else if v > hi then hi else v
  }

  // ---------------------------------------------------------------------
  // Register fields

  /** The 9-bit field of `data` starting at bit `lo`. */
  function Field9(data: bv32, lo: bv32): bv32
    requires lo <= 23
  {
    (data >> lo) & 0x1FF
  }

  /** A 9-bit two's-complement value. */
  function Signed9(f: bv32): (r: int)
    requires f < 0x200
    ensures -256 <= r <= 255
  {
    if f < 0x100 then f as int else f as int - 0x200
  }

  /**
   * `(s32)(data << shift) >> 23`: the shift left drops the bits above the
   * field, and the arithmetic shift right brings the field down with its
   * top bit repeated.
   */
  function ShiftedSigned9(data: bv32, shift: bv32): int
    requires shift <= 23
  {
    var t := data << shift;
    if t & 0x8000_0000 == 0 then (t >> 23) as int else (t >> 23) as int - 0x200
  }

  /** The shift pair selects the 9-bit field ending at bit `31 - shift`, read as signed. */
  lemma ShiftedSigned9IsField(data: bv32, shift: bv32)
    requires shift == 5 || shift == 14 || shift == 23
    ensures (data << shift) >> 23 == Field9(data, 23 - shift)
    ensures (data << shift) & 0x8000_0000 == 0 <==> Field9(data, 23 - shift) < 0x100
    ensures ShiftedSigned9(data, shift) == Signed9(Field9(data, 23 - shift))
  {
  }

  /** The red, green and blue offsets of an I or Q register. */
  function OffsetRed(data: bv32): (r: int)
    ensures r == Signed9(Field9(data, 18))
  {
    ShiftedSigned9IsField(data, 5);
    ShiftedSigned9(data, 5)
  }

  function OffsetGreen(data: bv32): (r: int)
    ensures r == Signed9(Field9(data, 9))
  {
    ShiftedSigned9IsField(data, 14);
    ShiftedSigned9(data, 14)
  }

  function OffsetBlue(data: bv32): (r: int)
    ensures r == Signed9(Field9(data, 0))
  {
    ShiftedSigned9IsField(data, 23);
    ShiftedSigned9(data, 23)
  }

  /** An I or Q register holding three 9-bit fields (bits 31:27 left clear). */
  function PackOffsetFields(fr: bv32, fg: bv32, fb: bv32): bv32
    requires fr < 0x200 && fg < 0x200 && fb < 0x200
  {
    (fr << 18) | (fg << 9) | fb
  }

  /** Unpacking a register packed from three 9-bit fields gives each field back. */
  lemma UnpackPackedFields(fr: bv32, fg: bv32, fb: bv32)
    requires fr < 0x200 && fg < 0x200 && fb < 0x200
    ensures var data := PackOffsetFields(fr, fg, fb);
            OffsetRed(data) == Signed9(fr) && OffsetGreen(data) == Signed9(fg) && OffsetBlue(data) == Signed9(fb)
  {
    var data := PackOffsetFields(fr, fg, fb);
    assert Field9(data, 18) == fr && Field9(data, 9) == fg && Field9(data, 0) == fb;
  }

  /** The Y intensity in byte `k` (0 = lowest) of a Y register. */
  function YByte(data: bv32, k: nat): (v: int)
    requires k < 4
    ensures 0 <= v < 256
  {
    var b := if k == 0 then data else if k == 1 then data >> 8 else if k == 2 then data >> 16 else data >> 24;
    (b & 0xFF) as int
  }

  /** The four Y bytes of a register put back together give the register. */
  lemma YBytesRepack(data: bv32)
    ensures data == ((data >> 0) & 0xFF) | (((data >> 8) & 0xFF) << 8) | (((data >> 16) & 0xFF) << 16) | (((data >> 24) & 0xFF) << 24)
    ensures YByte(data, 0) == ((data >> 0) & 0xFF) as int && YByte(data, 1) == ((data >> 8) & 0xFF) as int
    ensures YByte(data, 2) == ((data >> 16) & 0xFF) as int && YByte(data, 3) == ((data >> 24) & 0xFF) as int
  {
  }

  // ---------------------------------------------------------------------
  // Palette writes

  /** A write that goes to the palette instead of the registers: an I or Q register with bit 31 set. */
  predicate IsPaletteWrite(regnum: nat, data: bv32)
  {
    regnum >= 4 && data & 0x8000_0000 != 0
  }

  /** Bits 30:24 of the data pick an even/odd pair of entries; the register's low bit picks the entry. */
  function PaletteIndex(regnum: nat, data: bv32): (i: nat)
    ensures i < PaletteSize
    ensures i % 2 == regnum % 2
    ensures i / 2 == ((data >> 24) & 0x7F) as int
  {
    var even := ((data >> 23) & 0xFE) as nat;
    assert even % 2 == 0 && even / 2 == ((data >> 24) & 0x7F) as int by {
      assert (data >> 23) & 0xFE == ((data >> 24) & 0x7F) << 1;
    }
    even + regnum % 2
  }

  /** A 6-bit colour field widened to 8 bits by repeating its top two bits. */
  function Expand6(data: bv32, lo: bv32): bv8
    requires lo <= 18
  {
    ((((data >> lo) & 0x3F) << 2) | ((data >> (lo + 4)) & 0x03)) as bv8
  }

  /** The expansion keeps the 6-bit field in its top bits. */
  lemma Expand6Keeps(data: bv32, lo: bv32)
    requires lo <= 18
    ensures (Expand6(data, lo) >> 2) as bv32 == (data >> lo) & 0x3F
  {
  }

  /** The ARGB palette entry: four 6-bit fields (alpha 23:18, red 17:12, green 11:6, blue 5:0), each widened. */
  function PaletteArgb(data: bv32): bv32
  {
    var a := ((data >> 16) & 0xfc) | ((data >> 22) & 0x03);
    var r := ((data >> 10) & 0xfc) | ((data >> 16) & 0x03);
    var g := ((data >> 4) & 0xfc) | ((data >> 10) & 0x03);
    var b := ((data << 2) & 0xfc) | ((data >> 4) & 0x03);
    Argb(a as bv8, r as bv8, g as bv8, b as bv8)
  }

  /** The source's four channel expressions each widen one 6-bit field. */
  lemma PaletteFieldsExpand(data: bv32)
    ensures (((data >> 16) & 0xfc) | ((data >> 22) & 0x03)) as bv8 == Expand6(data, 18)
    ensures (((data >> 10) & 0xfc) | ((data >> 16) & 0x03)) as bv8 == Expand6(data, 12)
    ensures (((data >> 4) & 0xfc) | ((data >> 10) & 0x03)) as bv8 == Expand6(data, 6)
    ensures (((data << 2) & 0xfc) | ((data >> 4) & 0x03)) as bv8 == Expand6(data, 0)
  {
  }

  /** Each channel of the ARGB entry is the widened 6-bit field. */
  lemma PaletteArgbChannels(data: bv32)
    ensures var c := PaletteArgb(data);
            ByteOf(c, 3) == Expand6(data, 18) && ByteOf(c, 2) == Expand6(data, 12) &&
            ByteOf(c, 1) == Expand6(data, 6) && ByteOf(c, 0) == Expand6(data, 0)
  {
    PaletteFieldsExpand(data);
    ArgbChannels(Expand6(data, 18), Expand6(data, 12), Expand6(data, 6), Expand6(data, 0));
    assert PaletteArgb(data) == Argb(Expand6(data, 18), Expand6(data, 12), Expand6(data, 6), Expand6(data, 0));
  }

  // ---------------------------------------------------------------------
  // The register-side state

  /** The registers and the tables unpacked from them. */
  datatype NccRegisters = NccRegisters(
    reg: seq<bv32>, y: seq<int>,
    ir: seq<int>, ig: seq<int>, ib: seq<int>,
    qr: seq<int>, qg: seq<int>, qb: seq<int>,
    dirty: bool)

  predicate WellFormed(s: NccRegisters)
  {
    |s.reg| == NccRegisterCount && |s.y| == YCount &&
    |s.ir| == OffsetCount && |s.ig| == OffsetCount && |s.ib| == OffsetCount &&
    |s.qr| == OffsetCount && |s.qg| == OffsetCount && |s.qb| == OffsetCount
  }

  /** The Y table holds the bytes of the Y registers. */
  predicate YUnpacked(reg: seq<bv32>, y: seq<int>)
    requires |reg| == NccRegisterCount && |y| == YCount
  {
    forall k :: 0 <= k < YCount ==> y[k] == YByte(reg[k / 4], k % 4)
  }

  /** Offset tables `r`, `g`, `b` hold the fields of the four registers from `first`. */
  predicate OffsetsUnpacked(reg: seq<bv32>, first: nat, r: seq<int>, g: seq<int>, b: seq<int>)
    requires |reg| == NccRegisterCount && first + OffsetCount <= NccRegisterCount
    requires |r| == OffsetCount && |g| == OffsetCount && |b| == OffsetCount
  {
    forall k :: 0 <= k < OffsetCount ==>
      r[k] == OffsetRed(reg[first + k]) && g[k] == OffsetGreen(reg[first + k]) && b[k] == OffsetBlue(reg[first + k])
  }

  /** The tables agree with the registers they were unpacked from. */
  predicate Unpacked(s: NccRegisters)
    requires WellFormed(s)
  {
    YUnpacked(s.reg, s.y) && OffsetsUnpacked(s.reg, 4, s.ir, s.ig, s.ib) && OffsetsUnpacked(s.reg, 8, s.qr, s.qg, s.qb)
  }

  /** The Y table after a write to Y register `regnum`. */
  function UnpackY(y: seq<int>, regnum: nat, data: bv32): (r: seq<int>)
    requires |y| == YCount && regnum < 4
    ensures |r| == YCount
    ensures forall k :: 0 <= k < YCount && k / 4 != regnum ==> r[k] == y[k]
    ensures forall k :: 0 <= k < YCount && k / 4 == regnum ==> r[k] == YByte(data, k % 4)
  {
    var b := regnum * 4;
    y[b := YByte(data, 0)][b + 1 := YByte(data, 1)][b + 2 := YByte(data, 2)][b + 3 := YByte(data, 3)]
  }

  /**
   * A register write that does not go to the palette: an unchanged value
   * is ignored; otherwise the register is stored, its fields unpacked into
   * the matching table, and the table marked dirty.
   */
  function RegisterWrite(s: NccRegisters, regnum: nat, data: bv32): (r: NccRegisters)
    requires WellFormed(s) && regnum < NccRegisterCount
    ensures WellFormed(r)
  {
    if data == s.reg[regnum] then s
    else
      var s1 := s.(reg := s.reg[regnum := data], dirty := true);
      if regnum < 4 then s1.(y := UnpackY(s.y, regnum, data))
      else if regnum < 8 then
        var k := regnum % 4;
        s1.(ir := s.ir[k := OffsetRed(data)], ig := s.ig[k := OffsetGreen(data)], ib := s.ib[k := OffsetBlue(data)])
      else
        var k := regnum % 4;
        s1.(qr := s.qr[k := OffsetRed(data)], qg := s.qg[k := OffsetGreen(data)], qb := s.qb[k := OffsetBlue(data)])
  }

  /** A write of a new value to Y register `regnum` stores it and unpacks its four bytes. */
  lemma RegisterWriteY(s: NccRegisters, regnum: nat, data: bv32)
    requires WellFormed(s) && regnum < 4 && data != s.reg[regnum]
    ensures RegisterWrite(s, regnum, data) == s.(reg := s.reg[regnum := data], dirty := true, y := UnpackY(s.y, regnum, data))
  {
  }

  /** A write of a new value to I register `regnum` stores it and unpacks its three fields. */
  lemma RegisterWriteI(s: NccRegisters, regnum: nat, data: bv32)
    requires WellFormed(s) && 4 <= regnum < 8 && data != s.reg[regnum]
    ensures var k := regnum % 4;
            RegisterWrite(s, regnum, data) ==
            s.(reg := s.reg[regnum := data], dirty := true,
               ir := s.ir[k := OffsetRed(data)], ig := s.ig[k := OffsetGreen(data)], ib := s.ib[k := OffsetBlue(data)])
  {
  }

  /** A write of a new value to Q register `regnum` stores it and unpacks its three fields. */
  lemma RegisterWriteQ(s: NccRegisters, regnum: nat, data: bv32)
    requires WellFormed(s) && 8 <= regnum < NccRegisterCount && data != s.reg[regnum]
    ensures var k := regnum % 4;
            RegisterWrite(s, regnum, data) ==
            s.(reg := s.reg[regnum := data], dirty := true,
               qr := s.qr[k := OffsetRed(data)], qg := s.qg[k := OffsetGreen(data)], qb := s.qb[k := OffsetBlue(data)])
  {
  }

  /** Storing a register outside a table's range keeps that table in step. */
  lemma OffsetsUnpackedFrame(reg: seq<bv32>, first: nat, r: seq<int>, g: seq<int>, b: seq<int>, regnum: nat, data: bv32)
    requires |reg| == NccRegisterCount && first + OffsetCount <= NccRegisterCount && regnum < NccRegisterCount
    requires |r| == OffsetCount && |g| == OffsetCount && |b| == OffsetCount
    requires OffsetsUnpacked(reg, first, r, g, b)
    requires regnum < first || regnum >= first + OffsetCount
    ensures OffsetsUnpacked(reg[regnum := data], first, r, g, b)
  {
  }

  /** Storing a register inside a table's range and unpacking it keeps that table in step. */
  lemma OffsetsUnpackedWrite(reg: seq<bv32>, first: nat, r: seq<int>, g: seq<int>, b: seq<int>, regnum: nat, data: bv32)
    requires |reg| == NccRegisterCount && first + OffsetCount <= NccRegisterCount
    requires |r| == OffsetCount && |g| == OffsetCount && |b| == OffsetCount
    requires OffsetsUnpacked(reg, first, r, g, b)
    requires first <= regnum < first + OffsetCount
    ensures var k := regnum - first;
            OffsetsUnpacked(reg[regnum := data], first, r[k := OffsetRed(data)], g[k := OffsetGreen(data)], b[k := OffsetBlue(data)])
  {
  }

  lemma YUnpackedFrame(reg: seq<bv32>, y: seq<int>, regnum: nat, data: bv32)
    requires |reg| == NccRegisterCount && |y| == YCount && YUnpacked(reg, y) && 4 <= regnum < NccRegisterCount
    ensures YUnpacked(reg[regnum := data], y)
  {
  }

  lemma YUnpackedWrite(reg: seq<bv32>, y: seq<int>, regnum: nat, data: bv32)
    requires |reg| == NccRegisterCount && |y| == YCount && YUnpacked(reg, y) && regnum < 4
    ensures YUnpacked(reg[regnum := data], UnpackY(y, regnum, data))
  {
    var reg', y' := reg[regnum := data], UnpackY(y, regnum, data);
    forall k | 0 <= k < YCount
      ensures y'[k] == YByte(reg'[k / 4], k % 4)
    {
    }
  }

  /** A write of a new Y register keeps all three tables in step. */
  lemma YWriteKeepsUnpacked(s: NccRegisters, regnum: nat, data: bv32)
    requires WellFormed(s) && Unpacked(s) && regnum < 4
    ensures Unpacked(s.(reg := s.reg[regnum := data], dirty := true, y := UnpackY(s.y, regnum, data)))
  {
    YUnpackedWrite(s.reg, s.y, regnum, data);
    OffsetsUnpackedFrame(s.reg, 4, s.ir, s.ig, s.ib, regnum, data);
    OffsetsUnpackedFrame(s.reg, 8, s.qr, s.qg, s.qb, regnum, data);
  }

  /** A write of a new I register keeps all three tables in step. */
  lemma IWriteKeepsUnpacked(s: NccRegisters, regnum: nat, data: bv32)
    requires WellFormed(s) && Unpacked(s) && 4 <= regnum < 8
    ensures var k := regnum % 4;
            Unpacked(s.(reg := s.reg[regnum := data], dirty := true,
                        ir := s.ir[k := OffsetRed(data)], ig := s.ig[k := OffsetGreen(data)], ib := s.ib[k := OffsetBlue(data)]))
  {
    YUnpackedFrame(s.reg, s.y, regnum, data);
    OffsetsUnpackedWrite(s.reg, 4, s.ir, s.ig, s.ib, regnum, data);
    OffsetsUnpackedFrame(s.reg, 8, s.qr, s.qg, s.qb, regnum, data);
  }

  /** A write of a new Q register keeps all three tables in step. */
  lemma QWriteKeepsUnpacked(s: NccRegisters, regnum: nat, data: bv32)
    requires WellFormed(s) && Unpacked(s) && 8 <= regnum < NccRegisterCount
    ensures var k := regnum % 4;
            Unpacked(s.(reg := s.reg[regnum := data], dirty := true,
                        qr := s.qr[k := OffsetRed(data)], qg := s.qg[k := OffsetGreen(data)], qb := s.qb[k := OffsetBlue(data)]))
  {
    YUnpackedFrame(s.reg, s.y, regnum, data);
    OffsetsUnpackedFrame(s.reg, 4, s.ir, s.ig, s.ib, regnum, data);
    OffsetsUnpackedWrite(s.reg, 8, s.qr, s.qg, s.qb, regnum, data);
  }

  /** A write keeps the tables in step with the registers. */
  lemma RegisterWriteKeepsUnpacked(s: NccRegisters, regnum: nat, data: bv32)
    requires WellFormed(s) && Unpacked(s) && regnum < NccRegisterCount
    ensures Unpacked(RegisterWrite(s, regnum, data))
    ensures RegisterWrite(s, regnum, data).reg == s.reg[regnum := data]
  {
    if data == s.reg[regnum] {
      assert s.reg[regnum := data] == s.reg;
    } else if regnum < 4 {
      YWriteKeepsUnpacked(s, regnum, data);
    } else if regnum < 8 {
      IWriteKeepsUnpacked(s, regnum, data);
    } else {
      QWriteKeepsUnpacked(s, regnum, data);
    }
  }

  /** Only a changed value marks the table dirty; a repeated write leaves everything as it was. */
  lemma RegisterWriteIdempotent(s: NccRegisters, regnum: nat, data: bv32)
    requires WellFormed(s) && regnum < NccRegisterCount
    ensures var r := RegisterWrite(s, regnum, data);
            RegisterWrite(r, regnum, data) == r &&
            r.dirty == (s.dirty || data != s.reg[regnum])
  {
  }

  /** A write to one kind of register leaves the other kinds' tables alone. */
  lemma RegisterWriteSeparates(s: NccRegisters, regnum: nat, data: bv32)
    requires WellFormed(s) && regnum < NccRegisterCount
    ensures var r := RegisterWrite(s, regnum, data);
            (regnum >= 4 ==> r.y == s.y) &&
            (regnum < 4 || regnum >= 8 ==> r.ir == s.ir && r.ig == s.ig && r.ib == s.ib) &&
            (regnum < 8 ==> r.qr == s.qr && r.qg == s.qg && r.qb == s.qb)
  {
  }

  // ---------------------------------------------------------------------
  // Texel expansion

  /** One channel of a texel: the intensity plus the I and Q offsets, clamped to a byte. */
  function TexelChannel(y: int, i: int, q: int): (c: bv8)
    ensures c as int == Clamp(y + i + q, 0, 255)
  {
    Clamp(y + i + q, 0, 255) as bv8
  }

  /** Texel `i`: Y from bits 7:4, I from bits 3:2, Q from bits 1:0, fully opaque. */
  function TexelColor(s: NccRegisters, i: nat): bv32
    requires WellFormed(s) && i < TexelCount
  {
    var vy, vi, vq := (i / 16) % 16, (i / 4) % 4, i % 4;
    Argb(0xFF,
         TexelChannel(s.y[vy], s.ir[vi], s.qr[vq]),
         TexelChannel(s.y[vy], s.ig[vi], s.qg[vq]),
         TexelChannel(s.y[vy], s.ib[vi], s.qb[vq]))
  }

  /** The whole expanded table. */
  function Texels(s: NccRegisters): (t: seq<bv32>)
    requires WellFormed(s)
    ensures |t| == TexelCount
  {
    seq(TexelCount, i requires 0 <= i < TexelCount => TexelColor(s, i))
  }

  /** Every texel is opaque and each colour channel is the clamped YIQ sum. */
  lemma TexelChannels(s: NccRegisters, i: nat)
    requires WellFormed(s) && i < TexelCount
    ensures var c, vy, vi, vq := TexelColor(s, i), i / 16, (i / 4) % 4, i % 4;
            ByteOf(c, 3) == 0xFF &&
            ByteOf(c, 2) as int == Clamp(s.y[vy] + s.ir[vi] + s.qr[vq], 0, 255) &&
            ByteOf(c, 1) as int == Clamp(s.y[vy] + s.ig[vi] + s.qg[vq], 0, 255) &&
            ByteOf(c, 0) as int == Clamp(s.y[vy] + s.ib[vi] + s.qb[vq], 0, 255)
  {
    var vy, vi, vq := (i / 16) % 16, (i / 4) % 4, i % 4;
    assert vy == i / 16;
    ArgbChannels(0xFF, TexelChannel(s.y[vy], s.ir[vi], s.qr[vq]), TexelChannel(s.y[vy], s.ig[vi], s.qg[vq]),
                 TexelChannel(s.y[vy], s.ib[vi], s.qb[vq]));
  }

  /** The three clamped sums of texel `i`, packed with full alpha, are that texel's colour. */
  lemma ClampedSumsAreTexel(s: NccRegisters, i: nat, r: int, g: int, b: int)
    requires WellFormed(s) && i < TexelCount
    requires var vy, vi, vq := (i / 16) % 16, (i / 4) % 4, i % 4;
             r == Clamp(s.y[vy] + s.ir[vi] + s.qr[vq], 0, 255) &&
             g == Clamp(s.y[vy] + s.ig[vi] + s.qg[vq], 0, 255) &&
             b == Clamp(s.y[vy] + s.ib[vi] + s.qb[vq], 0, 255)
    ensures 0 <= r < 256 && 0 <= g < 256 && 0 <= b < 256
    ensures Argb(0xFF, r as bv8, g as bv8, b as bv8) == TexelColor(s, i)
  {
  }

  // ---------------------------------------------------------------------
  // The table object

  class NccTable {
    var reg: seq<bv32>
    var y: seq<int>
    var ir: seq<int>
    var ig: seq<int>
    var ib: seq<int>
    var qr: seq<int>
    var qg: seq<int>
    var qb: seq<int>
    var dirty: bool
    var texel: array<bv32>
    /** The texture palette the table writes through, when it has one (`palette != nullptr`). */
    var palette: array<bv32>
    var hasPalette: bool
    /** The ARGB texture palette, when it has one (`palettea != nullptr`). */
    var paletteArgb: array<bv32>
    var hasPaletteArgb: bool

    predicate Valid()
      reads this
    {
      WellFormed(Registers()) &&
      texel.Length == TexelCount && palette.Length == PaletteSize && paletteArgb.Length == PaletteSize &&
      palette != paletteArgb && texel != palette && texel != paletteArgb
    }

    function Registers(): NccRegisters
      reads this
    {
      NccRegisters(reg, y, ir, ig, ib, qr, qg, qb, dirty)
    }

    constructor(palette: array<bv32>, hasPalette: bool, paletteArgb: array<bv32>, hasPaletteArgb: bool)
      requires palette.Length == PaletteSize && paletteArgb.Length == PaletteSize && palette != paletteArgb
      ensures Valid() && fresh(texel) && Unpacked(Registers()) && dirty
      ensures this.palette == palette && this.hasPalette == hasPalette
      ensures this.paletteArgb == paletteArgb && this.hasPaletteArgb == hasPaletteArgb
    {
      reg := seq(NccRegisterCount, _ => 0);
      y := seq(YCount, _ => 0);
      ir, ig, ib := seq(OffsetCount, _ => 0), seq(OffsetCount, _ => 0), seq(OffsetCount, _ => 0);
      qr, qg, qb := seq(OffsetCount, _ => 0), seq(OffsetCount, _ => 0), seq(OffsetCount, _ => 0);
      dirty := true;
      texel := new bv32[TexelCount];
      this.palette := palette;
      this.hasPalette := hasPalette;
      this.paletteArgb := paletteArgb;
      this.hasPaletteArgb := hasPaletteArgb;
      new;
      assert OffsetRed(0) == 0 && OffsetGreen(0) == 0 && OffsetBlue(0) == 0;
      assert YByte(0, 0) == 0 && YByte(0, 1) == 0 && YByte(0, 2) == 0 && YByte(0, 3) == 0;
    }

    /**
     * `ncc_table::write`: a palette write stores the entry (and its ARGB
     * form) and touches nothing else; any other write goes to the registers.
     */
    method Write(regnum: nat, data: bv32)
      requires Valid() && regnum < NccRegisterCount
      modifies this`reg, this`y, this`ir, this`ig, this`ib, this`qr, this`qg, this`qb, this`dirty
      modifies palette, paletteArgb
      ensures Valid()
      ensures IsPaletteWrite(regnum, data) && hasPalette ==>
                Registers() == old(Registers()) &&
                palette[..] == old(palette[..])[PaletteIndex(regnum, data) := 0xFF00_0000 | data] &&
                paletteArgb[..] == if hasPaletteArgb then old(paletteArgb[..])[PaletteIndex(regnum, data) := PaletteArgb(data)]
                                   else old(paletteArgb[..])
      ensures !(IsPaletteWrite(regnum, data) && hasPalette) ==>
                Registers() == RegisterWrite(old(Registers()), regnum, data) &&
                palette[..] == old(palette[..]) && paletteArgb[..] == old(paletteArgb[..])
    {
      if regnum >= 4 && data & 0x8000_0000 != 0 && hasPalette {
        WritePalette(regnum, data);
        return;
      }
      WriteRegister(regnum, data);
    }

    /** The palette half of `write`: set entry `index` and, if present, its ARGB form. */
    method WritePalette(regnum: nat, data: bv32)
      requires Valid()
      modifies palette, paletteArgb
      ensures palette[..] == old(palette[..])[PaletteIndex(regnum, data) := 0xFF00_0000 | data]
      ensures paletteArgb[..] == if hasPaletteArgb then old(paletteArgb[..])[PaletteIndex(regnum, data) := PaletteArgb(data)]
                                 else old(paletteArgb[..])
    {
      var index := PaletteIndex(regnum, data);
      palette[index] := 0xFF00_0000 | data;
      if hasPaletteArgb {
        paletteArgb[index] := PaletteArgb(data);
      }
    }

    /** The register half of `write`. */
    method WriteRegister(regnum: nat, data: bv32)
      requires Valid() && regnum < NccRegisterCount
      modifies this`reg, this`y, this`ir, this`ig, this`ib, this`qr, this`qg, this`qb, this`dirty
      ensures Valid()
      ensures Registers() == RegisterWrite(old(Registers()), regnum, data)
    {
      if data == reg[regnum] {
        return;
      }
      reg := reg[regnum := data];
      if regnum < 4 {
        RegisterWriteY(old(Registers()), regnum, data);
        y := UnpackY(y, regnum, data);
      } else if regnum < 8 {
        RegisterWriteI(old(Registers()), regnum, data);
        var k := regnum % 4;
        ir, ig, ib := ir[k := OffsetRed(data)], ig[k := OffsetGreen(data)], ib[k := OffsetBlue(data)];
      } else {
        RegisterWriteQ(old(Registers()), regnum, data);
        var k := regnum % 4;
        qr, qg, qb := qr[k := OffsetRed(data)], qg[k := OffsetGreen(data)], qb[k := OffsetBlue(data)];
      }
      dirty := true;
    }

    /** `ncc_table::update`: expands all 256 texels and clears the dirty flag. */
    method Update()
      requires Valid()
      modifies texel, this`dirty
      ensures Valid() && !dirty
      ensures Registers() == old(Registers()).(dirty := false)
      ensures texel[..] == Texels(Registers())
    {
      ghost var s := Registers().(dirty := false);
      var i := 0;
      while i < TexelCount
        invariant 0 <= i <= TexelCount
        invariant forall k :: 0 <= k < i ==> texel[k] == TexelColor(s, k)
      {
        var vi := (i / 4) % 4;
        var vq := i % 4;
        var v := y[(i / 16) % 16];
        var r := v + ir[vi] + qr[vq];
        var g := v + ig[vi] + qg[vq];
        var b := v + ib[vi] + qb[vq];
        r := Clamp(r, 0, 255);
        g := Clamp(g, 0, 255);
        b := Clamp(b, 0, 255);
        ClampedSumsAreTexel(s, i, r, g, b);
        texel[i] := Argb(0xFF, r as bv8, g as bv8, b as bv8);
        i := i + 1;
      }
      dirty := false;
    }
  }
}
