# pce core devices in Dafny

This project models five core pieces of the pce x86 PC emulator and proves
properties of the models:

- **SoftFloat comparison predicates** (`softfloat-compare.h`). These are the 32
  `float32_*`/`float64_*` predicates behind the SSE/AVX `CMPPS`/`VCMP`
  immediate. Each asks a quiet or a signalling base comparison for a relation
  and tests the answer. Module `SoftfloatCompare`; the relation and status
  flags are in `SoftfloatStatus`.
- **80-bit extended precision** (`softfloatx80.cc`). This covers operand
  classification, `floatx80_compare`, `floatx80_extract` (FXTRACT), the
  special-operand branches of `floatx80_scale` (FSCALE), and the conversions
  to 16-bit integers. Module `Floatx80`.
- **The VGA base device** (`vgabase.cpp`). This covers:
  - the CRTC, graphics, sequencer and attribute register banks with their
    write masks;
  - the attribute address/data flip-flop and the DAC palette state machine;
  - the host-to-VRAM address mapping in chain-4, odd/even and planar modes;
  - the latch, ALU (logic op, rotate, set/reset, bit mask) and plane-mask
    write path;
  - read modes 0 and 1 (colour compare) and the CRTC address wrap;
  - reset and the save-state stream.

  Modules: `VgaPlanes` (four-plane words and mask expansion), `VgaLogic`
  (pure bit logic), `VramAddress` (address arithmetic),
  `Vga` (the `VgaBase` class and its state snapshot) and `Serial` (the
  little-endian state stream).
- **Voodoo graphics** (`voodoo.cpp`). This covers:
  - the command FIFO: packet depth, execution, the execute-if-ready gate, and
    the out-of-order write tracking in `cmdfifo_w`;
  - the NCC texture decompression table;
  - the frame-buffer layout computed by `recompute_video_memory`;
  - buffer swapping and the vertical-blank counter.

  Modules: `VoodooFifo`, `VoodooNcc`, `VoodooFbi`.
- **The IBM XT system board** (`ibmxt.cpp`). This covers:
  - the RAM-size check in `Initialize`;
  - the DIP switches set from memory size, video type and drive count;
  - the NMI mask port;
  - reset and the save/load of the NMI mask.

  Module `IbmXt`.

Fixed-width C++ integers are bit-vectors (`bv8`, `bv16`, `bv32`) where the
source does bit manipulation. They are unbounded `int`s with explicit
wrap-around (`Word32.Wrap32`) where it does address arithmetic. Objects whose
fields the source updates become classes (`Vga.VgaBase`, `VoodooFifo.CmdFifo`,
`VoodooNcc.NccTable`, `VoodooFbi.Fbi`, `IbmXt.IbmXtSystem`). Each of their
methods states its new state through a specification function, and the
properties are proved as lemmas about those functions.

## Model

| member | source | states |
|---|---|---|
| SoftfloatCompare.TableMatchesImmediate | dep/softfloat/src/softfloat-compare.h:45-268 | Each of the 32 predicates, numbered 0x00-0x1f, tests the relation its name gives (eq, lt, le, unord, neq, nlt, nle, ord, eq_uq, nge, ngt, false, neq_oq, ge, gt, true, and the signalling/quiet counterparts). It uses the quiet base compare exactly when the immediate's quiet rule says so. |
| SoftfloatCompare.ComplementPairs | dep/softfloat/src/softfloat-compare.h:45-268 | Predicates whose codes differ in bit 2 give complementary answers for every relation and use the same base compare. |
| SoftfloatCompare.QuietSignallingPairs | dep/softfloat/src/softfloat-compare.h:45-268 | Predicates whose codes differ in bit 4 give the same answer and differ only in quiet versus signalling. |
| SoftfloatCompare.UnorderedOutcome | dep/softfloat/src/softfloat-compare.h:45-268 | On an unordered relation, the ordered predicates (eq, lt, le, neq_oq, ge, gt, ord, false) answer false. The unordered ones (unord, neq, nlt, nle, eq_uq, nge, ngt, true) answer true. |
| SoftfloatCompare.Evaluate | dep/softfloat/src/softfloat-compare.h:45-268 | Calling a predicate returns its relation test on the selected base compare's result and that compare's status. The false/true predicates still run the compare for its flags but return 0/1. |
| SoftfloatCompare.Float32Compare | dep/softfloat/src/softfloat-compare.h:45-268 | The float32 predicates: the result is the immediate's relation test on `float32_compare_quiet` or `float32_compare`, with that call's status. |
| SoftfloatCompare.Float64Compare | dep/softfloat/src/softfloat-compare.h:273-494 | The float64 predicates, stated in the same way over `float64_compare_quiet`/`float64_compare`. |
| SoftfloatCompare.Float64MatchesFloat32 | dep/softfloat/src/softfloat-compare.h:273-494 | Given base compares that agree, every float64 predicate agrees with its float32 namesake. |
| SoftfloatStatus.Raise | dep/softfloat/src/softfloatx80.cc:264-269 | `float_raise`, as its callers here use it: raising an exception flag sets that flag, keeps every flag already raised, and sets no other flag. |
| Floatx80.Pack | dep/softfloat/src/softfloatx80.cc:118-126 | Packing sign, exponent and significand gives back the same sign, exponent and significand. |
| Floatx80.ClassMatchesEncoding | dep/softfloat/src/softfloatx80.cc:222-257 | `floatx80_class` answers zero, denormal, normal, ±infinity, QNaN or SNaN exactly when the encoding has that form. Unsupported encodings count as SNaN. |
| Floatx80.Normalize | dep/softfloat/src/softfloatx80.cc:292-311 | Normalising a denormal operand sets the integer bit and preserves the magnitude it denotes. |
| Floatx80.Compare | dep/softfloat/src/softfloatx80.cc:259-311 | An SNaN or unsupported operand gives unordered and raises invalid. A QNaN gives unordered and raises invalid only for the signalling compare. Ordered operands never give unordered, and a denormal operand raises the denormal flag. |
| Floatx80.CompareIsNumericOrder | dep/softfloat/src/softfloatx80.cc:276-311 | On ordered operands, the compare's relation is the numeric order of the values the encodings denote, signed zeros included. |
| Floatx80.CompareAntisymmetric | dep/softfloat/src/softfloatx80.cc:276-311 | Swapping the operands swaps less and greater and keeps equal. |
| Floatx80.CompareZeros | dep/softfloat/src/softfloatx80.cc:283-290 | Comparing against a zero (either sign) gives equal for a zero and otherwise the sign of the other operand. |
| Floatx80.CompareEqualIff | dep/softfloat/src/softfloatx80.cc:276-311 | Two ordered operands compare equal exactly when both are zeros or they have the same sign and the same normalised exponent and significand. |
| Floatx80.FromInt32 | dep/softfloat/src/softfloatx80.cc:133 | Converting an int32 gives zero for 0. For anything else it gives a normal value of that sign whose magnitude is the integer. |
| Floatx80.NarrowToInt16 | dep/softfloat/src/softfloatx80.cc:49-97 | An unsupported operand gives the 16-bit indefinite value 0x8000 and raises invalid. An int32 result outside the int16 range gives 0x8000 with the flags replaced by invalid alone. Otherwise the int32 result and its status are kept. |
| Floatx80.ToInt16 | dep/softfloat/src/softfloatx80.cc:49-73 | `floatx80_to_int16` is the rounding int32 conversion narrowed by the int16 range check. |
| Floatx80.ToInt16RoundToZero | dep/softfloat/src/softfloatx80.cc:75-97 | `floatx80_to_int16_round_to_zero` is the truncating int32 conversion narrowed by the same check. |
| Floatx80.Extract | dep/softfloat/src/softfloatx80.cc:99-142 | Cases by operand: <br>• unsupported: both results are the default NaN and invalid is raised. <br>• NaN: propagated to both results. <br>• infinity: the significand is the infinity and the exponent is +infinity. <br>• zero: the exponent is -infinity, divide-by-zero is raised, and the significand is the zero. <br>• finite: the exponent is the unbiased exponent, the significand is scaled into [1,2), and denormal is raised for a denormal. |
| Floatx80.ExtractRecombines | dep/softfloat/src/softfloatx80.cc:99-142 | For a normal or denormal operand, the extracted significand times two to the extracted exponent is the operand's value. |
| Floatx80.Scale | dep/softfloat/src/softfloatx80.cc:144-220 | Every special branch of FSCALE: <br>• unsupported operands give the default NaN. <br>• NaNs propagate. <br>• infinity scaled by anything but minus infinity stays. <br>• ∞·2^-∞ and 0·2^+∞ are invalid. <br>• a finite nonzero value scaled by ±∞ becomes ∞ or 0 of its own sign. <br>• scale factors below one leave a normal unchanged and renormalise a denormal. <br>• an exponent beyond 2^16 forces overflow or underflow. <br>• otherwise the truncated integer scale is added to the exponent before rounding. |
| Serial.DecodeEncode | src/pce/hw/vgabase.cpp:110-179 | Reading a state stream back with the layout it was written with gives the same fields. The stream is little-endian 32-bit words, one byte per bool, and raw byte arrays. |
| Serial.DecodeLength | src/pce/hw/vgabase.cpp:110-145 | A stream decodes exactly when it is at least as long as its layout, and a decoded stream matches the layout. |
| VgaPlanes.Mask16MatchesTable | src/pce/hw/vgabase.cpp:497-500 | The `mask16` table entry for a 4-bit plane mask has byte i all ones exactly when bit i is set. |
| VgaPlanes.ExpandMaskPlanes | src/pce/hw/vgabase.cpp:612-615 | `VGAExpandMask` copies the byte into every plane. |
| VgaLogic.LogicOpPlanes | src/pce/hw/vgabase.cpp:595-610 | `VGALogicOp` acts plane by plane: replace, AND, OR or XOR with the latch, and replace for any other code. |
| VgaLogic.RotateInverse | src/pce/hw/vgabase.cpp:653-664 | The data-rotate by n followed by rotation by 8-n gives back the byte. |
| VgaLogic.MapToVramOffset | src/pce/hw/vgabase.cpp:502-540 | For an offset from A0000: select 0 accepts every offset. Select 1 accepts offsets below 64 KiB. Select 2 accepts 64-96 KiB and subtracts 64 KiB. Select 3 accepts offsets from 96 KiB and subtracts 96 KiB. Anything outside the selected window gives nothing. |
| VgaLogic.SmallWindowsPartition | src/pce/hw/vgabase.cpp:502-540 | Every offset below 128 KiB falls in exactly one of the three smaller windows, and the translated offset lies inside that window. |
| VgaLogic.ColorCompareMatchesPlanes | src/pce/hw/vgabase.cpp:577-587 | In read mode 1, bit j of the result is set exactly when every plane the colour don't-care selects matches the colour compare in bit j. |
| VgaLogic.WriteModeSelects | src/pce/hw/vgabase.cpp:656-727 | Plane by plane: in write modes 0, 2 and 3, each plane byte written is the byte ALU operation on the latch's plane and the mode's data for that plane, under the effective bit mask, with the latch's plane elsewhere. The data is the rotated host byte or the set/reset fill (mode 0, as set/reset is enabled for the plane), the fill of host bit p (mode 2), or the set/reset fill (mode 3). Mode 1 writes the latch's plane. |
| VgaLogic.BitMaskKeepsLatch | src/pce/hw/vgabase.cpp:656-727 | In every write mode, each bit the bit mask clears comes from the latch. Write mode 1 writes the latch unchanged. |
| VgaLogic.PlainWriteReplicates | src/pce/hw/vgabase.cpp:656-690 | With no rotation, no set/reset, logic op 0 and a full bit mask, mode 0 writes the host byte to all four planes. |
| VgaLogic.MergePlanesSelects | src/pce/hw/vgabase.cpp:729-735 | The plane-write mask takes the new value in enabled planes and keeps the old VRAM contents in the others. |
| VgaLogic.CrtcByteModeIsLinear | src/pce/hw/vgabase.cpp:957-1005 | In byte mode the CRTC address is the linear scan address. |
| VgaLogic.CrtcWordModeDoubles | src/pce/hw/vgabase.cpp:957-1005 | In word mode the counter is shifted left by one, above bit 0. |
| VgaLogic.CrtcCountByDivides | src/pce/hw/vgabase.cpp:959-969 | Count-by-4 (underline bit 5) takes precedence and divides the counter by 4. Otherwise count-by-2 divides it by 2, and with neither the counter is kept. |
| VgaLogic.CrtcDoubleWordIgnoresMode | src/pce/hw/vgabase.cpp:957-985 | In double-word mode (underline bit 6), two mode control values that agree on the count-by-2 bit give the same counted address: the byte-mode bit, the alternate-MA00 bit and the rest have no effect. |
| VgaLogic.CrtcDoubleWordLowBits | src/pce/hw/vgabase.cpp:971-976 | In double-word mode, address bits 0 and 1 are bits 14 and 15 of the divided counter. |
| VgaLogic.CrtcWordModeWrapBit | src/pce/hw/vgabase.cpp:957-1005 | In word mode, bit 0 comes from bit 13 or bit 15 of the counter, as the address wrap bit selects. |
| VgaLogic.RowScanBit13 | src/pce/hw/vgabase.cpp:957-1005 | When the CGA compatibility bit is clear, bit 13 of the address is row-scan bit 0. |
| VgaLogic.RowScanBit14 | src/pce/hw/vgabase.cpp:957-1005 | When the Hercules compatibility bit is clear, bit 14 of the address is row-scan bit 1. |
| VgaLogic.RowScanKeepsOtherBits | src/pce/hw/vgabase.cpp:957-1005 | The row-scan substitution leaves every other address bit alone. |
| VgaLogic.CrtcAddressBitsKept | src/pce/hw/vgabase.cpp:957-1005 | With both compatibility bits set, the wrapped address is the linear address. |
| VramAddress.Chain4Address | src/pce/hw/vgabase.cpp:619-637 | The chain-4 write address lies inside VRAM. |
| VramAddress.OddEvenAddress | src/pce/hw/vgabase.cpp:638-646 | The odd/even write address lies inside VRAM. |
| VramAddress.Chain4WordAddress | src/pce/hw/vgabase.cpp:547-555 | For any segment base, the chain-4 latch word starts inside VRAM. With a 4-aligned base it is 4-aligned and lies wholly inside VRAM. |
| VramAddress.PlanarAddress | src/pce/hw/vgabase.cpp:729-735 | For any segment base, the planar word starts inside VRAM. With a 4-aligned base it is 4-aligned and lies wholly inside VRAM. |
| VramAddress.Chain4AddressSplit | src/pce/hw/vgabase.cpp:547-637 | For any segment base, the chain-4 write address is byte `offset & 3` of the chain-4 read's latch word, so a chain-4 read finds the byte a chain-4 write stored. |
| VramAddress.UnalignedBaseOverruns | src/pce/hw/vgabase.cpp:729-735 | With segment base 1, offset 0x3FFF and 64 KiB of VRAM, the planar word starts at 0xFFFD, so its four bytes run past the end of VRAM. |
| VramAddress.AsWrittenPlanarReadMisses | src/pce/hw/vgabase.cpp:558-574 | As written, the planar read with segment base 4 and offset 0 loads the word at byte 20. The write to the same place stores the word at byte 4. |
| VramAddress.AsWrittenPlanarReadAgreesAtZeroBase | src/pce/hw/vgabase.cpp:558-574 | With segment base 0, the as-written planar read address equals the write path's. |
| Vga.ReadAfterWriteMasked | src/pce/hw/vgabase.cpp:254-282 | Reading a register back after a masked data write gives the written bits under the mask and the old bits elsewhere. |
| Vga.WriteMaskedExtremes | src/pce/hw/vgabase.cpp:254-282 | A full mask stores the value and an empty mask keeps the register (read-only). |
| Vga.ReadAfterWriteRaw | src/pce/hw/vgabase.cpp:306-319 | The graphics data write stores the value unmasked, and the next read returns it. |
| Vga.AttributeAddressThenData | src/pce/hw/vgabase.cpp:376-396 | Starting from the cleared flip-flop, the first write sets the index and the second writes the data through the mask. The flip-flop then returns to the address phase. |
| Vga.ReplaceComponentReads | src/pce/hw/vgabase.cpp:466-487 | Replacing one colour component of a palette entry makes that component read back as written. |
| Vga.ReplaceComponentKeepsOthers | src/pce/hw/vgabase.cpp:466-487 | Replacing one component leaves the other components alone. |
| Vga.DacAdvance | src/pce/hw/vgabase.cpp:450-487 | The DAC colour index steps through red, green and blue, then moves to the next palette entry with 8-bit wrap. |
| Vga.DacThreeAccesses | src/pce/hw/vgabase.cpp:450-487 | Three DAC data accesses starting at component 0 advance the address by exactly one entry. |
| Vga.WordAtStoreWord | src/pce/hw/vgabase.cpp:729-735 | Storing a 32-bit word little-endian into VRAM at any address, wrapping at the end of VRAM, and loading it back gives the same word. |
| Vga.WordAtMatchesCopy | src/pce/hw/vgabase.cpp:733-735 | When the word lies wholly inside VRAM, the wrapping load and store are the source's four-byte copies: the load decodes bytes a..a+3, and the store replaces exactly those bytes with the encoded word. |
| Vga.PlanarWriteFrame | src/pce/hw/vgabase.cpp:647-736 | For any segment base, a planar write changes only the four bytes of its word. |
| Vga.PlanarWriteStores | src/pce/hw/vgabase.cpp:647-736 | After a planar write, the word holds the merged ALU result: new bits in enabled planes, old ones elsewhere. |
| Vga.LinearWriteFrame | src/pce/hw/vgabase.cpp:619-646 | A chain-4 or odd/even write changes at most its one byte, and changes it to the host value exactly when its plane is enabled. |
| Vga.PlanarWriteThenRead | src/pce/hw/vgabase.cpp:542-736 | With the corrected read address, a planar read loads into the latch exactly the word a planar write to the same segment base and offset produced. |
| Vga.Chain4WriteThenRead | src/pce/hw/vgabase.cpp:542-637 | In chain-4 mode with read mode 0, reading a byte just written (plane enabled) returns the written value. |
| Vga.Deserialize | src/pce/hw/vgabase.cpp:110-145 | A stream that is too short for the tag, or that starts with another tag, gives nothing. A snapshot it does yield has the device's register, palette and VRAM sizes. |
| Vga.DeserializeSucceeds | src/pce/hw/vgabase.cpp:110-145 | Loading succeeds exactly when the stream starts with the tag and is long enough for every field. |
| Vga.DeserializeSerialize | src/pce/hw/vgabase.cpp:110-179 | Loading a saved state gives back exactly the state that was saved. |
| Vga.DeserializeOtherTag | src/pce/hw/vgabase.cpp:112-114 | A stream with a different serialization ID is rejected. |
| Vga.VgaBase.constructor | src/pce/hw/vgabase.cpp:57-108 | Builds a valid device with freshly allocated VRAM of the given size and a fresh DAC palette. |
| Vga.VgaBase.Reset | src/pce/hw/vgabase.cpp:57-108 | Every register bank holds zeros with its reset write masks. The flip-flop is cleared and timing is marked changed. Miscellaneous output keeps bit 4 and becomes 0xC2 otherwise. The DAC state is cleared and the palette is all 0xFFFFFFFF. VRAM, latch and output palette are untouched. |
| Vga.VgaBase.CrtcDataRead | src/pce/hw/vgabase.cpp:243-252 | Returns the indexed CRTC register, or 0 for an index out of range. |
| Vga.VgaBase.CrtcDataWrite | src/pce/hw/vgabase.cpp:254-282 | A masked write to the indexed CRTC register. Timing is marked changed when a timing register is written. |
| Vga.VgaBase.GraphicsDataRead | src/pce/hw/vgabase.cpp:295-304 | Returns the indexed graphics register, or 0 for an index out of range. |
| Vga.VgaBase.GraphicsDataWrite | src/pce/hw/vgabase.cpp:306-319 | Stores the value unmasked into the indexed graphics register. |
| Vga.VgaBase.SequencerDataRead | src/pce/hw/vgabase.cpp:398-407 | Returns the indexed sequencer register, or 0 for an index out of range. |
| Vga.VgaBase.SequencerDataWrite | src/pce/hw/vgabase.cpp:409-421 | A masked write. Writing the clocking mode register marks timing changed. |
| Vga.VgaBase.AttributeDataRead | src/pce/hw/vgabase.cpp:364-374 | Returns the indexed attribute register, or 0 for an index out of range. |
| Vga.VgaBase.AttributeAddressDataWrite | src/pce/hw/vgabase.cpp:376-396 | The shared port writes the index or the data as the flip-flop says, then toggles it. |
| Vga.VgaBase.ReadStatusRegister1 | src/pce/hw/vgabase.cpp:341-357 | Bit 3 is vertical retrace and bit 0 is display inactive, with all other bits clear. Reading resets the attribute flip-flop. |
| Vga.VgaBase.DacStateRead | src/pce/hw/vgabase.cpp:423-427 | Returns the DAC state register and clears it. |
| Vga.VgaBase.DacReadAddressWrite | src/pce/hw/vgabase.cpp:429-434 | Sets the read address and clears the DAC state. |
| Vga.VgaBase.DacWriteAddressRead | src/pce/hw/vgabase.cpp:436-440 | Returns the write address and clears the DAC state. |
| Vga.VgaBase.DacWriteAddressWrite | src/pce/hw/vgabase.cpp:442-448 | Sets the write address, restarts at component 0 and sets the two low DAC state bits. |
| Vga.VgaBase.DacDataRead | src/pce/hw/vgabase.cpp:450-464 | Returns the current component of the entry at the read address and advances the colour index and read address. |
| Vga.VgaBase.DacDataWrite | src/pce/hw/vgabase.cpp:466-487 | Replaces the current component of the entry at the write address, changing nothing else in the palette, and advances. |
| Vga.VgaBase.HandleVramWrite | src/pce/hw/vgabase.cpp:617-737 | VRAM becomes the result of the chain-4, odd/even or planar write function. |
| Vga.VgaBase.HandleVramRead | src/pce/hw/vgabase.cpp:542-593 | The value and the new latch are the read function's result. |
| Vga.VgaBase.SaveState | src/pce/hw/vgabase.cpp:147-179 | Writes the state stream, and loading that stream yields the current state. Reports success exactly when the writer is not in its error state. |
| Vga.VgaBase.LoadState | src/pce/hw/vgabase.cpp:110-145 | Success means the tag matched and the stream was complete. The device state is then the decoded snapshot. |
| VoodooFifo.PopCount | src/pce/thirdparty/mame/voodoo.cpp:1254-1395 | The number of set bits in a range of a register mask is at most the range's width. |
| VoodooFifo.VertexWords | src/pce/thirdparty/mame/voodoo.cpp:1254-1395 | A type-3 vertex takes 2 words for X/Y plus one per enabled parameter, giving between 2 and 14. |
| VoodooFifo.ExpectedDepth | src/pce/thirdparty/mame/voodoo.cpp:1254-1395 | Every packet occupies at least its header word. |
| VoodooFifo.CountVertexWords | src/pce/thirdparty/mame/voodoo.cpp:1254-1395 | The loop over the setup mask bits counts exactly `VertexWords`. |
| VoodooFifo.CountSetBits | src/pce/thirdparty/mame/voodoo.cpp:1254-1395 | The loop over a register mask counts exactly its set bits. |
| VoodooFifo.ReadyDepth | src/pce/thirdparty/mame/voodoo.cpp:1789-1804 | A packet is ready exactly when the FIFO holds at least one word and its whole expected depth is present. |
| VoodooFifo.RunIfReadyGate | src/pce/thirdparty/mame/voodoo.cpp:1789-1804 | Execute-if-ready does nothing unless the packet is complete. When it is, it consumes exactly the packet's depth. |
| VoodooFifo.ReadPointerAdvancesByDepth | src/pce/thirdparty/mame/voodoo.cpp:1403-1781 | For every packet except the type-0 jumps and halts, executing it moves the read pointer past exactly its expected depth. |
| VoodooFifo.EmptyWindowConsistent | src/pce/thirdparty/mame/voodoo.cpp:1825-1865 | An empty window (minimum equal to maximum, no holes) satisfies the hole-counting invariant. |
| VoodooFifo.FreshWindowFirstWrite | src/pce/thirdparty/mame/voodoo.cpp:1825-1833 | For any word-aligned base, base 0 included, a window ending one word below the base (wrapping at 32 bits) is consistent with nothing written. The first write, at the base, takes the in-order path: depth grows by one and the window closes on the base. |
| VoodooFifo.TrackInOrder | src/pce/thirdparty/mame/voodoo.cpp:1825-1865 | With no holes, a write to the word right after the window minimum is counted at once. The depth grows by one and the tracker stays consistent. |
| VoodooFifo.TrackInsideWindow | src/pce/thirdparty/mame/voodoo.cpp:1825-1865 | A write that fills a hole inside the window keeps the tracker consistent. Filling the last hole counts every word of the window into the depth. |
| VoodooFifo.TrackBeyondWindow | src/pce/thirdparty/mame/voodoo.cpp:1825-1865 | A write at or past the window maximum extends the window and records each skipped word as a hole. The depth is unchanged and the tracker stays consistent. |
| VoodooFifo.TrackWriteCountsOnce | src/pce/thirdparty/mame/voodoo.cpp:1825-1865 | Any write above the window minimum to a word not yet written keeps the invariant: `holes` is exactly the number of unwritten words in the window. The depth grows by exactly the number of words the minimum moves past, and each of those was written. |
| VoodooFifo.CmdFifo.constructor | src/pce/thirdparty/mame/voodoo.cpp:2609-2647 | The FIFO over the given RAM window starts empty for any word-aligned base, 0 included: read pointer at the base, window one word below it (wrapping at 32 bits), depth and holes zero, and the tracker consistent. The first write at the base is counted at once. |
| VoodooFifo.CmdFifo.ComputeExpectedDepth | src/pce/thirdparty/mame/voodoo.cpp:1254-1395 | The method computes `ExpectedDepth` of the packet at the read pointer. |
| VoodooFifo.CmdFifo.Execute | src/pce/thirdparty/mame/voodoo.cpp:1403-1781 | Executing a packet moves the read pointer as `AfterPacket` says: past the packet, to the jump target, or to a halt on a packet the emulator rejects. |
| VoodooFifo.CmdFifo.ExecuteIfReady | src/pce/thirdparty/mame/voodoo.cpp:1789-1804 | The new FIFO run state is `RunIfReady` of the old one. |
| VoodooFifo.CmdFifo.Write | src/pce/thirdparty/mame/voodoo.cpp:1812-1885 | Stores the word into FIFO RAM and updates the window and depth as `TrackWrite` says. It then runs execute-if-ready once, which executes the ready packet, if any. |
| VoodooNcc.ShiftedSigned9IsField | src/pce/thirdparty/mame/voodoo.cpp:1010-1025 | Sign-extending a 9-bit I/Q field by shifting gives the field's two's-complement value in [-256, 255]. |
| VoodooNcc.UnpackPackedFields | src/pce/thirdparty/mame/voodoo.cpp:1010-1025 | The red, green and blue offsets decoded from an I/Q register are the three 9-bit fields it was packed from. |
| VoodooNcc.YBytesRepack | src/pce/thirdparty/mame/voodoo.cpp:1000-1007 | The four Y values decoded from a Y register are its four bytes. |
| VoodooNcc.PaletteIndex | src/pce/thirdparty/mame/voodoo.cpp:973-992 | A palette write addresses an entry below 256. Its upper seven bits are bits 24-30 of the data and its low bit is the low bit of the register number. |
| VoodooNcc.PaletteArgbChannels | src/pce/thirdparty/mame/voodoo.cpp:973-992 | Each of the four 8-bit channels of a palette entry's ARGB form is the matching 6-bit field of the data (bits 18, 12, 6 and 0). The top two bits are replicated into the low two. |
| VoodooNcc.RegisterWrite | src/pce/thirdparty/mame/voodoo.cpp:995-1028 | A register write keeps the table well-formed and stores the raw value. |
| VoodooNcc.RegisterWriteKeepsUnpacked | src/pce/thirdparty/mame/voodoo.cpp:995-1028 | After any register write, the Y, I and Q tables are the decoded form of the raw registers. |
| VoodooNcc.RegisterWriteIdempotent | src/pce/thirdparty/mame/voodoo.cpp:995-1028 | Writing the same value twice equals writing it once. The table becomes dirty exactly when the value changed. |
| VoodooNcc.RegisterWriteSeparates | src/pce/thirdparty/mame/voodoo.cpp:995-1028 | A Y write leaves I and Q alone, an I write leaves Y and Q alone, and a Q write leaves Y and I alone. |
| VoodooNcc.Texels | src/pce/thirdparty/mame/voodoo.cpp:1031-1059 | The texel table has 256 entries. |
| VoodooNcc.TexelChannels | src/pce/thirdparty/mame/voodoo.cpp:1031-1059 | Texel i has alpha 0xFF. Each colour channel is Y[i>>4] + I[(i>>2)&3] + Q[i&3] for that channel, clamped to [0,255]. |
| VoodooNcc.NccTable.Write | src/pce/thirdparty/mame/voodoo.cpp:970-1029 | A palette write changes only that palette entry and its ARGB copy. Any other write changes the registers as `RegisterWrite` says and leaves the palette alone. |
| VoodooNcc.NccTable.Update | src/pce/thirdparty/mame/voodoo.cpp:1031-1059 | Afterwards the texel array is `Texels` of the registers and the table is clean. |
| VoodooFbi.BufferOffsetsInMemory | src/pce/thirdparty/mame/voodoo.cpp:891-926 | After clamping, every colour and aux buffer offset lies inside frame-buffer memory or is the no-buffer mark. |
| VoodooFbi.BufferOffsetsLayout | src/pce/thirdparty/mame/voodoo.cpp:891-917 | Buffers 0 and 1 start at 0 and one buffer size. The third buffer and the aux buffer follow as the buffer-allocation field selects. |
| VoodooFbi.FifoWindowBounds | src/pce/thirdparty/mame/voodoo.cpp:931-949 | The memory FIFO holds at most 128 Ki words and has a base exactly when it is enabled; when disabled its size is 0. When frame-buffer memory is a whole number of pages, an enabled FIFO starts at its start page and ends inside memory. |
| VoodooFbi.NextBufferInRange | src/pce/thirdparty/mame/voodoo.cpp:631-643 | Rotating keeps the front and back indices below 2, or 3 with a third buffer. Front and back coincide after a rotation exactly when they did before. |
| VoodooFbi.NextBufferCycles | src/pce/thirdparty/mame/voodoo.cpp:631-643 | Two swaps restore a double-buffered index and three restore a triple-buffered one. |
| VoodooFbi.DropThirdBufferInRange | src/pce/thirdparty/mame/voodoo.cpp:951-961 | After the layout loses its third buffer, the indices are back below 2. |
| VoodooFbi.DropThirdBufferCanAlias | src/pce/thirdparty/mame/voodoo.cpp:951-961 | Dropping the third buffer can leave front and back naming the same buffer (front 2, back 0 gives 0 and 0). |
| VoodooFbi.SwapHistoryShifts | src/pce/thirdparty/mame/voodoo.cpp:628 | The swap history shifts left by 4 and takes the vblank count (at most 15) in its low nibble. |
| VoodooFbi.VsyncLatchedBits | src/pce/thirdparty/mame/voodoo.cpp:773-782 | With the rising-vsync interrupt enabled (bit 2), bit 8 is set and bit 31 cleared. No other bit changes, and with it disabled nothing changes. |
| VoodooFbi.Fbi.constructor | src/pce/thirdparty/mame/voodoo.cpp:417-471 | Three colour buffers at 0, no aux buffer, front 0, back 1, nothing pending, not in vblank, and an empty memory FIFO (no base, size 0). |
| VoodooFbi.Fbi.RecomputeVideoMemory | src/pce/thirdparty/mame/voodoo.cpp:865-962 | Afterwards the tiles, buffer offsets (`BufferOffsets`) and FIFO window (`FifoWindow`) follow the init fields. A buffer index naming a third buffer that is gone is dropped, and the device stays valid. |
| VoodooFbi.Fbi.SoftReset | src/pce/thirdparty/mame/voodoo.cpp:828-842 | Front 0, back 1, no swaps pending, no swap interval, display marked changed. |
| VoodooFbi.Fbi.SwapBuffers | src/pce/thirdparty/mame/voodoo.cpp:628-650 | Records the vblank count in the history. Rotates front and back unless a Voodoo 2 was told not to swap. Takes one swap off the pending count and zeroes the vblank count. |
| VoodooFbi.Fbi.VblankCallback | src/pce/thirdparty/mame/voodoo.cpp:730-786 | The vblank count rises, saturating at 250. A pending swap whose interval has elapsed is performed: front and back rotate and the display is marked changed unless a Voodoo 2 was told not to swap. Otherwise the buffers and the display-changed mark stay. Vblank is entered, and a Voodoo 2 latches the vsync interrupt. |
| IbmXt.Switches | src/pce/systems/ibmxt.cpp:115-189 | Eight switches: 1 and 2 on, 3-4 the memory setting, 5-6 the video type, 7-8 the drive count. |
| IbmXt.SwitchesReadBack | src/pce/systems/ibmxt.cpp:115-189 | Reading the block back gives switches 1-2 on, a memory size no larger than fitted (below 512 KiB exactly when under 512 KiB is fitted), the video type, and the drive count for one to four drives (one otherwise). |
| IbmXt.MemorySwitchesReport | src/pce/systems/ibmxt.cpp:126-145 | Switches 3-4 report 640, 576 or 512 KiB, or below 512 KiB. The size reported never exceeds the memory fitted and is the largest of those sizes that fits. |
| IbmXt.VideoSwitchesReport | src/pce/systems/ibmxt.cpp:147-166 | Switches 5-6 encode the video type and read back as it. |
| IbmXt.DriveSwitchesReport | src/pce/systems/ibmxt.cpp:168-188 | Switches 7-8 report one to four floppy drives as configured. No drive, or more than four, reads back as one. |
| IbmXt.PortReadAfterWrite | src/pce/systems/ibmxt.cpp:191-211 | Reading port 0xA0 returns the last value written to it. Writes to other ports do not change it. |
| IbmXt.SaveBytes | src/pce/systems/ibmxt.cpp:68-76 | The saved state is the base state followed by the one-byte NMI mask. |
| IbmXt.LoadSaveNmiMask | src/pce/systems/ibmxt.cpp:58-76 | Loading what was saved gives back the NMI mask. |
| IbmXt.LoadTruncated | src/pce/systems/ibmxt.cpp:58-66 | A stream that ends after the base state fails to load. |
| IbmXt.IbmXtSystem.constructor | src/pce/systems/ibmxt.cpp:30-49 | Records the RAM size and video type, with the NMI mask clear. |
| IbmXt.IbmXtSystem.Initialize | src/pce/systems/ibmxt.cpp:30-49 | Initialisation fails, touching nothing, with under 64 KiB of RAM. It succeeds exactly when the RAM check and the base and ROM steps succeed, and then the switches are set. |
| IbmXt.IbmXtSystem.SetSwitches | src/pce/systems/ibmxt.cpp:115-189 | The switch array becomes `Switches` of the memory size, video type and drive count. |
| IbmXt.IbmXtSystem.Reset | src/pce/systems/ibmxt.cpp:51-56 | The NMI mask is cleared. |
| IbmXt.IbmXtSystem.HandlePortRead | src/pce/systems/ibmxt.cpp:191-200 | Port 0xA0 reads the NMI mask. Other ports return the value unchanged. |
| IbmXt.IbmXtSystem.HandlePortWrite | src/pce/systems/ibmxt.cpp:202-211 | A write to port 0xA0 sets the NMI mask. Other ports change nothing. |
| IbmXt.IbmXtSystem.SaveSystemState | src/pce/systems/ibmxt.cpp:68-76 | Fails when the base state fails or the writer is in its error state. Otherwise the result is the base state with the NMI mask appended. |
| IbmXt.IbmXtSystem.LoadSystemState | src/pce/systems/ibmxt.cpp:58-66 | Succeeds exactly when the base state loaded and a mask byte follows. When the base state loaded, the mask is assigned either way: the byte that follows, or the failed read's value. When the base state failed, the mask is unchanged. |

## Left out

- I/O, timers and the host: event scheduling, display rendering, video timing, `ConnectIOPorts`, the PCI and interrupt plumbing, statistics, `flush_fifos`, `poly_wait` and `voodoo_update` are not modelled.
- SoftfloatCompare.Evaluate: the base comparisons `float32_compare`/`float64_compare` and their quiet forms are defined elsewhere (softfloat.cc is not part of this model). They are parameters, so the model proves what each predicate does with their answer.
- Floatx80.FromInt32: `int32_to_floatx80` is defined in softfloat.cc, which is not part of this model. It is modelled concretely, with its usual SoftFloat meaning (normalise the magnitude into the significand), and cited at its call in `floatx80_extract`.
- Floatx80.Extract, Floatx80.Scale, Floatx80.ToInt16: NaN propagation, rounding and packing, and the int32 conversions are defined in files that are not part of this model. They are passed in as the `Collaborators` parameters.
- Floatx80.Extract: FXTRACT overwrites its first operand in place; the model returns the new operand as part of the result.
- Floatx80.Normalize: `normalizeFloatx80Subnormal` is given its usual SoftFloat meaning (shift by leading zeros); its definition is not part of this model.
- The status-flag bit values and the default NaN (sign 1, exponent 0x7FFF, significand 0xC000000000000000) are taken as in the x87; the headers that define them are not part of this model.
- The VGA register counts, register indices and reset write masks are taken as the standard VGA layout; vgabase.h is not part of this model.
- Vga.VgaBase.LoadState: on a stream that is too short, the model leaves the whole state unchanged. The source stops partway and may already have overwritten some registers.
- Vga.VgaBase.HandleVramRead: uses the corrected planar address; see Findings.
- Vga.WordAt, Vga.StoreWord: a word access whose four bytes cross the end of VRAM (possible only with a segment base that is not a multiple of 4) wraps to the start of VRAM in the model. The source's four-byte copy reads or writes past the end of the buffer; see Findings.
- Vga.VgaBase.ReadStatusRegister1: display-active and vertical-retrace come from the display timing, which is not modelled; they are parameters.
- VoodooFifo.CmdFifo.Execute: the effects of a packet on the rest of the device (register writes, texture and frame-buffer writes, triangle setup) are not modelled. The model keeps only how far the read pointer moves, and the cycle count is a parameter. JSR jumps to its target like JMP LOCAL, as in the source. RET, JMP AGP and invalid type-0 functions, on which the source panics, halt the FIFO in the model.
- VoodooFifo.TrackWriteCountsOnce: covers writes above the window minimum to words not yet written. A write below the minimum restarts the window at the base. A rewrite of the window maximum wraps the u32 hole counter when there are no holes. `TrackWrite` models both, but the invariant is not stated for them.
- VoodooFifo.CmdFifo.constructor: the source sets the FIFO up through separate register writes (voodoo.cpp:2609-2647): base and end from `cmdFifoBaseAddr`, and read pointer, window minimum and maximum, depth and holes each from its own register. The constructor models the values a driver writes for a fresh FIFO (read pointer at the base, minimum and maximum one word below it, depth and holes zero); the source itself sets none of them. Other register values are not modelled. `fifo.reset` is defined in a header that is not part of this model.
- VoodooFbi.Fbi.RecomputeVideoMemory: the `fbiInit` fields come in already decoded, because the field-extraction macros are in voodoo.h, which is not part of this model.
- VoodooFbi.Fbi.RecomputeVideoMemory: the memory-FIFO reset at the end of the layout computation (voodoo.cpp:952) is not modelled; `fifo.reset` is defined in voodoo.h, which is not part of this model. Only the new FIFO window is stated.
- VoodooFbi.Fbi.constructor: the colour lookup tables `init_fbi` fills (clut, rgb565) are not modelled.
- VoodooFbi.Fbi.SoftReset: the counter and FIFO resets in `soft_reset` are not modelled, only its effect on the swap state.
- VoodooNcc.NccTable: the raw registers are held in the table object rather than in the TMU's register file.
- IbmXt.IbmXtSystem.Initialize: the base-class initialisation and the BIOS ROM load are reported as booleans.
- IbmXt.IbmXtSystem.SaveSystemState: the base-class state is an opaque byte string. The writer's error state after the mask byte is written is the `writerError` parameter, since BinaryWriter is not part of this model.
- IbmXt.IbmXtSystem.LoadSystemState: the base-class state is an opaque byte string. Its success is the `consumed` parameter. The value `ReadUInt8` returns when the stream is exhausted is the `failedRead` parameter, since BinaryReader is not part of this model.

## Findings

| source | as written | input that shows it | evidently intended | confidence | as-written member | corrected member |
|---|---|---|---|---|---|---|
| src/pce/hw/vgabase.cpp:563-573 | The planar read adds `segment_base` to the offset and again to the scaled offset, so the latch loads from `segment_base + 4*(segment_base + offset)`. | Segment base 4, offset 0, 256 KiB VRAM: the read loads the word at byte 20, but a planar write to the same place stores the word at byte 4. | `segment_base + 4*offset`, as in the planar write path (line 730). A read then sees what a write stored. | medium, not executed | VramAddress.AsWrittenPlanarReadMisses | Vga.PlanarWriteThenRead |
| src/pce/hw/vgabase.cpp:729-735 | The planar write copies four bytes to and from `m_vram[linear_address]`, where the address is masked to VRAM but the segment base need not be a multiple of 4. | Segment base 1, offset 0x3FFF, 64 KiB VRAM: the word starts at 0xFFFD and the copy touches 0x10000, one byte past the end of VRAM. The chain-4 and planar reads at lines 552 and 574 copy in the same way. | The word stays inside VRAM: either segment bases are 4-aligned or the access wraps within VRAM. | low, not executed | VramAddress.UnalignedBaseOverruns | Vga.WordAtStoreWord |
