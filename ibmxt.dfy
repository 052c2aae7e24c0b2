/**
 * The IBM PC/XT system board: the RAM-size check at start-up, the eight
 * configuration DIP switches read through the PPI (8255), and the NMI mask
 * register at I/O port 0xA0 with its place in the saved machine state.
 *
 * The base ISA system (`BaseClass`), the PPI, the floppy controller and the
 * bus are not part of this model: what the board reads from them (the
 * base-memory size, the drive count, whether the base initialisation and
 * the BIOS ROM load succeeded, the base state bytes) arrives as parameters.
 */
module IbmXt {
  import opened Wrappers

  const KiB: nat := 1024
  const MinimumRam: nat := 64 * KiB
  const NmiMaskPort: nat := 0xA0
  const SwitchCount: nat := 8

  datatype VideoType = MDA | CGA40 | CGA80 | Other

  // ---------------------------------------------------------------------
  // Switch settings

  /** Switches 3 and 4: the amount of memory on the system board. */
  function MemorySwitches(baseMemory: nat): (bool, bool)
  {
    if baseMemory >= 640 * KiB then (false, false)
    else if baseMemory >= 576 * KiB then (true, false)
    else if baseMemory >= 512 * KiB then (false, true)
    else (true, true)
  }

  /** Switches 5 and 6: the display adapter the BIOS initialises. */
  function VideoSwitches(video: VideoType): (bool, bool)
  {
    match video
    case MDA => (false, false)
    case CGA80 => (false, true)
    case CGA40 => (true, false)
    case Other => (true, true)
  }

  /** Switches 7 and 8: the number of floppy drives. */
  function DriveSwitches(drives: nat): (bool, bool)
  {
    match drives
    case 4 => (false, false)
    case 3 => (true, false)
    case 2 => (false, true)
    case _ => (true, true)
  }

  /** All eight switches, switch 1 first: no boot loop, no numeric coprocessor, then the three pairs. */
  function Switches(baseMemory: nat, video: VideoType, drives: nat): (s: seq<bool>)
    ensures |s| == SwitchCount
    ensures s[0] && s[1]
    ensures (s[2], s[3]) == MemorySwitches(baseMemory)
    ensures (s[4], s[5]) == VideoSwitches(video)
    ensures (s[6], s[7]) == DriveSwitches(drives)
  {
    var (s3, s4) := MemorySwitches(baseMemory);
    var (s5, s6) := VideoSwitches(video);
    var (s7, s8) := DriveSwitches(drives);
    [true, true, s3, s4, s5, s6, s7, s8]
  }

  /** The memory size the BIOS reads back from switches 3 and 4 (0 for "below 512K"). */
  function MemoryFromSwitches(s3: bool, s4: bool): nat
  {
    if !s3 && !s4 then 640 * KiB
    else if s3 && !s4 then 576 * KiB
    else if !s3 && s4 then 512 * KiB
    else 0
  }

  /** The switches report the largest of 640K, 576K and 512K the board has, or "below 512K". */
  lemma MemorySwitchesReport(baseMemory: nat)
    ensures var (s3, s4) := MemorySwitches(baseMemory);
            var m := MemoryFromSwitches(s3, s4);
            m <= baseMemory &&
            (m == 0 <==> baseMemory < 512 * KiB) &&
            (512 * KiB <= baseMemory ==> 512 * KiB <= m) &&
            (576 * KiB <= baseMemory ==> 576 * KiB <= m) &&
            (640 * KiB <= baseMemory ==> 640 * KiB <= m)
  {
  }

  /** The adapter the BIOS reads back from switches 5 and 6. */
  function VideoFromSwitches(s5: bool, s6: bool): VideoType
  {
    if !s5 && !s6 then MDA else if !s5 && s6 then CGA80 else if s5 && !s6 then CGA40 else Other
  }

  /** Every adapter has its own setting: the BIOS reads back the one configured. */
  lemma VideoSwitchesReport(video: VideoType)
    ensures var (s5, s6) := VideoSwitches(video);
            VideoFromSwitches(s5, s6) == video
  {
  }

  /** The drive count the BIOS reads back from switches 7 and 8. */
  function DrivesFromSwitches(s7: bool, s8: bool): nat
  {
    4 - (if s7 then 1 else 0) - (if s8 then 2 else 0)
  }

  /** One to four drives read back as configured; no drive or more than four reads back as one. */
  lemma DriveSwitchesReport(drives: nat)
    ensures var (s7, s8) := DriveSwitches(drives);
            DrivesFromSwitches(s7, s8) == if 1 <= drives <= 4 then drives else 1
  {
  }

  /**
   * Reading the whole switch array back: switches 1 and 2 are on, and the
   * memory size, adapter and drive count decode as the three pairs promise.
   */
  lemma SwitchesReadBack(baseMemory: nat, video: VideoType, drives: nat)
    ensures var s := Switches(baseMemory, video, drives);
            var m := MemoryFromSwitches(s[2], s[3]);
            s[0] && s[1] &&
            m <= baseMemory && (m == 0 <==> baseMemory < 512 * KiB) &&
            VideoFromSwitches(s[4], s[5]) == video &&
            DrivesFromSwitches(s[6], s[7]) == (if 1 <= drives <= 4 then drives else 1)
  {
    MemorySwitchesReport(baseMemory);
    VideoSwitchesReport(video);
    DriveSwitchesReport(drives);
  }

  // ---------------------------------------------------------------------
  // Port 0xA0 and the saved state

  /** A port read: the NMI mask at 0xA0; any other port leaves the value the bus passed in. */
  function PortRead(nmiMask: bv8, port: nat, value: bv8): bv8
  {
    if port == NmiMaskPort then nmiMask else value
  }

  /** The NMI mask after a port write. */
  function PortWrite(nmiMask: bv8, port: nat, value: bv8): bv8
  {
    if port == NmiMaskPort then value else nmiMask
  }

  /** Port 0xA0 reads back the last value written to it, and writes to other ports do not disturb it. */
  lemma PortReadAfterWrite(nmiMask: bv8, port: nat, written: bv8, value: bv8)
    ensures PortRead(PortWrite(nmiMask, NmiMaskPort, written), NmiMaskPort, value) == written
    ensures port != NmiMaskPort ==> PortRead(PortWrite(nmiMask, port, written), NmiMaskPort, value) == nmiMask
  {
  }

  /** The board's saved state: the base system's bytes, then the NMI mask byte. */
  function SaveBytes(baseState: seq<bv8>, nmiMask: bv8): (bytes: seq<bv8>)
    ensures |bytes| == |baseState| + 1
  {
    baseState + [nmiMask]
  }

  /** The NMI mask byte read after the base system has consumed `consumed` bytes, if the stream holds one. */
  function LoadNmiMask(bytes: seq<bv8>, consumed: nat): Option<bv8>
  {
    if consumed < |bytes| then Some(bytes[consumed]) else None
  }

  /** When the base system reads back exactly what it wrote, the NMI mask comes back too, whatever follows. */
  lemma LoadSaveNmiMask(baseState: seq<bv8>, nmiMask: bv8, rest: seq<bv8>)
    ensures LoadNmiMask(SaveBytes(baseState, nmiMask) + rest, |baseState|) == Some(nmiMask)
  {
    assert (SaveBytes(baseState, nmiMask) + rest)[|baseState|] == nmiMask;
  }

  /** A stream that ends with the base state has no NMI mask to load. */
  lemma LoadTruncated(baseState: seq<bv8>)
    ensures LoadNmiMask(baseState, |baseState|) == None
  {
  }

  // ---------------------------------------------------------------------
  // The machine

  class IbmXtSystem {
    const ramSize: nat
    const videoType: VideoType
    /** The PPI's configuration switches, switch 1 at index 0. */
    var switches: array<bool>
    var nmiMask: bv8
    /** Whether physical memory has been allocated (the base system initialised). */
    var memoryAllocated: bool

    predicate Valid()
      reads this
    {
      switches.Length == SwitchCount
    }

    constructor(ramSize: nat, videoType: VideoType)
      ensures Valid() && fresh(switches) && !memoryAllocated
      ensures this.ramSize == ramSize && this.videoType == videoType && nmiMask == 0
    {
      this.ramSize := ramSize;
      this.videoType := videoType;
      switches := new bool[SwitchCount](_ => false);
      nmiMask := 0;
      memoryAllocated := false;
    }

    /**
     * `Initialize`: refuses less than 64 KiB of RAM before doing anything
     * else; then fails if the base system or the BIOS ROM does, and
     * otherwise connects the ports and sets the switches.
     */
    method Initialize(baseOk: bool, romOk: bool, baseMemory: nat, drives: nat) returns (ok: bool)
      requires Valid()
      modifies this`memoryAllocated, switches
      ensures Valid()
      ensures ok == (ramSize >= MinimumRam && baseOk && romOk)
      ensures ramSize < MinimumRam ==> switches[..] == old(switches[..]) && memoryAllocated == old(memoryAllocated)
      ensures ok ==> memoryAllocated && switches[..] == Switches(baseMemory, videoType, drives)
      ensures !ok ==> switches[..] == old(switches[..])
    {
      if ramSize < 64 * 1024 {
        return false;
      }
      if !baseOk {
        return false;
      }
      memoryAllocated := true;
      if !romOk {
        return false;
      }
      SetSwitches(baseMemory, drives);
      ok := true;
    }

    /** `SetSwitches`: sets the eight switches one pair at a time. */
    method SetSwitches(baseMemory: nat, drives: nat)
      requires Valid()
      modifies switches
      ensures switches[..] == Switches(baseMemory, videoType, drives)
    {
      var bootLoop := false;
      var numericProcessorInstalled := false;
      SetSwitch(1 - 1, !bootLoop);
      SetSwitch(2 - 1, !numericProcessorInstalled);
      SetMemorySwitches(baseMemory);
      SetVideoSwitches();
      SetDriveSwitches(drives);
    }

    /** The PPI's `SetSwitch`: switch `index + 1` takes `value`. */
    method SetSwitch(index: nat, value: bool)
      requires Valid() && index < SwitchCount
      modifies switches
      ensures switches[..] == old(switches[..])[index := value]
    {
      switches[index] := value;
    }

    method SetMemorySwitches(baseMemory: nat)
      requires Valid()
      modifies switches
      ensures var (s3, s4) := MemorySwitches(baseMemory);
              switches[..] == old(switches[..])[2 := s3][3 := s4]
    {
      if baseMemory >= 640 * 1024 {
        SetSwitch(3 - 1, false);
        SetSwitch(4 - 1, false);
      } else if baseMemory >= 576 * 1024 {
        SetSwitch(3 - 1, true);
        SetSwitch(4 - 1, false);
      } else if baseMemory >= 512 * 1024 {
        SetSwitch(3 - 1, false);
        SetSwitch(4 - 1, true);
      } else {
        SetSwitch(3 - 1, true);
        SetSwitch(4 - 1, true);
      }
    }

    method SetVideoSwitches()
      requires Valid()
      modifies switches
      ensures var (s5, s6) := VideoSwitches(videoType);
              switches[..] == old(switches[..])[4 := s5][5 := s6]
    {
      match videoType {
      case MDA =>
        SetSwitch(5 - 1, false);
        SetSwitch(6 - 1, false);
      case CGA80 =>
        SetSwitch(5 - 1, false);
        SetSwitch(6 - 1, true);
      case CGA40 =>
        SetSwitch(5 - 1, true);
        SetSwitch(6 - 1, false);
      case Other =>
        SetSwitch(5 - 1, true);
        SetSwitch(6 - 1, true);
      }
    }

    method SetDriveSwitches(drives: nat)
      requires Valid()
      modifies switches
      ensures var (s7, s8) := DriveSwitches(drives);
              switches[..] == old(switches[..])[6 := s7][7 := s8]
    {
      match drives {
      case 4 =>
        SetSwitch(7 - 1, false);
        SetSwitch(8 - 1, false);
      case 3 =>
        SetSwitch(7 - 1, true);
        SetSwitch(8 - 1, false);
      case 2 =>
        SetSwitch(7 - 1, false);
        SetSwitch(8 - 1, true);
      case _ =>
        SetSwitch(7 - 1, true);
        SetSwitch(8 - 1, true);
      }
    }

    /** `Reset`: after the base system's reset, the NMI mask clears. */
    method Reset()
      modifies this`nmiMask
      ensures nmiMask == 0
    {
      nmiMask := 0;
    }

    /** `HandlePortRead`: `value` is what the bus passed in. */
    method HandlePortRead(port: nat, value: bv8) returns (result: bv8)
      ensures result == PortRead(nmiMask, port, value)
      ensures port == NmiMaskPort ==> result == nmiMask
      ensures port != NmiMaskPort ==> result == value
    {
      result := value;
      if port == 0xA0 {
        result := nmiMask;
      }
    }

    /** `HandlePortWrite`. */
    method HandlePortWrite(port: nat, value: bv8)
      modifies this`nmiMask
      ensures nmiMask == PortWrite(old(nmiMask), port, value)
    {
      if port == 0xA0 {
        nmiMask := value;
      }
    }

    /**
     * `SaveSystemState`: fails if the base system's save failed; otherwise
     * appends the NMI mask and fails if the writer is then in its error
     * state (`writerError`, which the writer reports).
     */
    method SaveSystemState(baseState: Option<seq<bv8>>, writerError: bool) returns (bytes: Option<seq<bv8>>)
      ensures baseState.None? || writerError ==> bytes.None?
      ensures baseState.Some? && !writerError ==> bytes == Some(SaveBytes(baseState.value, nmiMask))
      ensures bytes.Some? ==> |bytes.value| == |baseState.value| + 1 && bytes.value[|baseState.value|] == nmiMask
    {
      if baseState.None? {
        return None;
      }
      var written := baseState.value + [nmiMask];
      if writerError {
        return None;
      }
      bytes := Some(written);
    }

    /**
     * `LoadSystemState`: `consumed` is how many bytes the base system's
     * load read, or None when it failed.  The NMI mask is then read from
     * the next byte whether or not there is one; `failedRead` is what the
     * reader returns when the stream is exhausted, and the load reports
     * failure in that case.
     */
    method LoadSystemState(bytes: seq<bv8>, consumed: Option<nat>, failedRead: bv8) returns (ok: bool)
      modifies this`nmiMask
      ensures ok == (consumed.Some? && LoadNmiMask(bytes, consumed.value).Some?)
      ensures consumed.None? ==> nmiMask == old(nmiMask)
      ensures consumed.Some? ==>
                nmiMask == (if LoadNmiMask(bytes, consumed.value).Some? then LoadNmiMask(bytes, consumed.value).value else failedRead)
    {
      if consumed.None? {
        return false;
      }
      if consumed.value < |bytes| {
        nmiMask := bytes[consumed.value];
        ok := true;
      } else {
        nmiMask := failedRead;
        ok := false;
      }
    }
  }
}
