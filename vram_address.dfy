/**
 * Video-memory address arithmetic of the VGA memory handlers.  Host offsets
 * and segment bases are unsigned 32-bit values; a byte address is formed with
 * 32-bit wrap-around and then masked with `size - 1`, which for a power-of-two
 * size is the remainder modulo the size.
 */
module VramAddress {
  import opened Word32

  /**
   * Video memory sizes the adapter accepts: a power of two (one that divides
   * 2^32), and at least one 4-byte word so that the latch load stays inside.
   */
  predicate VramSizeOk(n: nat)
  {
    4 <= n && n % 4 == 0 && Two32 % n == 0
  }

  lemma MulMagnitude(d: int, n: int)
    requires n > 0 && d != 0
    ensures d * n >= n || d * n <= -n
  {
    if d > 0 {
      assert (d - 1) * n >= 0;
      assert d * n == (d - 1) * n + n;
    } else {
      assert (-d - 1) * n >= 0;
      assert d * n == -((-d - 1) * n) - n;
    }
  }

  /** Quotient and remainder are unique. */
  lemma DivModUnique(a: int, m: int, n: int, r: int)
    requires n > 0 && a == m * n + r && 0 <= r < n
    ensures a % n == r && a / n == m
  {
    var d := a / n - m;
    assert d * n == r - a % n;
    if d != 0 {
      MulMagnitude(d, n);
      assert false;
    }
  }

  lemma ModuloShift(y: int, q: int, n: int)
    requires n > 0
    ensures (q * n + y) % n == y % n
  {
    var m := y / n;
    assert y == m * n + y % n;
    assert q * n + y == (q + m) * n + y % n;
    DivModUnique(q * n + y, q + m, n, y % n);
  }

  /** Masking a wrapped address is masking the exact sum: the size divides 2^32. */
  lemma WrapThenMask(x: int, n: nat)
    requires VramSizeOk(n)
    ensures Wrap32(x) % n == x % n
  {
    var k := Two32 / n;
    DivModUnique(Two32, k, n, 0);
    var q := x / Two32;
    assert x == q * Two32 + x % Two32;
    assert q * Two32 == (q * k) * n;
    ModuloShift(x % Two32, q * k, n);
  }

  /** A word-aligned address masked into memory leaves room for the whole word. */
  lemma AlignedWordFits(x: int, n: nat)
    requires VramSizeOk(n) && x % 4 == 0
    ensures x % n % 4 == 0 && x % n + 4 <= n
  {
    var q := n / 4;
    DivModUnique(n, q, 4, 0);
    var m := x / n;
    assert x == m * n + x % n;
    assert m * n == (m * q) * 4;
    ModuloShift(x % n, m * q, 4);
  }

  /** A scaled offset is a multiple of four after 32-bit wrap-around. */
  lemma ScaledIsAligned(q: int)
    ensures Wrap32(q * 4) % 4 == 0
  {
    ModuloShift(0, q, 4);
    WrapThenMask(q * 4, 4);
  }

  /** Adding a multiple of four keeps whether a value is one. */
  lemma AlignedSum(x: int, y: int)
    requires y % 4 == 0
    ensures (x + y) % 4 == 0 <==> x % 4 == 0
  {
    ModuloShift(x, y / 4, 4);
  }

  /**
   * The first byte of a 4-byte latch word: a wrapped sum masked into memory.
   * When the sum is word-aligned the whole word lies inside memory.
   */
  function WordAddress(x: int, n: nat): (a: int)
    requires VramSizeOk(n)
    ensures 0 <= a < n && a == x % n
    ensures x % 4 == 0 ==> a % 4 == 0 && a + 4 <= n
  {
    WrapThenMask(x, n);
    if x % 4 == 0 then AlignedWordFits(x, n); Wrap32(x) % n else Wrap32(x) % n
  }

  /**
   * Byte `k` (0..3) of the word whose first byte is at `a`: the next bytes
   * wrap to the start of memory once they pass its end.
   */
  function WordByte(a: int, k: int, n: nat): (i: int)
    requires 0 <= a < n && 0 <= k < 4 && 4 <= n
    ensures i == if a + k < n then a + k else a + k - n
  {
    if a + k < n then DivModUnique(a + k, 0, n, a + k); (a + k) % n
    else DivModUnique(a + k, 1, n, a + k - n); (a + k) % n
  }

  /** The byte address of a chain-4 write: four offsets per 16-byte group, the plane in the low bits. */
  function Chain4Address(segmentBase: U32, offset: U32, n: nat): (a: int)
    requires VramSizeOk(n)
    ensures 0 <= a < n
  {
    Wrap32(segmentBase + (Wrap32((offset - offset % 4) * 4) + offset % 4)) % n
  }

  /** The byte address of an odd/even write: pairs of offsets per 8-byte group, the plane in bit 0. */
  function OddEvenAddress(segmentBase: U32, offset: U32, n: nat): (a: int)
    requires VramSizeOk(n)
    ensures 0 <= a < n
  {
    Wrap32(segmentBase + (Wrap32((offset - offset % 2) * 4) + offset % 2)) % n
  }

  /**
   * The first byte of the word the chain-4 read loads into the latch.  For a
   * 4-aligned segment base the word is aligned and wholly inside memory.
   */
  function Chain4WordAddress(segmentBase: U32, offset: U32, n: nat): (a: int)
    requires VramSizeOk(n)
    ensures 0 <= a < n
    ensures segmentBase % 4 == 0 ==> a % 4 == 0 && a + 4 <= n
  {
    ScaledIsAligned(offset - offset % 4);
    AlignedSum(segmentBase, Wrap32((offset - offset % 4) * 4));
    WordAddress(segmentBase + Wrap32((offset - offset % 4) * 4), n)
  }

  /**
   * The first byte of the word of a planar access: four bytes, one per plane,
   * for each offset.  For a 4-aligned segment base the word is aligned and
   * wholly inside memory.
   */
  function PlanarAddress(segmentBase: U32, offset: U32, n: nat): (a: int)
    requires VramSizeOk(n)
    ensures 0 <= a < n
    ensures segmentBase % 4 == 0 ==> a % 4 == 0 && a + 4 <= n
  {
    ScaledIsAligned(offset);
    AlignedSum(segmentBase, Wrap32(offset * 4));
    WordAddress(segmentBase + Wrap32(offset * 4), n)
  }

  /** The chain-4 byte address is byte `offset % 4` of the latch word, for every segment base. */
  lemma Chain4AddressSplit(segmentBase: U32, offset: U32, n: nat)
    requires VramSizeOk(n)
    ensures Chain4Address(segmentBase, offset, n) == WordByte(Chain4WordAddress(segmentBase, offset, n), offset % 4, n)
  {
    var x := segmentBase + Wrap32((offset - offset % 4) * 4);
    var p := offset % 4;
    WrapThenMask(x + p, n);
    WrapThenMask(x, n);
    assert x == (x / n) * n + x % n;
    ModuloShift(x % n + p, x / n, n);
  }

  /**
   * With a segment base that is not a multiple of four, the last offset of a
   * 64 KiB memory puts the latch word across the end: its first byte is three
   * bytes before the end, so a contiguous four-byte copy runs one byte past it.
   */
  lemma UnalignedBaseOverruns()
    ensures PlanarAddress(1, 0x3FFF, 0x10000) == 0xFFFD
    ensures PlanarAddress(1, 0x3FFF, 0x10000) + 4 > 0x10000
  {
  }

  /**
   * The planar latch address as `HandleVGAVRAMRead` computes it: the segment
   * base is added to the offset and then again to the scaled offset.
   */
  function AsWrittenPlanarReadAddress(segmentBase: U32, offset: U32, n: nat): (a: int)
    requires VramSizeOk(n)
    ensures 0 <= a < n
  {
    Wrap32(segmentBase + Wrap32(Wrap32(segmentBase + offset) * 4)) % n
  }

  /** With a nonzero segment base the as-written read loads a different word than the write path stores to. */
  lemma AsWrittenPlanarReadMisses()
    ensures AsWrittenPlanarReadAddress(4, 0, 0x40000) == 20
    ensures PlanarAddress(4, 0, 0x40000) == 4
  {
  }

  /** With segment base zero the two computations agree. */
  lemma AsWrittenPlanarReadAgreesAtZeroBase(offset: U32, n: nat)
    requires VramSizeOk(n)
    ensures AsWrittenPlanarReadAddress(0, offset, n) == PlanarAddress(0, offset, n)
  {
    WrapInRange(0 + offset);
    var y := Wrap32(offset * 4);
    WrapInRange(0 + y);
  }
}
