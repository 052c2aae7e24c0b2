/**
 * Four-plane words: a 32-bit latch or VRAM word holds the four planes,
 * plane p in bits 8p+7..8p.  The plane selector, the two mask expansions
 * the VGA memory path uses, and how the bitwise operators act on planes.
 * Plane numbers are 32-bit vectors so that every proof stays in bit-vector
 * arithmetic.
 */
module VgaPlanes {
  /** The byte of plane `p` in a four-plane word. */
  function Plane(w: bv32, p: bv32): bv8
    requires p < 4
  {
    ((w >> (p << 3)) & 0xFF) as bv8
  }

  /** Bit `p` of a 4-bit plane mask. */
  predicate PlaneEnabled(mask: bv32, p: bv32)
    requires p < 4
  {
    (mask >> p) & 1 == 1
  }

  /** The `mask16` table: a 4-bit plane mask with each bit widened to a whole plane byte. */
  const Mask16Table: seq<bv32> := [
    0x00000000, 0x000000ff, 0x0000ff00, 0x0000ffff, 0x00ff0000, 0x00ff00ff, 0x00ffff00, 0x00ffffff,
    0xff000000, 0xff0000ff, 0xff00ff00, 0xff00ffff, 0xffff0000, 0xffff00ff, 0xffffff00, 0xffffffff]

  /** A table entry, computed from the bits of its index. */
  function Mask16(m: bv32): bv32
    requires m < 16
  {
    (if m & 1 != 0 then 0x0000_00FF else 0) | (if m & 2 != 0 then 0x0000_FF00 else 0) |
    (if m & 4 != 0 then 0x00FF_0000 else 0) | (if m & 8 != 0 then 0xFF00_0000 else 0)
  }

  /** The computed entries are the table's. */
  lemma Mask16MatchesTable(m: bv32)
    requires m < 16
    ensures Mask16(m) == Mask16Table[m]
  {
  }

  /** Every entry sets exactly the planes whose bit is set in its index. */
  lemma Mask16Planes(m: bv32, p: bv32)
    requires m < 16 && p < 4
    ensures Plane(Mask16(m), p) == Fill(m, p)
  {
  }

  /** `VGAExpandMask`: the same byte in all four planes. */
  function ExpandMask(mask: bv8): bv32
  {
    var m := mask as bv32;
    m | (m << 8) | (m << 16) | (m << 24)
  }

  /** Every plane of the expansion is the mask byte. */
  lemma ExpandMaskPlanes(mask: bv8, p: bv32)
    requires p < 4
    ensures Plane(ExpandMask(mask), p) == mask
  {
  }

  /** A whole plane byte of ones or zeros for a bit of a 4-bit mask. */
  function Fill(mask: bv32, p: bv32): bv8
    requires p < 4
  {
    if PlaneEnabled(mask, p) then 0xFF else 0
  }

  /** The bitwise operators act on each plane separately. */
  lemma PlaneOfAnd(x: bv32, y: bv32, p: bv32)
    requires p < 4
    ensures Plane(x & y, p) == Plane(x, p) & Plane(y, p)
  {
  }

  lemma PlaneOfOr(x: bv32, y: bv32, p: bv32)
    requires p < 4
    ensures Plane(x | y, p) == Plane(x, p) | Plane(y, p)
  {
  }

  lemma PlaneOfXor(x: bv32, y: bv32, p: bv32)
    requires p < 4
    ensures Plane(x ^ y, p) == Plane(x, p) ^ Plane(y, p)
  {
  }

  lemma PlaneOfNot(x: bv32, p: bv32)
    requires p < 4
    ensures Plane(!x, p) == !Plane(x, p)
  {
  }

  /** The bits of `a` where `mask` is set and the bits of `b` elsewhere. */
  function Mix(a: bv32, b: bv32, mask: bv32): bv32
  {
    (a & mask) | (b & !mask)
  }

  /** The same selection on one plane byte. */
  function ByteMix(a: bv8, b: bv8, mask: bv8): bv8
  {
    (a & mask) | (b & !mask)
  }

  /** Mixing two words under a mask works plane by plane. */
  lemma MixPlane(a: bv32, b: bv32, mask: bv32, p: bv32)
    requires p < 4
    ensures Plane(Mix(a, b, mask), p) == ByteMix(Plane(a, p), Plane(b, p), Plane(mask, p))
  {
    if p == 0 {
      MixPlane0(a, b, mask);
    } else if p == 1 {
      MixPlane1(a, b, mask);
    } else if p == 2 {
      MixPlane2(a, b, mask);
    } else {
      MixPlane3(a, b, mask);
    }
  }

  /** Under a whole-plane fill the mix takes one side entirely. */
  lemma ByteMixFill(a: bv8, b: bv8, mask: bv32, p: bv32)
    requires p < 4
    ensures ByteMix(a, b, Fill(mask, p)) == if PlaneEnabled(mask, p) then a else b
  {
    if PlaneEnabled(mask, p) {
      assert Fill(mask, p) == 0xFF;
    } else {
      assert Fill(mask, p) == 0;
    }
  }

  /** The mix on plane 0; the three lemmas after it do planes 1 to 3. */
  lemma MixPlane0(a: bv32, b: bv32, mask: bv32)
    ensures Plane(Mix(a, b, mask), 0) == ByteMix(Plane(a, 0), Plane(b, 0), Plane(mask, 0))
  {
  }

  lemma MixPlane1(a: bv32, b: bv32, mask: bv32)
    ensures Plane(Mix(a, b, mask), 1) == ByteMix(Plane(a, 1), Plane(b, 1), Plane(mask, 1))
  {
  }

  lemma MixPlane2(a: bv32, b: bv32, mask: bv32)
    ensures Plane(Mix(a, b, mask), 2) == ByteMix(Plane(a, 2), Plane(b, 2), Plane(mask, 2))
  {
  }

  lemma MixPlane3(a: bv32, b: bv32, mask: bv32)
    ensures Plane(Mix(a, b, mask), 3) == ByteMix(Plane(a, 3), Plane(b, 3), Plane(mask, 3))
  {
  }
}
