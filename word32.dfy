/**
 * Unsigned 32-bit machine words as bounded integers, with the wrap-around
 * that C's `u32` arithmetic performs.
 */
module Word32 {
  const Two32: int := 0x1_0000_0000

  type U32 = x: int | 0 <= x < Two32

  /** Unsigned 32-bit wrap-around. */
  function Wrap32(x: int): U32
  {
    x % Two32
  }

  lemma WrapInRange(x: int)
    requires 0 <= x < Two32
    ensures Wrap32(x) == x
  {
  }
}
