/**
 * The vocabulary shared by the SoftFloat comparison and extended-precision
 * code: the four-valued comparison relation and the sticky exception flags
 * carried in `float_status_t`.
 *
 * The flag values follow the exception-flag bits of the x87 FPU status word
 * (invalid = bit 0, denormal = bit 1, divide-by-zero = bit 2, overflow = bit 3,
 * underflow = bit 4, inexact = bit 5); softfloat.h, which declares them,
 * is not part of this model.
 */
module SoftfloatStatus {

  /** The result of a three-way IEEE comparison. */
  datatype Relation = Less | Equal | Greater | Unordered

  type Flags = bv8

  const FlagInvalid: Flags := 0x01
  const FlagDenormal: Flags := 0x02
  const FlagDivByZero: Flags := 0x04
  const FlagOverflow: Flags := 0x08
  const FlagUnderflow: Flags := 0x10
  const FlagInexact: Flags := 0x20

  /** The part of `float_status_t` the modelled code reads or writes. */
  datatype Status = Status(flags: Flags)

  /** `float_raise`: OR a flag into the sticky exception flags. */
  function Raise(st: Status, flag: Flags): (r: Status)
    ensures r.flags & flag == flag
    ensures r.flags & st.flags == st.flags
    ensures r.flags & !(st.flags | flag) == 0
  {
    Status(st.flags | flag)
  }

  /** True when `flag` is set in `st`. */
  predicate Raised(st: Status, flag: Flags)
  {
    st.flags & flag == flag
  }
}
