/**
 * The 80-bit x87 extended-precision format: a sign bit and a 15-bit biased
 * exponent packed in a 16-bit word, and a 64-bit significand whose bit 63
 * is the explicit integer bit.  Modelled here: classification, the
 * three-way comparison, the exponent/significand split (`floatx80_extract`),
 * the special-operand branches of `floatx80_scale`, and the range check of
 * the two conversions to a 16-bit integer.
 *
 * Routines whose bodies are not part of this model (NaN propagation,
 * rounding and packing, conversion to a 32-bit integer) are passed in as a
 * `Collaborators` value.  `normalizeFloatx80Subnormal` and
 * `int32_to_floatx80` are given their SoftFloat meaning: shift the
 * significand left until the integer bit is set, and exact conversion.
 */
module Floatx80 {
  import opened SoftfloatStatus

  const Two62: int := 0x4000_0000_0000_0000
  const Two63: int := 0x8000_0000_0000_0000
  const Two64: int := 0x1_0000_0000_0000_0000

  type U16 = x: int | 0 <= x < 0x1_0000
  type U64 = x: int | 0 <= x < 0x1_0000_0000_0000_0000
  type I16 = x: int | -0x8000 <= x < 0x8000
  type I32 = x: int | -0x8000_0000 <= x < 0x8000_0000

  /** `floatx80`: `exp` holds the sign in bit 15 and the biased exponent in bits 14..0. */
  datatype Floatx80 = Floatx80(exp: U16, fraction: U64)

  /** `extractFloatx80Exp` */
  function Exp(a: Floatx80): int { a.exp % 0x8000 }

  /** `extractFloatx80Sign` */
  predicate Sign(a: Floatx80) { a.exp >= 0x8000 }

  /** `packFloatx80` */
  function Pack(sign: bool, exp: int, sig: U64): (r: Floatx80)
    requires 0 <= exp < 0x8000
    ensures Sign(r) == sign && Exp(r) == exp && r.fraction == sig
  {
    Floatx80((if sign then 0x8000 else 0) + exp, sig)
  }

  /** Bit 63 of the significand, the explicit integer bit. */
  predicate IntegerBit(sig: U64) { sig >= Two63 }

  /** Bits 62..0 of the significand are all zero (the source's `(aSig << 1) == 0`). */
  predicate LowBitsZero(sig: U64) { sig % Two63 == 0 }

  /** Bit 62 of the significand, the quiet bit of a NaN. */
  predicate QuietBit(sig: U64) { (sig / Two62) % 2 == 1 }

  /** The default NaN: the x87 "real indefinite" (negative, all-ones exponent, significand 0xC000000000000000). */
  const DefaultNaN: Floatx80 := Floatx80(0xFFFF, 0xC000_0000_0000_0000)

  /** Encodings the x87 no longer supports (pseudo-NaN, pseudo-infinity, unnormal): a nonzero exponent without the integer bit. */
  predicate IsUnsupported(a: Floatx80) { Exp(a) != 0 && !IntegerBit(a.fraction) }

  /** `float_class_t` */
  datatype FloatClass = Zero | SNaN | QNaN | NegativeInf | PositiveInf | Denormal | Normalized

  /** `floatx80_class` */
  function Class(a: Floatx80): FloatClass
  {
    var aExp := Exp(a);
    var aSig := a.fraction;
    if aExp == 0 then
      (if aSig == 0 then Zero else Denormal)
    else if !IntegerBit(aSig) then SNaN
    else if aExp == 0x7fff then
      (if LowBitsZero(aSig) then (if Sign(a) then NegativeInf else PositiveInf)
       else if QuietBit(aSig) then QNaN else SNaN)
    else Normalized
  }

  /** The encodings of the x87 format, read independently of the order of tests in `Class`. */
  lemma ClassMatchesEncoding(a: Floatx80)
    ensures Class(a) == Zero <==> Exp(a) == 0 && a.fraction == 0
    ensures Class(a) == Denormal <==> Exp(a) == 0 && a.fraction != 0
    ensures Class(a) == Normalized <==> 0 < Exp(a) < 0x7fff && IntegerBit(a.fraction)
    ensures Class(a) == PositiveInf <==> !Sign(a) && Exp(a) == 0x7fff && a.fraction == Two63
    ensures Class(a) == NegativeInf <==> Sign(a) && Exp(a) == 0x7fff && a.fraction == Two63
    ensures Class(a) == QNaN <==> Exp(a) == 0x7fff && a.fraction >= Two63 + Two62
    ensures Class(a) == SNaN <==> IsUnsupported(a) || (Exp(a) == 0x7fff && Two63 < a.fraction < Two63 + Two62)
  {
    if Exp(a) == 0x7fff && IntegerBit(a.fraction) {
      assert a.fraction % Two63 == a.fraction - Two63;
      assert (a.fraction / Two62) % 2 == 1 <==> a.fraction >= Two63 + Two62;
    }
  }

  // ---------------------------------------------------------------------
  // Powers of two and normalisation

  function Pow2(n: nat): (r: nat)
    ensures r >= 1
  {
    if n == 0 then 1 else 2 * Pow2(n - 1)
  }

  lemma {:induction false} Pow2Add(m: nat, n: nat)
    ensures Pow2(m + n) == Pow2(m) * Pow2(n)
  {
    if n > 0 {
      Pow2Add(m, n - 1);
      assert Pow2(m + n) == 2 * Pow2(m + n - 1);
    }
  }

  lemma Pow2Monotonic(m: nat, n: nat)
    requires m <= n
    ensures Pow2(m) <= Pow2(n)
  {
    Pow2Add(m, n - m);
  }

  lemma Pow2Of63And64()
    ensures Pow2(63) == Two63 && Pow2(64) == Two64
  {
    Pow2Of31();
    assert Pow2(8) == 256;
    Pow2Add(8, 8);
    Pow2Add(16, 16);
    Pow2Add(32, 31);
    Pow2Add(32, 32);
  }

  lemma Pow2Of31()
    ensures Pow2(31) == 0x8000_0000
  {
    assert Pow2(8) == 256;
    Pow2Add(8, 8);
    assert Pow2(15) == 0x8000;
    Pow2Add(16, 15);
  }

  /** The number of leading zero bits of a nonzero 64-bit significand. */
  function LeadingZeros(sig: int): (n: nat)
    requires 0 < sig < Two64
    ensures Two63 <= sig * Pow2(n) < Two64
    decreases Two64 - sig
  {
    if sig >= Two63 then 0 else 1 + LeadingZeros(2 * sig)
  }

  lemma LeadingZerosBelow64(sig: int)
    requires 0 < sig < Two64
    ensures LeadingZeros(sig) < 64
  {
    var n := LeadingZeros(sig);
    Pow2Of63And64();
    MulAtLeast(sig, Pow2(n));
    Pow2MonotonicImplication(64, n);
  }

  lemma Pow2MonotonicImplication(m: nat, n: nat)
    ensures m <= n ==> Pow2(m) <= Pow2(n)
  {
    if m <= n {
      Pow2Monotonic(m, n);
    }
  }

  lemma MulAtLeast(x: int, y: nat)
    requires x >= 1
    ensures x * y >= y
  {
  }

  lemma MulMonotonicImplication(x: int, y: int, p: int)
    requires p >= 0
    ensures x <= y ==> x * p <= y * p
  {
  }

  lemma MulStrict(x: int, y: int, p: int)
    requires x < y && p > 0
    ensures x * p < y * p
  {
  }

  lemma MulMonotonic(x: int, y: int, p: int)
    requires x <= y && p >= 0
    ensures x * p <= y * p
  {
  }

  /** `normalizeFloatx80Subnormal`: the significand shifted until its integer bit is set, and the matching exponent. */
  function NormalizeSubnormal(sig: int): (r: (int, U64))
    requires 0 < sig < Two64
    ensures IntegerBit(r.1)
    ensures -62 <= r.0 <= 1
    ensures r.1 == sig * Pow2(1 - r.0)
  {
    LeadingZerosBelow64(sig);
    var n := LeadingZeros(sig);
    (1 - n, sig * Pow2(n))
  }

  // ---------------------------------------------------------------------
  // The numeric value, as a reference for the comparison

  /** The exponent a finite or infinite operand is scaled by: denormals share the exponent of 1. */
  function EffectiveExp(a: Floatx80): int { if Exp(a) == 0 then 1 else Exp(a) }

  /** `sig * 2^(e + 63)`: a significand scaled by an exponent, kept integral for every exponent normalisation can produce. */
  function Scaled(e: int, sig: nat): nat
    requires e >= -63
  {
    sig * Pow2(e + 63)
  }

  /** The magnitude of `a` in units of 2^-(16383 + 63 + 63) (infinity counts as the scaled largest exponent). */
  function Magnitude(a: Floatx80): nat { Scaled(EffectiveExp(a), a.fraction) }

  function SignedMagnitude(a: Floatx80): int { if Sign(a) then -(Magnitude(a) as int) else Magnitude(a) }

  /** Operands that compare as numbers: not a NaN and not an unsupported encoding. */
  predicate Ordered(a: Floatx80) { Class(a) != SNaN && Class(a) != QNaN }

  /** The IEEE order of two ordered operands, by value; +0 and -0 are equal. */
  function NumericRelation(a: Floatx80, b: Floatx80): Relation
  {
    var x, y := SignedMagnitude(a), SignedMagnitude(b);
    if x < y then Less else if x == y then Equal else Greater
  }

  // ---------------------------------------------------------------------
  // Comparison

  /** The exponent and significand after a denormal has been normalised. */
  function Normalize(a: Floatx80): (r: (int, U64))
    requires Ordered(a) && Class(a) != Zero
    ensures IntegerBit(r.1) && r.0 >= -62
    ensures Magnitude(a) == Scaled(r.0, r.1)
  {
    if Class(a) == Denormal then
      var r := NormalizeSubnormal(a.fraction);
      NormalizePreservesMagnitude(a.fraction);
      r
    else (Exp(a), a.fraction)
  }

  lemma NormalizePreservesMagnitude(sig: int)
    requires 0 < sig < Two64
    ensures Scaled(1, sig) == Scaled(NormalizeSubnormal(sig).0, NormalizeSubnormal(sig).1)
  {
    var (e, s) := NormalizeSubnormal(sig);
    Pow2Add(1 - e, e + 63);
  }

  /** The relation of two ordered operands, as `floatx80_compare` computes it after the NaN checks. */
  function OrderedRelation(a: Floatx80, b: Floatx80): Relation
    requires Ordered(a) && Ordered(b)
  {
    var aSign, bSign := Sign(a), Sign(b);
    if Class(a) == Zero then
      (if Class(b) == Zero then Equal else if bSign then Greater else Less)
    else if Class(b) == Zero || aSign != bSign then
      (if aSign then Less else Greater)
    else
      var (aExp, aSig) := Normalize(a);
      var (bExp, bSig) := Normalize(b);
      if aExp == bExp && aSig == bSig then Equal
      else
        var lessThan :=
          if aSign then bExp < aExp || (bExp == aExp && bSig < aSig)
          else aExp < bExp || (aExp == bExp && aSig < bSig);
        if lessThan then Less else Greater
  }

  /** `floatx80_compare`: the relation, and the status with the flags it raises. */
  function Compare(a: Floatx80, b: Floatx80, quiet: bool, st: Status): (r: (Relation, Status))
    ensures Class(a) == SNaN || Class(b) == SNaN ==> r == (Unordered, Raise(st, FlagInvalid))
    ensures Class(a) != SNaN && Class(b) != SNaN && (Class(a) == QNaN || Class(b) == QNaN) ==>
              r == (Unordered, if quiet then st else Raise(st, FlagInvalid))
    ensures Ordered(a) && Ordered(b) ==>
              (r.0 != Unordered &&
               r.1 == if Class(a) == Denormal || Class(b) == Denormal then Raise(st, FlagDenormal) else st)
  {
    var aClass, bClass := Class(a), Class(b);
    if aClass == SNaN || bClass == SNaN then
      (Unordered, Raise(st, FlagInvalid))
    else if aClass == QNaN || bClass == QNaN then
      (Unordered, if !quiet then Raise(st, FlagInvalid) else st)
    else
      var st' := if aClass == Denormal || bClass == Denormal then Raise(st, FlagDenormal) else st;
      (OrderedRelation(a, b), st')
  }

  /** Normalised pairs order by exponent first and significand second exactly as their scaled values do. */
  lemma LexicographicIsNumeric(e1: int, s1: U64, e2: int, s2: U64)
    requires e1 >= -62 && e2 >= -62 && IntegerBit(s1) && IntegerBit(s2)
    ensures (e1 < e2 || (e1 == e2 && s1 < s2)) <==> Scaled(e1, s1) < Scaled(e2, s2)
    ensures (e1 == e2 && s1 == s2) <==> Scaled(e1, s1) == Scaled(e2, s2)
  {
    if e1 < e2 {
      ExponentDominates(e1, s1, e2, s2);
    } else if e2 < e1 {
      ExponentDominates(e2, s2, e1, s1);
    } else {
      var p := Pow2(e1 + 63);
      assert Scaled(e1, s1) == s1 * p && Scaled(e2, s2) == s2 * p;
      if s1 < s2 {
        assert s1 * p < s2 * p;
      } else if s2 < s1 {
        assert s2 * p < s1 * p;
      }
    }
  }

  lemma ExponentDominates(e1: int, s1: U64, e2: int, s2: U64)
    requires -62 <= e1 < e2 && IntegerBit(s2)
    ensures Scaled(e1, s1) < Scaled(e2, s2)
  {
    var p := Pow2(e1 + 63);
    var q := Pow2(e2 - e1);
    Pow2Add(e1 + 63, e2 - e1);
    assert Pow2(e2 + 63) == p * q;
    Pow2Monotonic(1, e2 - e1);
    assert q >= 2;
    MulStrict(s1, Two64, p);
    MulMonotonic(2, q, Two63 * p);
    assert Two64 * p == 2 * (Two63 * p);
    assert q * (Two63 * p) == Two63 * (p * q);
    MulMonotonic(Two63, s2, p * q);
  }

  /** A nonzero ordered operand has a positive magnitude. */
  lemma MagnitudePositive(a: Floatx80)
    requires Ordered(a) && Class(a) != Zero
    ensures Magnitude(a) > 0
  {
    assert a.fraction > 0;
    MulAtLeast(a.fraction, Pow2(EffectiveExp(a) + 63));
  }

  /** On ordered operands `floatx80_compare` answers the numeric order of the encoded values. */
  lemma CompareIsNumericOrder(a: Floatx80, b: Floatx80, quiet: bool, st: Status)
    requires Ordered(a) && Ordered(b)
    ensures Compare(a, b, quiet, st).0 == NumericRelation(a, b)
  {
    if Class(a) != Zero {
      MagnitudePositive(a);
    }
    if Class(b) != Zero {
      MagnitudePositive(b);
    }
    if Class(a) != Zero && Class(b) != Zero && Sign(a) == Sign(b) {
      var (aExp, aSig) := Normalize(a);
      var (bExp, bSig) := Normalize(b);
      LexicographicIsNumeric(aExp, aSig, bExp, bSig);
    }
  }

  /** Swapping ordered operands swaps less and greater and keeps equal. */
  lemma CompareAntisymmetric(a: Floatx80, b: Floatx80, quiet: bool, st: Status)
    requires Ordered(a) && Ordered(b)
    ensures Compare(a, b, quiet, st).0 == Less <==> Compare(b, a, quiet, st).0 == Greater
    ensures Compare(a, b, quiet, st).0 == Equal <==> Compare(b, a, quiet, st).0 == Equal
  {
    CompareIsNumericOrder(a, b, quiet, st);
    CompareIsNumericOrder(b, a, quiet, st);
  }

  /** +0 and -0 are equal, and a zero against a nonzero operand is decided by the nonzero operand's sign. */
  lemma CompareZeros(a: Floatx80, b: Floatx80, quiet: bool, st: Status)
    requires Ordered(a) && Ordered(b) && Class(a) == Zero
    ensures Class(b) == Zero ==> Compare(a, b, quiet, st).0 == Equal
    ensures Class(b) != Zero ==> Compare(a, b, quiet, st).0 == (if Sign(b) then Greater else Less)
  {
  }

  /** Equal exactly when both are zeros of either sign, or the signs and the normalised exponent and significand match. */
  lemma CompareEqualIff(a: Floatx80, b: Floatx80, quiet: bool, st: Status)
    requires Ordered(a) && Ordered(b)
    ensures Compare(a, b, quiet, st).0 == Equal <==>
              (Class(a) == Zero && Class(b) == Zero) ||
              (Class(a) != Zero && Class(b) != Zero && Sign(a) == Sign(b) && Normalize(a) == Normalize(b))
  {
  }

  // ---------------------------------------------------------------------
  // Routines whose bodies are outside the model

  /**
   * `propagateFloatx80NaN` (one and two operands), `roundAndPackFloatx80`
   * and `normalizeRoundAndPackFloatx80` at 80-bit precision with no extra
   * significand bits, and `floatx80_to_int32` / `floatx80_to_int32_round_to_zero`.
   */
  datatype Collaborators = Collaborators(
    propagateNaN: (Floatx80, Status) -> (Floatx80, Status),
    propagateNaN2: (Floatx80, Floatx80, Status) -> (Floatx80, Status),
    roundAndPack: (bool, int, U64, Status) -> (Floatx80, Status),
    normalizeRoundAndPack: (bool, int, U64, Status) -> (Floatx80, Status),
    toInt32: (Floatx80, Status) -> (I32, Status),
    toInt32RoundToZero: (Floatx80, Status) -> (I32, Status))

  // ---------------------------------------------------------------------
  // Conversion from a 32-bit integer and to a 16-bit integer

  /** `int32_to_floatx80` */
  function FromInt32(v: I32): (r: Floatx80)
    ensures v == 0 ==> Class(r) == Zero
    ensures v != 0 ==> Class(r) == Normalized && Sign(r) == (v < 0)
    ensures v != 0 ==>
              (0x3FFF <= Exp(r) <= 0x403E &&
               r.fraction == (if v < 0 then -(v as int) else v) * Pow2(0x403E - Exp(r)))
  {
    if v == 0 then Pack(false, 0, 0)
    else
      var absA := if v < 0 then -(v as int) else v;
      LeadingZerosBelow64(absA);
      var shiftCount := LeadingZeros(absA);
      LeadingZerosOfInt32(absA);
      Pack(v < 0, 0x403E - shiftCount, absA * Pow2(shiftCount))
  }

  /** The magnitude of a 32-bit integer has at least 32 leading zeros in 64 bits. */
  lemma LeadingZerosOfInt32(x: int)
    requires 0 < x <= 0x8000_0000
    ensures LeadingZeros(x) >= 32
  {
    var n := LeadingZeros(x);
    Pow2Of31();
    Pow2MonotonicImplication(n, 31);
    MulMonotonic(x, 0x8000_0000, Pow2(n));
    MulMonotonicImplication(Pow2(n), 0x8000_0000, 0x8000_0000);
  }

  /** The value `int16_indefinite`. */
  const Int16Indefinite: I16 := -0x8000

  /** The common range check of `floatx80_to_int16` and `floatx80_to_int16_round_to_zero`. */
  function NarrowToInt16(a: Floatx80, st: Status, toInt32: (Floatx80, Status) -> (I32, Status)): (r: (I16, Status))
    ensures IsUnsupported(a) ==> r == (Int16Indefinite, Raise(st, FlagInvalid))
    ensures !IsUnsupported(a) && -32768 <= toInt32(a, st).0 <= 32767 ==> r == toInt32(a, st)
    ensures !IsUnsupported(a) && !(-32768 <= toInt32(a, st).0 <= 32767) ==> r == (Int16Indefinite, Status(FlagInvalid))
  {
    if IsUnsupported(a) then (Int16Indefinite, Raise(st, FlagInvalid))
    else
      var (v32, st') := toInt32(a, st);
      if v32 > 32767 || v32 < -32768 then (Int16Indefinite, Status(FlagInvalid))
      else (v32, st')
  }

  /** `floatx80_to_int16` */
  function ToInt16(a: Floatx80, st: Status, h: Collaborators): (r: (I16, Status))
    ensures var (v, st') := h.toInt32(a, st);
            !IsUnsupported(a) ==>
              if -32768 <= v <= 32767 then r == (v, st') else r == (Int16Indefinite, Status(FlagInvalid))
  {
    NarrowToInt16(a, st, h.toInt32)
  }

  /** `floatx80_to_int16_round_to_zero` */
  function ToInt16RoundToZero(a: Floatx80, st: Status, h: Collaborators): (r: (I16, Status))
    ensures var (v, st') := h.toInt32RoundToZero(a, st);
            !IsUnsupported(a) ==>
              if -32768 <= v <= 32767 then r == (v, st') else r == (Int16Indefinite, Status(FlagInvalid))
  {
    NarrowToInt16(a, st, h.toInt32RoundToZero)
  }

  // ---------------------------------------------------------------------
  // Extract

  /** What `floatx80_extract` leaves in its operand, what it returns, and the status. */
  datatype ExtractResult = ExtractResult(operand: Floatx80, result: Floatx80, status: Status)

  /** `floatx80_extract`: split `a` into a significand (left in the operand) and an exponent (returned). */
  function Extract(a: Floatx80, st: Status, h: Collaborators): (r: ExtractResult)
    ensures IsUnsupported(a) ==> r == ExtractResult(DefaultNaN, DefaultNaN, Raise(st, FlagInvalid))
    ensures Class(a) == Zero ==>
              r.status == Raise(st, FlagDivByZero) && r.operand == a &&
              Class(r.result) == NegativeInf
    ensures Class(a) in {PositiveInf, NegativeInf} ==>
              r.operand == a && r.status == st && Class(r.result) == PositiveInf
    ensures Class(a) == QNaN || (Class(a) == SNaN && !IsUnsupported(a)) ==>
              (r.operand, r.status) == h.propagateNaN(a, st) && r.result == r.operand
    ensures Class(a) in {Normalized, Denormal} ==>
              (var (e, s) := Normalize(a);
               r.operand == Pack(Sign(a), 0x3FFF, s) && r.result == FromInt32(e - 0x3FFF) &&
               r.status == if Class(a) == Denormal then Raise(st, FlagDenormal) else st)
  {
    var aSig, aExp, aSign := a.fraction, Exp(a), Sign(a);
    if IsUnsupported(a) then
      ExtractResult(DefaultNaN, DefaultNaN, Raise(st, FlagInvalid))
    else if aExp == 0x7FFF then
      if !LowBitsZero(aSig) then
        var (p, st') := h.propagateNaN(a, st);
        ExtractResult(p, p, st')
      else
        ExtractResult(a, Pack(false, 0x7FFF, Two63), st)
    else if aExp == 0 && aSig == 0 then
      ExtractResult(Pack(aSign, 0, 0), Pack(true, 0x7FFF, Two63), Raise(st, FlagDivByZero))
    else
      var (st', nExp, nSig) :=
        if aExp == 0 then
          var n := NormalizeSubnormal(aSig);
          (Raise(st, FlagDenormal), n.0, n.1)
        else (st, aExp, aSig);
      ExtractResult(Pack(aSign, 0x3FFF, nSig), FromInt32(nExp - 0x3FFF), st')
  }

  /**
   * For a finite nonzero operand, the significand left in the operand times
   * two to the power of the returned exponent is the operand's value:
   * |a| * 2^(16383 + 62) == |operand| * 2^(e + 62) with `e - 16383` the
   * (exactly converted) returned exponent.
   */
  lemma ExtractRecombines(a: Floatx80, st: Status, h: Collaborators)
    requires Class(a) in {Normalized, Denormal}
    ensures var r := Extract(a, st, h);
            var e := Normalize(a).0;
            Sign(r.operand) == Sign(a) && Class(r.operand) == Normalized &&
            Magnitude(a) * Pow2(0x3FFF + 62) == Magnitude(r.operand) * Pow2(e + 62) &&
            (Class(r.result) != Zero ==> Sign(r.result) == (e < 0x3FFF))
  {
    var (e, s) := Normalize(a);
    ShiftIdentity(s, e, 0x3FFF);
  }

  lemma ShiftIdentity(s: nat, e: int, k: int)
    requires e >= -62 && k >= -62
    ensures Scaled(e, s) * Pow2(k + 62) == Scaled(k, s) * Pow2(e + 62)
  {
    Pow2Add(e + 63, k + 62);
    Pow2Add(k + 63, e + 62);
    Associate(s, Pow2(e + 63), Pow2(k + 62));
    Associate(s, Pow2(k + 63), Pow2(e + 62));
  }

  lemma Associate(x: int, y: int, z: int)
    ensures (x * y) * z == x * (y * z)
  {
  }

  // ---------------------------------------------------------------------
  // Scale

  /** The status after the denormal-operand check of `floatx80_scale` on operands that are not NaN. */
  function DenormalChecked(a: Floatx80, b: Floatx80, st: Status): Status
  {
    if Class(a) == Denormal || Class(b) == Denormal then Raise(st, FlagDenormal) else st
  }

  predicate IsInfinite(a: Floatx80) { Class(a) == PositiveInf || Class(a) == NegativeInf }

  predicate IsFinite(a: Floatx80) { Class(a) in {Zero, Denormal, Normalized} }

  /**
   * The integer part of a finite `b` with 2^0 <= |b| < 2^16 (biased exponent
   * 0x3FFF..0x400E), as the significand shifted right by `0x403E - exp`; negated when `b` is negative.
   */
  function TruncatedScale(bExp: int, bSig: U64, bSign: bool): (r: int)
    requires 0x3FFF <= bExp <= 0x400E && IntegerBit(bSig)
    ensures 0 < (if bSign then -r else r) < 0x1_0000
  {
    var shiftCount := 0x403E - bExp;
    Pow2Of63And64();
    Pow2Monotonic(shiftCount, 63);
    Pow2Monotonic(48, shiftCount);
    assert Pow2(48) == 0x1_0000_0000_0000 by {
      assert Pow2(8) == 256;
      Pow2Add(8, 8);
      Pow2Add(16, 16);
      Pow2Add(32, 16);
    }
    DivBounds(bSig, Pow2(shiftCount));
    var scale := bSig / Pow2(shiftCount);
    if bSign then -scale else scale
  }

  lemma DivBounds(x: int, d: int)
    requires Two63 <= x < Two64 && 0x1_0000_0000_0000 <= d <= Two63
    ensures 1 <= x / d < 0x1_0000
  {
    var q := x / d;
    assert x == q * d + x % d;
    MulMonotonicImplication(q, 0, d);
    MulMonotonicImplication(0x1_0000, q, d);
    MulMonotonic(0x1_0000_0000_0000, d, 0x1_0000);
  }

  /** The branches of `floatx80_scale` where `a` is finite and `b` is finite. */
  function ScaleFinite(a: Floatx80, b: Floatx80, st: Status, h: Collaborators): (r: (Floatx80, Status))
    requires IsFinite(a) && IsFinite(b)
  {
    var aSign, bSign := Sign(a), Sign(b);
    var bExp, bSig := Exp(b), b.fraction;
    if Class(a) == Zero then (a, DenormalChecked(a, b, st))
    else
      var (aExp, aSig) := Normalize(a);
      if Class(a) == Denormal && bExp < 0x3FFF then
        h.normalizeRoundAndPack(aSign, aExp, aSig, DenormalChecked(a, b, st))
      else if Class(b) == Zero then (a, st)
      else
        var (nbExp, nbSig) := Normalize(b);
        var st' := DenormalChecked(a, b, st);
        if nbExp > 0x400E then h.roundAndPack(aSign, if bSign then -0x3FFF else 0x7FFF, aSig, st')
        else if nbExp < 0x3FFF then (a, st')
        else h.roundAndPack(aSign, aExp + TruncatedScale(nbExp, nbSig, bSign), aSig, st')
  }

  /** `floatx80_scale`: `a` times two to the power of `b` truncated to an integer. */
  function Scale(a: Floatx80, b: Floatx80, st: Status, h: Collaborators): (r: (Floatx80, Status))
    // unsupported encodings give the default NaN
    ensures IsUnsupported(a) || IsUnsupported(b) ==> r == (DefaultNaN, Raise(st, FlagInvalid))
    // a NaN operand is propagated
    ensures !IsUnsupported(a) && !IsUnsupported(b) && (!Ordered(a) || !Ordered(b)) ==> r == h.propagateNaN2(a, b, st)
    // infinity scaled by anything but minus infinity stays
    ensures IsInfinite(a) && Ordered(b) && Class(b) != NegativeInf ==> r == (a, DenormalChecked(a, b, st))
    // infinity times 2^-inf, and zero times 2^+inf, are invalid
    ensures (IsInfinite(a) && Class(b) == NegativeInf) || (Class(a) == Zero && Class(b) == PositiveInf) ==>
              r == (DefaultNaN, Raise(st, FlagInvalid))
    // a nonzero finite value scaled by an infinity becomes an infinity or a zero of its own sign
    ensures Class(a) in {Denormal, Normalized} && IsInfinite(b) ==>
              r.1 == DenormalChecked(a, b, st) &&
              (if Class(b) == PositiveInf then Class(r.0) == (if Sign(a) then NegativeInf else PositiveInf)
               else Class(r.0) == Zero && Sign(r.0) == Sign(a))
    // a zero stays unless scaled by plus infinity
    ensures Class(a) == Zero && Ordered(b) && Class(b) != PositiveInf ==> r == (a, DenormalChecked(a, b, st))
    // a normal value scaled by less than one in magnitude stays
    ensures Class(a) == Normalized && Class(b) == Zero ==> r == (a, st)
    ensures Class(a) == Normalized && Class(b) in {Denormal, Normalized} && Normalize(b).0 < 0x3FFF ==>
              r == (a, DenormalChecked(a, b, st))
    // a denormal scaled by less than one in magnitude is renormalised and rounded
    ensures Class(a) == Denormal && IsFinite(b) && Exp(b) < 0x3FFF ==>
              r == h.normalizeRoundAndPack(Sign(a), Normalize(a).0, Normalize(a).1, DenormalChecked(a, b, st))
    // otherwise the integer part of b is added to the exponent, with overflow or underflow forced beyond 2^16
    ensures Class(a) in {Denormal, Normalized} && Class(b) == Normalized && Exp(b) >= 0x3FFF ==>
              r == h.roundAndPack(Sign(a),
                     if Exp(b) > 0x400E then (if Sign(b) then -0x3FFF else 0x7FFF)
                     else Normalize(a).0 + TruncatedScale(Exp(b), b.fraction, Sign(b)),
                     Normalize(a).1, DenormalChecked(a, b, st))
  {
    ClassMatchesEncoding(a);
    ClassMatchesEncoding(b);
    var aSig, aExp, aSign := a.fraction, Exp(a), Sign(a);
    var bSig, bExp, bSign := b.fraction, Exp(b), Sign(b);
    if IsUnsupported(a) || IsUnsupported(b) then
      (DefaultNaN, Raise(st, FlagInvalid))
    else if aExp == 0x7FFF then
      if !LowBitsZero(aSig) || (bExp == 0x7FFF && !LowBitsZero(bSig)) then h.propagateNaN2(a, b, st)
      else if bExp == 0x7FFF && bSign then (DefaultNaN, Raise(st, FlagInvalid))
      else (a, if bSig != 0 && bExp == 0 then Raise(st, FlagDenormal) else st)
    else if bExp == 0x7FFF then
      if !LowBitsZero(bSig) then h.propagateNaN2(a, b, st)
      else if aExp == 0 && aSig == 0 then
        (if !bSign then (DefaultNaN, Raise(st, FlagInvalid)) else (a, st))
      else
        var st' := if aSig != 0 && aExp == 0 then Raise(st, FlagDenormal) else st;
        if bSign then (Pack(aSign, 0, 0), st') else (Pack(aSign, 0x7FFF, Two63), st')
    else
      ScaleFinite(a, b, st, h)
  }
}
