/**
 * The 32 comparison predicates of SoftFloat for the single (float32) and
 * double (float64) formats.  Each predicate runs one base three-way
 * comparison, either the quiet one (a quiet NaN alone raises nothing) or
 * the signalling one, and answers a fixed Boolean of the relation it got.
 *
 * Predicate codes 0x00-0x1f are the compare-predicate immediate of
 * VCMPPS/VCMPPD (Intel SDM Vol. 2).  The base comparisons themselves
 * (`float32_compare`, `float32_compare_quiet` and their float64 twins) are
 * not part of this model: they are passed in as functions.
 */
module SoftfloatCompare {
  import opened SoftfloatStatus

  type Float32 = bv32
  type Float64 = bv64

  /** The compare-predicate immediate. */
  type PredicateCode = bv5

  /** The named predicates, in code order 0x00..0x1f. */
  datatype Predicate =
    | EqOrderedQuiet | LtOrderedSignalling | LeOrderedSignalling | UnorderedQuiet
    | NeqUnorderedQuiet | NltUnorderedSignalling | NleUnorderedSignalling | OrderedQuiet
    | EqUnorderedQuiet | NgeUnorderedSignalling | NgtUnorderedSignalling | FalseQuiet
    | NeqOrderedQuiet | GeOrderedSignalling | GtOrderedSignalling | TrueQuiet
    | EqOrderedSignalling | LtOrderedQuiet | LeOrderedQuiet | UnorderedSignalling
    | NeqUnorderedSignalling | NltUnorderedQuiet | NleUnorderedQuiet | OrderedSignalling
    | EqUnorderedSignalling | NgeUnorderedQuiet | NgtUnorderedQuiet | FalseSignalling
    | NeqOrderedSignalling | GeOrderedQuiet | GtOrderedQuiet | TrueSignalling

  /** The immediate that selects `p`. */
  function Code(p: Predicate): PredicateCode
  {
    match p
    case EqOrderedQuiet => 0x00
    case LtOrderedSignalling => 0x01
    case LeOrderedSignalling => 0x02
    case UnorderedQuiet => 0x03
    case NeqUnorderedQuiet => 0x04
    case NltUnorderedSignalling => 0x05
    case NleUnorderedSignalling => 0x06
    case OrderedQuiet => 0x07
    case EqUnorderedQuiet => 0x08
    case NgeUnorderedSignalling => 0x09
    case NgtUnorderedSignalling => 0x0a
    case FalseQuiet => 0x0b
    case NeqOrderedQuiet => 0x0c
    case GeOrderedSignalling => 0x0d
    case GtOrderedSignalling => 0x0e
    case TrueQuiet => 0x0f
    case EqOrderedSignalling => 0x10
    case LtOrderedQuiet => 0x11
    case LeOrderedQuiet => 0x12
    case UnorderedSignalling => 0x13
    case NeqUnorderedSignalling => 0x14
    case NltUnorderedQuiet => 0x15
    case NleUnorderedQuiet => 0x16
    case OrderedSignalling => 0x17
    case EqUnorderedSignalling => 0x18
    case NgeUnorderedQuiet => 0x19
    case NgtUnorderedQuiet => 0x1a
    case FalseSignalling => 0x1b
    case NeqOrderedSignalling => 0x1c
    case GeOrderedQuiet => 0x1d
    case GtOrderedQuiet => 0x1e
    case TrueSignalling => 0x1f
  }

  /** Whether `p` calls the quiet base comparison (as opposed to the signalling one). */
  predicate UsesQuietCompare(p: Predicate)
  {
    match p
    case EqOrderedQuiet | UnorderedQuiet | NeqUnorderedQuiet | OrderedQuiet
       | EqUnorderedQuiet | FalseQuiet | NeqOrderedQuiet | TrueQuiet
       | LtOrderedQuiet | LeOrderedQuiet | NltUnorderedQuiet | NleUnorderedQuiet
       | NgeUnorderedQuiet | NgtUnorderedQuiet | GeOrderedQuiet | GtOrderedQuiet => true
    case _ => false
  }

  /** The Boolean each predicate returns for the relation its base comparison produced. */
  predicate Holds(p: Predicate, rel: Relation)
  {
    match p
    case EqOrderedQuiet | EqOrderedSignalling => rel == Equal
    case LtOrderedSignalling | LtOrderedQuiet => rel == Less
    case LeOrderedSignalling | LeOrderedQuiet => rel == Less || rel == Equal
    case UnorderedQuiet | UnorderedSignalling => rel == Unordered
    case NeqUnorderedQuiet | NeqUnorderedSignalling => rel != Equal
    case NltUnorderedSignalling | NltUnorderedQuiet => rel != Less
    case NleUnorderedSignalling | NleUnorderedQuiet => rel != Less && rel != Equal
    case OrderedQuiet | OrderedSignalling => rel != Unordered
    case EqUnorderedQuiet | EqUnorderedSignalling => rel == Equal || rel == Unordered
    case NgeUnorderedSignalling | NgeUnorderedQuiet => rel == Less || rel == Unordered
    case NgtUnorderedSignalling | NgtUnorderedQuiet => rel != Greater
    case FalseQuiet | FalseSignalling => false
    case NeqOrderedQuiet | NeqOrderedSignalling => rel != Equal && rel != Unordered
    case GeOrderedSignalling | GeOrderedQuiet => rel == Greater || rel == Equal
    case GtOrderedSignalling | GtOrderedQuiet => rel == Greater
    case TrueQuiet | TrueSignalling => true
  }

  /*
   * Reference reading of the immediate, bit by bit, independent of the
   * per-predicate table above:
   *   bits 1:0 pick the base test for ordered operands (EQ, LT, LE, none),
   *   bit 3 flips the answer for unordered operands,
   *   bit 2 negates the whole answer,
   *   bit 4 swaps quiet and signalling; without it LT/LE are signalling.
   */
  predicate ImmediateHolds(c: PredicateCode, rel: Relation)
  {
    var k := c & 3;
    var flipUnordered := c & 8 != 0;
    var negate := c & 4 != 0;
    var base :=
      match rel
      case Equal => k == 0 || k == 2
      case Less => k == 1 || k == 2
      case Greater => false
      case Unordered => (k == 3) != flipUnordered;
    base != negate
  }

  predicate ImmediateSignals(c: PredicateCode)
  {
    (c & 3 == 1 || c & 3 == 2) != (c & 0x10 != 0)
  }

  /** The table of named predicates is exactly the bitwise reading of the immediate. */
  lemma TableMatchesImmediate(p: Predicate, rel: Relation)
    ensures Holds(p, rel) == ImmediateHolds(Code(p), rel)
    ensures UsesQuietCompare(p) == !ImmediateSignals(Code(p))
  {
    match p
    case EqOrderedQuiet =>
    case LtOrderedSignalling =>
    case LeOrderedSignalling =>
    case UnorderedQuiet =>
    case NeqUnorderedQuiet =>
    case NltUnorderedSignalling =>
    case NleUnorderedSignalling =>
    case OrderedQuiet =>
    case EqUnorderedQuiet =>
    case NgeUnorderedSignalling =>
    case NgtUnorderedSignalling =>
    case FalseQuiet =>
    case NeqOrderedQuiet =>
    case GeOrderedSignalling =>
    case GtOrderedSignalling =>
    case TrueQuiet =>
    case EqOrderedSignalling =>
    case LtOrderedQuiet =>
    case LeOrderedQuiet =>
    case UnorderedSignalling =>
    case NeqUnorderedSignalling =>
    case NltUnorderedQuiet =>
    case NleUnorderedQuiet =>
    case OrderedSignalling =>
    case EqUnorderedSignalling =>
    case NgeUnorderedQuiet =>
    case NgtUnorderedQuiet =>
    case FalseSignalling =>
    case NeqOrderedSignalling =>
    case GeOrderedQuiet =>
    case GtOrderedQuiet =>
    case TrueSignalling =>
  }

  /** Codes k and k xor 0x04 give complementary answers with the same kind of base comparison. */
  lemma ComplementPairs(p: Predicate, q: Predicate, rel: Relation)
    requires Code(q) == Code(p) ^ 0x04
    ensures Holds(q, rel) == !Holds(p, rel)
    ensures UsesQuietCompare(q) == UsesQuietCompare(p)
  {
    TableMatchesImmediate(p, rel);
    TableMatchesImmediate(q, rel);
  }

  /** Codes k and k xor 0x10 give the same answer, one through the quiet and one through the signalling comparison. */
  lemma QuietSignallingPairs(p: Predicate, q: Predicate, rel: Relation)
    requires Code(q) == Code(p) ^ 0x10
    ensures Holds(q, rel) == Holds(p, rel)
    ensures UsesQuietCompare(q) == !UsesQuietCompare(p)
  {
    TableMatchesImmediate(p, rel);
    TableMatchesImmediate(q, rel);
  }

  /** Predicates whose name says "ordered" (they need ordered operands to answer true). */
  predicate NamedOrdered(p: Predicate)
  {
    p in {EqOrderedQuiet, EqOrderedSignalling, LtOrderedQuiet, LtOrderedSignalling,
          LeOrderedQuiet, LeOrderedSignalling, GtOrderedQuiet, GtOrderedSignalling,
          GeOrderedQuiet, GeOrderedSignalling, NeqOrderedQuiet, NeqOrderedSignalling,
          OrderedQuiet, OrderedSignalling}
  }

  /** Predicates whose name says "unordered" (they answer true for unordered operands). */
  predicate NamedUnordered(p: Predicate)
  {
    p in {EqUnorderedQuiet, EqUnorderedSignalling, NeqUnorderedQuiet, NeqUnorderedSignalling,
          NltUnorderedQuiet, NltUnorderedSignalling, NleUnorderedQuiet, NleUnorderedSignalling,
          NgeUnorderedQuiet, NgeUnorderedSignalling, NgtUnorderedQuiet, NgtUnorderedSignalling,
          UnorderedQuiet, UnorderedSignalling}
  }

  /** On an unordered relation the "ordered" predicates are false and the "unordered" ones true. */
  lemma UnorderedOutcome(p: Predicate)
    ensures NamedOrdered(p) ==> !Holds(p, Unordered)
    ensures NamedUnordered(p) ==> Holds(p, Unordered)
    ensures !NamedOrdered(p) && !NamedUnordered(p) ==> p in {FalseQuiet, FalseSignalling, TrueQuiet, TrueSignalling}
  {
  }

  /** The two base comparisons of one format, each also returning the updated status. */
  datatype BaseCompare<!T> = BaseCompare(
    signalling: (T, T, Status) -> (Relation, Status),
    quiet: (T, T, Status) -> (Relation, Status))

  /** A call of the base comparison that the immediate `c` asks for. */
  function Selected<T>(base: BaseCompare<T>, c: PredicateCode, a: T, b: T, st: Status): (Relation, Status)
  {
    if ImmediateSignals(c) then base.signalling(a, b, st) else base.quiet(a, b, st)
  }

  /**
   * Run predicate `p` on `a`, `b`: one call of the base comparison, then the
   * predicate's Boolean of the relation.  The status is whatever the base
   * comparison left, also for the always-false and always-true predicates.
   */
  function Evaluate<T>(p: Predicate, base: BaseCompare<T>, a: T, b: T, st: Status): (r: (bool, Status))
    ensures r.0 == ImmediateHolds(Code(p), Selected(base, Code(p), a, b, st).0)
    ensures r.1 == Selected(base, Code(p), a, b, st).1
    ensures p in {FalseQuiet, FalseSignalling} ==> !r.0
    ensures p in {TrueQuiet, TrueSignalling} ==> r.0
  {
    var rel := if UsesQuietCompare(p) then base.quiet(a, b, st) else base.signalling(a, b, st);
    TableMatchesImmediate(p, rel.0);
    (Holds(p, rel.0), rel.1)
  }

  /** `float32_<predicate>`. */
  function Float32Compare(p: Predicate, base: BaseCompare<Float32>, a: Float32, b: Float32, st: Status): (r: (bool, Status))
    ensures r.0 == ImmediateHolds(Code(p), Selected(base, Code(p), a, b, st).0)
    ensures r.1 == Selected(base, Code(p), a, b, st).1
  {
    Evaluate(p, base, a, b, st)
  }

  /** `float64_<predicate>`. */
  function Float64Compare(p: Predicate, base: BaseCompare<Float64>, a: Float64, b: Float64, st: Status): (r: (bool, Status))
    ensures r.0 == ImmediateHolds(Code(p), Selected(base, Code(p), a, b, st).0)
    ensures r.1 == Selected(base, Code(p), a, b, st).1
  {
    Evaluate(p, base, a, b, st)
  }

  /**
   * The float64 family has the float32 family's truth table and quiet or
   * signalling choice: given base comparisons that agree on the relation
   * and status, the two predicates with the same code agree.
   */
  lemma Float64MatchesFloat32(p: Predicate, b32: BaseCompare<Float32>, x: Float32, y: Float32,
                              b64: BaseCompare<Float64>, u: Float64, v: Float64, st: Status)
    requires b32.signalling(x, y, st) == b64.signalling(u, v, st)
    requires b32.quiet(x, y, st) == b64.quiet(u, v, st)
    ensures Float32Compare(p, b32, x, y, st) == Float64Compare(p, b64, u, v, st)
  {
  }
}
