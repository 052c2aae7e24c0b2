/**
 * The byte-stream format of machine state snapshots: a flat sequence of
 * fields written one after another with no framing, each read back in the
 * same order.  Integers are little-endian (the in-memory layout of a `u32`
 * on the x86 hosts the emulator runs on); a Boolean is one byte, 1 for true.
 */
module Serial {
  import opened Wrappers

  /** A field as written to the stream. */
  datatype Field =
    | U8(byte: bv8)
    | U32(word: bv32)
    | Flag(flag: bool)
    | Bytes(bytes: seq<bv8>)
    | Words(words: seq<bv32>)

  /** The shape a reader expects: the field type and, for blocks, the element count. */
  datatype Kind = KU8 | KU32 | KFlag | KBytes(n: nat) | KWords(n: nat)

  predicate HasKind(f: Field, k: Kind)
  {
    match k
    case KU8 => f.U8?
    case KU32 => f.U32?
    case KFlag => f.Flag?
    case KBytes(n) => f.Bytes? && |f.bytes| == n
    case KWords(n) => f.Words? && |f.words| == n
  }

  predicate Conforms(fs: seq<Field>, ks: seq<Kind>)
  {
    |fs| == |ks| && forall i :: 0 <= i < |fs| ==> HasKind(fs[i], ks[i])
  }

  /** Bytes a field of this kind occupies in the stream. */
  function KindSize(k: Kind): nat
  {
    match k
    case KU8 => 1
    case KU32 => 4
    case KFlag => 1
    case KBytes(n) => n
    case KWords(n) => 4 * n
  }

  function LayoutSize(ks: seq<Kind>): nat
  {
    if ks == [] then 0 else KindSize(ks[0]) + LayoutSize(ks[1..])
  }

  // ---------------------------------------------------------------------
  // 32-bit words

  function EncodeU32(w: bv32): (r: seq<bv8>)
    ensures |r| == 4
  {
    [(w & 0xFF) as bv8, ((w >> 8) & 0xFF) as bv8, ((w >> 16) & 0xFF) as bv8, (w >> 24) as bv8]
  }

  function DecodeU32(b: seq<bv8>): bv32
    requires |b| >= 4
  {
    (b[0] as bv32) | ((b[1] as bv32) << 8) | ((b[2] as bv32) << 16) | ((b[3] as bv32) << 24)
  }

  /** Reading back a written word gives the word. */
  lemma DecodeEncodeU32(w: bv32)
    ensures DecodeU32(EncodeU32(w)) == w
  {
  }

  /** Writing a read word gives back the four bytes it was read from: the encoding is a bijection. */
  lemma EncodeDecodeU32(b: seq<bv8>)
    requires |b| >= 4
    ensures EncodeU32(DecodeU32(b)) == b[..4]
  {
  }

  function EncodeWords(ws: seq<bv32>): (r: seq<bv8>)
    ensures |r| == 4 * |ws|
  {
    if ws == [] then [] else EncodeU32(ws[0]) + EncodeWords(ws[1..])
  }

  function DecodeWords(b: seq<bv8>, n: nat): (r: seq<bv32>)
    requires |b| >= 4 * n
    ensures |r| == n
  {
    if n == 0 then [] else [DecodeU32(b)] + DecodeWords(b[4..], n - 1)
  }

  lemma {:induction false} DecodeEncodeWords(ws: seq<bv32>, rest: seq<bv8>)
    ensures DecodeWords(EncodeWords(ws) + rest, |ws|) == ws
    decreases |ws|
  {
    if ws != [] {
      var b := EncodeWords(ws) + rest;
      assert b[..4] == EncodeU32(ws[0]);
      assert b[4..] == EncodeWords(ws[1..]) + rest;
      DecodeEncodeU32(ws[0]);
      DecodeEncodeWords(ws[1..], rest);
    }
  }

  // ---------------------------------------------------------------------
  // Fields

  function EncodeField(f: Field): seq<bv8>
  {
    match f
    case U8(byte) => [byte]
    case U32(word) => EncodeU32(word)
    case Flag(flag) => [if flag then 1 else 0]
    case Bytes(bytes) => bytes
    case Words(words) => EncodeWords(words)
  }

  /** Reads one field of the given kind; None when the stream is too short (the reader's error state). */
  function DecodeField(k: Kind, b: seq<bv8>): (r: Option<(Field, seq<bv8>)>)
    ensures r.Some? <==> |b| >= KindSize(k)
    ensures r.Some? ==> HasKind(r.value.0, k) && r.value.1 == b[KindSize(k)..]
  {
    if |b| < KindSize(k) then None
    else
      match k
      case KU8 => Some((U8(b[0]), b[1..]))
      case KU32 => Some((U32(DecodeU32(b)), b[4..]))
      case KFlag => Some((Flag(b[0] != 0), b[1..]))
      case KBytes(n) => Some((Bytes(b[..n]), b[n..]))
      case KWords(n) => Some((Words(DecodeWords(b, n)), b[4 * n..]))
  }

  lemma DecodeEncodeField(f: Field, k: Kind, rest: seq<bv8>)
    requires HasKind(f, k)
    ensures DecodeField(k, EncodeField(f) + rest) == Some((f, rest))
  {
    var b := EncodeField(f) + rest;
    match k
    case KU8 =>
      assert b[1..] == rest;
    case KU32 =>
      assert b[4..] == rest;
      assert b[..4] == EncodeU32(f.word);
      DecodeEncodeU32(f.word);
    case KFlag =>
      assert b[1..] == rest;
    case KBytes(n) =>
      assert b[..n] == f.bytes && b[n..] == rest;
    case KWords(n) =>
      assert b[4 * n..] == rest;
      DecodeEncodeWords(f.words, rest);
  }

  /** The writer: the fields' encodings one after another. */
  function Encode(fs: seq<Field>): seq<bv8>
  {
    if fs == [] then [] else EncodeField(fs[0]) + Encode(fs[1..])
  }

  /** The reader: the fields of a layout in order; None if the stream ends first. */
  function Decode(ks: seq<Kind>, b: seq<bv8>): (r: Option<(seq<Field>, seq<bv8>)>)
    ensures r.Some? ==> Conforms(r.value.0, ks)
    decreases |ks|
  {
    if ks == [] then Some(([], b))
    else
      match DecodeField(ks[0], b)
      case None => None
      case Some((f, b')) =>
        match Decode(ks[1..], b')
        case None => None
        case Some((fs, rest)) =>
          ConformsCons(f, fs, ks);
          Some(([f] + fs, rest))
  }

  lemma ConformsCons(f: Field, fs: seq<Field>, ks: seq<Kind>)
    requires ks != [] && HasKind(f, ks[0]) && Conforms(fs, ks[1..])
    ensures Conforms([f] + fs, ks)
  {
    forall i | 0 <= i < |fs| + 1
      ensures HasKind(([f] + fs)[i], ks[i])
    {
      if i > 0 {
        assert ([f] + fs)[i] == fs[i - 1];
        assert ks[i] == ks[1..][i - 1];
      }
    }
  }

  /** Reading succeeds exactly when the stream holds the whole layout, and leaves what follows it. */
  lemma {:induction false} DecodeLength(ks: seq<Kind>, b: seq<bv8>)
    ensures Decode(ks, b).Some? <==> |b| >= LayoutSize(ks)
    ensures Decode(ks, b).Some? ==> Decode(ks, b).value.1 == b[LayoutSize(ks)..]
    decreases |ks|
  {
    if ks != [] {
      if |b| >= KindSize(ks[0]) {
        var b' := b[KindSize(ks[0])..];
        DecodeLength(ks[1..], b');
        if |b'| >= LayoutSize(ks[1..]) {
          assert b'[LayoutSize(ks[1..])..] == b[LayoutSize(ks)..];
        }
      }
    }
  }

  lemma DecodeCons(ks: seq<Kind>, b: seq<bv8>, f: Field, b': seq<bv8>, fs: seq<Field>, rest: seq<bv8>)
    requires ks != [] && DecodeField(ks[0], b) == Some((f, b')) && Decode(ks[1..], b') == Some((fs, rest))
    ensures Decode(ks, b) == Some(([f] + fs, rest))
  {
  }

  lemma ConformsTail(fs: seq<Field>, ks: seq<Kind>)
    requires Conforms(fs, ks) && fs != []
    ensures HasKind(fs[0], ks[0]) && Conforms(fs[1..], ks[1..])
  {
    forall i | 0 <= i < |fs[1..]|
      ensures HasKind(fs[1..][i], ks[1..][i])
    {
      assert HasKind(fs[i + 1], ks[i + 1]);
    }
  }

  /** Fields written one group after another conform to the groups' layouts one after another. */
  lemma ConformsAppend(fs1: seq<Field>, ks1: seq<Kind>, fs2: seq<Field>, ks2: seq<Kind>)
    requires Conforms(fs1, ks1) && Conforms(fs2, ks2)
    ensures Conforms(fs1 + fs2, ks1 + ks2)
  {
  }

  /** Save then load: reading a layout back from what was written for conforming fields gives the same fields and leaves the rest of the stream. */
  lemma {:induction false} DecodeEncode(fs: seq<Field>, ks: seq<Kind>, rest: seq<bv8>)
    requires Conforms(fs, ks)
    ensures Decode(ks, Encode(fs) + rest) == Some((fs, rest))
    decreases |fs|
  {
    if fs != [] {
      var tail := Encode(fs[1..]) + rest;
      assert Encode(fs) + rest == EncodeField(fs[0]) + tail;
      ConformsTail(fs, ks);
      DecodeEncodeField(fs[0], ks[0], tail);
      DecodeEncode(fs[1..], ks[1..], rest);
      DecodeCons(ks, Encode(fs) + rest, fs[0], tail, fs[1..], rest);
      assert [fs[0]] + fs[1..] == fs;
    } else {
      assert ks == [];
      assert Encode(fs) + rest == rest;
    }
  }
}
