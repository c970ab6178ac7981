/** The MessagePack object model (object_fwd.hpp) and the float32 widening of unpack_float. */
module Objects {
  import opened Bytes

  datatype KV = KV(key: Object, val: Object)

  /** msgpack::object. An EXT object keeps its type byte as the raw byte; floats are bit patterns. */
  datatype Object =
    | Nil
    | Boolean(b: bool)
    | PosInt(u: nat)
    | NegInt(i: int)
    | Float(bits: nat)
    | Str(data: seq<byte>)
    | Bin(data: seq<byte>)
    | Ext(kind: byte, data: seq<byte>)
    | Array(items: seq<Object>)
    | Map(pairs: seq<KV>)

  datatype BlobKind = StrBlob | BinBlob | ExtBlob

  /** What unpack_str, unpack_bin and unpack_ext build; the bytes of an EXT start with its type. */
  function MakeBlob(k: BlobKind, bs: seq<byte>): Object
    requires k.ExtBlob? ==> bs != []
  {
    match k
    case StrBlob => Str(bs)
    case BinBlob => Bin(bs)
    case ExtBlob => Ext(bs[0], bs[1..])
  }

  /** unpack_int8 .. unpack_int64: the sign decides the object type. */
  function IntObject(i: int): Object {
    if i >= 0 then PosInt(i) else NegInt(i)
  }

  /** The values the C++ struct can hold: 32-bit sizes, 64-bit integers and floats. */
  ghost predicate Representable(v: Object) {
    match v
    case Nil => true
    case Boolean(_) => true
    case PosInt(u) => 0 <= u < TWO_64
    case NegInt(i) => -TWO_64 <= 2 * i < TWO_64
    case Float(bits) => bits < TWO_64
    case Str(data) => |data| < TWO_32
    case Bin(data) => |data| < TWO_32
    case Ext(_, data) => |data| < TWO_32
    case Array(items) => |items| < TWO_32 && forall x | x in items :: Representable(x)
    case Map(pairs) => |pairs| < TWO_32 && forall p | p in pairs :: Representable(p.key) && Representable(p.val)
  }

  /** The elements of a map in wire order: key, value, key, value, .. */
  function Flatten(pairs: seq<KV>): (vs: seq<Object>)
    ensures |vs| == 2 * |pairs|
  {
    if pairs == [] then [] else [pairs[0].key, pairs[0].val] + Flatten(pairs[1..])
  }

  function PairUp(vs: seq<Object>): (pairs: seq<KV>)
    requires |vs| % 2 == 0
    ensures 2 * |pairs| == |vs|
  {
    if vs == [] then [] else [KV(vs[0], vs[1])] + PairUp(vs[2..])
  }

  lemma {:induction false} PairUpFlatten(pairs: seq<KV>)
    ensures PairUp(Flatten(pairs)) == pairs
  {
    if pairs != [] {
      PairUpFlatten(pairs[1..]);
      assert Flatten(pairs)[2..] == Flatten(pairs[1..]);
    }
  }
}

/** float to double: o.via.f64 = d in unpack_float, on IEEE 754 bit patterns. */
module Floats {

  function Pow2(k: nat): (p: nat)
    ensures p >= 1
  {
    if k == 0 then 1 else 2 * Pow2(k - 1)
  }

  const M23: nat := 0x80_0000
  const M52: nat := 0x10_0000_0000_0000
  const M29: nat := 0x2000_0000
  const M63: nat := 0x8000_0000_0000_0000
  const TWO_31: nat := 0x8000_0000

  function Exponent32(f: nat): nat { f / M23 % 256 }

  function Mantissa32(f: nat): nat { f % M23 }

  function Exponent64(d: nat): nat { d / M52 % 2048 }

  function Mantissa64(d: nat): nat { d % M52 }

  /** Shift the mantissa of a subnormal up to the hidden bit, at most `fuel` places. */
  function Normalize(m: nat, fuel: nat): (r: (nat, nat))
    requires 0 < m < M23 <= m * Pow2(fuel)
    ensures M23 <= r.0 < 2 * M23
    ensures r.1 <= fuel && r.0 == m * Pow2(r.1)
    decreases fuel
  {
    if 2 * m >= M23 then assert Pow2(1) == 2; (2 * m, 1)
    else
      assert m * Pow2(fuel) == 2 * m * Pow2(fuel - 1);
      var r := Normalize(2 * m, fuel - 1);
      (r.0, r.1 + 1)
  }

  /** The exponent and mantissa fields of the double: subnormals become normal, NaNs quiet. */
  function WideFields(e: nat, m: nat): (r: (nat, nat))
    requires e < 256 && m < M23
    ensures r.0 < 2048 && r.1 < M52
  {
    if e == 255 then (2047, if m == 0 then 0 else m % (M23 / 2) * M29 + M52 / 2)
    else if e != 0 then (e + 896, m * M29)
    else if m == 0 then (0, 0)
    else
      Powers();
      var r := Normalize(m, 23);
      (897 - r.1, (r.0 - M23) * M29)
  }

  /** The double-precision pattern of the single-precision pattern f. */
  function Widen(f: nat): (d: nat)
    requires f < 2 * TWO_31
    ensures d < 2 * M63
  {
    var r := WideFields(Exponent32(f), Mantissa32(f));
    assert f / TWO_31 == 0 || f / TWO_31 == 1;
    f / TWO_31 * M63 + r.0 * M52 + r.1
  }

  /**
   * A finite pattern with fields e and m stands for (-1)^sign * Significand * 2^Scale: the hidden
   * bit is 2^23 or 2^52, and the smallest scale -149 or -1074.
   */
  ghost function Significand(e: nat, m: nat, hidden: nat): nat {
    if e == 0 then m else hidden + m
  }

  ghost function Scale(e: nat, smallest: int): int {
    if e == 0 then smallest else smallest + e - 1
  }

  lemma Powers()
    ensures Pow2(23) == M23 && Pow2(29) == M29 && Pow2(52) == M52
  {
    assert Pow2(23) == M23 by { assert Pow2(16) == 65536 by { assert Pow2(8) == 256; } }
    Pow2Add(23, 6);
    Pow2Add(23, 29);
  }

  lemma {:induction false} Pow2Add(a: nat, b: nat)
    ensures Pow2(a + b) == Pow2(a) * Pow2(b)
  {
    if b > 0 {
      Pow2Add(a, b - 1);
    }
  }

  lemma FieldsOf(sign: nat, e: nat, m: nat)
    requires sign < 2 && e < 2048 && m < M52
    ensures Exponent64(sign * M63 + e * M52 + m) == e
    ensures Mantissa64(sign * M63 + e * M52 + m) == m
    ensures (sign * M63 + e * M52 + m) / M63 == sign
  {
  }

  /** s * 2^scale == s' * 2^scale', with no loss of digits. */
  ghost predicate SameValue(s: nat, scale: int, s': nat, scale': int) {
    if s == 0 then s' == 0 else scale' <= scale && s' == s * Pow2(scale - scale')
  }

  lemma ScaledUp(s: nat, scale: int, k: nat, s': nat)
    requires s' == s * Pow2(k) && s > 0
    ensures SameValue(s, scale, s', scale - k)
  {
    hide Pow2;
  }

  lemma ShiftedUp(s: nat, k: nat)
    ensures s * Pow2(k) * M29 == s * Pow2(k + 29)
  {
    Powers();
    Pow2Add(k, 29);
    hide Pow2;
    assert s * Pow2(k) * M29 == s * (Pow2(k) * M29);
  }

  lemma ExactFields(e: nat, m: nat)
    requires e < 255 && m < M23
    ensures var r := WideFields(e, m);
            SameValue(Significand(e, m, M23), Scale(e, -149), Significand(r.0, r.1, M52), Scale(r.0, -1074))
  {
    Powers();
    if e != 0 {
      ShiftedUp(M23 + m, 0);
      ScaledUp(M23 + m, e - 150, 29, (M23 + m) * M29);
    } else if m != 0 {
      var r := Normalize(m, 23);
      ShiftedUp(m, r.1);
      ScaledUp(m, -149, r.1 + 29, r.0 * M29);
    }
    hide Pow2, Normalize, SameValue;
  }

  /** Widening is exact: every finite single becomes the double of the same value and sign. */
  lemma WidenIsExact(f: nat)
    requires f < 2 * TWO_31 && Exponent32(f) != 255
    ensures Widen(f) / M63 == f / TWO_31
    ensures var e, m, e', m' := Exponent32(f), Mantissa32(f), Exponent64(Widen(f)), Mantissa64(Widen(f));
            SameValue(Significand(e, m, M23), Scale(e, -149), Significand(e', m', M52), Scale(e', -1074))
  {
    var r := WideFields(Exponent32(f), Mantissa32(f));
    FieldsOf(f / TWO_31, r.0, r.1);
    ExactFields(Exponent32(f), Mantissa32(f));
    hide SameValue, WideFields;
  }

  /** Infinities stay infinities, and NaNs become quiet NaNs with the same sign and payload. */
  lemma WidenSpecial(f: nat)
    requires f < 2 * TWO_31 && Exponent32(f) == 255
    ensures Widen(f) / M63 == f / TWO_31 && Exponent64(Widen(f)) == 2047
    ensures var m, m' := Mantissa32(f), Mantissa64(Widen(f));
            if m == 0 then m' == 0 else m' == m * M29 || (m < M23 / 2 && m' == m * M29 + M52 / 2)
    ensures Mantissa32(f) != 0 ==> Mantissa64(Widen(f)) >= M52 / 2
  {
    var r := WideFields(Exponent32(f), Mantissa32(f));
    FieldsOf(f / TWO_31, r.0, r.1);
  }
}
