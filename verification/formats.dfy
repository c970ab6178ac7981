/**
 * The formats of the MessagePack specification as a relation between bytes and objects, every
 * format written out by its first byte. The decoder accepts exactly what the relation allows.
 */
module Formats {
  import opened Options
  import opened Bytes
  import opened Objects
  import opened Decoder
  import opened Limits

  // ---- tokens ----

  /** positive and negative fixint, uint 8 to 64, int 8 to 64. */
  ghost predicate SpellsInt(h: seq<byte>, i: int) {
    || (0 <= i < 0x80 && h == [i])
    || (-0x20 <= i < 0 && h == [0x100 + i])
    || SpellsUnsigned(h, i)
    || SpellsSigned(h, i)
  }

  ghost predicate SpellsUnsigned(h: seq<byte>, i: int) {
    || (0 <= i < 0x100 && h == [0xcc] + Be(i, 1))
    || (0 <= i < 0x1_0000 && h == [0xcd] + Be(i, 2))
    || (0 <= i < TWO_32 && h == [0xce] + Be(i, 4))
    || (0 <= i < TWO_64 && h == [0xcf] + Be(i, 8))
  }

  ghost predicate SpellsSigned(h: seq<byte>, i: int) {
    || (-0x80 <= i < 0x80 && h == [0xd0] + Be(i % 0x100, 1))
    || (-0x8000 <= i < 0x8000 && h == [0xd1] + Be(i % 0x1_0000, 2))
    || (-TWO_32 <= 2 * i < TWO_32 && h == [0xd2] + Be(i % TWO_32, 4))
    || (-TWO_64 <= 2 * i < TWO_64 && h == [0xd3] + Be(i % TWO_64, 8))
  }

  /** float 32, whose value is kept as a double, and float 64. */
  ghost predicate SpellsFloat(h: seq<byte>, bits: nat) {
    || (exists f: nat :: f < TWO_32 && h == [0xca] + Be(f, 4) && bits == Floats.Widen(f))
    || (bits < TWO_64 && h == [0xcb] + Be(bits, 8))
  }

  /** A length field of 1, 2 or 4 bytes, then the body. */
  ghost predicate SpellsLong(h: seq<byte>, first: int, len: nat, body: seq<byte>) {
    && 0 <= first <= 0xf0
    && (|| (len < 0x100 && h == [first] + Be(len, 1) + body)
        || (len < 0x1_0000 && h == [first + 1] + Be(len, 2) + body)
        || (len < TWO_32 && h == [first + 2] + Be(len, 4) + body))
  }

  /** fixext 1, 2, 4, 8 and 16; the body starts with the type. */
  ghost predicate SpellsFixExt(h: seq<byte>, body: seq<byte>) {
    || (|body| == 2 && h == [0xd4] + body)
    || (|body| == 3 && h == [0xd5] + body)
    || (|body| == 5 && h == [0xd6] + body)
    || (|body| == 9 && h == [0xd7] + body)
    || (|body| == 17 && h == [0xd8] + body)
  }

  ghost predicate SpellsBlob(h: seq<byte>, k: BlobKind, body: seq<byte>) {
    match k
    case StrBlob => (|body| < 0x20 && h == [0xa0 + |body|] + body) || SpellsLong(h, 0xd9, |body|, body)
    case BinBlob => SpellsLong(h, 0xc4, |body|, body)
    case ExtBlob => body != [] && (SpellsFixExt(h, body) || SpellsLong(h, 0xc7, |body| - 1, body))
  }

  /** fixmap, map 16 and 32, fixarray, array 16 and 32. */
  ghost predicate SpellsOpen(h: seq<byte>, isMap: bool, n: nat) {
    || (n < 0x10 && h == [(if isMap then 0x80 else 0x90) + n])
    || (n < 0x1_0000 && h == [if isMap then 0xde else 0xdc] + Be(n, 2))
    || (n < TWO_32 && h == [if isMap then 0xdf else 0xdd] + Be(n, 4))
  }

  /** h is one of the forms of token t. */
  ghost predicate Spells(h: seq<byte>, t: Token) {
    match t
    case Item(v) =>
      (match v
       case Nil => h == [0xc0]
       case Boolean(b) => h == [if b then 0xc3 else 0xc2]
       case PosInt(u) => SpellsInt(h, u)
       case NegInt(i) => i < 0 && SpellsInt(h, i)
       case Float(bits) => SpellsFloat(h, bits)
       case _ => false)
    case Blob(k, body) => SpellsBlob(h, k, body)
    case Open(isMap, n) => SpellsOpen(h, isMap, n)
  }

  // ---- every form is read as its token ----

  /** A field of w bytes after the first byte. */
  lemma FieldBytes(first: byte, n: nat, w: nat, s: seq<byte>)
    requires n < Pow256(w)
    ensures var b := [first] + Be(n, w) + s;
            |b| >= 1 + w && b[0] == first && b[1..1 + w] == Be(n, w) && FromBe(b[1..1 + w]) == n
  {
    LoadStore(n, w);
  }

  lemma ReadsUnsigned(h: seq<byte>, i: int, s: seq<byte>)
    requires SpellsUnsigned(h, i)
    ensures ReadHead(h + s) == Whole(Item(PosInt(i)), |h|)
  {
    hide Be, FromBe, Pow256;
    Pow256Values();
    var w := |h| - 1;
    FieldBytes(h[0], i, w, s);
    assert h == [h[0]] + Be(i, w);
  }

  lemma ReadsSigned(h: seq<byte>, i: int, s: seq<byte>)
    requires SpellsSigned(h, i)
    ensures ReadHead(h + s) == Whole(Item(if i >= 0 then PosInt(i) else NegInt(i)), |h|)
  {
    hide Be, FromBe, Pow256;
    Pow256Values();
    var w := |h| - 1;
    Residue(i, w);
    FieldBytes(h[0], i % Pow256(w), w, s);
    assert h == [h[0]] + Be(i % Pow256(w), w);
  }

  lemma Residue(i: int, w: nat)
    requires -Pow256(w) <= 2 * i < Pow256(w)
    ensures i % Pow256(w) == if i < 0 then i + Pow256(w) else i
  {
    hide Pow256;
    if i < 0 {
      assert (i + Pow256(w)) % Pow256(w) == i % Pow256(w);
    }
  }

  lemma ReadsFloat(h: seq<byte>, bits: nat, s: seq<byte>)
    requires SpellsFloat(h, bits)
    ensures ReadHead(h + s) == Whole(Item(Float(bits)), |h|)
  {
    hide Be, FromBe, Pow256, Floats.Widen;
    Pow256Values();
    if f: nat :| f < TWO_32 && h == [0xca] + Be(f, 4) && bits == Floats.Widen(f) {
      FieldBytes(0xca, f, 4, s);
    } else {
      FieldBytes(0xcb, bits, 8, s);
    }
  }

  lemma ReadsLong(h: seq<byte>, k: BlobKind, first: byte, len: nat, w: nat, body: seq<byte>, s: seq<byte>)
    requires len < Pow256(w) && |body| == len + (if k.ExtBlob? then 1 else 0)
    requires h == [first] + Be(len, w) + body
    ensures Prefixed(k, w, h + s) == Whole(Blob(k, body), |h|) && (h + s)[0] == first
  {
    hide Be, FromBe, Pow256;
    FieldBytes(first, len, w, body + s);
    assert h + s == [first] + Be(len, w) + (body + s);
    assert (h + s)[1 + w..1 + w + |body|] == body;
  }

  lemma ReadsPrefixed(h: seq<byte>, k: BlobKind, first: byte, len: nat, body: seq<byte>, s: seq<byte>)
    requires first == (match k case StrBlob => 0xd9 case BinBlob => 0xc4 case ExtBlob => 0xc7)
    requires |body| == len + (if k.ExtBlob? then 1 else 0) && SpellsLong(h, first, len, body)
    ensures ReadHead(h + s) == Whole(Blob(k, body), |h|)
  {
    hide Be, FromBe, Pow256, Prefixed;
    Pow256Values();
    var w := |h| - 1 - |body|;
    assert w == Width(h[0] - first);
    ReadsLong(h, k, h[0], len, w, body, s);
  }

  /** fixstr and fixext. */
  lemma ReadsShort(h: seq<byte>, k: BlobKind, body: seq<byte>, s: seq<byte>)
    requires |body| <= 0x20 && h != [] && h == [h[0]] + body && !k.BinBlob?
    requires if k.StrBlob? then |body| < 0x20 && h[0] == 0xa0 + |body| else SpellsFixExt(h, body)
    ensures ReadHead(h + s) == Whole(Blob(k, body), |h|)
  {
    hide Prefixed, Field;
    assert (h + s)[1..1 + |body|] == body;
  }

  lemma ReadsBlob(h: seq<byte>, k: BlobKind, body: seq<byte>, s: seq<byte>)
    requires SpellsBlob(h, k, body)
    ensures ReadHead(h + s) == Whole(Blob(k, body), |h|)
  {
    hide ReadHead, SpellsLong;
    match k {
      case StrBlob =>
        if SpellsLong(h, 0xd9, |body|, body) {
          ReadsPrefixed(h, k, 0xd9, |body|, body, s);
        } else {
          ReadsShort(h, k, body, s);
        }
      case BinBlob => ReadsPrefixed(h, k, 0xc4, |body|, body, s);
      case ExtBlob =>
        if SpellsLong(h, 0xc7, |body| - 1, body) {
          ReadsPrefixed(h, k, 0xc7, |body| - 1, body, s);
        } else {
          ReadsShort(h, k, body, s);
        }
    }
  }

  lemma ReadsOpen(h: seq<byte>, isMap: bool, n: nat, s: seq<byte>)
    requires SpellsOpen(h, isMap, n)
    ensures ReadHead(h + s) == Whole(Open(isMap, n), |h|)
  {
    hide Be, FromBe, Pow256;
    Pow256Values();
    if |h| > 1 {
      FieldBytes(h[0], n, |h| - 1, s);
      assert h == [h[0]] + Be(n, |h| - 1);
    }
  }

  lemma ReadsSpelled(h: seq<byte>, t: Token, s: seq<byte>)
    requires Spells(h, t)
    ensures ReadHead(h + s) == Whole(t, |h|)
  {
    hide ReadHead, SpellsUnsigned, SpellsSigned, SpellsFloat, SpellsBlob, SpellsOpen;
    match t {
      case Blob(k, body) => ReadsBlob(h, k, body, s);
      case Open(isMap, n) => ReadsOpen(h, isMap, n, s);
      case Item(v) =>
        if v.Float? {
          ReadsFloat(h, v.bits, s);
        } else if (v.PosInt? && SpellsUnsigned(h, v.u)) || (v.NegInt? && SpellsUnsigned(h, v.i)) {
          ReadsUnsigned(h, if v.PosInt? then v.u else v.i, s);
          NotNegative(h, if v.PosInt? then v.u else v.i);
        } else if (v.PosInt? && SpellsSigned(h, v.u)) || (v.NegInt? && SpellsSigned(h, v.i)) {
          ReadsSigned(h, if v.PosInt? then v.u else v.i, s);
        } else {
          ReadsByte(h, v, s);
        }
    }
  }

  lemma NotNegative(h: seq<byte>, i: int)
    requires SpellsUnsigned(h, i)
    ensures i >= 0
  {
  }

  /** The tokens of one byte. */
  lemma ReadsByte(h: seq<byte>, v: Object, s: seq<byte>)
    requires Spells(h, Item(v)) && |h| == 1
    ensures ReadHead(h + s) == Whole(Item(v), |h|)
  {
    hide Be;
  }

  // ---- every token read is spelled that way ----

  lemma FieldLoaded(b: seq<byte>, w: nat)
    requires |b| >= 1 + w
    ensures b[..1 + w] == [b[0]] + Be(FromBe(b[1..1 + w]), w)
    ensures FromBe(b[1..1 + w]) < Pow256(w)
  {
    StoreLoad(b[1..1 + w]);
  }

  lemma SpelledUnsigned(b: seq<byte>)
    requires b != [] && 0xcc <= b[0] <= 0xcf && ReadHead(b).Whole?
    ensures Spells(b[..ReadHead(b).n], ReadHead(b).tok)
  {
    hide Be, FromBe, Pow256, Body, Prefixed, SpellsSigned;
    Pow256Values();
    FieldLoaded(b, Width(b[0] - 0xcc));
  }

  lemma SpelledSigned(b: seq<byte>)
    requires b != [] && 0xd0 <= b[0] <= 0xd3 && ReadHead(b).Whole?
    ensures Spells(b[..ReadHead(b).n], ReadHead(b).tok)
  {
    hide Be, FromBe, Pow256, Body, Prefixed, SpellsUnsigned;
    Pow256Values();
    var w := Width(b[0] - 0xd0);
    FieldLoaded(b, w);
    Residue(FromBeSigned(b[1..1 + w]), w);
  }

  lemma SpelledFloat(b: seq<byte>)
    requires b != [] && 0xca <= b[0] <= 0xcb && ReadHead(b).Whole?
    ensures Spells(b[..ReadHead(b).n], ReadHead(b).tok)
  {
    hide Be, FromBe, Pow256, Floats.Widen;
    Pow256Values();
    FieldLoaded(b, if b[0] == 0xca then 4 else 8);
  }

  lemma SpelledSize(b: seq<byte>)
    requires b != [] && 0xdc <= b[0] <= 0xdf && ReadHead(b).Whole?
    ensures Spells(b[..ReadHead(b).n], ReadHead(b).tok)
  {
    hide Be, FromBe, Pow256;
    Pow256Values();
    FieldLoaded(b, if b[0] == 0xdc || b[0] == 0xde then 2 else 4);
  }

  /** A length field of w bytes and the body it announces. */
  lemma SpelledLong(k: BlobKind, w: nat, b: seq<byte>, first: int)
    requires b != [] && Prefixed(k, w, b).Whole?
    requires 0 <= first <= 0xf0
    requires (w == 1 && b[0] == first) || (w == 2 && b[0] == first + 1) || (w == 4 && b[0] == first + 2)
    ensures var r := Prefixed(k, w, b);
            && r.tok.Blob? && r.tok.kind == k && (k.ExtBlob? ==> r.tok.bs != [])
            && SpellsLong(b[..r.n], first, if k.ExtBlob? then |r.tok.bs| - 1 else |r.tok.bs|, r.tok.bs)
  {
    hide Be, FromBe, Pow256;
    Pow256Values();
    FieldLoaded(b, w);
    var r := Prefixed(k, w, b);
    assert b[..r.n] == b[..1 + w] + r.tok.bs;
  }

  lemma SpelledBlob(b: seq<byte>)
    requires b != [] && ReadHead(b).Whole? && ReadHead(b).tok.Blob?
    ensures Spells(b[..ReadHead(b).n], ReadHead(b).tok)
  {
    hide Be, FromBe, Pow256, Prefixed, SpellsLong;
    var h := b[0];
    if 0xc4 <= h <= 0xc6 {
      SpelledLong(BinBlob, Width(h - 0xc4), b, 0xc4);
    } else if 0xc7 <= h <= 0xc9 {
      SpelledLong(ExtBlob, Width(h - 0xc7), b, 0xc7);
    } else if 0xd9 <= h <= 0xdb {
      SpelledLong(StrBlob, Width(h - 0xd9), b, 0xd9);
    } else {
      var r := ReadHead(b);
      assert b[..r.n] == [h] + r.tok.bs;
    }
  }

  lemma SpelledByte(b: seq<byte>)
    requires b != [] && ReadHead(b).Whole? && !(0xa0 <= b[0] <= 0xbf)
    requires !(0xc1 <= b[0] <= 0xdf) || b[0] == 0xc2 || b[0] == 0xc3
    ensures Spells(b[..ReadHead(b).n], ReadHead(b).tok)
  {
    assert b[..1] == [b[0]];
  }

  lemma SpelledRead(b: seq<byte>)
    requires ReadHead(b).Whole?
    ensures Spells(b[..ReadHead(b).n], ReadHead(b).tok)
  {
    hide Spells, Field, Prefixed, Body;
    var h := b[0];
    if 0xcc <= h <= 0xcf {
      SpelledUnsigned(b);
    } else if 0xd0 <= h <= 0xd3 {
      SpelledSigned(b);
    } else if 0xca <= h <= 0xcb {
      SpelledFloat(b);
    } else if 0xdc <= h <= 0xdf {
      SpelledSize(b);
    } else if (0xa0 <= h <= 0xbf) || (0xc4 <= h <= 0xc9) || (0xd4 <= h <= 0xdb) {
      BlobRead(b);
      SpelledBlob(b);
    } else {
      SpelledByte(b);
    }
  }

  lemma BlobRead(b: seq<byte>)
    requires ReadHead(b).Whole? && ((0xa0 <= b[0] <= 0xbf) || (0xc4 <= b[0] <= 0xc9) || (0xd4 <= b[0] <= 0xdb))
    ensures ReadHead(b).tok.Blob?
  {
  }

  /** The format table: a token is read from the first n bytes exactly if they are one of its forms. */
  lemma HeadIff(b: seq<byte>, t: Token, n: nat)
    ensures ReadHead(b) == Whole(t, n) <==> n <= |b| && Spells(b[..n], t)
    ensures ReadHead(b) == Bad <==> b != [] && b[0] == 0xc1
  {
    hide Spells, Field, Prefixed, Body;
    if n <= |b| && Spells(b[..n], t) {
      ReadsSpelled(b[..n], t, b[n..]);
      assert b[..n] + b[n..] == b;
    }
    if ReadHead(b) == Whole(t, n) {
      SpelledRead(b);
    }
    OnlyBad(b);
  }

  /**
   * What is complete when the input ends inside a token: nothing, the first byte, or the first byte
   * and the length field of a string, binary or extension.
   */
  lemma ShortAt(b: seq<byte>, n: nat)
    requires ReadHead(b) == Short(n)
    ensures if b == [] then n == 0
            else
              || n == 1
              || ((0xc4 <= b[0] <= 0xc9 || 0xd9 <= b[0] <= 0xdb) && n <= |b|
                  && n == 1 + (if b[0] in {0xc4, 0xc7, 0xd9} then 1 else if b[0] in {0xc5, 0xc8, 0xda} then 2 else 4))
  {
    hide FromBe, ReadField;
  }

  lemma OnlyBad(b: seq<byte>)
    ensures ReadHead(b) == Bad <==> b != [] && b[0] == 0xc1
  {
  }

  // ---- objects ----

  /** b is an encoding of v, each part in any of its forms. */
  ghost predicate Encodes(b: seq<byte>, v: Object)
    decreases |b|, 0, 0
  {
    match v
    case Str(data) => SpellsBlob(b, StrBlob, data)
    case Bin(data) => SpellsBlob(b, BinBlob, data)
    case Ext(kind, data) => SpellsBlob(b, ExtBlob, [kind] + data)
    case Array(items) => exists k :: 1 <= k <= |b| && SpellsOpen(b[..k], false, |items|) && EncodesItems(b[k..], items)
    case Map(pairs) =>
      exists k :: 1 <= k <= |b| && SpellsOpen(b[..k], true, |pairs|) && EncodesItems(b[k..], Flatten(pairs))
    case _ => Spells(b, Item(v))
  }

  ghost predicate EncodesItems(b: seq<byte>, vs: seq<Object>)
    decreases |b|, 1, |vs|
  {
    if vs == [] then b == []
    else exists k :: 0 <= k <= |b| && Encodes(b[..k], vs[0]) && EncodesItems(b[k..], vs[1..])
  }

  /** What decoding promises, from the verdict on the limits. */
  ghost predicate Returns(d: Decoded, verdict: Option<Overflow>, v: Object, n: nat) {
    match verdict
    case None => d == Value(v, n)
    case Some(what) => d == Overflowed(what)
  }

  ghost predicate ReturnsItems(d: DecodedItems, verdict: Option<Overflow>, vs: seq<Object>, n: nat) {
    match verdict
    case None => d == Values(vs, n)
    case Some(what) => d == NoValues(Overflowed(what))
  }

  lemma DecodeItem(c: Config, b: seq<byte>, depth: nat, v: Object, n: nat)
    requires ReadHead(b) == Whole(Item(v), n)
    ensures Decode(c, b, depth) == Value(v, n)
  {
    hide ReadHead;
  }

  lemma DecodeBlob(c: Config, b: seq<byte>, depth: nat, k: BlobKind, bs: seq<byte>, n: nat)
    requires ReadHead(b) == Whole(Blob(k, bs), n) && (k.ExtBlob? ==> bs != [])
    ensures Returns(Decode(c, b, depth), BlobVerdict(c, k, |bs|), MakeBlob(k, bs), n)
  {
    hide ReadHead;
  }

  lemma DecodeOpen(c: Config, h: seq<byte>, body: seq<byte>, depth: nat, isMap: bool, size: nat,
                   verdict: Option<Overflow>, vs: seq<Object>, n: nat)
    requires ReadHead(h + body) == Whole(Open(isMap, size), |h|)
    requires ReturnsItems(DecodeItems(c, body, if isMap then 2 * size else size, depth + 1), verdict, vs, n)
    requires isMap ==> |vs| % 2 == 0
    ensures Returns(Decode(c, h + body, depth), First(OpenVerdict(c, isMap, size, depth), verdict),
                    MakeContainer(isMap, vs), |h| + n)
  {
    hide ReadHead, DecodeItems;
    assert (h + body)[|h|..] == body;
  }

  lemma DecodeFirst(c: Config, first: seq<byte>, rest: seq<byte>, depth: nat, vs: seq<Object>, n: nat)
    requires vs != [] && Returns(Decode(c, first + rest, depth), Verdict(c, vs[0], depth), vs[0], |first|)
    requires ReturnsItems(DecodeItems(c, rest, |vs| - 1, depth), ItemsVerdict(c, vs[1..], depth), vs[1..], n)
    ensures ReturnsItems(DecodeItems(c, first + rest, |vs|, depth), ItemsVerdict(c, vs, depth), vs, |first| + n)
  {
    hide Decode, Verdict;
    assert (first + rest)[|first|..] == rest;
    assert [vs[0]] + vs[1..] == vs;
  }

  /** Every encoding of v, whatever follows it, decodes to v, or to the first limit that v breaks. */
  lemma {:induction false} EncodedDecodes(c: Config, e: seq<byte>, v: Object, depth: nat, s: seq<byte>)
    requires Encodes(e, v)
    ensures Returns(Decode(c, e + s, depth), Verdict(c, v, depth), v, |e|)
    decreases |e|, 0, 0
  {
    hide Decode, ReadHead, SpellsBlob, SpellsOpen, BlobVerdict, OpenVerdict, DecodeItems, ItemsVerdict, PairsVerdict;
    match v {
      case Str(data) => ReadsBlob(e, StrBlob, data, s); DecodeBlob(c, e + s, depth, StrBlob, data, |e|);
      case Bin(data) => ReadsBlob(e, BinBlob, data, s); DecodeBlob(c, e + s, depth, BinBlob, data, |e|);
      case Ext(kind, data) =>
        ReadsBlob(e, ExtBlob, [kind] + data, s);
        DecodeBlob(c, e + s, depth, ExtBlob, [kind] + data, |e|);
      case Array(items) =>
        var k :| 1 <= k <= |e| && SpellsOpen(e[..k], false, |items|) && EncodesItems(e[k..], items);
        EncodedItems(c, e[k..], items, depth + 1, s);
        EncodedOpen(c, e, k, s, depth, false, |items|, items);
      case Map(pairs) =>
        var k :| 1 <= k <= |e| && SpellsOpen(e[..k], true, |pairs|) && EncodesItems(e[k..], Flatten(pairs));
        EncodedItems(c, e[k..], Flatten(pairs), depth + 1, s);
        EncodedOpen(c, e, k, s, depth, true, |pairs|, Flatten(pairs));
        PairUpFlatten(pairs);
        FlatVerdict(c, pairs, depth + 1);
      case _ => ReadsSpelled(e, Item(v), s); DecodeItem(c, e + s, depth, v, |e|);
    }
  }

  lemma EncodedOpen(c: Config, e: seq<byte>, k: nat, s: seq<byte>, depth: nat, isMap: bool, size: nat,
                    vs: seq<Object>)
    requires k <= |e| && SpellsOpen(e[..k], isMap, size) && |vs| == if isMap then 2 * size else size
    requires ReturnsItems(DecodeItems(c, e[k..] + s, |vs|, depth + 1), ItemsVerdict(c, vs, depth + 1), vs, |e| - k)
    ensures Returns(Decode(c, e + s, depth), First(OpenVerdict(c, isMap, size, depth), ItemsVerdict(c, vs, depth + 1)),
                    MakeContainer(isMap, vs), |e|)
  {
    hide Decode, ReadHead, SpellsOpen, OpenVerdict, DecodeItems, ItemsVerdict, PairUp;
    assert e[..k] + (e[k..] + s) == e + s;
    ReadsOpen(e[..k], isMap, size, e[k..] + s);
    DecodeOpen(c, e[..k], e[k..] + s, depth, isMap, size, ItemsVerdict(c, vs, depth + 1), vs, |e| - k);
  }

  lemma NoneDecoded(c: Config, b: seq<byte>, depth: nat)
    ensures DecodeItems(c, b, 0, depth) == Values([], 0) && ItemsVerdict(c, [], depth) == None
  {
  }

  lemma {:induction false} EncodedItems(c: Config, e: seq<byte>, vs: seq<Object>, depth: nat, s: seq<byte>)
    requires EncodesItems(e, vs)
    ensures ReturnsItems(DecodeItems(c, e + s, |vs|, depth), ItemsVerdict(c, vs, depth), vs, |e|)
    decreases |e|, 1, |vs|
  {
    hide Decode, Encodes, Verdict, DecodeItems, ItemsVerdict;
    if vs == [] {
      NoneDecoded(c, e + s, depth);
    } else {
      var k :| 0 <= k <= |e| && Encodes(e[..k], vs[0]) && EncodesItems(e[k..], vs[1..]);
      EncodedDecodes(c, e[..k], vs[0], depth, e[k..] + s);
      EncodedItems(c, e[k..], vs[1..], depth, s);
      DecodeFirst(c, e[..k], e[k..] + s, depth, vs, |e| - k);
      assert e[..k] + (e[k..] + s) == e + s;
    }
  }

  /** What decodes is an encoding of its value. */
  lemma {:induction false} DecodedEncodes(c: Config, b: seq<byte>, depth: nat)
    requires Decode(c, b, depth).Value?
    ensures Encodes(b[..Decode(c, b, depth).n], Decode(c, b, depth).v)
    decreases |b|, 0
  {
    hide ReadHead, BlobVerdict, OpenVerdict, DecodeItems, Spells, SpellsBlob, SpellsOpen, PairUp, EncodesItems;
    var r, d := ReadHead(b), Decode(c, b, depth);
    SpelledRead(b);
    match r.tok {
      case Item(v) => ItemEncodes(b[..r.n], v);
      case Blob(k, bs) => BlobEncodes(b[..r.n], k, bs);
      case Open(isMap, size) =>
        DecodedItemsEncode(c, b[r.n..], if isMap then 2 * size else size, depth + 1);
        OpenEncodes(b, r.n, isMap, size, DecodeItems(c, b[r.n..], if isMap then 2 * size else size, depth + 1), d.n);
    }
  }

  lemma ItemEncodes(h: seq<byte>, v: Object)
    requires Spells(h, Item(v))
    ensures Encodes(h, v)
  {
  }

  lemma BlobEncodes(h: seq<byte>, k: BlobKind, bs: seq<byte>)
    requires Spells(h, Blob(k, bs)) && (k.ExtBlob? ==> bs != [])
    ensures Encodes(h, MakeBlob(k, bs))
  {
    hide SpellsBlob;
    if k.ExtBlob? {
      assert [bs[0]] + bs[1..] == bs;
    }
  }

  lemma OpenEncodes(b: seq<byte>, k: nat, isMap: bool, size: nat, items: DecodedItems, n: nat)
    requires 1 <= k <= n <= |b| && items.Values? && n == k + items.n
    requires |items.vs| == (if isMap then 2 * size else size)
    requires Spells(b[..k], Open(isMap, size)) && EncodesItems(b[k..][..items.n], items.vs)
    ensures Encodes(b[..n], MakeContainer(isMap, items.vs))
  {
    hide SpellsOpen, EncodesItems, PairUp, Flatten;
    assert b[..n][..k] == b[..k] && b[..n][k..] == b[k..][..items.n];
    if isMap {
      FlattenPairUp(items.vs);
    }
  }

  lemma {:induction false} FlattenPairUp(vs: seq<Object>)
    requires |vs| % 2 == 0
    ensures Flatten(PairUp(vs)) == vs
  {
    if vs != [] {
      FlattenPairUp(vs[2..]);
      assert PairUp(vs)[1..] == PairUp(vs[2..]);
    }
  }

  lemma {:induction false} DecodedItemsEncode(c: Config, b: seq<byte>, k: nat, depth: nat)
    requires DecodeItems(c, b, k, depth).Values?
    ensures EncodesItems(b[..DecodeItems(c, b, k, depth).n], DecodeItems(c, b, k, depth).vs)
    decreases |b|, 1
  {
    hide Decode, Encodes;
    if k > 0 {
      var d, r := Decode(c, b, depth), DecodeItems(c, b, k, depth);
      DecodedEncodes(c, b, depth);
      DecodedItemsEncode(c, b[d.n..], k - 1, depth);
      assert b[..r.n][..d.n] == b[..d.n] && b[..r.n][d.n..] == b[d.n..][..r.n - d.n];
      assert r.vs[1..] == DecodeItems(c, b[d.n..], k - 1, depth).vs;
    }
  }

  /**
   * The decoder accepts exactly the language of the formats within the limits: it returns v from
   * the first n bytes if and only if they are an encoding of v and v fits.
   */
  lemma DecodeIff(c: Config, b: seq<byte>, depth: nat, v: Object, n: nat)
    ensures Decode(c, b, depth) == Value(v, n) <==> n <= |b| && Encodes(b[..n], v) && Fits(c, v, depth)
  {
    hide Decode, Encodes, Verdict, Fits;
    VerdictIff(c, v, depth);
    if Decode(c, b, depth) == Value(v, n) {
      DecodedEncodes(c, b, depth);
    }
    if n <= |b| && Encodes(b[..n], v) {
      EncodedDecodes(c, b[..n], v, depth, b[n..]);
      assert b[..n] + b[n..] == b;
    }
  }

  /**
   * An encoding of an object that does not fit is refused with a limit that the object breaks, its own
   * size before anything else.
   */
  lemma RefusedIff(c: Config, e: seq<byte>, v: Object, depth: nat, s: seq<byte>)
    requires Encodes(e, v)
    ensures var d := Decode(c, e + s, depth);
            && (d.Overflowed? <==> !Fits(c, v, depth))
            && (d.Overflowed? ==> Breaks(c, v, depth, d.what))
            && (forall x | Over(c, v, x) :: d == Overflowed(x))
  {
    hide Decode, Encodes, Verdict, Fits, Breaks, Over;
    VerdictIff(c, v, depth);
    EncodedDecodes(c, e, v, depth, s);
  }

  /** A parse error is the byte 0xc1 where a first byte is expected. */
  lemma {:induction false} ParseErrorAt(c: Config, b: seq<byte>, depth: nat)
    requires Decode(c, b, depth).ParseError?
    ensures Decode(c, b, depth).n < |b| && b[Decode(c, b, depth).n] == 0xc1
    decreases |b|, 0
  {
    hide ReadHead, BlobVerdict, OpenVerdict, DecodeItems, PairUp;
    var r := ReadHead(b);
    OnlyBad(b);
    if r.Whole? {
      ItemsErrorAt(c, b[r.n..], if r.tok.isMap then 2 * r.tok.size else r.tok.size, depth + 1);
    }
  }

  lemma {:induction false} ItemsErrorAt(c: Config, b: seq<byte>, k: nat, depth: nat)
    requires DecodeItems(c, b, k, depth).NoValues? && DecodeItems(c, b, k, depth).why.ParseError?
    ensures var n := DecodeItems(c, b, k, depth).why.n; n < |b| && b[n] == 0xc1
    decreases |b|, 1
  {
    hide Decode;
    var d := Decode(c, b, depth);
    if d.Value? {
      ItemsErrorAt(c, b[d.n..], k - 1, depth);
    } else {
      ParseErrorAt(c, b, depth);
    }
  }
}
