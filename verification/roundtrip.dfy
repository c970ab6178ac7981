/** Unpacking inverts packing, on arbitrarily nested objects. */
module RoundTrips {
  import opened Bytes
  import opened Objects
  import opened Decoder
  import opened Limits
  import opened Formats
  import opened Packing
  import opened Machine
  import Refinement

  // ---- what comes back ----

  /** The object that comes back: a NEGATIVE_INTEGER holding a number >= 0 turns POSITIVE. */
  ghost function Normal(v: Object): Object
    decreases v
  {
    match v
    case NegInt(i) => IntObject(i)
    case Array(items) => Array(NormalItems(items))
    case Map(pairs) => Map(NormalPairs(pairs))
    case _ => v
  }

  ghost function NormalItems(vs: seq<Object>): (ns: seq<Object>)
    ensures |ns| == |vs|
    decreases vs
  {
    if vs == [] then [] else [Normal(vs[0])] + NormalItems(vs[1..])
  }

  ghost function NormalPairs(ps: seq<KV>): (ns: seq<KV>)
    ensures |ns| == |ps|
    decreases ps
  {
    if ps == [] then [] else [NormalKV(ps[0])] + NormalPairs(ps[1..])
  }

  ghost function NormalKV(p: KV): KV
    decreases p
  {
    KV(Normal(p.key), Normal(p.val))
  }

  /** Every NEGATIVE_INTEGER in v is negative. */
  ghost predicate Canonical(v: Object)
    decreases v
  {
    match v
    case NegInt(i) => i < 0
    case Array(items) => forall x | x in items :: Canonical(x)
    case Map(pairs) => forall p | p in pairs :: Canonical(p.key) && Canonical(p.val)
    case _ => true
  }

  // ---- packed bytes are an encoding ----

  lemma ByteIsBe(n: nat)
    requires n < 0x100
    ensures Be(n, 1) == [n]
  {
    assert Be(n / 256, 0) == [];
  }

  lemma IntSpelled(i: int)
    requires -TWO_64 <= 2 * i && i < TWO_64
    ensures SpellsInt(IntBytes(i), i)
  {
    hide Be;
    ByteIsBe(i % 0x100);
    if -0x80 <= i < -0x20 {
      assert [0xd0, 0x100 + i] == [0xd0] + Be(i % 0x100, 1);
    } else if 0x80 <= i < 0x100 {
      assert [0xcc, i] == [0xcc] + Be(i, 1);
    }
  }

  /** The canonical integer encoding, whatever follows it, is read as that integer and nothing more. */
  lemma ReadInt(i: int, s: seq<byte>)
    requires -TWO_64 <= 2 * i && i < TWO_64
    ensures ReadHead(IntBytes(i) + s) == Whole(Item(IntObject(i)), |IntBytes(i)|)
  {
    hide IntBytes, SpellsInt, ReadHead;
    IntSpelled(i);
    ReadsSpelled(IntBytes(i), Item(IntObject(i)), s);
  }

  /** Numbers that are not negative are written in the unsigned formats, negative ones in the signed. */
  lemma IntFamily(i: int)
    requires -TWO_64 <= 2 * i && i < TWO_64
    ensures var first := IntBytes(i)[0];
            if i >= 0 then first < 0x80 || 0xcc <= first <= 0xcf else first >= 0xe0 || 0xd0 <= first <= 0xd3
  {
  }

  lemma StrSpelled(data: seq<byte>)
    requires |data| < TWO_32
    ensures SpellsBlob(StrHeader(|data|) + data, StrBlob, data)
  {
    hide Be;
    ByteIsBe(|data| % 0x100);
    if 0x20 <= |data| < 0x100 {
      assert [0xd9, |data|] == [0xd9] + Be(|data|, 1);
    }
  }

  lemma BinSpelled(data: seq<byte>)
    requires |data| < TWO_32
    ensures SpellsBlob(BinHeader(|data|) + data, BinBlob, data)
  {
    hide Be;
    ByteIsBe(|data| % 0x100);
    if |data| < 0x100 {
      assert [0xc4, |data|] == [0xc4] + Be(|data|, 1);
    }
  }

  lemma ExtSpelled(kind: byte, data: seq<byte>)
    requires |data| < TWO_32
    ensures SpellsBlob(ExtHeader(|data|, kind) + data, ExtBlob, [kind] + data)
  {
    hide Be;
    var l := |data|;
    ByteIsBe(l % 0x100);
    if l == 1 || l == 2 || l == 4 || l == 8 || l == 16 {
      var first := ExtHeader(l, kind)[0];
      assert ExtHeader(l, kind) + data == [first] + ([kind] + data);
    } else if l < 0x100 {
      assert [0xc7, l, kind] + data == [0xc7] + Be(l, 1) + ([kind] + data);
    } else if l < 0x1_0000 {
      assert [0xc8] + Be(l, 2) + [kind] + data == [0xc8] + Be(l, 2) + ([kind] + data);
    } else {
      assert [0xc9] + Be(l, 4) + [kind] + data == [0xc9] + Be(l, 4) + ([kind] + data);
    }
  }

  lemma SizeSpelled(isMap: bool, n: nat)
    requires n < TWO_32
    ensures SpellsOpen(if isMap then MapHeader(n) else ArrayHeader(n), isMap, n)
    ensures |MapHeader(n)| >= 1 && |ArrayHeader(n)| >= 1
  {
    hide Be;
  }

  /** What the packer writes is an encoding of the object in normal form. */
  lemma {:induction false} PackedEncodes(v: Object)
    requires Representable(v)
    ensures Encodes(Packed(v), Normal(v))
    decreases v
  {
    hide IntBytes, StrHeader, BinHeader, ExtHeader, ArrayHeader, MapHeader, SpellsInt, SpellsBlob, SpellsOpen,
         EncodesItems, Be;
    match v {
      case PosInt(u) => IntSpelled(u);
      case NegInt(i) => IntSpelled(i);
      case Str(data) => StrSpelled(data);
      case Bin(data) => BinSpelled(data);
      case Ext(kind, data) => ExtSpelled(kind, data);
      case Array(items) =>
        var h, body := ArrayHeader(|items|), PackedItems(items);
        SizeSpelled(false, |items|);
        PackedItemsEncode(items);
        assert (h + body)[..|h|] == h && (h + body)[|h|..] == body;
      case Map(pairs) =>
        var h, body := MapHeader(|pairs|), PackedPairs(pairs);
        SizeSpelled(true, |pairs|);
        PackedPairsEncode(pairs);
        assert (h + body)[..|h|] == h && (h + body)[|h|..] == body;
      case _ =>
    }
  }

  lemma EncodesCons(first: seq<byte>, rest: seq<byte>, v: Object, vs: seq<Object>)
    requires Encodes(first, v) && EncodesItems(rest, vs)
    ensures EncodesItems(first + rest, [v] + vs)
  {
    hide Encodes;
    assert (first + rest)[..|first|] == first && (first + rest)[|first|..] == rest;
    assert ([v] + vs)[1..] == vs;
  }

  lemma {:induction false} PackedItemsEncode(vs: seq<Object>)
    requires forall x | x in vs :: Representable(x)
    ensures EncodesItems(PackedItems(vs), NormalItems(vs))
    decreases vs
  {
    hide Packed, Normal, Encodes;
    if vs != [] {
      PackedEncodes(vs[0]);
      PackedItemsEncode(vs[1..]);
      EncodesCons(Packed(vs[0]), PackedItems(vs[1..]), Normal(vs[0]), NormalItems(vs[1..]));
    }
  }

  lemma {:induction false} PackedPairsEncode(ps: seq<KV>)
    requires forall p | p in ps :: Representable(p.key) && Representable(p.val)
    ensures EncodesItems(PackedPairs(ps), Flatten(NormalPairs(ps)))
    decreases ps
  {
    hide Packed, Normal, Encodes, Flatten, EncodesItems;
    if ps == [] {
      NoPairs();
    } else {
      PackedPairsEncode(ps[1..]);
      PackedKVEncodes(ps[0], PackedPairs(ps[1..]), Flatten(NormalPairs(ps[1..])));
      FlattenCons(NormalKV(ps[0]), NormalPairs(ps[1..]));
    }
  }

  lemma {:induction false} PackedKVEncodes(p: KV, rest: seq<byte>, vs: seq<Object>)
    requires Representable(p.key) && Representable(p.val) && EncodesItems(rest, vs)
    ensures EncodesItems(PackedKV(p) + rest, [Normal(p.key)] + ([Normal(p.val)] + vs))
    decreases p
  {
    hide Packed, Normal, Encodes, EncodesItems;
    PackedEncodes(p.key);
    PackedEncodes(p.val);
    EncodesCons(Packed(p.val), rest, Normal(p.val), vs);
    EncodesCons(Packed(p.key), Packed(p.val) + rest, Normal(p.key), [Normal(p.val)] + vs);
    assert PackedKV(p) + rest == Packed(p.key) + (Packed(p.val) + rest);
  }

  lemma NoPairs()
    ensures Flatten([]) == [] && EncodesItems([], [])
  {
  }

  lemma FlattenCons(p: KV, ps: seq<KV>)
    ensures Flatten([p] + ps) == [p.key] + ([p.val] + Flatten(ps))
  {
    assert ([p] + ps)[1..] == ps;
  }

  // ---- the round trip ----

  lemma {:induction false} VerdictNormal(c: Config, v: Object, depth: nat)
    ensures Verdict(c, Normal(v), depth) == Verdict(c, v, depth)
    decreases v
  {
    match v {
      case Array(items) => ItemsVerdictNormal(c, items, depth + 1);
      case Map(pairs) => PairsVerdictNormal(c, pairs, depth + 1);
      case _ =>
    }
  }

  lemma {:induction false} ItemsVerdictNormal(c: Config, vs: seq<Object>, depth: nat)
    ensures ItemsVerdict(c, NormalItems(vs), depth) == ItemsVerdict(c, vs, depth)
    decreases vs
  {
    hide Verdict, Normal;
    if vs != [] {
      VerdictNormal(c, vs[0], depth);
      ItemsVerdictNormal(c, vs[1..], depth);
      assert NormalItems(vs)[1..] == NormalItems(vs[1..]);
    }
  }

  lemma {:induction false} PairsVerdictNormal(c: Config, ps: seq<KV>, depth: nat)
    ensures PairsVerdict(c, NormalPairs(ps), depth) == PairsVerdict(c, ps, depth)
    decreases ps
  {
    hide KVVerdict, NormalKV;
    if ps != [] {
      KVVerdictNormal(c, ps[0], depth);
      PairsVerdictNormal(c, ps[1..], depth);
      assert NormalPairs(ps)[1..] == NormalPairs(ps[1..]);
    }
  }

  lemma {:induction false} KVVerdictNormal(c: Config, p: KV, depth: nat)
    ensures KVVerdict(c, NormalKV(p), depth) == KVVerdict(c, p, depth)
    decreases p
  {
    VerdictNormal(c, p.key, depth);
    VerdictNormal(c, p.val, depth);
  }

  /**
   * Round trip: packing any object the C++ struct can hold and decoding the bytes, whatever
   * follows them, gives the object back in normal form and uses exactly its bytes if it fits the
   * limits, and else reports the first limit it breaks.
   */
  lemma RoundTrip(c: Config, v: Object, depth: nat, s: seq<byte>)
    requires Representable(v)
    ensures Returns(Decode(c, Packed(v) + s, depth), Verdict(c, v, depth), Normal(v), |Packed(v)|)
    ensures Decode(c, Packed(v) + s, depth) == Value(Normal(v), |Packed(v)|) <==> Fits(c, v, depth)
    ensures var d := Decode(c, Packed(v) + s, depth); d.Value? || (d.Overflowed? && Breaks(c, v, depth, d.what))
  {
    hide Decode, Packed, Normal, Encodes, Verdict, Fits, Breaks;
    PackedEncodes(v);
    EncodedDecodes(c, Packed(v), Normal(v), depth, s);
    VerdictNormal(c, v, depth);
    VerdictIff(c, v, depth);
  }

  // ---- consequences ----

  /** Exactly the canonical objects come back unchanged. */
  lemma {:induction false} NormalIffCanonical(v: Object)
    ensures Normal(v) == v <==> Canonical(v)
    decreases v
  {
    match v {
      case Array(items) => NormalItemsIffCanonical(items);
      case Map(pairs) => NormalPairsIffCanonical(pairs);
      case _ =>
    }
  }

  lemma {:induction false} NormalItemsIffCanonical(vs: seq<Object>)
    ensures NormalItems(vs) == vs <==> forall x | x in vs :: Canonical(x)
    decreases vs
  {
    if vs != [] {
      NormalIffCanonical(vs[0]);
      NormalItemsIffCanonical(vs[1..]);
      assert vs == [vs[0]] + vs[1..];
    }
  }

  lemma {:induction false} NormalPairsIffCanonical(ps: seq<KV>)
    ensures NormalPairs(ps) == ps <==> forall p | p in ps :: Canonical(p.key) && Canonical(p.val)
    decreases ps
  {
    if ps != [] {
      NormalKVIffCanonical(ps[0]);
      NormalPairsIffCanonical(ps[1..]);
      assert ps == [ps[0]] + ps[1..];
    }
  }

  lemma {:induction false} NormalKVIffCanonical(p: KV)
    ensures NormalKV(p) == p <==> Canonical(p.key) && Canonical(p.val)
    decreases p
  {
    NormalIffCanonical(p.key);
    NormalIffCanonical(p.val);
  }

  /**
   * Packed bytes that arrive in two pieces: on the first piece the machine asks for more, and
   * resumed with the second it finishes with the packed object at the last byte.
   */
  lemma CutAnywhere(c: Config, v: Object, a: seq<byte>, b: seq<byte>)
    requires Representable(v) && Canonical(v) && Fits(c, v, 0)
    requires a + b == Packed(v) && b != []
    ensures var o := Run(c, INIT, a);
            o.More? && Run(c, o.st, a[o.n..] + b) == Done(v, |Packed(v)| - o.n)
  {
    hide Run, Decode, Packed, Fits, Canonical, Normal;
    RoundTrip(c, v, 0, []);
    assert Packed(v) + [] == Packed(v);
    NormalIffCanonical(v);
    Refinement.Refines(c, Packed(v));
    Resume(c, INIT, a, b);
  }

  // ---- the shortest encoding ----

  ghost function FloatsIn(ps: seq<Object>): nat {
    if ps == [] then 0 else (if ps[0].Float? then 1 else 0) + FloatsIn(ps[1..])
  }

  lemma {:induction false} FloatsInBoth(ps: seq<Object>, qs: seq<Object>)
    ensures FloatsIn(ps + qs) == FloatsIn(ps) + FloatsIn(qs)
    decreases ps
  {
    if ps == [] {
      assert ps + qs == qs;
    } else {
      FloatsInBoth(ps[1..], qs);
      assert (ps + qs)[1..] == ps[1..] + qs;
    }
  }

  lemma {:induction false} FlatParts(ps: seq<KV>)
    ensures ItemParts(Flatten(ps)) == PairParts(ps)
    decreases ps
  {
    hide Parts;
    if ps != [] {
      FlatParts(ps[1..]);
      var vs := Flatten(ps);
      assert vs[1..][0] == ps[0].val && vs[1..][1..] == Flatten(ps[1..]);
      assert ItemParts(vs[1..]) == Parts(ps[0].val) + ItemParts(Flatten(ps[1..]));
    }
  }

  lemma {:induction false} FlatPacked(ps: seq<KV>)
    requires forall p | p in ps :: Representable(p.key) && Representable(p.val)
    ensures forall x | x in Flatten(ps) :: Representable(x)
    ensures PackedItems(Flatten(ps)) == PackedPairs(ps)
    decreases ps
  {
    hide Packed;
    if ps != [] {
      FlatPacked(ps[1..]);
      var vs := Flatten(ps);
      assert vs[1..][0] == ps[0].val && vs[1..][1..] == Flatten(ps[1..]);
      assert PackedItems(vs[1..]) == Packed(ps[0].val) + PackedItems(Flatten(ps[1..]));
    }
  }

  lemma OpenShortest(h: seq<byte>, isMap: bool, n: nat)
    requires SpellsOpen(h, isMap, n)
    ensures n < TWO_32 && |if isMap then MapHeader(n) else ArrayHeader(n)| <= |h|
  {
    hide Be;
  }

  lemma ScalarShortest(e: seq<byte>, v: Object)
    requires Representable(v) && Encodes(e, v) && !v.Array? && !v.Map?
    ensures |Packed(v)| <= |e| + (if v.Float? then 4 else 0)
  {
    hide Be, Floats.Widen;
  }

  /** No encoding is shorter than what the packer writes, except that a float 32 saves four bytes. */
  lemma {:induction false} PackedShortest(e: seq<byte>, v: Object)
    requires Representable(v) && Encodes(e, v)
    ensures |Packed(v)| <= |e| + 4 * FloatsIn(Parts(v))
    decreases |e|, 0, 0
  {
    hide SpellsOpen, MapHeader, ArrayHeader, EncodesItems;
    match v {
      case Array(items) =>
        var k :| 1 <= k <= |e| && SpellsOpen(e[..k], false, |items|) && EncodesItems(e[k..], items);
        OpenShortest(e[..k], false, |items|);
        PackedItemsShortest(e[k..], items);
        FloatsInBoth([v], ItemParts(items));
      case Map(pairs) =>
        var k :| 1 <= k <= |e| && SpellsOpen(e[..k], true, |pairs|) && EncodesItems(e[k..], Flatten(pairs));
        OpenShortest(e[..k], true, |pairs|);
        FlatPacked(pairs);
        PackedItemsShortest(e[k..], Flatten(pairs));
        FlatParts(pairs);
        FloatsInBoth([v], PairParts(pairs));
      case _ => ScalarShortest(e, v);
    }
  }

  lemma {:induction false} PackedItemsShortest(e: seq<byte>, vs: seq<Object>)
    requires (forall x | x in vs :: Representable(x)) && EncodesItems(e, vs)
    ensures |PackedItems(vs)| <= |e| + 4 * FloatsIn(ItemParts(vs))
    decreases |e|, 1, |vs|
  {
    hide Packed, Parts, Encodes;
    if vs != [] {
      var k :| 0 <= k <= |e| && Encodes(e[..k], vs[0]) && EncodesItems(e[k..], vs[1..]);
      PackedShortest(e[..k], vs[0]);
      PackedItemsShortest(e[k..], vs[1..]);
      FloatsInBoth(Parts(vs[0]), ItemParts(vs[1..]));
    }
  }

  /** No byte string shorter than IntBytes(i) decodes to i. */
  lemma IntBytesShortest(c: Config, i: int, b: seq<byte>, depth: nat)
    requires -TWO_64 <= 2 * i && i < TWO_64
    requires Decode(c, b, depth) == Value(IntObject(i), |b|)
    ensures |IntBytes(i)| <= |b|
  {
    hide Decode, IntBytes, Encodes;
    DecodedEncodes(c, b, depth);
    assert b[..|b|] == b;
    PackedShortest(b, IntObject(i));
    assert Parts(IntObject(i)) == [IntObject(i)];
  }
}
