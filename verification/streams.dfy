/** Repeated one-shot decoding of a growing byte stream. */
module Streams {
  import opened Bytes
  import opened Objects
  import opened Decoder
  import opened Packing
  import Limits
  import Machine
  import Refinement
  import RoundTrips

  /** All messages of b by repeated one-shot decoding at successive offsets, and how it ends. */
  ghost function Messages(c: Config, b: seq<byte>): (r: (seq<Object>, Decoded))
    decreases |b|
  {
    match Decode(c, b, 0)
    case Value(v, n) =>
      var r := Messages(c, b[n..]);
      ([v] + r.0, r.1)
    case other => ([], other)
  }

  /** The first pos bytes of b are exactly the messages vs. */
  ghost predicate Emitted(c: Config, b: seq<byte>, vs: seq<Object>, pos: nat)
    decreases vs
  {
    if vs == [] then pos == 0
    else
      var d := Decode(c, b, 0);
      d.Value? && d.v == vs[0] && d.n <= pos && Emitted(c, b[d.n..], vs[1..], pos - d.n)
  }

  /** A message is decoded the same way whatever follows it; so is an error. */
  lemma DecodeExtends(c: Config, a: seq<byte>, b: seq<byte>)
    requires !Decode(c, a, 0).NeedMore?
    ensures Decode(c, a + b, 0) == Decode(c, a, 0)
  {
    hide Decode, Machine.Run;
    Refinement.Refines(c, a);
    Refinement.Refines(c, a + b);
    Machine.Resume(c, Machine.INIT, a, b);
  }

  lemma {:induction false} EmittedWithin(c: Config, b: seq<byte>, vs: seq<Object>, pos: nat)
    requires Emitted(c, b, vs, pos)
    ensures pos <= |b|
    decreases vs
  {
    hide Decode;
    if vs != [] {
      var n := Decode(c, b, 0).n;
      EmittedWithin(c, b[n..], vs[1..], pos - n);
    }
  }

  lemma {:induction false} EmittedExtends(c: Config, b: seq<byte>, vs: seq<Object>, pos: nat, x: seq<byte>)
    requires Emitted(c, b, vs, pos)
    ensures Emitted(c, b + x, vs, pos)
    decreases vs
  {
    hide Decode;
    if vs != [] {
      DecodeExtends(c, b, x);
      var n := Decode(c, b, 0).n;
      EmittedExtends(c, b[n..], vs[1..], pos - n, x);
      assert (b + x)[n..] == b[n..] + x;
    }
  }

  lemma EmittedUnfolds(c: Config, b: seq<byte>, vs: seq<Object>, pos: nat)
    ensures Emitted(c, b, vs, pos) <==>
              if vs == [] then pos == 0
              else
                var d := Decode(c, b, 0);
                d.Value? && d.v == vs[0] && d.n <= pos && Emitted(c, b[d.n..], vs[1..], pos - d.n)
  {
    hide Decode;
  }

  lemma EmittedFirst(c: Config, b: seq<byte>, v: Object, n: nat, vs: seq<Object>, pos: nat)
    requires Decode(c, b, 0) == Value(v, n) && n <= pos && Emitted(c, b[n..], vs, pos - n)
    ensures Emitted(c, b, [v] + vs, pos)
  {
    hide Decode;
    assert ([v] + vs)[1..] == vs;
  }

  lemma MessagesUnfold(c: Config, b: seq<byte>)
    requires Decode(c, b, 0).Value?
    ensures var d := Decode(c, b, 0);
            Messages(c, b) == ([d.v] + Messages(c, b[d.n..]).0, Messages(c, b[d.n..]).1)
  {
    hide Decode;
  }

  lemma Later(b: seq<byte>, m: nat, k: nat)
    requires m <= k <= |b|
    ensures b[m..][k - m..] == b[k..] && b[0..] == b
  {
  }

  lemma {:induction false} EmittedSnoc(c: Config, b: seq<byte>, vs: seq<Object>, pos: nat, v: Object, n: nat)
    requires Emitted(c, b, vs, pos) && pos <= |b|
    requires Decode(c, b[pos..], 0) == Value(v, n)
    ensures Emitted(c, b, vs + [v], pos + n)
    decreases vs
  {
    hide Decode, Emitted;
    EmittedUnfolds(c, b, vs, pos);
    if vs == [] {
      Later(b, 0, 0);
      EmittedUnfolds(c, b[n..], [], 0);
      EmittedFirst(c, b, v, n, [], n);
      assert [v] + [] == vs + [v];
    } else {
      var m := Decode(c, b, 0).n;
      Later(b, m, pos);
      EmittedSnoc(c, b[m..], vs[1..], pos - m, v, n);
      EmittedFirst(c, b, vs[0], m, vs[1..] + [v], pos + n);
      assert [vs[0]] + (vs[1..] + [v]) == vs + [v];
    }
  }

  /** What was emitted is a prefix of what repeated one-shot decoding of the whole stream gives. */
  lemma {:induction false} EmittedIsPrefix(c: Config, b: seq<byte>, vs: seq<Object>, pos: nat)
    requires Emitted(c, b, vs, pos) && pos <= |b|
    ensures Messages(c, b).0 == vs + Messages(c, b[pos..]).0
    ensures Messages(c, b).1 == Messages(c, b[pos..]).1
    decreases vs
  {
    hide Decode, Emitted, Messages;
    EmittedUnfolds(c, b, vs, pos);
    if vs == [] {
      Later(b, 0, 0);
    } else {
      var n := Decode(c, b, 0).n;
      Later(b, n, pos);
      MessagesUnfold(c, b);
      EmittedIsPrefix(c, b[n..], vs[1..], pos - n);
      assert [vs[0]] + (vs[1..] + Messages(c, b[pos..]).0) == vs + Messages(c, b[pos..]).0;
    }
  }

  /** After an error, nothing that follows changes the messages. */
  lemma {:induction false} MessagesStop(c: Config, b: seq<byte>, x: seq<byte>)
    requires !Messages(c, b).1.NeedMore?
    ensures Messages(c, b + x) == Messages(c, b)
    decreases |b|
  {
    hide Decode;
    DecodeExtends(c, b, x);
    var d := Decode(c, b, 0);
    if d.Value? {
      assert (b + x)[d.n..] == b[d.n..] + x;
      MessagesStop(c, b[d.n..], x);
    }
  }

  /** A stream that arrives in pieces. */
  function Joined(pieces: seq<seq<byte>>): seq<byte> {
    if pieces == [] then [] else pieces[0] + Joined(pieces[1..])
  }

  lemma NothingYet(c: Config)
    ensures Decode(c, [], 0) == NeedMore(0)
  {
  }

  /** A concatenation of packed objects decodes to the same list of objects. */
  lemma {:induction false} PackedStream(c: Config, vs: seq<Object>)
    requires forall v | v in vs :: Representable(v) && RoundTrips.Canonical(v) && Limits.Fits(c, v, 0)
    ensures Messages(c, PackedItems(vs)) == (vs, NeedMore(0))
    decreases vs
  {
    hide RoundTrips.Canonical, Limits.Fits, RoundTrips.Normal, Packed, Decode;
    if vs == [] {
      NothingYet(c);
    } else {
      var first, rest := Packed(vs[0]), PackedItems(vs[1..]);
      RoundTrips.RoundTrip(c, vs[0], 0, rest);
      RoundTrips.NormalIffCanonical(vs[0]);
      assert PackedItems(vs) == first + rest && (first + rest)[|first|..] == rest;
      PackedStream(c, vs[1..]);
      assert vs == [vs[0]] + vs[1..];
    }
  }
}
