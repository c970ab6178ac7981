/**
 * The reference decoder: plain recursive descent over the "Formats" section of the MessagePack
 * specification, with the size and depth limits of unpack_limit.
 */
module Decoder {
  import opened Options
  import opened Bytes
  import opened Objects
  import Floats

  datatype Limit = Limit(arr: nat, map_: nat, str: nat, bin: nat, ext: nat, depth: nat)

  datatype Overflow = ArraySize | MapSize | StrSize | BinSize | ExtSize | Depth

  /** The limits, and the caller's unpack_reference_func (constantly false when it is null). */
  datatype Config = Config(limit: Limit, refers: (BlobKind, nat) -> bool)

  const DEFAULT_LIMIT := Limit(TWO_32 - 1, TWO_32 - 1, TWO_32 - 1, TWO_32 - 1, TWO_32 - 1, TWO_32 - 1)

  /** One complete header, together with the body of a string, binary or extension. */
  datatype Token =
    | Item(v: Object)
    | Blob(kind: BlobKind, bs: seq<byte>)
    | Open(isMap: bool, size: nat)

  ghost predicate TokenOk(t: Token) {
    match t
    case Item(v) => v.Nil? || v.Boolean? || v.PosInt? || v.NegInt? || v.Float?
    case Blob(k, bs) => k.ExtBlob? ==> bs != []
    case Open(_, _) => true
  }

  /** Short(n): the input ends inside the token, after n bytes of complete header parts. */
  datatype Head = Short(n: nat) | Bad | Whole(tok: Token, n: nat)

  /** The head lies within the input b. */
  ghost predicate Bounded(h: Head, b: seq<byte>) {
    match h
    case Short(n) => n <= |b|
    case Bad => b != []
    case Whole(t, n) => TokenOk(t) && 1 <= n <= |b|
  }

  /** A body of len bytes after a header of `at` bytes. */
  function Body(k: BlobKind, len: nat, b: seq<byte>, at: nat): (h: Head)
    requires 1 <= at <= |b| && (k.ExtBlob? ==> len > 0)
    ensures Bounded(h, b)
  {
    if |b| - at < len then Short(at) else Whole(Blob(k, b[at..at + len]), at + len)
  }

  /** A length of w bytes, then the body; the type byte of an EXT is not part of the length. */
  function Prefixed(k: BlobKind, w: nat, b: seq<byte>): (h: Head)
    requires b != []
    ensures Bounded(h, b)
  {
    hide FromBe, Body;
    if |b| - 1 < w then Short(1)
    else Body(k, FromBe(b[1..1 + w]) + (if k.ExtBlob? then 1 else 0), b, 1 + w)
  }

  /** Width 1, 2, 4, 8 or 16 of the i-th member of a format family. */
  function Width(i: nat): (w: nat)
    requires i <= 4
    ensures w >= 1
  {
    if i == 0 then 1 else if i == 1 then 2 else if i == 2 then 4 else if i == 3 then 8 else 16
  }

  /** Floats, integers and container sizes: the meaning of the field s after first byte h. */
  function ReadField(h: byte, s: seq<byte>): (t: Token)
    requires s != [] && (h == 0xca ==> |s| == 4)
    ensures TokenOk(t)
  {
    if h == 0xca then
      Pow256Values();
      Item(Float(Floats.Widen(FromBe(s))))
    else if h == 0xcb then Item(Float(FromBe(s)))
    else if h <= 0xcf then Item(PosInt(FromBe(s)))
    else if h <= 0xd3 then Item(IntObject(FromBeSigned(s)))
    else if h <= 0xdd then Open(false, FromBe(s))
    else Open(true, FromBe(s))
  }

  function Field(w: nat, b: seq<byte>): (h: Head)
    requires b != [] && w >= 1 && (b[0] == 0xca ==> w == 4)
    ensures Bounded(h, b)
  {
    hide ReadField;
    if |b| - 1 < w then Short(1) else Whole(ReadField(b[0], b[1..1 + w]), 1 + w)
  }

  /** The token at the front of b, by first byte. */
  function ReadHead(b: seq<byte>): (head: Head)
    ensures Bounded(head, b)
  {
    hide Body, Prefixed, Field;
    if b == [] then Short(0)
    else
      var h: int := b[0];
      if h <= 0x7f then Whole(Item(PosInt(h)), 1)
      else if h <= 0x8f then Whole(Open(true, h - 0x80), 1)
      else if h <= 0x9f then Whole(Open(false, h - 0x90), 1)
      else if h <= 0xbf then Body(StrBlob, h - 0xa0, b, 1)
      else if h == 0xc0 then Whole(Item(Nil), 1)
      else if h == 0xc1 then Bad
      else if h <= 0xc3 then Whole(Item(Boolean(h == 0xc3)), 1)
      else if h <= 0xc6 then Prefixed(BinBlob, Width(h - 0xc4), b)
      else if h <= 0xc9 then Prefixed(ExtBlob, Width(h - 0xc7), b)
      else if h <= 0xcb then Field(Width(h - 0xc8), b)
      else if h <= 0xcf then Field(Width(h - 0xcc), b)
      else if h <= 0xd3 then Field(Width(h - 0xd0), b)
      else if h <= 0xd8 then Body(ExtBlob, Width(h - 0xd4) + 1, b, 1)
      else if h <= 0xdb then Prefixed(StrBlob, Width(h - 0xd9), b)
      else if h <= 0xdd then Field(Width(h - 0xdb), b)
      else if h <= 0xdf then Field(Width(h - 0xdd), b)
      else Whole(Item(NegInt(h - 256)), 1)
  }

  datatype Decoded =
    | Value(v: Object, n: nat)      // decoded from the first n bytes
    | NeedMore(n: nat)              // the input ends; n bytes are complete header parts
    | ParseError(n: nat)            // the byte at n starts no format
    | Overflowed(what: Overflow)
  {
    function Plus(k: nat): Decoded {
      match this
      case Value(v, n) => Value(v, n + k)
      case NeedMore(n) => NeedMore(n + k)
      case ParseError(n) => ParseError(n + k)
      case Overflowed(_) => this
    }
  }

  datatype DecodedItems = Values(vs: seq<Object>, n: nat) | NoValues(why: Decoded)

  /** Why a blob of this size is refused (unpack_str, unpack_bin, unpack_ext). */
  function BlobVerdict(c: Config, k: BlobKind, size: nat): Option<Overflow> {
    if c.refers(k, size) then None
    else match k
      case StrBlob => if size > c.limit.str then Some(StrSize) else None
      case BinBlob => if size > c.limit.bin then Some(BinSize) else None
      case ExtBlob => if size > c.limit.ext then Some(ExtSize) else None
  }

  /** Why a container of this size is refused when `depth` non-empty containers are open. */
  function OpenVerdict(c: Config, isMap: bool, size: nat, depth: nat): Option<Overflow> {
    if size > (if isMap then c.limit.map_ else c.limit.arr) then Some(if isMap then MapSize else ArraySize)
    else if size > 0 && depth + 1 > c.limit.depth then Some(Depth)
    else None
  }

  function MakeContainer(isMap: bool, vs: seq<Object>): Object
    requires isMap ==> |vs| % 2 == 0
  {
    if isMap then Map(PairUp(vs)) else Array(vs)
  }

  /** The object at the front of b, inside `depth` open containers. */
  function Decode(c: Config, b: seq<byte>, depth: nat): (d: Decoded)
    ensures d.Value? ==> 1 <= d.n <= |b|
    ensures d.NeedMore? || d.ParseError? ==> d.n <= |b|
    decreases |b|, 0
  {
    match ReadHead(b)
    case Short(n) => NeedMore(n)
    case Bad => ParseError(0)
    case Whole(Item(v), n) => Value(v, n)
    case Whole(Blob(k, bs), n) =>
      (match BlobVerdict(c, k, |bs|)
       case Some(why) => Overflowed(why)
       case None => Value(MakeBlob(k, bs), n))
    case Whole(Open(isMap, size), n) =>
      (match OpenVerdict(c, isMap, size, depth)
       case Some(why) => Overflowed(why)
       case None =>
         match DecodeItems(c, b[n..], if isMap then 2 * size else size, depth + 1)
         case Values(vs, m) => Value(MakeContainer(isMap, vs), n + m)
         case NoValues(why) => why.Plus(n))
  }

  /** The next k objects of b: the N elements of an array, or the N * 2 objects of a map. */
  function DecodeItems(c: Config, b: seq<byte>, k: nat, depth: nat): (d: DecodedItems)
    ensures d.Values? ==> |d.vs| == k && d.n <= |b|
    ensures d.NoValues? ==> !d.why.Value?
    ensures d.NoValues? && !d.why.Overflowed? ==> d.why.n <= |b|
    decreases |b|, 1
  {
    if k == 0 then Values([], 0)
    else
      match Decode(c, b, depth)
      case Value(v, n) =>
        (match DecodeItems(c, b[n..], k - 1, depth)
         case Values(vs, m) => Values([v] + vs, n + m)
         case NoValues(why) => NoValues(why.Plus(n)))
      case other => NoValues(other)
  }
}
