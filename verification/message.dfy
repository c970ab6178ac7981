/** msgpack::unpack on a complete buffer. */
module OneShot {
  import opened Bytes
  import opened Objects
  import opened Decoder
  import opened Contexts
  import opened Machine
  import Refinement

  /** UNPACK_SUCCESS, UNPACK_EXTRA_BYTES, UNPACK_CONTINUE, UNPACK_PARSE_ERROR and size_overflow. */
  datatype Return = Success(v: Object) | ExtraBytes(v: Object) | Continue | Error | Oversize(what: Overflow)

  /** unpack_imp: `end` is the updated offset. */
  method UnpackImp(c: Config, data: seq<byte>, off: nat) returns (r: Return, end: nat)
    ensures off >= |data| ==> r == Continue && end == off
    ensures off < |data| ==>
              var d := Decode(c, data[off..], 0);
              && (d.Value? ==> end == off + d.n && r == if end < |data| then ExtraBytes(d.v) else Success(d.v))
              && (d.NeedMore? ==> r == Continue && end == off + d.n)
              && (d.ParseError? ==> r == Error && end == off)
              && (d.Overflowed? ==> r == Oversize(d.what) && end == off)
  {
    hide Decode, Run;
    if |data| <= off {
      return Continue, off;
    }
    Refinement.Refines(c, data[off..]);
    var ctx := new Context(c);
    var st, noff := ctx.Execute(data, off);
    match st {
      case Failed => return Error, off;
      case Threw(what) => return Oversize(what), off;
      case Unfinished => return Continue, noff;
      case Finished =>
        var v := ctx.stack[0].obj;
        if noff < |data| {
          return ExtraBytes(v), noff;
        }
        return Success(v), noff;
    }
  }
}

/** NetworkXioMsg: the one message of the gobjfs wire protocol, an array of eight fields. */
module Wire {
  import opened Options
  import opened Bytes
  import opened Objects
  import opened Decoder
  import opened Formats
  import opened Limits
  import opened Packing
  import opened RoundTrips
  import opened OneShot

  const I32 := 0x8000_0000
  const I64 := 0x8000_0000_0000_0000

  const EIO := 5

  /** The fields of NetworkXioMsg; cookie is its opaque_. */
  datatype Msg = Msg(opcode: int, filename: seq<byte>, size: int, offset: int,
                     retval: int, errval: int, cookie: int, timeout: int)

  /** The C++ types of the fields. */
  ghost predicate Typed(m: Msg) {
    && -I32 <= m.opcode < I32 && -I32 <= m.errval < I32
    && 0 <= m.size < TWO_64 && 0 <= m.offset < TWO_64 && 0 <= m.cookie < TWO_64
    && -I64 <= m.retval < I64 && -I64 <= m.timeout < I64
  }

  const FIELDS := 8

  /** A field value of either kind. */
  datatype Value = Number(i: int) | Text(bs: seq<byte>)

  function Get(m: Msg, k: nat): Value
    requires k < FIELDS
  {
    if k == 0 then Number(m.opcode) else if k == 1 then Text(m.filename)
    else if k == 2 then Number(m.size) else if k == 3 then Number(m.offset)
    else if k == 4 then Number(m.retval) else if k == 5 then Number(m.errval)
    else if k == 6 then Number(m.cookie) else Number(m.timeout)
  }

  // ---- convert: object to field ----

  /** static_cast to a signed type with 2 * half values. */
  function Cast(i: int, half: int): int
    requires half > 0
  {
    (i + half) % (2 * half) - half
  }

  /** convert_integer_sign<T, true> for a type from -half to half - 1; None is type_error. */
  function ConvertSigned(o: Object, half: int): Option<int>
    requires half > 0
  {
    match o
    case PosInt(u) => if u > half - 1 then None else Some(u)
    case NegInt(i) => if i < -half then None else Some(Cast(i, half))
    case _ => None
  }

  /** convert_integer_sign<T, false> for uint64_t. */
  function ConvertUnsigned(o: Object): Option<int> {
    match o
    case PosInt(u) => if u > TWO_64 - 1 then None else Some(u)
    case _ => None
  }

  /** convert<std::string> */
  function ConvertString(o: Object): Option<seq<byte>> {
    match o
    case Bin(data) => Some(data)
    case Str(data) => Some(data)
    case _ => None
  }

  /** The value that object o gives to field k. */
  function FieldValue(k: nat, o: Object): Option<Value>
    requires k < FIELDS
  {
    if k == 1 then (match ConvertString(o) case Some(bs) => Some(Text(bs)) case None => None)
    else
      match (if k == 0 || k == 5 then ConvertSigned(o, I32)
             else if k == 4 || k == 7 then ConvertSigned(o, I64)
             else ConvertUnsigned(o))
      case Some(i) => Some(Number(i))
      case None => None
  }

  // ---- pack: field to object ----

  /** The array object that a message stands for. */
  function ToObject(m: Msg): (o: Object)
    ensures o.Array? && |o.items| == FIELDS
  {
    Array([IntObject(m.opcode), Str(m.filename), IntObject(m.size), IntObject(m.offset),
           IntObject(m.retval), IntObject(m.errval), IntObject(m.cookie), IntObject(m.timeout)])
  }

  lemma FieldRoundTrip(m: Msg, k: nat)
    requires Typed(m) && k < FIELDS
    ensures FieldValue(k, ToObject(m).items[k]) == Some(Get(m, k))
  {
    hide Cast;
    CastFits(m.opcode, I32);
    CastFits(m.errval, I32);
    CastFits(m.retval, I64);
    CastFits(m.timeout, I64);
  }

  lemma CastFits(i: int, half: int)
    requires (half == I32 || half == I64) && -half <= i < half
    ensures Cast(i, half) == i
  {
    if half == I32 {
      assert Cast(i, I32) == i;
    } else {
      assert Cast(i, I64) == i;
    }
  }

  /** What unpack_msg raises: insufficient_bytes, parse_error, size_overflow or type_error. */
  datatype Received = Accepted | Insufficient | Malformed | TooLarge | Mistyped

  /** msgpack::unpack without a reference function and with the default limits. */
  const WIRE := Config(DEFAULT_LIMIT, (k, n) => false)

  /** `now` is `was` with field j taken from items[j] for every j < k that the array has. */
  ghost predicate Assigned(was: Msg, now: Msg, items: seq<Object>, k: nat)
    requires k <= FIELDS
    requires forall j | 0 <= j < k && j < |items| :: FieldValue(j, items[j]).Some?
  {
    forall j | 0 <= j < FIELDS ::
      Get(now, j) == if j < k && j < |items| then FieldValue(j, items[j]).value else Get(was, j)
  }

  function Taken(k: nat, was: Msg, items: seq<Object>): int
    requires k < FIELDS && k != 1
  {
    if k < |items| && FieldValue(k, items[k]).Some? then FieldValue(k, items[k]).value.i else Get(was, k).i
  }

  /** The message a receiver holds after unpack_msg accepts b; None when unpack_msg throws. */
  ghost function Parse(was: Msg, b: seq<byte>): Option<Msg> {
    var d := Decode(WIRE, b, 0);
    if d.Value? && d.v.Array? && (forall j | 0 <= j < FIELDS && j < |d.v.items| :: FieldValue(j, d.v.items[j]).Some?)
    then
      var items := d.v.items;
      Some(Msg(Taken(0, was, items),
               if 1 < |items| then FieldValue(1, items[1]).value.bs else was.filename,
               Taken(2, was, items), Taken(3, was, items), Taken(4, was, items),
               Taken(5, was, items), Taken(6, was, items), Taken(7, was, items)))
    else None
  }

  /** A newly constructed message: opcode Noop and every other field zero. */
  const NOOP := Msg(0, [], 0, 0, 0, 0, 0, 0)

  /** What pack_msg writes. */
  ghost function Encode(m: Msg): seq<byte>
    requires Sendable(m)
  {
    MsgRepresentable(m);
    Packed(ToObject(m))
  }

  /** pack_msg does not throw. */
  ghost predicate Sendable(m: Msg) {
    Typed(m) && |m.filename| < TWO_32
  }

  class XioMsg {
    var opcode: int
    var filename: seq<byte>
    var size: int
    var offset: int
    var retval: int
    var errval: int
    var cookie: int
    var timeout: int

    ghost function Abs(): Msg
      reads this
    {
      Msg(opcode, filename, size, offset, retval, errval, cookie, timeout)
    }

    constructor (opcode: int)
      ensures Abs() == Msg(opcode, [], 0, 0, 0, 0, 0, 0)
    {
      this.opcode, filename, size, offset := opcode, [], 0, 0;
      retval, errval, cookie, timeout := 0, 0, 0, 0;
    }

    /** pack_msg; None is container_size_overflow. */
    method PackMsg() returns (r: Option<seq<byte>>)
      requires Typed(Abs())
      ensures |filename| < TWO_32 ==> Representable(ToObject(Abs())) && r == Some(Packed(ToObject(Abs())))
      ensures |filename| >= TWO_32 ==> r == None
    {
      hide Packed, PackedItems, IntBytes, StrHeader, SizeHeader;
      var pk := new Packer();
      pk.PackArray(FIELDS);
      assert pk.stream == ArrayHeader(FIELDS);
      var ok := PackFields(pk, FIELDS);
      if !ok {
        return None;
      }
      MsgRepresentable(Abs());
      assert ToObject(Abs()).items[..FIELDS] == ToObject(Abs()).items;
      PackedArray(ToObject(Abs()).items);
      return Some(pk.stream);
    }

    /** define_array_imp<Tuple, n>::pack: the first n fields in order. */
    method PackFields(pk: Packer, n: nat) returns (ok: bool)
      requires Typed(Abs()) && n <= FIELDS
      modifies pk
      ensures ok <==> n <= 1 || |filename| < TWO_32
      ensures ok ==>
                && (forall x | x in ToObject(Abs()).items[..n] :: Representable(x))
                && pk.stream == old(pk.stream) + PackedItems(ToObject(Abs()).items[..n])
      decreases n
    {
      hide Packed, Representable, ToObject;
      if n == 0 {
        return true;
      }
      ok := PackFields(pk, n - 1);
      if !ok {
        return;
      }
      ghost var vs := ToObject(Abs()).items;
      ok := PackField(pk, n - 1);
      if ok {
        assert vs[..n] == vs[..n - 1] + [vs[n - 1]];
        PackedSnoc(vs[..n - 1], vs[n - 1]);
      }
    }

    /** pk.pack(std::get<k>(t)), by the type of the field. */
    method PackField(pk: Packer, k: nat) returns (ok: bool)
      requires Typed(Abs()) && k < FIELDS
      modifies pk
      ensures ok <==> k != 1 || |filename| < TWO_32
      ensures ok ==>
                var v := ToObject(Abs()).items[k];
                Representable(v) && pk.stream == old(pk.stream) + Packed(v)
    {
      hide IntBytes, StrHeader;
      ok := true;
      if k == 0 { pk.PackInt32(opcode); }
      else if k == 1 {
        if |filename| >= TWO_32 {
          return false;
        }
        pk.PackStr(|filename|);
        pk.AppendBuffer(filename);
      }
      else if k == 2 { pk.PackUint64(size); }
      else if k == 3 { pk.PackUint64(offset); }
      else if k == 4 { pk.PackInt64(retval); }
      else if k == 5 { pk.PackInt32(errval); }
      else if k == 6 { pk.PackUint64(cookie); }
      else { pk.PackInt64(timeout); }
    }

    /** convert(std::get<k>(t)): assign field k from an object, or throw type_error. */
    method ConvertField(o: Object, k: nat) returns (ok: bool)
      requires k < FIELDS
      modifies this
      ensures ok <==> FieldValue(k, o).Some?
      ensures forall j | 0 <= j < FIELDS ::
                Get(Abs(), j) == if j == k && ok then FieldValue(k, o).value else Get(old(Abs()), j)
    {
      hide ConvertSigned, ConvertUnsigned, ConvertString;
      if k == 1 {
        var t := ConvertString(o);
        if t.None? { return false; }
        filename := t.value;
      } else {
        var t := if k == 0 || k == 5 then ConvertSigned(o, I32)
                 else if k == 4 || k == 7 then ConvertSigned(o, I64)
                 else ConvertUnsigned(o);
        if t.None? { return false; }
        if k == 0 { opcode := t.value; }
        else if k == 2 { size := t.value; }
        else if k == 3 { offset := t.value; }
        else if k == 4 { retval := t.value; }
        else if k == 5 { errval := t.value; }
        else if k == 6 { cookie := t.value; }
        else { timeout := t.value; }
      }
      return true;
    }

    /**
     * define_array_imp<Tuple, n>::unpack: the elements that are there go to the fields in order,
     * up to the first that does not convert; every other field keeps its value.
     */
    method UnpackFields(items: seq<Object>, n: nat) returns (ok: bool)
      requires n <= FIELDS
      modifies this
      ensures ok <==> Convertible(items, n) == n
      ensures Assigned(old(Abs()), Abs(), items, Convertible(items, n))
      decreases n
    {
      hide FieldValue, Get;
      if n == 0 {
        return true;
      }
      ok := UnpackFields(items, n - 1);
      if !ok || |items| <= n - 1 {
        return;
      }
      ok := ConvertField(items[n - 1], n - 1);
    }

    /**
     * unpack_msg: bytes after the first object are ignored. The message is untouched unless an
     * array arrives; then the fields before the first element of a wrong type are the array's,
     * and the fields that the array does not reach keep their values.
     */
    method UnpackMsg(sbuf: seq<byte>) returns (r: Received)
      modifies this
      ensures var d := Decode(WIRE, sbuf, 0);
              && (d.NeedMore? ==> r == Insufficient)
              && (d.ParseError? ==> r == Malformed)
              && (d.Overflowed? ==> r == TooLarge)
              && (d.Value? && !d.v.Array? ==> r == Mistyped)
              && (d.Value? && d.v.Array? ==>
                    && (r == Accepted || r == Mistyped)
                    && (r == Accepted <==>
                        forall j | 0 <= j < FIELDS && j < |d.v.items| :: FieldValue(j, d.v.items[j]).Some?)
                    && Assigned(old(Abs()), Abs(), d.v.items, Convertible(d.v.items, FIELDS)))
              && (!d.Value? || !d.v.Array? ==> Abs() == old(Abs()))
      ensures r == Accepted <==> Parse(old(Abs()), sbuf).Some?
      ensures r == Accepted ==> Abs() == Parse(old(Abs()), sbuf).value
    {
      hide Decode, FieldValue, Get;
      DecodeNothing(WIRE);
      var u, _ := UnpackImp(WIRE, sbuf, 0);
      assert sbuf[0..] == sbuf;
      if u.Continue? {
        return Insufficient;
      } else if u.Error? {
        return Malformed;
      } else if u.Oversize? {
        return TooLarge;
      } else if !u.v.Array? {
        return Mistyped;
      }
      ghost var was := Abs();
      var ok := UnpackFields(u.v.items, FIELDS);
      if ok {
        ParseAssigns(was, sbuf, Abs());
      }
      return if ok then Accepted else Mistyped;
    }
  }

  lemma DecodeNothing(c: Config)
    ensures Decode(c, [], 0).NeedMore?
  {
  }

  /**
   * The packed form of a message, whatever follows it, unpacks completely and leaves the
   * receiver equal to the sender, whatever the receiver held before.
   */
  lemma Restores(m: Msg, s: seq<byte>, was: Msg, now: Msg)
    requires Typed(m) && |m.filename| < TWO_32
    ensures Representable(ToObject(m))
    ensures Decode(WIRE, Packed(ToObject(m)) + s, 0) == Decoded.Value(ToObject(m), |Packed(ToObject(m))|)
    ensures Convertible(ToObject(m).items, FIELDS) == FIELDS
    ensures Assigned(was, now, ToObject(m).items, FIELDS) <==> now == m
  {
    hide Decode, FieldValue, Get, Packed, Fits, Breaks, Verdict, Normal;
    var items := ToObject(m).items;
    MsgRepresentable(m);
    NormalIffCanonical(ToObject(m));
    WithinLimits(m);
    RoundTrip(WIRE, ToObject(m), 0, s);
    forall j | 0 <= j < FIELDS
      ensures FieldValue(j, items[j]) == Some(Get(m, j))
    {
      FieldRoundTrip(m, j);
    }
    SameFields(now, m);
  }

  lemma ParseAssigns(was: Msg, b: seq<byte>, now: Msg)
    requires Parse(was, b).Some?
    ensures Assigned(was, now, Decode(WIRE, b, 0).v.items, FIELDS) <==> now == Parse(was, b).value
  {
    hide Decode, ConvertSigned, ConvertUnsigned, ConvertString;
    SameFields(now, Parse(was, b).value);
  }

  /** Whatever the bytes, every field of an accepted message is in the range of its type. */
  lemma ParseTyped(was: Msg, b: seq<byte>)
    requires Typed(was) && Parse(was, b).Some?
    ensures Typed(Parse(was, b).value)
  {
    hide Decode;
    var items := Decode(WIRE, b, 0).v.items;
    forall k | 0 <= k < FIELDS && k != 1
      ensures InRange(k, Taken(k, was, items))
    {
      TakenInRange(k, was, items);
    }
    assert InRange(0, Taken(0, was, items)) && InRange(2, Taken(2, was, items)) && InRange(3, Taken(3, was, items));
    assert InRange(4, Taken(4, was, items)) && InRange(5, Taken(5, was, items)) && InRange(6, Taken(6, was, items));
    assert InRange(7, Taken(7, was, items));
  }

  ghost predicate InRange(k: nat, i: int) {
    if k == 0 || k == 5 then -I32 <= i < I32
    else if k == 4 || k == 7 then -I64 <= i < I64
    else 0 <= i < TWO_64
  }

  lemma TakenInRange(k: nat, was: Msg, items: seq<Object>)
    requires Typed(was) && k < FIELDS && k != 1
    ensures InRange(k, Taken(k, was, items))
  {
  }

  /** What unpack_msg makes of a packed message does not depend on the receiver. */
  lemma ParseEncode(was: Msg, m: Msg)
    requires Sendable(m)
    ensures Parse(was, Encode(m)) == Some(m)
  {
    hide Decode, FieldValue, Get, Packed;
    Restores(m, [], was, m);
    assert Encode(m) + [] == Encode(m);
    ParseAssigns(was, Encode(m), m);
  }

  /** The object o gives field k the value v: a string or binary its bytes, an integer in range itself. */
  ghost predicate Gives(k: nat, o: Object, v: Value) {
    if k == 1 then (o.Str? || o.Bin?) && v == Text(o.data)
    else (o.PosInt? && v == Number(o.u) && InRange(k, o.u)) || (o.NegInt? && v == Number(o.i) && InRange(k, o.i))
  }

  /** convert takes exactly the objects whose value is in the range of the field, and keeps it. */
  lemma FieldIff(k: nat, o: Object, v: Value)
    requires k < FIELDS && (o.NegInt? ==> -TWO_64 <= 2 * o.i < 0)
    ensures FieldValue(k, o) == Some(v) <==> Gives(k, o, v)
  {
    hide Cast;
    if o.NegInt? && -I32 <= o.i {
      CastFits(o.i, I32);
    }
    if o.NegInt? {
      CastFits(o.i, I64);
    }
  }

  lemma {:induction false} SpelledNegative(e: seq<byte>, vs: seq<Object>, j: nat)
    requires EncodesItems(e, vs) && j < |vs| && vs[j].NegInt?
    ensures -TWO_64 <= 2 * vs[j].i < 0
    decreases vs
  {
    hide Be;
    var k :| 0 <= k <= |e| && Encodes(e[..k], vs[0]) && EncodesItems(e[k..], vs[1..]);
    if j > 0 {
      SpelledNegative(e[k..], vs[1..], j - 1);
    }
  }

  /** A message read from the first n bytes of b, an array that fits the limits, on top of `was`. */
  ghost predicate ReadsAs(was: Msg, b: seq<byte>, n: nat, items: seq<Object>, m: Msg) {
    && n <= |b| && Encodes(b[..n], Array(items)) && Fits(WIRE, Array(items), 0)
    && forall j | 0 <= j < FIELDS ::
         if j < |items| then Gives(j, items[j], Get(m, j)) else Get(m, j) == Get(was, j)
  }

  /**
   * For any bytes: unpack_msg accepts them and holds m exactly if they start with some encoding of
   * an array whose elements give m its fields, the missing ones kept from before.
   */
  lemma ParseIff(was: Msg, b: seq<byte>, m: Msg)
    ensures Parse(was, b) == Some(m) <==> exists n: nat, items :: ReadsAs(was, b, n, items, m)
  {
    hide Decode, Encodes, Fits, Gives, Get, Parse;
    if Parse(was, b) == Some(m) {
      ArrayParsed(was, b);
      ParsedItems(was, b, m);
    }
    if n: nat, items :| ReadsAs(was, b, n, items, m) {
      DecodeIff(WIRE, b, 0, Array(items), n);
      ParsedItems(was, b, m);
    }
  }

  lemma ArrayParsed(was: Msg, b: seq<byte>)
    requires Parse(was, b).Some?
    ensures Decode(WIRE, b, 0).Value? && Decode(WIRE, b, 0).v.Array?
  {
    hide Decode, FieldValue;
  }

  lemma ParsedItems(was: Msg, b: seq<byte>, m: Msg)
    requires Decode(WIRE, b, 0).Value? && Decode(WIRE, b, 0).v.Array?
    ensures var d := Decode(WIRE, b, 0); Parse(was, b) == Some(m) <==> ReadsAs(was, b, d.n, d.v.items, m)
  {
    hide Decode, Encodes, Fits, FieldValue, Gives, Get;
    var d := Decode(WIRE, b, 0);
    var items := d.v.items;
    DecodeIff(WIRE, b, 0, d.v, d.n);
    forall j | 0 <= j < FIELDS && j < |items|
      ensures forall v :: FieldValue(j, items[j]) == Some(v) <==> Gives(j, items[j], v)
    {
      ItemGives(b[..d.n], items, j);
    }
    if Parse(was, b).Some? {
      ParseAssigns(was, b, m);
    }
  }

  lemma ItemGives(e: seq<byte>, items: seq<Object>, j: nat)
    requires Encodes(e, Array(items)) && j < FIELDS && j < |items|
    ensures forall v :: FieldValue(j, items[j]) == Some(v) <==> Gives(j, items[j], v)
  {
    hide SpellsOpen, EncodesItems, FieldValue, Gives;
    var k :| 1 <= k <= |e| && SpellsOpen(e[..k], false, |items|) && EncodesItems(e[k..], items);
    if items[j].NegInt? {
      SpelledNegative(e[k..], items, j);
    }
    forall v: Value
      ensures FieldValue(j, items[j]) == Some(v) <==> Gives(j, items[j], v)
    {
      FieldIff(j, items[j], v);
    }
  }

  lemma SameFields(a: Msg, b: Msg)
    ensures (forall j | 0 <= j < FIELDS :: Get(a, j) == Get(b, j)) <==> a == b
  {
    if forall j | 0 <= j < FIELDS :: Get(a, j) == Get(b, j) {
      assert Get(a, 0) == Get(b, 0) && Get(a, 1) == Get(b, 1) && Get(a, 2) == Get(b, 2);
      assert Get(a, 3) == Get(b, 3) && Get(a, 4) == Get(b, 4) && Get(a, 5) == Get(b, 5);
      assert Get(a, 6) == Get(b, 6) && Get(a, 7) == Get(b, 7);
    }
  }

  /** Every field fits the default limits, which only a name of 2^32 bytes or more would break. */
  lemma WithinLimits(m: Msg)
    requires Typed(m) && |m.filename| < TWO_32
    ensures Fits(WIRE, ToObject(m), 0)
  {
    hide Parts, Nesting, SizeFits;
    var items := ToObject(m).items;
    forall j | 0 <= j < FIELDS
      ensures Parts(items[j]) == [items[j]] && Nesting(items[j]) == 0 && SizeFits(WIRE, items[j])
    {
      FieldWithinLimits(m, j);
    }
    FlatItems(items);
    ArrayFits(items);
  }

  lemma FieldWithinLimits(m: Msg, j: nat)
    requires Typed(m) && |m.filename| < TWO_32 && j < FIELDS
    ensures var v := ToObject(m).items[j]; Parts(v) == [v] && Nesting(v) == 0 && SizeFits(WIRE, v)
  {
  }

  lemma {:induction false} FlatItems(vs: seq<Object>)
    requires forall j | 0 <= j < |vs| :: Parts(vs[j]) == [vs[j]] && Nesting(vs[j]) == 0
    ensures ItemParts(vs) == vs && ItemsNesting(vs) == 0
  {
    hide Parts, Nesting;
    if vs != [] {
      FlatItems(vs[1..]);
      assert [vs[0]] + vs[1..] == vs;
    }
  }

  lemma ArrayFits(items: seq<Object>)
    requires ItemParts(items) == items && ItemsNesting(items) == 0 && |items| == FIELDS
    requires forall j | 0 <= j < |items| :: SizeFits(WIRE, items[j])
    ensures Fits(WIRE, Array(items), 0)
  {
    assert Parts(Array(items)) == [Array(items)] + items;
    assert SizeFits(WIRE, Array(items));
  }

  /** Sending a message to a receiver in any state copies all eight fields. */
  method Relay(from: XioMsg, to: XioMsg) returns (ok: bool)
    requires Typed(from.Abs()) && from != to
    modifies to
    ensures from.Abs() == old(from.Abs())
    ensures ok <==> |from.filename| < TWO_32
    ensures to.Abs() == if ok then from.Abs() else old(to.Abs())
  {
    hide Decode, FieldValue, Get, Packed, Fits, Breaks, Verdict, Normal;
    var b := from.PackMsg();
    if b.None? {
      return false;
    }
    ghost var was := to.Abs();
    Restores(from.Abs(), [], was, from.Abs());
    assert b.value + [] == b.value;
    var r := to.UnpackMsg(b.value);
    Restores(from.Abs(), [], was, to.Abs());
    return true;
  }

  /** How many of the first n fields are dealt with before a type_error: n when there is none. */
  ghost function Convertible(items: seq<Object>, n: nat): (k: nat)
    requires n <= FIELDS
    ensures k <= n
    ensures forall j | 0 <= j < k && j < |items| :: FieldValue(j, items[j]).Some?
    ensures k < n ==> k < |items| && FieldValue(k, items[k]).None?
  {
    if n == 0 then 0
    else
      var k := Convertible(items, n - 1);
      if k < n - 1 then k
      else if n - 1 < |items| && FieldValue(n - 1, items[n - 1]).None? then n - 1
      else n
  }

  lemma MsgRepresentable(m: Msg)
    requires Typed(m) && |m.filename| < TWO_32
    ensures Representable(ToObject(m)) && Canonical(ToObject(m))
  {
  }

  lemma PackedArray(vs: seq<Object>)
    requires Representable(Array(vs))
    ensures Packed(Array(vs)) == ArrayHeader(|vs|) + PackedItems(vs)
  {
    hide PackedItems, SizeHeader;
  }

  lemma {:induction false} PackedSnoc(vs: seq<Object>, v: Object)
    requires forall x | x in vs + [v] :: Representable(x)
    ensures PackedItems(vs + [v]) == PackedItems(vs) + Packed(v)
    decreases vs
  {
    hide Packed;
    if vs == [] {
      assert (vs + [v])[1..] == [] && PackedItems([]) == [];
      assert PackedItems(vs + [v]) == Packed(v) + PackedItems([]);
    } else {
      assert (vs + [v])[1..] == vs[1..] + [v];
      PackedSnoc(vs[1..], v);
    }
  }
}
