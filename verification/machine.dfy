/**
 * The resumable parser of detail::context as a machine on values: what is left to read of the
 * current token, and a stack of half-built containers.
 */
module Machine {
  import opened Options
  import opened Bytes
  import opened Objects
  import opened Decoder

  // ---- parser states (unpack_define.h) ----

  const CS_BIN_8 := 0x04
  const CS_EXT_8 := 0x07
  const CS_FLOAT := 0x0a
  const CS_DOUBLE := 0x0b
  const CS_UINT_8 := 0x0c
  const CS_INT_8 := 0x10
  const CS_FIXEXT_1 := 0x14
  const CS_STR_8 := 0x19
  const CS_ARRAY_16 := 0x1c
  const CS_MAP_16 := 0x1e
  const CS_MAP_32 := 0x1f
  const ACS_STR_VALUE := 0x20
  const ACS_BIN_VALUE := 0x21
  const ACS_EXT_VALUE := 0x22

  /** At a first byte, or past it with `trail` bytes of field or body to read next. */
  datatype Cs = AtHeader | Within(code: nat, trail: nat)

  function TrailTable(): (t: seq<nat>)
    ensures |t| == 28
  {
    [1, 2, 4, 1, 2, 4, 4, 8, 1, 2, 4, 8, 1, 2, 4, 8, 2, 3, 5, 9, 17, 1, 2, 4, 2, 4, 2, 4]
  }

  predicate CsOk(cs: Cs) {
    match cs
    case AtHeader => true
    case Within(code, trail) =>
      if code <= CS_MAP_32 then code >= CS_BIN_8 && trail == TrailTable()[code - CS_BIN_8]
      else code <= ACS_EXT_VALUE && trail > 0
  }

  // ---- half-built containers (unpack_stack) ----

  datatype ContainerType = ArrayItem | MapKey | MapValue

  /** declared: the number of element slots allocated when the container was opened. */
  datatype Frame = Frame(obj: Object, declared: nat, count: nat, ctype: ContainerType, key: Object)

  /** A frame lacks at least one element, and holds exactly the declared elements minus the count. */
  ghost predicate FrameOk(f: Frame) {
    && f.count > 0
    && if f.ctype.ArrayItem? then f.obj.Array? && |f.obj.items| + f.count == f.declared
       else f.obj.Map? && |f.obj.pairs| + f.count == f.declared
  }

  ghost predicate FramesOk(fs: seq<Frame>) {
    forall i | 0 <= i < |fs| :: FrameOk(fs[i])
  }

  function NewFrame(isMap: bool, size: nat): Frame {
    if isMap then Frame(Map([]), size, size, MapKey, Nil) else Frame(Array([]), size, size, ArrayItem, Nil)
  }

  /** One finished element goes into the frame. */
  function Add(f: Frame, v: Object): (g: Frame)
    requires FrameOk(f)
    ensures g.count > 0 ==> FrameOk(g)
    ensures g.declared == f.declared
  {
    match f.ctype
    case ArrayItem => f.(obj := Array(f.obj.items + [v]), count := f.count - 1)
    case MapKey => f.(key := v, ctype := MapValue)
    case MapValue =>
      f.(obj := Map(f.obj.pairs + [KV(f.key, v)]), count := f.count - 1,
         ctype := if f.count == 1 then MapValue else MapKey)
  }

  datatype Delivered = Finished(v: Object) | Proceed(frames: seq<Frame>) | Reject(what: Overflow)

  /** push_item: hand a finished object to the innermost frame, closing every frame it completes. */
  function Push(fs: seq<Frame>, v: Object): (d: Delivered)
    requires FramesOk(fs)
    ensures !d.Reject?
    ensures d.Proceed? ==> FramesOk(d.frames) && 1 <= |d.frames| <= |fs|
  {
    if fs == [] then Finished(v)
    else
      var f := Add(fs[|fs| - 1], v);
      if f.count == 0 then Push(fs[..|fs| - 1], f.obj) else Proceed(fs[..|fs| - 1] + [f])
  }

  /** The effect of one complete token on the stack. */
  function Deliver(c: Config, fs: seq<Frame>, t: Token): (d: Delivered)
    requires FramesOk(fs) && TokenOk(t)
    ensures d.Proceed? ==> FramesOk(d.frames)
  {
    match t
    case Item(v) => Push(fs, v)
    case Blob(k, bs) =>
      (match BlobVerdict(c, k, |bs|)
       case Some(why) => Reject(why)
       case None => Push(fs, MakeBlob(k, bs)))
    case Open(isMap, size) =>
      match OpenVerdict(c, isMap, size, |fs|)
      case Some(why) => Reject(why)
      case None =>
        if size == 0 then Push(fs, if isMap then Map([]) else Array([])) else Proceed(fs + [NewFrame(isMap, size)])
  }

  // ---- one phase: the first byte, or the field or body it announced ----

  datatype Lexeme = Starved | Garbage | Goto(code: nat, trail: nat) | Complete(tok: Token)

  ghost predicate LexemeOk(x: Lexeme) {
    && (x.Goto? ==> CsOk(Within(x.code, x.trail)))
    && (x.Complete? ==> TokenOk(x.tok))
  }

  function LexHeader(h: byte): (x: Lexeme)
    ensures !x.Starved?
    ensures LexemeOk(x)
  {
    if h <= 0x7f then Complete(Item(PosInt(h)))
    else if h >= 0xe0 then Complete(Item(NegInt(h - 256)))
    else if h >= 0xc4 then Goto(h - 0xc0, TrailTable()[h - 0xc4])
    else if 0xa0 <= h <= 0xbf then
      if h == 0xa0 then Complete(Blob(StrBlob, [])) else Goto(ACS_STR_VALUE, h - 0xa0)
    else if 0x90 <= h <= 0x9f then Complete(Open(false, h - 0x90))
    else if 0x80 <= h <= 0x8f then Complete(Open(true, h - 0x80))
    else if h == 0xc2 then Complete(Item(Boolean(false)))
    else if h == 0xc3 then Complete(Item(Boolean(true)))
    else if h == 0xc0 then Complete(Item(Nil))
    else Garbage
  }

  /** A length field: the body comes next, unless it is empty. */
  function AfterLength(k: BlobKind, len: nat): (x: Lexeme)
    requires k.ExtBlob? ==> len > 0
    ensures LexemeOk(x)
  {
    if len == 0 then Complete(Blob(k, []))
    else Goto(match k case StrBlob => ACS_STR_VALUE case BinBlob => ACS_BIN_VALUE case ExtBlob => ACS_EXT_VALUE, len)
  }

  function LexTrail(code: nat, t: seq<byte>): (x: Lexeme)
    requires CsOk(Within(code, |t|))
    ensures x.Goto? || x.Complete?
    ensures LexemeOk(x)
  {
    if code < CS_EXT_8 then AfterLength(BinBlob, FromBe(t))
    else if code < CS_FLOAT then AfterLength(ExtBlob, FromBe(t) + 1)
    else if code == CS_FLOAT then Pow256Values(); Complete(Item(Float(Floats.Widen(FromBe(t)))))
    else if code == CS_DOUBLE then Complete(Item(Float(FromBe(t))))
    else if code < CS_INT_8 then Complete(Item(PosInt(FromBe(t))))
    else if code < CS_FIXEXT_1 then Complete(Item(IntObject(FromBeSigned(t))))
    else if code < CS_STR_8 then Complete(Blob(ExtBlob, t))
    else if code < CS_ARRAY_16 then AfterLength(StrBlob, FromBe(t))
    else if code < CS_MAP_16 then Complete(Open(false, FromBe(t)))
    else if code <= CS_MAP_32 then Complete(Open(true, FromBe(t)))
    else if code == ACS_STR_VALUE then Complete(Blob(StrBlob, t))
    else if code == ACS_BIN_VALUE then Complete(Blob(BinBlob, t))
    else Complete(Blob(ExtBlob, t))
  }

  function Lex(cs: Cs, b: seq<byte>): (x: Lexeme)
    requires CsOk(cs) && b != []
    ensures LexemeOk(x)
    ensures x.Garbage? ==> cs.AtHeader?
    ensures x.Starved? <==> cs.Within? && |b| < cs.trail
  {
    match cs
    case AtHeader => LexHeader(b[0])
    case Within(code, trail) => if |b| < trail then Starved else LexTrail(code, b[..trail])
  }

  /** The bytes one phase uses up. */
  function Bite(cs: Cs): nat {
    if cs.AtHeader? then 1 else cs.trail
  }

  // ---- whole runs ----

  datatype State = State(cs: Cs, frames: seq<Frame>)

  ghost predicate StateOk(s: State) {
    CsOk(s.cs) && FramesOk(s.frames)
  }

  const INIT := State(AtHeader, [])

  datatype Outcome =
    | More(st: State, n: nat)      // n bytes used; st waits for the rest
    | Done(v: Object, n: nat)
    | Fail(n: nat)
    | Throw(what: Overflow)
  {
    function Plus(k: nat): Outcome {
      match this
      case More(s, n) => More(s, n + k)
      case Done(v, n) => Done(v, n + k)
      case Fail(n) => Fail(n + k)
      case Throw(_) => this
    }
  }

  /** The state after a lexeme that does not end the run. */
  function Next(c: Config, s: State, x: Lexeme): (r: Option<State>)
    requires StateOk(s) && LexemeOk(x)
    ensures r.Some? ==> StateOk(r.value)
  {
    match x
    case Goto(code, trail) => Some(State(Within(code, trail), s.frames))
    case Complete(t) =>
      (match Deliver(c, s.frames, t)
       case Proceed(fs) => Some(State(AtHeader, fs))
       case _ => None)
    case _ => None
  }

  /** How the run ends at a lexeme of w bytes that has no next state. */
  function End(c: Config, s: State, x: Lexeme, w: nat): (o: Outcome)
    requires StateOk(s) && LexemeOk(x) && Next(c, s, x).None?
    ensures o.More? ==> o == More(s, 0)
    ensures o.Done? ==> o.n == w
    ensures o.Fail? ==> o.n == 0
  {
    match x
    case Starved => More(s, 0)
    case Garbage => Fail(0)
    case Complete(t) =>
      match Deliver(c, s.frames, t)
      case Finished(v) => Done(v, w)
      case Reject(what) => Throw(what)
  }

  /** The machine from state s on input b, up to its first object, error or the end of b. */
  function Run(c: Config, s: State, b: seq<byte>): (o: Outcome)
    requires StateOk(s)
    ensures o.More? ==> StateOk(o.st)
    ensures !o.Throw? ==> o.n <= |b|
    ensures o.Done? ==> o.n >= 1
    decreases |b|
  {
    if b == [] then More(s, 0)
    else
      hide LexHeader, LexTrail, Deliver;
      var x, w := Lex(s.cs, b), Bite(s.cs);
      match Next(c, s, x)
      case Some(s1) => Run(c, s1, b[w..]).Plus(w)
      case None => End(c, s, x, w)
  }

  // ---- resumption ----

  /** A lexeme read from a is read the same way when more input follows. */
  lemma LexExtends(cs: Cs, a: seq<byte>, b: seq<byte>)
    requires CsOk(cs) && a != [] && !Lex(cs, a).Starved?
    ensures Lex(cs, a + b) == Lex(cs, a)
  {
    if cs.Within? {
      assert (a + b)[..cs.trail] == a[..cs.trail];
    }
  }

  /** The run oab on a + b continues the run oa on a. */
  ghost predicate Resumes(c: Config, oa: Outcome, a: seq<byte>, b: seq<byte>, oab: Outcome) {
    match oa
    case More(s, n) => n <= |a| && StateOk(s) && oab == Run(c, s, a[n..] + b).Plus(n)
    case _ => oab == oa
  }

  lemma ResumesLater(c: Config, oa: Outcome, a: seq<byte>, w: nat, b: seq<byte>, oab: Outcome)
    requires w <= |a| && Resumes(c, oa, a[w..], b, oab)
    ensures Resumes(c, oa.Plus(w), a, b, oab.Plus(w))
  {
    hide Run;
    if oa.More? {
      assert a[w..][oa.n..] == a[w + oa.n..];
    }
  }

  /**
   * Resumability: stopping at the end of a, and going on from the state and the unread bytes
   * reached there, is the same as never stopping; a run that ends inside a ignores what follows.
   */
  lemma {:induction false} Resume(c: Config, s: State, a: seq<byte>, b: seq<byte>)
    requires StateOk(s)
    ensures Resumes(c, Run(c, s, a), a, b, Run(c, s, a + b))
    decreases |a|
  {
    hide LexHeader, LexTrail, Deliver;
    if a == [] || Lex(s.cs, a).Starved? {
      assert Run(c, s, a) == More(s, 0);
      assert a[0..] + b == a + b;
    } else {
      LexExtends(s.cs, a, b);
      var w, next := Bite(s.cs), Next(c, s, Lex(s.cs, a));
      if next.Some? {
        assert (a + b)[w..] == a[w..] + b;
        Resume(c, next.value, a[w..], b);
        ResumesLater(c, Run(c, next.value, a[w..]), a, w, b, Run(c, next.value, a[w..] + b));
      }
    }
  }
}
