/** The stack machine computes what the recursive decoder computes. */
module Refinement {
  import opened Bytes
  import opened Objects
  import opened Decoder
  import opened Machine

  /** The rest of the run once the first n bytes of b have had effect d. */
  ghost function Continue(c: Config, d: Delivered, b: seq<byte>, n: nat): Outcome
    requires n <= |b| && (d.Proceed? ==> FramesOk(d.frames))
  {
    match d
    case Finished(v) => Done(v, n)
    case Reject(what) => Throw(what)
    case Proceed(fs) => Run(c, State(AtHeader, fs), b[n..]).Plus(n)
  }

  lemma ContinueLater(c: Config, d: Delivered, b: seq<byte>, k: nat, n: nat)
    requires k + n <= |b| && (d.Proceed? ==> FramesOk(d.frames))
    ensures Continue(c, d, b[k..], n).Plus(k) == Continue(c, d, b, k + n)
  {
    hide Run;
    assert b[k..][n..] == b[k + n..];
  }

  // ---- one token: at most three phases of the machine read one head of the format ----

  lemma HeaderPhase(c: Config, fs: seq<Frame>, b: seq<byte>)
    requires FramesOk(fs) && b != []
    ensures var x, r := LexHeader(b[0]), Run(c, State(AtHeader, fs), b);
            && (x.Garbage? ==> r == Fail(0))
            && (x.Goto? ==> r == Run(c, State(Within(x.code, x.trail), fs), b[1..]).Plus(1))
            && (x.Complete? ==> r == Continue(c, Deliver(c, fs, x.tok), b, 1))
  {
  }

  lemma TrailPhase(c: Config, fs: seq<Frame>, code: nat, trail: nat, b: seq<byte>)
    requires FramesOk(fs) && CsOk(Within(code, trail))
    ensures var r := Run(c, State(Within(code, trail), fs), b);
            if |b| < trail then r.More? && r.n == 0
            else
              var x := LexTrail(code, b[..trail]);
              && (x.Goto? ==> r == Run(c, State(Within(x.code, x.trail), fs), b[trail..]).Plus(trail))
              && (x.Complete? ==> r == Continue(c, Deliver(c, fs, x.tok), b, trail))
  {
  }

  /** The machine agrees with ReadHead on the token at the front of b. */
  ghost predicate ReadsHead(c: Config, fs: seq<Frame>, b: seq<byte>, h: Head)
    requires FramesOk(fs)
  {
    var r := Run(c, State(AtHeader, fs), b);
    match h
    case Short(n) => r.More? && r.n == n
    case Bad => r == Fail(0)
    case Whole(t, n) => n <= |b| && TokenOk(t) && r == Continue(c, Deliver(c, fs, t), b, n)
  }

  /** A first byte and the field or body it announces, read as one token. */
  lemma TwoPhases(c: Config, fs: seq<Frame>, b: seq<byte>, code: nat, trail: nat)
    requires FramesOk(fs) && b != [] && LexHeader(b[0]) == Goto(code, trail)
    ensures var r := Run(c, State(AtHeader, fs), b);
            if |b| - 1 < trail then r.More? && r.n == 1
            else
              var x := LexTrail(code, b[1..1 + trail]);
              && (x.Goto? ==> r == Run(c, State(Within(x.code, x.trail), fs), b[1 + trail..]).Plus(1 + trail))
              && (x.Complete? ==> r == Continue(c, Deliver(c, fs, x.tok), b, 1 + trail))
  {
    hide Run, Deliver;
    HeaderPhase(c, fs, b);
    TrailPhase(c, fs, code, trail, b[1..]);
    if |b| - 1 >= trail {
      assert b[1..][..trail] == b[1..1 + trail];
      assert b[1..][trail..] == b[1 + trail..];
      var x := LexTrail(code, b[1..1 + trail]);
      if x.Complete? {
        ContinueLater(c, Deliver(c, fs, x.tok), b, 1, trail);
      }
    }
  }

  /** First byte, then a body whose size it gives. */
  lemma ReadsBody(c: Config, fs: seq<Frame>, b: seq<byte>)
    requires FramesOk(fs) && b != [] && (0xa1 <= b[0] <= 0xbf || 0xd4 <= b[0] <= 0xd8)
    ensures ReadsHead(c, fs, b, ReadHead(b))
  {
    hide Run, Deliver;
    var x := LexHeader(b[0]);
    TwoPhases(c, fs, b, x.code, x.trail);
  }

  lemma FieldLexemes(h: byte, s: seq<byte>)
    requires (0xca <= h <= 0xd3 || 0xdc <= h <= 0xdf) && |s| == TrailTable()[h as int - 0xc4]
    ensures LexTrail(h as int - 0xc0, s) == Complete(ReadField(h, s))
  {
  }

  lemma FieldHead(b: seq<byte>)
    requires b != [] && (0xca <= b[0] <= 0xd3 || 0xdc <= b[0] <= 0xdf)
    ensures ReadHead(b) == Field(TrailTable()[b[0] as int - 0xc4], b)
  {
  }

  /** First byte, then a field of fixed width. */
  lemma ReadsField(c: Config, fs: seq<Frame>, b: seq<byte>)
    requires FramesOk(fs) && b != [] && (0xca <= b[0] <= 0xd3 || 0xdc <= b[0] <= 0xdf)
    ensures ReadsHead(c, fs, b, ReadHead(b))
  {
    hide Run, Deliver, ReadHead, LexTrail;
    FieldHead(b);
    var x := LexHeader(b[0]);
    TwoPhases(c, fs, b, x.code, x.trail);
    if |b| - 1 >= x.trail {
      FieldLexemes(b[0], b[1..1 + x.trail]);
    }
  }

  /** First byte, then a length, then a body of that length. */
  lemma LexLength(k: BlobKind, code: nat, field: seq<byte>)
    requires CsOk(Within(code, |field|))
    requires match k
             case BinBlob => 0x04 <= code <= 0x06
             case ExtBlob => 0x07 <= code <= 0x09
             case StrBlob => 0x19 <= code <= 0x1b
    ensures LexTrail(code, field) == AfterLength(k, FromBe(field) + (if k.ExtBlob? then 1 else 0))
  {
    hide FromBe, FromBeSigned, IntObject, TrailTable, AfterLength;
  }

  lemma LexBody(k: BlobKind, body: seq<byte>)
    requires body != []
    ensures LexTrail(AfterLength(k, |body|).code, body) == Complete(Blob(k, body))
  {
  }

  /** The body of len bytes that starts at b[at]. */
  lemma BodyPhase(c: Config, fs: seq<Frame>, b: seq<byte>, k: BlobKind, at: nat, len: nat)
    requires FramesOk(fs) && at <= |b| && len > 0
    ensures var r := Run(c, State(Within(AfterLength(k, len).code, len), fs), b[at..]).Plus(at);
            if |b| - at < len then r.More? && r.n == at
            else
              && TokenOk(Blob(k, b[at..at + len]))
              && r == Continue(c, Deliver(c, fs, Blob(k, b[at..at + len])), b, at + len)
  {
    hide Run, Deliver, LexTrail;
    TrailPhase(c, fs, AfterLength(k, len).code, len, b[at..]);
    if |b| - at >= len {
      assert b[at..][..len] == b[at..at + len];
      LexBody(k, b[at..at + len]);
      ContinueLater(c, Deliver(c, fs, Blob(k, b[at..at + len])), b, at, len);
    }
  }

  lemma ReadsPrefixed(c: Config, fs: seq<Frame>, b: seq<byte>, k: BlobKind, code: nat, w: nat)
    requires FramesOk(fs) && b != []
    requires LexHeader(b[0]) == Goto(code, w)
    requires match k
             case BinBlob => 0x04 <= code <= 0x06
             case ExtBlob => 0x07 <= code <= 0x09
             case StrBlob => 0x19 <= code <= 0x1b
    ensures ReadsHead(c, fs, b, Prefixed(k, w, b))
  {
    hide Run, Deliver, LexHeader, FromBe, LexTrail;
    TwoPhases(c, fs, b, code, w);
    if |b| - 1 >= w {
      var field := b[1..1 + w];
      var len := FromBe(field) + (if k.ExtBlob? then 1 else 0);
      LexLength(k, code, field);
      if len == 0 {
        assert b[1 + w..1 + w + len] == [];
      } else {
        BodyPhase(c, fs, b, k, 1 + w, len);
      }
    }
  }

  /** Everything is in the first byte. */
  lemma ReadsByte(c: Config, fs: seq<Frame>, b: seq<byte>)
    requires FramesOk(fs) && b != []
    requires b[0] <= 0xa0 || 0xc0 <= b[0] <= 0xc3 || 0xe0 <= b[0]
    ensures ReadsHead(c, fs, b, ReadHead(b))
  {
    hide Run, Deliver;
    HeaderPhase(c, fs, b);
    assert b[0] == 0xa0 ==> b[1..1] == [];
  }

  lemma HeadRun(c: Config, fs: seq<Frame>, b: seq<byte>)
    requires FramesOk(fs)
    ensures ReadsHead(c, fs, b, ReadHead(b))
  {
    hide Deliver, LexTrail, FromBe;
    if b == [] {
    } else if 0xa1 <= b[0] <= 0xbf || 0xd4 <= b[0] <= 0xd8 {
      ReadsBody(c, fs, b);
    } else if 0xca <= b[0] <= 0xd3 || 0xdc <= b[0] <= 0xdf {
      ReadsField(c, fs, b);
    } else if 0xc4 <= b[0] <= 0xc6 {
      ReadsPrefixed(c, fs, b, BinBlob, b[0] as int - 0xc0, Width(b[0] as int - 0xc4));
    } else if 0xc7 <= b[0] <= 0xc9 {
      ReadsPrefixed(c, fs, b, ExtBlob, b[0] as int - 0xc0, Width(b[0] as int - 0xc7));
    } else if 0xd9 <= b[0] <= 0xdb {
      ReadsPrefixed(c, fs, b, StrBlob, b[0] as int - 0xc0, Width(b[0] as int - 0xd9));
    } else {
      ReadsByte(c, fs, b);
    }
  }

  // ---- frames against lists of elements ----

  /** How many more objects the frame waits for. */
  ghost function Slots(f: Frame): (n: nat)
    requires FrameOk(f)
    ensures n >= 1
  {
    match f.ctype
    case ArrayItem => f.count
    case MapKey => 2 * f.count
    case MapValue => 2 * f.count - 1
  }

  /** The container once exactly the objects vs have arrived. */
  ghost function Filled(f: Frame, vs: seq<Object>): Object
    requires FrameOk(f) && |vs| == Slots(f)
  {
    match f.ctype
    case ArrayItem => Array(f.obj.items + vs)
    case MapKey => Map(f.obj.pairs + PairUp(vs))
    case MapValue => Map(f.obj.pairs + PairUp([f.key] + vs))
  }

  lemma FillOne(f: Frame, v: Object)
    requires FrameOk(f)
    ensures Slots(f) == 1 <==> Add(f, v).count == 0
    ensures Slots(f) == 1 ==> Filled(f, [v]) == Add(f, v).obj
    ensures Slots(f) > 1 ==> FrameOk(Add(f, v)) && Slots(Add(f, v)) == Slots(f) - 1
  {
    if f.ctype.MapValue? && f.count == 1 {
      assert PairUp([f.key] + [v]) == [KV(f.key, v)];
    }
  }

  lemma FillRest(f: Frame, v: Object, vs: seq<Object>)
    requires FrameOk(f) && Slots(f) == 1 + |vs| && vs != []
    ensures FrameOk(Add(f, v)) && Slots(Add(f, v)) == |vs|
    ensures Filled(f, [v] + vs) == Filled(Add(f, v), vs)
  {
    FillOne(f, v);
    match f.ctype {
      case ArrayItem =>
        assert f.obj.items + ([v] + vs) == f.obj.items + [v] + vs;
      case MapKey =>
      case MapValue =>
        assert ([f.key] + ([v] + vs))[2..] == vs;
        assert f.obj.pairs + PairUp([f.key] + ([v] + vs)) == f.obj.pairs + [KV(f.key, v)] + PairUp(vs);
    }
  }

  // ---- the simulation ----

  /** The run from a header inside frames fs, given what the decoder says of the same bytes. */
  ghost predicate Follows(c: Config, fs: seq<Frame>, b: seq<byte>, d: Decoded)
    requires FramesOk(fs)
  {
    var r := Run(c, State(AtHeader, fs), b);
    match d
    case Value(v, n) => n <= |b| && r == Continue(c, Push(fs, v), b, n)
    case NeedMore(n) => r.More? && r.n == n
    case ParseError(n) => r == Fail(n)
    case Overflowed(what) => r == Throw(what)
  }

  /** The run inside frame f, given what the decoder says of the elements f still waits for. */
  ghost predicate FollowsItems(c: Config, fs: seq<Frame>, f: Frame, b: seq<byte>, d: DecodedItems)
    requires FramesOk(fs) && FrameOk(f)
  {
    match d
    case Values(vs, n) =>
      && n <= |b| && |vs| == Slots(f)
      && Run(c, State(AtHeader, fs + [f]), b) == Continue(c, Push(fs, Filled(f, vs)), b, n)
    case NoValues(why) => !why.Value? && Follows(c, fs + [f], b, why)
  }

  lemma FollowsLater(c: Config, fs: seq<Frame>, fs1: seq<Frame>, b: seq<byte>, n: nat, d: Decoded)
    requires FramesOk(fs) && FramesOk(fs1) && n <= |b| && !d.Value?
    requires Run(c, State(AtHeader, fs), b) == Run(c, State(AtHeader, fs1), b[n..]).Plus(n)
    requires Follows(c, fs1, b[n..], d)
    ensures Follows(c, fs, b, d.Plus(n))
  {
    hide Run;
  }

  lemma NoItems(c: Config, b: seq<byte>, depth: nat)
    ensures DecodeItems(c, b, 0, depth) == Values([], 0)
  {
  }

  lemma {:induction false} Simulate(c: Config, fs: seq<Frame>, b: seq<byte>)
    requires FramesOk(fs)
    ensures Follows(c, fs, b, Decode(c, b, |fs|))
    decreases |b|, 0
  {
    hide Run, ReadHead, DecodeItems;
    HeadRun(c, fs, b);
    var h := ReadHead(b);
    if h.Whole? && h.tok.Open? && OpenVerdict(c, h.tok.isMap, h.tok.size, |fs|).None? {
      SimulateOpen(c, fs, b, h.tok.isMap, h.tok.size, h.n);
    }
  }

  lemma {:induction false} SimulateOpen(c: Config, fs: seq<Frame>, b: seq<byte>, isMap: bool, size: nat, n: nat)
    requires FramesOk(fs) && 1 <= n <= |b|
    requires ReadHead(b) == Whole(Open(isMap, size), n)
    requires OpenVerdict(c, isMap, size, |fs|).None?
    requires ReadsHead(c, fs, b, ReadHead(b))
    ensures Follows(c, fs, b, Decode(c, b, |fs|))
    decreases |b|, 0, 0
  {
    hide Run, ReadHead, DecodeItems;
    var k := if isMap then 2 * size else size;
    var d := DecodeItems(c, b[n..], k, |fs| + 1);
    if size == 0 {
      NoItems(c, b[n..], |fs| + 1);
    } else {
      var f := NewFrame(isMap, size);
      SimulateItems(c, fs, f, b[n..]);
      assert Run(c, State(AtHeader, fs), b) == Run(c, State(AtHeader, fs + [f]), b[n..]).Plus(n);
      match d {
        case Values(vs, m) =>
          assert Filled(f, vs) == MakeContainer(isMap, vs) by {
            assert [] + vs == vs;
            if isMap {
              assert [] + PairUp(vs) == PairUp(vs);
            }
          }
          ContinueLater(c, Push(fs, Filled(f, vs)), b, n, m);
        case NoValues(why) =>
          FollowsLater(c, fs, fs + [f], b, n, why);
      }
    }
  }

  lemma {:induction false} SimulateItems(c: Config, fs: seq<Frame>, f: Frame, b: seq<byte>)
    requires FramesOk(fs) && FrameOk(f)
    ensures FollowsItems(c, fs, f, b, DecodeItems(c, b, Slots(f), |fs| + 1))
    decreases |b|, 1
  {
    hide Run, Decode, Filled, PairUp, Slots, Add;
    var all := fs + [f];
    Simulate(c, all, b);
    var d := Decode(c, b, |fs| + 1);
    if d.Value? {
      var g := Add(f, d.v);
      FillOne(f, d.v);
      assert all[..|all| - 1] == fs;
      if g.count == 0 {
        NoItems(c, b[d.n..], |fs| + 1);
        assert [d.v] + [] == [d.v];
      } else {
        SimulateItems(c, fs, g, b[d.n..]);
        assert Run(c, State(AtHeader, all), b) == Run(c, State(AtHeader, fs + [g]), b[d.n..]).Plus(d.n);
        match DecodeItems(c, b[d.n..], Slots(g), |fs| + 1) {
          case Values(vs, m) =>
            FillRest(f, d.v, vs);
            ContinueLater(c, Push(fs, Filled(g, vs)), b, d.n, m);
          case NoValues(why) =>
            FollowsLater(c, all, fs + [g], b, d.n, why);
        }
      }
    }
  }

  /**
   * Refinement: from its initial state the machine returns an object, asks for more, fails or
   * throws exactly when the recursive decoder does, with the same object, offset and reason.
   */
  lemma Refines(c: Config, b: seq<byte>)
    ensures match Decode(c, b, 0)
            case Value(v, n) => Run(c, INIT, b) == Done(v, n)
            case NeedMore(n) => Run(c, INIT, b).More? && Run(c, INIT, b).n == n
            case ParseError(n) => Run(c, INIT, b) == Fail(n)
            case Overflowed(what) => Run(c, INIT, b) == Throw(what)
  {
    Simulate(c, [], b);
  }
}
