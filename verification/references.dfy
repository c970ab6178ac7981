/**
 * Zero-copy parsing: the strings, binaries and extensions that are left in the input buffer
 * (set_referenced) instead of being copied into the zone.
 */
module References {
  import opened Bytes
  import opened Objects
  import opened Decoder
  import opened Machine

  /** A pointer into the input: the bytes at pos, of the length of data. */
  datatype Ref = Ref(pos: nat, data: seq<byte>) {
    function Plus(k: nat): Ref { Ref(pos + k, data) }
  }

  function Shift(rs: seq<Ref>, k: nat): (ss: seq<Ref>)
    ensures |ss| == |rs| && forall i | 0 <= i < |rs| :: ss[i] == rs[i].Plus(k)
  {
    seq(|rs|, i requires 0 <= i < |rs| => rs[i].Plus(k))
  }

  function Contents(rs: seq<Ref>): (ds: seq<seq<byte>>)
    ensures |ds| == |rs| && forall i | 0 <= i < |rs| :: ds[i] == rs[i].data
  {
    seq(|rs|, i requires 0 <= i < |rs| => rs[i].data)
  }

  /** The reference made by a token that ends at position `end`. */
  function TokenRefs(c: Config, t: Token, end: nat): seq<Ref>
    requires t.Blob? ==> |t.bs| <= end
  {
    if t.Blob? && c.refers(t.kind, |t.bs|) then [Ref(end - |t.bs|, t.bs)] else []
  }

  lemma HeaderFits(h: byte)
    ensures LexHeader(h).Complete? && LexHeader(h).tok.Blob? ==> LexHeader(h).tok.bs == []
  {
  }

  lemma TrailFits(code: nat, t: seq<byte>)
    requires CsOk(Within(code, |t|))
    ensures var x := LexTrail(code, t);
            x.Complete? && x.tok.Blob? ==> x.tok.bs == [] || x.tok.bs == t
  {
    hide FromBe, FromBeSigned, TrailTable, IntObject;
  }

  /** A complete lexeme holds no more bytes than were read for it, the last of them. */
  lemma LexemeFits(cs: Cs, b: seq<byte>)
    requires CsOk(cs) && b != []
    ensures var x := Lex(cs, b);
            x.Complete? && x.tok.Blob? ==>
              |x.tok.bs| <= Bite(cs) <= |b| && b[Bite(cs) - |x.tok.bs|..Bite(cs)] == x.tok.bs
  {
    hide LexHeader, LexTrail, TrailTable;
    if cs.AtHeader? {
      HeaderFits(b[0]);
    } else if |b| >= cs.trail {
      TrailFits(cs.code, b[..cs.trail]);
      assert b[0..cs.trail] == b[..cs.trail];
    }
  }

  /** All references made by the run of the machine on b, in order. */
  function Refs(c: Config, s: State, b: seq<byte>): (rs: seq<Ref>)
    requires StateOk(s)
    decreases |b|
  {
    if b == [] then []
    else
      hide LexHeader, LexTrail, Deliver;
      var x, w := Lex(s.cs, b), Bite(s.cs);
      LexemeFits(s.cs, b);
      var own := if x.Complete? then TokenRefs(c, x.tok, w) else [];
      match Next(c, s, x)
      case Some(s1) => own + Shift(Refs(c, s1, b[w..]), w)
      case None => own
  }

  // ---- every reference points at its bytes, inside the part of the input that was used ----

  ghost predicate PointsInto(r: Ref, b: seq<byte>, end: nat) {
    r.pos + |r.data| <= end <= |b| && b[r.pos..r.pos + |r.data|] == r.data
  }

  lemma PointsIntoLater(r: Ref, b: seq<byte>, w: nat, end: nat)
    requires w <= |b| && PointsInto(r, b[w..], end)
    ensures PointsInto(r.Plus(w), b, w + end)
  {
    assert b[w..][r.pos..r.pos + |r.data|] == b[w + r.pos..w + r.pos + |r.data|];
  }

  ghost function Used(o: Outcome, b: seq<byte>): nat {
    if o.Throw? then |b| else o.n
  }

  lemma FirstRefsInto(c: Config, s: State, b: seq<byte>)
    requires StateOk(s) && b != []
    ensures forall r | r in FirstRefs(c, s, b) :: PointsInto(r, b, Used(Run(c, s, b), b))
  {
    hide Lex, Next, End, Run, PointsInto, TokenRefs;
    var x, w := Lex(s.cs, b), Bite(s.cs);
    LexemeFits(s.cs, b);
    if x.Complete? {
      TokenIsUsed(c, s, b);
      OwnRefs(c, x.tok, b, w, Used(Run(c, s, b), b));
    }
  }

  lemma {:induction false} RefsPointInto(c: Config, s: State, b: seq<byte>)
    requires StateOk(s)
    ensures forall r | r in Refs(c, s, b) :: PointsInto(r, b, Used(Run(c, s, b), b))
    decreases |b|
  {
    if b == [] {
      assert Refs(c, s, b) == [];
    } else {
      RefsPointIntoStep(c, s, b);
    }
  }

  lemma {:induction false} RefsPointIntoStep(c: Config, s: State, b: seq<byte>)
    requires StateOk(s) && b != []
    ensures forall r | r in Refs(c, s, b) :: PointsInto(r, b, Used(Run(c, s, b), b))
    decreases |b|, 0
  {
    hide Next, End, Lex, Run, Refs, FirstRefs, PointsInto;
    var w, next := Bite(s.cs), Next(c, s, Lex(s.cs, b));
    FirstRefsInto(c, s, b);
    RefsStep(c, s, b);
    BitePositive(s.cs);
    if next.Some? {
      RunStep(c, s, b);
      RefsPointInto(c, next.value, b[w..]);
      RefsLater(Refs(c, next.value, b[w..]), b, w, Used(Run(c, next.value, b[w..]), b[w..]));
    }
  }

  lemma RefsLater(later: seq<Ref>, b: seq<byte>, w: nat, end: nat)
    requires w <= |b| && forall r | r in later :: PointsInto(r, b[w..], end)
    ensures forall r | r in Shift(later, w) :: PointsInto(r, b, w + end)
  {
    hide PointsInto;
    forall r | r in Shift(later, w)
      ensures PointsInto(r, b, w + end)
    {
      var i :| 0 <= i < |later| && r == later[i].Plus(w);
      PointsIntoLater(later[i], b, w, end);
    }
  }

  lemma RunStep(c: Config, s: State, b: seq<byte>)
    requires StateOk(s) && b != [] && Next(c, s, Lex(s.cs, b)).Some?
    ensures Bite(s.cs) <= |b|
    ensures Run(c, s, b) == Run(c, Next(c, s, Lex(s.cs, b)).value, b[Bite(s.cs)..]).Plus(Bite(s.cs))
  {
    hide LexHeader, LexTrail, Deliver;
  }

  lemma TokenIsUsed(c: Config, s: State, b: seq<byte>)
    requires StateOk(s) && b != [] && Lex(s.cs, b).Complete?
    ensures Bite(s.cs) <= Used(Run(c, s, b), b) <= |b|
  {
    hide LexHeader, LexTrail, Deliver;
    if Next(c, s, Lex(s.cs, b)).Some? {
      RunStep(c, s, b);
    }
  }

  lemma OwnRefs(c: Config, t: Token, b: seq<byte>, w: nat, end: nat)
    requires w <= end <= |b|
    requires t.Blob? ==> |t.bs| <= w && b[w - |t.bs|..w] == t.bs
    ensures forall r | r in TokenRefs(c, t, w) :: PointsInto(r, b, end)
  {
  }

  // ---- the references are exactly the referenced blobs of the objects, in order ----

  /** The bytes of v that are left in the input, in the order they were read. */
  ghost function Blobs(c: Config, v: Object): seq<seq<byte>>
    decreases v
  {
    match v
    case Str(data) => if c.refers(StrBlob, |data|) then [data] else []
    case Bin(data) => if c.refers(BinBlob, |data|) then [data] else []
    case Ext(kind, data) => if c.refers(ExtBlob, 1 + |data|) then [[kind] + data] else []
    case Array(items) => ItemBlobs(c, items)
    case Map(pairs) => PairBlobs(c, pairs)
    case _ => []
  }

  ghost function ItemBlobs(c: Config, vs: seq<Object>): seq<seq<byte>>
    decreases vs
  {
    if vs == [] then [] else ItemBlobs(c, vs[..|vs| - 1]) + Blobs(c, vs[|vs| - 1])
  }

  ghost function PairBlobs(c: Config, ps: seq<KV>): seq<seq<byte>>
    decreases ps
  {
    if ps == [] then [] else PairBlobs(c, ps[..|ps| - 1]) + KVBlobs(c, ps[|ps| - 1])
  }

  ghost function KVBlobs(c: Config, p: KV): seq<seq<byte>>
    decreases p
  {
    Blobs(c, p.key) + Blobs(c, p.val)
  }

  /** The blobs of a half-built container, including a map key that waits for its value. */
  ghost function FrameBlobs(c: Config, f: Frame): seq<seq<byte>> {
    Blobs(c, f.obj) + if f.ctype.MapValue? then Blobs(c, f.key) else []
  }

  ghost function StackBlobs(c: Config, fs: seq<Frame>): seq<seq<byte>> {
    if fs == [] then [] else StackBlobs(c, fs[..|fs| - 1]) + FrameBlobs(c, fs[|fs| - 1])
  }

  /** The blobs of everything a delivery leaves behind. */
  ghost function DeliveredBlobs(c: Config, d: Delivered): seq<seq<byte>> {
    match d
    case Finished(v) => Blobs(c, v)
    case Proceed(fs) => StackBlobs(c, fs)
    case Reject(_) => []
  }

  lemma AddItemBlobs(c: Config, vs: seq<Object>, v: Object)
    ensures ItemBlobs(c, vs + [v]) == ItemBlobs(c, vs) + Blobs(c, v)
  {
    hide Blobs;
    assert (vs + [v])[..|vs|] == vs;
  }

  lemma AddPairBlobs(c: Config, ps: seq<KV>, key: Object, val: Object)
    ensures PairBlobs(c, ps + [KV(key, val)]) == PairBlobs(c, ps) + Blobs(c, key) + Blobs(c, val)
  {
    hide Blobs;
    var pairs := ps + [KV(key, val)];
    assert pairs[..|pairs| - 1] == ps;
    assert KVBlobs(c, KV(key, val)) == Blobs(c, key) + Blobs(c, val);
  }

  ghost predicate Added(c: Config, f: Frame, v: Object)
    requires FrameOk(f)
  {
    && (Add(f, v).count > 0 ==> FrameBlobs(c, Add(f, v)) == FrameBlobs(c, f) + Blobs(c, v))
    && (Add(f, v).count == 0 ==> Blobs(c, Add(f, v).obj) == FrameBlobs(c, f) + Blobs(c, v))
  }

  lemma AddToArray(c: Config, f: Frame, v: Object)
    requires FrameOk(f) && f.ctype.ArrayItem?
    ensures Added(c, f, v)
  {
    hide ItemBlobs;
    AddItemBlobs(c, f.obj.items, v);
  }

  lemma AddKey(c: Config, f: Frame, v: Object)
    requires FrameOk(f) && f.ctype.MapKey?
    ensures Added(c, f, v)
  {
    hide Blobs;
  }

  lemma AddToMap(c: Config, f: Frame, v: Object)
    requires FrameOk(f) && f.ctype.MapValue?
    ensures Added(c, f, v)
  {
    hide PairBlobs, KVBlobs;
    AddPairBlobs(c, f.obj.pairs, f.key, v);
  }

  lemma AddBlobs(c: Config, f: Frame, v: Object)
    requires FrameOk(f)
    ensures Added(c, f, v)
  {
    hide Added;
    match f.ctype
    case ArrayItem => AddToArray(c, f, v);
    case MapKey => AddKey(c, f, v);
    case MapValue => AddToMap(c, f, v);
  }

  lemma {:induction false} PushBlobs(c: Config, fs: seq<Frame>, v: Object)
    requires FramesOk(fs)
    ensures DeliveredBlobs(c, Push(fs, v)) == StackBlobs(c, fs) + Blobs(c, v)
  {
    hide Blobs, Add, FrameBlobs;
    if fs != [] {
      var outer, f := fs[..|fs| - 1], fs[|fs| - 1];
      AddBlobs(c, f, v);
      var g := Add(f, v);
      if g.count == 0 {
        PushBlobs(c, outer, g.obj);
      } else {
        assert (outer + [g])[..|outer|] == outer;
      }
    }
  }

  lemma BlobBlobs(c: Config, k: BlobKind, bs: seq<byte>, end: nat)
    requires |bs| <= end && (k.ExtBlob? ==> bs != [])
    ensures Blobs(c, MakeBlob(k, bs)) == Contents(TokenRefs(c, Blob(k, bs), end))
  {
    if k.ExtBlob? {
      assert [bs[0]] + bs[1..] == bs;
    }
  }

  lemma ScalarBlobs(c: Config, t: Token)
    requires TokenOk(t)
    ensures t.Item? ==> Blobs(c, t.v) == []
    ensures Blobs(c, Map([])) == [] && Blobs(c, Array([])) == []
  {
  }

  lemma OpenBlobs(c: Config, fs: seq<Frame>, isMap: bool, size: nat)
    ensures StackBlobs(c, fs + [NewFrame(isMap, size)]) == StackBlobs(c, fs)
  {
    var gs := fs + [NewFrame(isMap, size)];
    assert gs[..|gs| - 1] == fs;
  }

  lemma DeliverBlobs(c: Config, fs: seq<Frame>, t: Token, end: nat)
    requires FramesOk(fs) && TokenOk(t) && (t.Blob? ==> |t.bs| <= end)
    requires !Deliver(c, fs, t).Reject?
    ensures DeliveredBlobs(c, Deliver(c, fs, t)) == StackBlobs(c, fs) + Contents(TokenRefs(c, t, end))
  {
    hide Push, Blobs, StackBlobs, NewFrame, BlobVerdict, OpenVerdict;
    ScalarBlobs(c, t);
    match t {
      case Item(v) =>
        PushBlobs(c, fs, v);
      case Blob(k, bs) =>
        PushBlobs(c, fs, MakeBlob(k, bs));
        BlobBlobs(c, k, bs, end);
      case Open(isMap, size) =>
        if size == 0 {
          PushBlobs(c, fs, if isMap then Map([]) else Array([]));
        } else {
          OpenBlobs(c, fs, isMap, size);
        }
    }
  }

  /** What a run leaves behind: its object, or the frames that wait for more. */
  ghost function OutcomeBlobs(c: Config, o: Outcome): seq<seq<byte>> {
    match o
    case Done(v, _) => Blobs(c, v)
    case More(s, _) => StackBlobs(c, s.frames)
    case _ => []
  }

  /** The references of the first phase alone. */
  ghost function FirstRefs(c: Config, s: State, b: seq<byte>): seq<Ref>
    requires StateOk(s) && b != []
  {
    LexemeFits(s.cs, b);
    var x := Lex(s.cs, b);
    if x.Complete? then TokenRefs(c, x.tok, Bite(s.cs)) else []
  }

  lemma NoContents()
    ensures Contents([]) == []
  {
  }

  lemma FirstBlobs(c: Config, s: State, b: seq<byte>)
    requires StateOk(s) && b != []
    ensures var x := Lex(s.cs, b);
            match Next(c, s, x)
            case Some(s1) => StackBlobs(c, s1.frames) == StackBlobs(c, s.frames) + Contents(FirstRefs(c, s, b))
            case None =>
              var o := End(c, s, x, Bite(s.cs));
              o.Done? || o.More? ==> OutcomeBlobs(c, o) == StackBlobs(c, s.frames) + Contents(FirstRefs(c, s, b))
  {
    hide Lex, Blobs, StackBlobs, Deliver, TokenRefs, Contents;
    NoContents();
    var x := Lex(s.cs, b);
    LexemeFits(s.cs, b);
    if x.Complete? && !Deliver(c, s.frames, x.tok).Reject? {
      DeliverBlobs(c, s.frames, x.tok, Bite(s.cs));
    }
  }

  /**
   * Accounting: the referenced blobs of the resulting object or frames are those the frames held
   * before, followed by the contents of exactly the references made during the run.
   */
  lemma {:induction false} RefsAreBlobs(c: Config, s: State, b: seq<byte>)
    requires StateOk(s) && (Run(c, s, b).Done? || Run(c, s, b).More?)
    ensures OutcomeBlobs(c, Run(c, s, b)) == StackBlobs(c, s.frames) + Contents(Refs(c, s, b))
    decreases |b|
  {
    hide Lex, Next, End, Blobs, StackBlobs;
    if b != [] {
      FirstBlobs(c, s, b);
      var w, next := Bite(s.cs), Next(c, s, Lex(s.cs, b));
      if next.Some? {
        RunStep(c, s, b);
        RefsAreBlobs(c, next.value, b[w..]);
        ContentsConcat(FirstRefs(c, s, b), Refs(c, next.value, b[w..]), w);
      }
    }
  }

  lemma ContentsConcat(own: seq<Ref>, later: seq<Ref>, w: nat)
    ensures Contents(own + Shift(later, w)) == Contents(own) + Contents(later)
  {
  }

  lemma RunEnd(c: Config, s: State, b: seq<byte>)
    requires StateOk(s) && b != [] && Next(c, s, Lex(s.cs, b)).None?
    ensures Run(c, s, b) == End(c, s, Lex(s.cs, b), Bite(s.cs))
  {
    hide LexHeader, LexTrail, Deliver;
  }

  lemma RefsStep(c: Config, s: State, b: seq<byte>)
    requires StateOk(s) && b != []
    ensures match Next(c, s, Lex(s.cs, b))
            case Some(s1) =>
              && Bite(s.cs) <= |b|
              && Refs(c, s, b) == FirstRefs(c, s, b) + Shift(Refs(c, s1, b[Bite(s.cs)..]), Bite(s.cs))
            case None => Refs(c, s, b) == FirstRefs(c, s, b)
  {
    hide Lex, Next;
    if Next(c, s, Lex(s.cs, b)).Some? {
      RunStep(c, s, b);
    }
  }

  lemma ShiftTokenRefs(c: Config, t: Token, w: nat, pos: nat)
    requires t.Blob? ==> |t.bs| <= w
    ensures Shift(TokenRefs(c, t, w), pos) == TokenRefs(c, t, pos + w)
  {
  }

  /** The references of the first phase, seen from `pos` bytes earlier. */
  lemma FirstRefsAt(c: Config, s: State, b: seq<byte>, pos: nat)
    requires StateOk(s) && b != []
    ensures var x := Lex(s.cs, b);
            && (x.Complete? && x.tok.Blob? ==> |x.tok.bs| <= Bite(s.cs))
            && Shift(FirstRefs(c, s, b), pos) == if x.Complete? then TokenRefs(c, x.tok, pos + Bite(s.cs)) else []
  {
    hide Lex, TokenRefs;
    LexemeFits(s.cs, b);
    var x := Lex(s.cs, b);
    if x.Complete? {
      ShiftTokenRefs(c, x.tok, Bite(s.cs), pos);
    }
  }

  lemma ShiftConcat(first: seq<Ref>, later: seq<Ref>, w: nat, pos: nat)
    ensures Shift(first + Shift(later, w), pos) == Shift(first, pos) + Shift(later, w + pos)
  {
  }

  /** A reference is never made without using up input. */
  lemma RefsUseInput(c: Config, s: State, b: seq<byte>)
    requires StateOk(s) && Refs(c, s, b) != []
    ensures Used(Run(c, s, b), b) >= 1
  {
    hide Lex, Next, Run;
    var x := Lex(s.cs, b);
    if x.Complete? {
      TokenIsUsed(c, s, b);
      BitePositive(s.cs);
    } else {
      RunStep(c, s, b);
      BitePositive(s.cs);
    }
  }

  lemma BitePositive(cs: Cs)
    requires CsOk(cs)
    ensures Bite(cs) >= 1
  {
  }
}
