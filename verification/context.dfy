/** detail::context: the parser object, with its fields updated in place. */
module Contexts {
  import opened Bytes
  import opened Objects
  import opened Decoder
  import opened Machine
  import opened References

  /** The return codes 0, 1 and -1 of execute, and its size_overflow exceptions. */
  datatype Status = Unfinished | Finished | Failed | Threw(what: Overflow)

  const CS_HEADER := 0

  const SCRATCH := Frame(Nil, 0, 0, ArrayItem, Nil)

  /** Where an execution started: state, input, offset and the references held by then. */
  datatype Start = Start(s0: State, data: seq<byte>, off: nat, was: seq<Ref>) {

    ghost predicate Ok() { StateOk(s0) && off <= |data| }

    ghost function Promised(c: Config): Outcome
      requires Ok()
    {
      Run(c, s0, data[off..])
    }

    ghost function PromisedRefs(c: Config): seq<Ref>
      requires Ok()
    {
      was + Shift(Refs(c, s0, data[off..]), off)
    }

    /** State s at position pos, with the references refs, is on the way of the promised run. */
    ghost predicate Tracks(c: Config, s: State, pos: nat, refs: seq<Ref>) {
      && Ok() && StateOk(s) && off <= pos <= |data|
      && Promised(c) == Run(c, s, data[pos..]).Plus(pos - off)
      && PromisedRefs(c) == refs + Shift(Refs(c, s, data[pos..]), pos)
    }

    lemma Begin(c: Config)
      requires Ok()
      ensures Tracks(c, s0, off, was)
    {
      hide Run, Refs;
    }

    /** One more lexeme. */
    lemma Step(c: Config, s: State, pos: nat, refs: seq<Ref>)
      requires Tracks(c, s, pos, refs) && pos < |data|
      ensures var b := data[pos..];
              var x, w := Lex(s.cs, b), Bite(s.cs);
              match Next(c, s, x)
              case Some(s1) => Tracks(c, s1, pos + w, refs + Shift(FirstRefs(c, s, b), pos))
              case None =>
                && Promised(c) == End(c, s, x, w).Plus(pos - off)
                && PromisedRefs(c) == refs + Shift(FirstRefs(c, s, b), pos)
    {
      hide Run, Refs, Lex, Next, End, FirstRefs;
      var b := data[pos..];
      var w, next := Bite(s.cs), Next(c, s, Lex(s.cs, b));
      RefsStep(c, s, b);
      if next.Some? {
        RunStep(c, s, b);
        assert b[w..] == data[pos + w..];
        ShiftConcat(FirstRefs(c, s, b), Refs(c, next.value, b[w..]), w, pos);
      } else {
        RunEnd(c, s, b);
      }
    }
  }

  /** The masks 0x1f and 0x0f on the first byte of a format. */
  lemma LowBits(h: byte)
    ensures 0xc4 <= h <= 0xdf ==> h % 0x20 == h - 0xc0
    ensures 0xa0 <= h <= 0xbf ==> h % 0x20 == h - 0xa0
    ensures 0x90 <= h <= 0x9f ==> h % 0x10 == h - 0x90
    ensures 0x80 <= h <= 0x8f ==> h % 0x10 == h - 0x80
  {
  }

  class Context {
    const cfg: Config
    var cs: nat               // m_cs
    var trail: nat            // m_trail
    var stack: seq<Frame>     // m_stack; the last entry is scratch space
    var current: nat          // m_current - m_start
    var referenced: bool      // m_user.referenced()
    var refs: seq<Ref>        // the pointers behind m_user.referenced()

    /** The frames below the scratch entry. */
    ghost function Frames(): seq<Frame>
      requires |stack| >= 1
      reads this
    {
      stack[..|stack| - 1]
    }

    /** The parser state as a value; m_trail means nothing between two tokens. */
    ghost function Abs(): State
      requires |stack| >= 1
      reads this
    {
      State(if cs == CS_HEADER then AtHeader else Within(cs, trail), Frames())
    }

    ghost predicate Valid()
      reads this
    {
      |stack| >= 1 && StateOk(Abs()) && (referenced <==> refs != [])
    }

    /** What still holds after a finished run, before init(). */
    ghost predicate Sound()
      reads this
    {
      |stack| >= 1 && (referenced <==> refs != [])
    }

    constructor (cfg: Config)
      ensures Valid() && this.cfg == cfg && Abs() == INIT && refs == []
    {
      this.cfg := cfg;
      cs, trail, current := CS_HEADER, 0, 0;
      stack := [SCRATCH];
      referenced, refs := false, [];
    }

    /** init(): ready for the next message; the referenced flag stays. */
    method Init()
      requires Sound()
      modifies this`cs, this`trail, this`stack
      ensures Valid() && Abs() == INIT
    {
      cs, trail := CS_HEADER, 0;
      stack := [stack[0].(obj := Nil)];
    }

    /** set_referenced(false): the references now belong to a zone. */
    method ClearReferenced()
      requires Sound()
      modifies this`referenced, this`refs
      ensures Sound() && !referenced && refs == []
    {
      referenced, refs := false, [];
    }

    /** push_item */
    method PushItem(obj: Object) returns (done: bool, out: Object)
      requires |stack| >= 1 && FramesOk(Frames())
      modifies this`stack
      ensures |stack| >= 1
      ensures match Push(old(Frames()), obj)
              case Finished(v) => done && out == v && |stack| == 1
              case Proceed(fs) => !done && Frames() == fs
              case Reject(_) => false
    {
      out := obj;
      var finish := false;
      while !finish
        invariant |stack| >= 1 && FramesOk(Frames())
        invariant !finish ==> Push(Frames(), out) == Push(old(Frames()), obj)
        invariant finish ==> Push(old(Frames()), obj) == Proceed(Frames())
        decreases if finish then 0 else |stack|
      {
        if |stack| == 1 {
          return true, out;
        }
        var at := |stack| - 2;
        var sp := stack[at];
        assert sp == Frames()[at] && Frames()[..at] == stack[..at];
        match sp.ctype {
          case ArrayItem =>
            sp := sp.(obj := Array(sp.obj.items + [out]), count := sp.count - 1);
            if sp.count == 0 {
              out := sp.obj;
              stack := stack[..at] + [sp];
            } else {
              stack := stack[at := sp];
              finish := true;
            }
          case MapKey =>
            stack := stack[at := sp.(key := out, ctype := MapValue)];
            finish := true;
          case MapValue =>
            sp := sp.(obj := Map(sp.obj.pairs + [KV(sp.key, out)]), count := sp.count - 1);
            if sp.count == 0 {
              out := sp.obj;
              stack := stack[..at] + [sp];
            } else {
              stack := stack[at := sp.(ctype := MapKey)];
              finish := true;
            }
        }
      }
      return false, out;
    }

    /** The outcome d of a token that ends at position `at`. */
    ghost predicate DeliveredAs(d: Delivered, at: nat, st: Status)
      reads this
    {
      match d
      case Finished(v) => st == Status.Finished && |stack| == 1 && stack[0].obj == v && current == at + 1
      case Proceed(fs) => st == Unfinished && |stack| >= 1 && cs == CS_HEADER && Frames() == fs && current == at + 1
      case Reject(what) => st == Threw(what)
    }

    /** What reading lexeme x does, from frames fs, position `at` and references `was`. */
    ghost predicate Effect(x: Lexeme, fs: seq<Frame>, at: nat, was: seq<Ref>, st: Status, again: bool)
      requires FramesOk(fs) && LexemeOk(x)
      reads this
    {
      && (referenced <==> refs != [])
      && match x
         case Starved => false
         case Garbage => st == Failed && current == at && refs == was
         case Goto(code, tr) =>
           && st == Unfinished && again && current == at && refs == was
           && |stack| >= 1 && Frames() == fs && cs == code && trail == tr
         case Complete(t) =>
           && !again && DeliveredAs(Deliver(cfg, fs, t), at, st)
           && (t.Blob? ==> |t.bs| <= at + 1)
           && refs == was + TokenRefs(cfg, t, at + 1)
    }

    /** push_proc */
    method PushProc(obj: Object) returns (st: Status)
      requires |stack| >= 1 && FramesOk(Frames())
      modifies this`stack, this`cs, this`current
      ensures DeliveredAs(Push(old(Frames()), obj), old(current), st)
      ensures TokenOk(Item(obj)) && (referenced <==> refs != []) ==>
                Effect(Complete(Item(obj)), old(Frames()), old(current), refs, st, false)
    {
      var done, out := PushItem(obj);
      if done {
        stack := stack[0 := stack[0].(obj := out)];
        st := Status.Finished;
      } else {
        cs := CS_HEADER;
        st := Unfinished;
      }
      current := current + 1;
    }

    /** unpack_str, unpack_bin, unpack_ext on the bytes that end at the current position. */
    method PushBlob(k: BlobKind, bs: seq<byte>) returns (st: Status)
      requires |stack| >= 1 && FramesOk(Frames())
      requires TokenOk(Blob(k, bs)) && |bs| <= current + 1
      requires referenced <==> refs != []
      modifies this`stack, this`cs, this`current, this`referenced, this`refs
      ensures Effect(Complete(Blob(k, bs)), old(Frames()), old(current), old(refs), st, false)
    {
      if cfg.refers(k, |bs|) {
        referenced := true;
        refs := refs + [Ref(current + 1 - |bs|, bs)];
      } else if k.StrBlob? && |bs| > cfg.limit.str {
        return Threw(StrSize);
      } else if k.BinBlob? && |bs| > cfg.limit.bin {
        return Threw(BinSize);
      } else if k.ExtBlob? && |bs| > cfg.limit.ext {
        return Threw(ExtSize);
      }
      st := PushProc(MakeBlob(k, bs));
    }

    /** push_aggregate */
    method PushAggregate(isMap: bool, size: nat) returns (st: Status)
      requires |stack| >= 1 && FramesOk(Frames())
      modifies this`stack, this`cs, this`current
      ensures (referenced <==> refs != []) ==>
                Effect(Complete(Open(isMap, size)), old(Frames()), old(current), refs, st, false)
    {
      hide Push;
      var last := |stack| - 1;
      if isMap {
        if size > cfg.limit.map_ { return Threw(MapSize); }
        stack := stack[last := stack[last].(obj := Map([]), declared := size)];
      } else {
        if size > cfg.limit.arr { return Threw(ArraySize); }
        stack := stack[last := stack[last].(obj := Array([]), declared := size)];
      }
      assert Frames() == old(Frames());
      if size == 0 {
        st := PushProc(stack[last].obj);
      } else {
        // the key of a new frame is dead until the first set_map_key
        stack := stack[last := stack[last].(ctype := if isMap then MapKey else ArrayItem, count := size, key := Nil)];
        if |stack| <= cfg.limit.depth {
          stack := stack + [SCRATCH];
        } else {
          return Threw(Depth);
        }
        cs := CS_HEADER;
        current := current + 1;
        st := Unfinished;
      }
    }

    /** The MSGPACK_CS_HEADER block of execute, on the byte h at the current position. */
    method Header(h: byte) returns (st: Status, again: bool)
      requires Valid() && cs == CS_HEADER
      modifies this
      ensures Effect(LexHeader(h), old(Frames()), old(current), old(refs), st, again)
    {
      hide Deliver, DeliveredAs, TokenRefs;
      LowBits(h);
      again := false;
      if 0x00 <= h <= 0x7f {
        st := PushProc(PosInt(h));
      } else if 0xe0 <= h <= 0xff {
        st := PushProc(NegInt(h as int - 256));
      } else if 0xc4 <= h <= 0xdf {
        trail := TrailTable()[h - 0xc4];
        cs := h % 0x20;
        st, again := Unfinished, true;
      } else if 0xa0 <= h <= 0xbf {
        trail := h % 0x20;
        if trail == 0 {
          st := PushBlob(StrBlob, []);
        } else {
          cs := ACS_STR_VALUE;
          st, again := Unfinished, true;
        }
      } else if 0x90 <= h <= 0x9f {
        st := PushAggregate(false, h % 0x10);
      } else if 0x80 <= h <= 0x8f {
        st := PushAggregate(true, h % 0x10);
      } else if h == 0xc2 {
        st := PushProc(Boolean(false));
      } else if h == 0xc3 {
        st := PushProc(Boolean(true));
      } else if h == 0xc0 {
        st := PushProc(Nil);
      } else {
        st := Failed;
      }
    }

    /** A length field: switch to the body, or finish an empty one. */
    method Length(k: BlobKind, len: nat, acs: nat) returns (st: Status, again: bool)
      requires |stack| >= 1 && FramesOk(Frames()) && (referenced <==> refs != [])
      requires AfterLength.requires(k, len)
      requires acs == match k case StrBlob => ACS_STR_VALUE case BinBlob => ACS_BIN_VALUE case ExtBlob => ACS_EXT_VALUE
      modifies this
      ensures Effect(AfterLength(k, len), old(Frames()), old(current), old(refs), st, again)
    {
      trail := len;
      if trail == 0 {
        st := PushBlob(k, []);
        again := false;
      } else {
        cs := acs;
        st, again := Unfinished, true;
      }
    }

    /** The switch over m_cs in execute, on the m_trail bytes n that end at the current position. */
    method Trail(n: seq<byte>) returns (st: Status, again: bool)
      requires Valid() && cs != CS_HEADER && |n| == trail && trail <= current + 1
      modifies this
      ensures Effect(LexTrail(old(cs), n), old(Frames()), old(current), old(refs), st, again)
    {
      hide Effect, FromBe, FromBeSigned, Floats.Widen;
      again := false;
      if cs == CS_FLOAT {
        Pow256Values();
        st := PushProc(Float(Floats.Widen(FromBe(n))));
      } else if cs == CS_DOUBLE {
        st := PushProc(Float(FromBe(n)));
      } else if CS_UINT_8 <= cs < CS_INT_8 {
        st := PushProc(PosInt(FromBe(n)));
      } else if CS_INT_8 <= cs < CS_FIXEXT_1 {
        st := PushProc(IntObject(FromBeSigned(n)));
      } else if CS_FIXEXT_1 <= cs < CS_STR_8 {
        st := PushBlob(ExtBlob, n);
      } else if CS_STR_8 <= cs < CS_ARRAY_16 {
        st, again := Length(StrBlob, FromBe(n), ACS_STR_VALUE);
      } else if CS_BIN_8 <= cs < CS_EXT_8 {
        st, again := Length(BinBlob, FromBe(n), ACS_BIN_VALUE);
      } else if CS_EXT_8 <= cs < CS_FLOAT {
        st, again := Length(ExtBlob, FromBe(n) + 1, ACS_EXT_VALUE);
      } else if cs == ACS_STR_VALUE {
        st := PushBlob(StrBlob, n);
      } else if cs == ACS_BIN_VALUE {
        st := PushBlob(BinBlob, n);
      } else if cs == ACS_EXT_VALUE {
        st := PushBlob(ExtBlob, n);
      } else if CS_ARRAY_16 <= cs < CS_MAP_16 {
        st := PushAggregate(false, FromBe(n));
      } else {
        st := PushAggregate(true, FromBe(n));
      }
    }

    /** What execute promises about the run o of the machine that it performs. */
    ghost predicate Executed(o: Outcome, off: nat, st: Status, end: nat)
      reads this
    {
      match o
      case More(s, n) => st == Unfinished && end == off + n && Valid() && Abs() == s
      case Done(v, n) => st == Status.Finished && end == off + n && |stack| == 1 && stack[0].obj == v
      case Fail(n) => st == Failed && end == off + n
      case Throw(what) => st == Threw(what)
    }

    lemma TrailPositive()
      requires Valid() && cs != CS_HEADER
      ensures trail >= 1
    {
    }

    /** After an effect, the parser is further on the promised run, or has finished it. */
    lemma Advance(start: Start, s: State, pos: nat, was: seq<Ref>, st: Status, again: bool)
      requires start.Tracks(cfg, s, pos, was) && pos < |start.data|
      requires var b := start.data[pos..];
               && !Lex(s.cs, b).Starved?
               && Effect(Lex(s.cs, b), s.frames, pos + Bite(s.cs) - 1, was, st, again)
      ensures st == Unfinished ==>
                && Valid() && (again ==> cs != CS_HEADER)
                && current + (if again then 1 else 0) == pos + Bite(s.cs)
                && start.Tracks(cfg, Abs(), pos + Bite(s.cs), refs)
      ensures st != Unfinished ==>
                && Executed(start.Promised(cfg), start.off, st, current)
                && refs == start.PromisedRefs(cfg)
      ensures referenced <==> refs != []
    {
      hide Lex, FirstRefs, Run, Refs, Deliver, TokenRefs, Start.Promised, Start.PromisedRefs;
      start.Step(cfg, s, pos, was);
      FirstRefsAt(cfg, s, start.data[pos..], pos);
    }

    lemma AdvanceHeader(start: Start, s: State, pos: nat, was: seq<Ref>, st: Status, again: bool)
      requires start.Tracks(cfg, s, pos, was) && pos < |start.data| && s.cs.AtHeader?
      requires Effect(LexHeader(start.data[pos]), s.frames, pos, was, st, again)
      ensures st == Unfinished ==>
                && Valid() && (again ==> cs != CS_HEADER)
                && current + (if again then 1 else 0) == pos + 1
                && start.Tracks(cfg, Abs(), pos + 1, refs)
      ensures st != Unfinished ==>
                && Executed(start.Promised(cfg), start.off, st, current)
                && refs == start.PromisedRefs(cfg)
      ensures referenced <==> refs != []
    {
      hide LexHeader, LexTrail, Effect, Executed, Run, Refs;
      Advance(start, s, pos, was, st, again);
    }

    lemma AdvanceTrail(start: Start, s: State, pos: nat, was: seq<Ref>, st: Status, again: bool)
      requires start.Ok() && StateOk(s) && s.cs.Within? && pos + s.cs.trail <= |start.data|
      requires Effect(LexTrail(s.cs.code, start.data[pos..pos + s.cs.trail]), s.frames, pos + s.cs.trail - 1,
                      was, st, again)
      requires start.Tracks(cfg, s, pos, was)
      ensures st == Unfinished ==>
                && Valid() && (again ==> cs != CS_HEADER)
                && current + (if again then 1 else 0) == pos + s.cs.trail
                && start.Tracks(cfg, Abs(), pos + s.cs.trail, refs)
      ensures st != Unfinished ==>
                && Executed(start.Promised(cfg), start.off, st, current)
                && refs == start.PromisedRefs(cfg)
      ensures referenced <==> refs != []
    {
      hide LexHeader, LexTrail, Effect, Executed, Run, Refs;
      assert start.data[pos..][..s.cs.trail] == start.data[pos..pos + s.cs.trail];
      Advance(start, s, pos, was, st, again);
    }

    /** The input is used up, or holds only a part of the next field or body. */
    lemma Stop(start: Start, pos: nat)
      requires Valid() && start.Tracks(cfg, Abs(), pos, refs)
      requires pos < |start.data| ==> cs != CS_HEADER && |start.data| - pos < trail
      ensures Executed(start.Promised(cfg), start.off, Unfinished, pos)
      ensures refs == start.PromisedRefs(cfg)
    {
      hide LexHeader, LexTrail, Deliver;
      if pos < |start.data| {
        start.Step(cfg, Abs(), pos, refs);
      }
    }

    /** The header phase at the cursor. */
    method HeaderTurn(data: seq<byte>, ghost start: Start) returns (st: Status, again: bool)
      requires Valid() && cs == CS_HEADER && current < |data| && start.data == data && start.Ok()
      requires start.Tracks(cfg, Abs(), current, refs)
      modifies this
      ensures st == Unfinished ==>
                && Valid() && (again ==> cs != CS_HEADER)
                && current + (if again then 1 else 0) == old(current) + 1
                && start.Tracks(cfg, Abs(), old(current) + 1, refs)
      ensures st != Unfinished ==>
                && Executed(start.Promised(cfg), start.off, st, current)
                && refs == start.PromisedRefs(cfg)
      ensures referenced <==> refs != []
    {
      hide Run, Refs, Effect, LexHeader, LexTrail, Start.Tracks, Executed, StateOk, Start.Ok, Start.Promised,
           Start.PromisedRefs;
      ghost var s, pos, was := Abs(), current, refs;
      st, again := Header(data[current]);
      AdvanceHeader(start, s, pos, was, st, again);
    }

    /** The phase that reads a field or a body that is all there. */
    method TrailTurn(data: seq<byte>, ghost start: Start) returns (st: Status, again: bool)
      requires Valid() && cs != CS_HEADER && current <= |data| && trail <= |data| - current && start.data == data
                 && start.Ok()
      requires start.Tracks(cfg, Abs(), current, refs)
      modifies this
      ensures st == Unfinished ==>
                && Valid() && (again ==> cs != CS_HEADER)
                && current + (if again then 1 else 0) == old(current) + old(trail)
                && start.Tracks(cfg, Abs(), old(current) + old(trail), refs)
      ensures st != Unfinished ==>
                && Executed(start.Promised(cfg), start.off, st, current)
                && refs == start.PromisedRefs(cfg)
      ensures referenced <==> refs != []
    {
      hide Run, Refs, Effect, LexHeader, LexTrail, Start.Tracks, Executed, StateOk, Start.Ok, Start.Promised,
           Start.PromisedRefs;
      ghost var s, pos, was := Abs(), current, refs;
      var n := data[current..current + trail];
      TrailPositive();
      current := current + trail - 1;
      st, again := Trail(n);
      AdvanceTrail(start, s, pos, was, st, again);
    }

    /**
     * execute: parse data[off..] up to the end of one object. A phase that stops inside a token
     * leaves the cursor on its last byte, and `again` makes the next iteration step over it.
     */
    method Execute(data: seq<byte>, off: nat) returns (st: Status, end: nat)
      requires Valid() && off <= |data|
      modifies this
      ensures Executed(Run(cfg, old(Abs()), data[off..]), off, st, end)
      ensures refs == old(refs) + Shift(Refs(cfg, old(Abs()), data[off..]), off)
      ensures referenced <==> refs != []
    {
      hide Run, Refs, Effect, LexHeader, LexTrail, Start.Tracks, Executed, StateOk;
      current := off;
      ghost var start := Start(Abs(), data, off, refs);
      assert start.Ok();
      start.Begin(cfg);
      if current == |data| {
        Stop(start, current);
        return Unfinished, current;
      }
      var again := false;
      while true
        invariant Valid() && (again ==> cs != CS_HEADER)
        invariant current < |data|
        invariant start.Tracks(cfg, Abs(), current + (if again then 1 else 0), refs)
        decreases |data| - current - (if again then 1 else 0)
      {
        if cs == CS_HEADER {
          st, again := HeaderTurn(data, start);
          if st != Unfinished {
            return st, current;
          }
        }
        if cs != CS_HEADER {
          if again {
            current := current + 1;
            again := false;
          }
          if |data| - current < trail {
            Stop(start, current);
            return Unfinished, current;
          }
          TrailPositive();
          st, again := TrailTurn(data, start);
          if st != Unfinished {
            return st, current;
          }
        }
        if current == |data| {
          break;
        }
      }
      Stop(start, current);
      return Unfinished, current;
    }
  }
}
