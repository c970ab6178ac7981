/** unpacker: the streaming parser with its growing, rewinding, reference-counted buffer. */
module Unpackers {
  import opened Bytes
  import opened Objects
  import opened Decoder
  import opened Machine
  import opened References
  import opened Contexts
  import opened Lifetime
  import opened Streams
  import opened Sizing

  function PinContents(ps: seq<Pin>): (ds: seq<seq<byte>>)
    ensures |ds| == |ps| && forall i | 0 <= i < |ps| :: ds[i] == ps[i].ref.data
  {
    seq(|ps|, i requires 0 <= i < |ps| => ps[i].ref.data)
  }

  lemma PinnedContents(ps: seq<Pin>, id: nat, refs: seq<Ref>)
    ensures PinContents(ps + PinAll(id, refs)) == PinContents(ps) + Contents(refs)
  {
  }

  /** next: an object, false, parse_error or a size_overflow. */
  datatype NextResult = Got(h: Handle) | Nothing | Broken | TooBig(what: Overflow)

  class Unpacker {
    const ctx: Context
    const initial: nat        // m_initial_buffer_size
    var mem: Heap             // the malloc'ed buffers
    var buffer: nat           // m_buffer
    var used: nat             // m_used
    var free: nat             // m_free
    var off: nat              // m_off
    var parsed: nat           // m_parsed
    var fin: seq<nat>         // the finalizers of m_z
    var pins: seq<Pin>        // pointers of the object in progress into older buffers
    ghost var live: seq<Handle>  // objects handed out and not destroyed
    ghost var fed: seq<byte>     // the whole input so far
    ghost var outs: seq<Object>  // every object ever handed out
    ghost var start: nat         // where the current message starts in fed
    ghost var seen: nat          // how much of the current message execute has looked at

    ghost function Abs(): Life
      reads this, ctx
    {
      Life(mem, buffer, used, free, off, fin, pins, ctx.refs, live)
    }

    /** The unparsed bytes in the buffer. */
    ghost function Unread(): seq<byte>
      requires BufferOk(Abs())
      reads this, ctx
    {
      mem[buffer].bytes[off..used]
    }

    /** The bytes of the current message that have arrived. */
    ghost function Message(): seq<byte>
      requires start <= |fed|
      reads this
    {
      fed[start..]
    }

    /** The parser stands where a one-shot parse of the current message would stand. */
    ghost predicate StreamOk()
      reads this, ctx
    {
      && ctx.Valid() && BufferOk(Abs())
      && start <= |fed| && parsed <= seen <= |Message()|
      && Run(ctx.cfg, INIT, Message()[..seen]) == More(ctx.Abs(), parsed)
      && Message()[parsed..] == Unread()
      && Emitted(ctx.cfg, fed, outs, start)
    }

    /** The referenced bytes of every object are exactly what its pointers read. */
    ghost predicate BlobsOk()
      reads this, ctx
    {
      && |ctx.stack| >= 1
      && StackBlobs(ctx.cfg, ctx.Frames()) == PinContents(pins) + Contents(ctx.refs)
      && forall i | 0 <= i < |live| :: Blobs(ctx.cfg, live[i].obj) == PinContents(live[i].pins)
    }

    ghost predicate Valid()
      reads this, ctx
    {
      && Inv(Abs()) && StreamOk() && BlobsOk()
      && COUNTER_SIZE <= initial < TWO_64 && used + free < TWO_64
    }

    constructor (cfg: Config, size: nat, addr: nat, garbage: int -> byte)
      requires size < TWO_64
      ensures Valid() && fresh(ctx) && ctx.cfg == cfg && fed == [] && outs == [] && live == []
      ensures initial == used + free && initial >= size && (initial == size || initial == COUNTER_SIZE)
    {
      hide Run, Emitted, StackBlobs, Blobs, PinContents, Contents, Decode, Inv, StateOk, Balanced, Holds;
      ctx := new Context(cfg);
      var n := if size < COUNTER_SIZE then COUNTER_SIZE else size;
      initial := n;
      mem := map[addr := Block(1, seq(n, i => garbage(i)))];
      buffer := addr;
      used, free, off, parsed := COUNTER_SIZE, n - COUNTER_SIZE, COUNTER_SIZE, 0;
      fin, pins, live := [], [], [];
      fed, outs, start, seen := [], [], 0, 0;
      new;
      assert Abs() == Opened(addr, mem[addr].bytes);
      OpenedInv(addr, mem[addr].bytes);
      FreshParser(ctx.cfg, Message());
      assert ctx.Frames() == [];
    }

    /** buffer() and buffer_consumed(): the caller appends x. */
    method Feed(x: seq<byte>)
      requires Valid() && |x| <= free
      modifies this
      ensures Valid() && fed == old(fed) + x
      ensures Abs() == Lifetime.Feed(old(Abs()), x)
      ensures outs == old(outs) && start == old(start) && live == old(live)
    {
      hide Inv, Run, Decode, Emitted, Blobs, StackBlobs, PinContents, Contents, StateOk;
      FeedKeeps(Abs(), x);
      var bytes := mem[buffer].bytes;
      mem := mem[buffer := mem[buffer].(bytes := bytes[..used] + x + bytes[used + |x|..])];
      used, free := used + |x|, free - |x|;
      EmittedExtends(ctx.cfg, fed, outs, start, x);
      ghost var msg := Message();
      fed := fed + x;
      assert Message() == msg + x;
      assert Message()[..seen] == msg[..seen];
    }

    /** The unread bytes and everything about the message are as before. */
    twostate predicate Unmoved()
      requires old(BufferOk(Abs())) && BufferOk(Abs())
      reads this, ctx
    {
      && Unread() == old(Unread()) && live == old(live)
      && PinContents(pins) + Contents(ctx.refs) == PinContents(old(pins)) + Contents(old(ctx.refs))
    }

    /** reserve_buffer and expand_buffer; grown and moved are the addresses realloc and malloc return. */
    method ReserveBuffer(size: nat, grown: nat, moved: nat, garbage: int -> byte)
      requires Valid() && size + used < TWO_64
      requires (grown == buffer || grown !in mem) && moved !in mem
      modifies this`mem, this`buffer, this`used, this`free, this`off, this`fin, this`pins, ctx`referenced, ctx`refs
      ensures Valid() && free >= size && used <= old(used)
      ensures Unmoved()
    {
      if free >= size {
        return;
      }
      Expand(size, grown, moved, garbage);
    }

    method Expand(size: nat, grown: nat, moved: nat, garbage: int -> byte)
      requires Valid() && size + used < TWO_64
      requires (grown == buffer || grown !in mem) && moved !in mem
      modifies this`mem, this`buffer, this`used, this`free, this`off, this`fin, this`pins, ctx`referenced, ctx`refs
      ensures Valid() && free >= size && used <= old(used)
      ensures Unmoved()
      ensures old(used == off && mem[buffer].count == 1 && !ctx.referenced && used + free >= COUNTER_SIZE + size) ==>
                mem == old(mem) && buffer == old(buffer) && used + free == old(used + free)
    {
      hide Inv, Run, Emitted, Blobs, StackBlobs, Decode, BlobsOk;
      if used == off && mem[buffer].count == 1 && !ctx.referenced {
        RewindBuffer();
        if free >= size {
          return;
        }
      }
      if off == COUNTER_SIZE {
        ReallocBuffer(size, grown, garbage);
      } else {
        MoveBuffer(size, moved, garbage);
      }
    }

    /** expand_buffer: everything is parsed and nobody points into the buffer. */
    method RewindBuffer()
      requires Valid() && used == off && mem[buffer].count == 1 && !ctx.referenced
      modifies this`used, this`free, this`off
      ensures Valid() && Unmoved() && used <= old(used) && used == off == COUNTER_SIZE
      ensures used + free == old(used + free)
      ensures Abs() == Rewind(old(Abs()))
    {
      hide Inv, Run, Emitted, Blobs, StackBlobs, Decode;
      RewindKeeps(Abs());
      free := free + used - COUNTER_SIZE;
      used := COUNTER_SIZE;
      off := COUNTER_SIZE;
    }

    /** expand_buffer: nothing is parsed yet, so the buffer can be reallocated. */
    method ReallocBuffer(size: nat, grown: nat, garbage: int -> byte)
      requires Valid() && size + used < TWO_64 && off == COUNTER_SIZE
      requires grown == buffer || grown !in mem
      modifies this`mem, this`buffer, this`free
      ensures Valid() && Unmoved() && free >= size
      ensures used + free == GrownSize(old(used + free) * 2 % TWO_64, size + used)
      ensures exists tail :: Abs() == Grow(old(Abs()), grown, tail)
    {
      hide Inv, Run, Emitted, Blobs, StackBlobs, Decode, PinContents, Contents, StateOk, GrownSize, Grow;
      var n := GrowSize((used + free) * 2 % TWO_64, size + used);
      Enlarge(grown, seq(n - used, i => garbage(i)));
    }

    /** realloc: the bytes stay, and tail follows them. */
    method Enlarge(grown: nat, tail: seq<byte>)
      requires Valid() && used + |tail| < TWO_64 && off == COUNTER_SIZE
      requires grown == buffer || grown !in mem
      modifies this`mem, this`buffer, this`free
      ensures Valid() && Unmoved() && free == |tail|
      ensures Abs() == Grow(old(Abs()), grown, tail)
    {
      hide Inv, Run, Emitted, Blobs, StackBlobs, Decode, PinContents, Contents, StateOk, Balanced, Holds;
      GrowKeeps(Abs(), grown, tail);
      var block := Block(mem[buffer].count, mem[buffer].bytes[..used] + tail);
      mem := (mem - {buffer})[grown := block];
      buffer := grown;
      free := |tail|;
    }

    /** expand_buffer: the unparsed bytes go to a new buffer; objects may still need the old one. */
    method MoveBuffer(size: nat, moved: nat, garbage: int -> byte)
      requires Valid() && size + used < TWO_64
      requires moved !in mem
      modifies this`mem, this`buffer, this`used, this`free, this`off, this`fin, this`pins, ctx`referenced, ctx`refs
      ensures Valid() && Unmoved() && free >= size && used <= old(used)
      ensures used == COUNTER_SIZE + old(used) - old(off) && used + free == GrownSize(initial, size + used)
    {
      hide Inv, Run, Emitted, Blobs, StackBlobs, Decode, BlobsOk;
      var unparsed := used - off;
      var n := GrowSize(initial, size + unparsed + COUNTER_SIZE);
      Adopt(moved, seq(COUNTER_SIZE, i => garbage(i)), seq(n - COUNTER_SIZE - unparsed, i => garbage(i)));
    }

    /** The new buffer at `moved` takes over. */
    method Adopt(moved: nat, head: seq<byte>, tail: seq<byte>)
      requires Valid() && moved !in mem && |head| == COUNTER_SIZE
      requires COUNTER_SIZE + used - off + |tail| < TWO_64
      modifies this`mem, this`buffer, this`used, this`free, this`off, this`fin, this`pins, ctx`referenced, ctx`refs
      ensures Valid() && Unmoved() && free == |tail| && used <= old(used) && used == COUNTER_SIZE + old(used) - old(off)
    {
      hide Inv, Run, Emitted, Blobs, StackBlobs, Decode, Balanced, Holds, Move, PinContents, Contents, StateOk;
      InvBuffer(Abs());
      MoveKeeps(Abs(), moved, head, tail);
      Switch(moved, head, tail);
      InvBuffer(Abs());
    }

    method Switch(moved: nat, head: seq<byte>, tail: seq<byte>)
      requires BufferOk(Abs()) && Balanced(mem, Holds(Abs())) && mem[buffer].count > 0 && ctx.Sound()
      requires moved !in mem && |head| == COUNTER_SIZE
      modifies this`mem, this`buffer, this`used, this`free, this`off, this`fin, this`pins, ctx`referenced, ctx`refs
      ensures Abs() == Move(old(Abs()), moved, head, tail) && ctx.Sound()
      ensures used == COUNTER_SIZE + old(used) - old(off) && free == |tail|
      ensures PinContents(pins) + Contents(ctx.refs) == PinContents(old(pins)) + Contents(old(ctx.refs))
    {
      hide Balanced, Holds;
      PinnedContents(pins, buffer, ctx.refs);
      var unparsed := used - off;
      var block := Block(1, head + mem[buffer].bytes[off..used] + tail);
      if ctx.referenced {
        fin := fin + [buffer];
        pins := pins + PinAll(buffer, ctx.refs);
        mem := mem[moved := block];
        ctx.ClearReferenced();
      } else {
        mem := Release(mem, buffer)[moved := block];
      }
      buffer, used, free, off := moved, unparsed + COUNTER_SIZE, |tail|, COUNTER_SIZE;
    }

    /** The caller destroys the i-th live object: the destructor of its zone runs the finalizers. */
    method Destroy(h: Handle, ghost i: nat)
      requires Valid() && i < |live| && h == live[i]
      modifies this`mem, this`live
      ensures Valid() && live == old(live)[..i] + old(live)[i + 1..]
      ensures Unread() == old(Unread())
    {
      hide Inv, Run, Emitted, Blobs, StackBlobs, Decode, PinContents, Contents, Balanced, Holds, Fins, ReleaseAll;
      InvBuffer(Abs());
      DropKeeps(Abs(), i);
      ghost var u := Abs();
      DropMemory(u, i);
      RunFinalizers(h.fin, Holds(u));
      live := live[..i] + live[i + 1..];
      assert Abs() == Drop(u, i);
      InvBuffer(Abs());
    }

    /** finalizer_array::call: last pushed first. */
    method RunFinalizers(fs: seq<nat>, ghost holds: multiset<nat>)
      requires Balanced(mem, holds) && multiset(fs) <= holds
      modifies this`mem
      ensures mem == ReleaseAll(old(mem), fs, holds)
    {
      hide Balanced, ReleaseAll;
      var k := |fs|;
      ghost var left := holds;
      assert fs[..k] == fs;
      while k > 0
        invariant k <= |fs| && Balanced(mem, left) && multiset(fs[..k]) <= left
        invariant ReleaseAll(mem, fs[..k], left) == ReleaseAll(old(mem), fs, holds)
      {
        k := k - 1;
        ReleaseAllStep(mem, fs, k, left);
        mem := Release(mem, fs[k]);
        left := left - multiset{fs[k]};
      }
      assert fs[..0] == [];
      ReleaseNone(mem, left);
    }

    /** The run that execute is about to make, as the rest of a one-shot run of the message. */
    lemma Rejoin()
      requires StreamOk()
      ensures Run(ctx.cfg, INIT, Message()) == Run(ctx.cfg, ctx.Abs(), Unread()).Plus(parsed)
    {
      hide Run, Emitted;
      var msg := Message();
      Resume(ctx.cfg, INIT, msg[..seen], msg[seen..]);
      assert msg[..seen] + msg[seen..] == msg;
      assert msg[..seen][parsed..] + msg[seen..] == msg[parsed..];
    }

    /** execute_imp */
    method ExecuteImp() returns (st: Status)
      requires Valid()
      modifies ctx, this`off, this`parsed
      ensures ctx.Executed(Run(ctx.cfg, old(ctx.Abs()), old(Unread())), old(off), st, off) || st.Threw?
      ensures st.Threw? ==> Run(ctx.cfg, old(ctx.Abs()), old(Unread())) == Throw(st.what) && off == old(off)
      ensures !st.Threw? ==> old(off) <= off <= used && parsed == old(parsed) + off - old(off)
      ensures !st.Threw? ==>
                && Abs() == Parse(old(Abs()), off - old(off),
                   Shift(Refs(ctx.cfg, old(ctx.Abs()), old(Unread())), old(off)))
                && Inv(Abs())
      ensures ctx.referenced <==> ctx.refs != []
    {
      hide Run, Refs, Inv, Emitted, Blobs, StackBlobs;
      ghost var u, s, b := Abs(), ctx.Abs(), Unread();
      var data := mem[buffer].bytes[..used];
      assert data[off..] == b;
      var end;
      st, end := ctx.Execute(data, off);
      if !st.Threw? {
        ParseFits(ctx.cfg, s, b, u);
        parsed := parsed + end - off;
        off := end;
      }
    }

    /** release_zone (with flush_zone) and the part of next that hands out the object. */
    method HandOut(obj: Object) returns (h: Handle)
      requires Inv(Abs()) && BufferOk(Abs()) && ctx.Sound()
      modifies this`mem, this`fin, this`pins, this`live, ctx`referenced, ctx`refs
      ensures Abs() == Lifetime.HandOut(old(Abs()), obj) && Inv(Abs())
      ensures h == Handle(obj, h.fin, old(pins) + PinAll(buffer, old(ctx.refs)))
      ensures live == old(live) + [h] && pins == [] && ctx.refs == []
      ensures ctx.Sound()
      ensures mem[buffer].bytes == old(mem[buffer].bytes)
    {
      hide Inv;
      HandOutKeeps(Abs(), obj);
      var held, pointers := fin, pins + PinAll(buffer, ctx.refs);
      if ctx.referenced {
        held := held + [buffer];
        mem := Retain(mem, buffer);
      }
      ctx.ClearReferenced();
      fin, pins := [], [];
      h := Handle(obj, held, pointers);
      live := live + [h];
    }

    /** One call of execute, seen from the message it belongs to. */
    method ExecuteMessage() returns (st: Status)
      requires Valid()
      modifies ctx, this`off, this`parsed
      ensures if st.Threw? then off == old(off) else Inv(Abs()) && BufferOk(Abs())
      ensures st == Unfinished || st == Status.Finished ==> parsed <= |Message()| && Message()[parsed..] == Unread()
      ensures var o := Run(ctx.cfg, INIT, Message());
              match st
              case Unfinished => ctx.Valid() && o == More(ctx.Abs(), parsed) && BlobsOk()
              case Finished =>
                && ctx.Sound() && o == Done(ctx.stack[0].obj, parsed)
                && Blobs(ctx.cfg, ctx.stack[0].obj) == PinContents(pins) + Contents(ctx.refs)
              case Failed => o.Fail?
              case Threw(what) => o == Throw(what)
    {
      hide Run, Refs, Inv, Emitted, Blobs, StackBlobs, StateOk, PinContents, Contents, Shift, Decode;
      ghost var s, b, msg, c, rs, was := ctx.Abs(), Unread(), Message(), ctx.cfg, ctx.refs, off;
      Rejoin();
      ghost var o := Run(c, s, b);
      if o.More? || o.Done? {
        RefsAreBlobs(c, s, b);
        SoFar(PinContents(pins), rs, Refs(c, s, b), off);
      }
      st := ExecuteImp();
      if o.More? || o.Done? {
        assert msg[parsed..] == b[off - was..];
        SliceSlice(mem[buffer].bytes, was, used, off - was, used - was);
      }
    }

    /** The same in terms of the recursive decoder. */
    method DecodeMessage() returns (st: Status)
      requires Valid()
      modifies ctx, this`off, this`parsed, this`seen
      ensures if st.Threw? then off == old(off) else Inv(Abs())
      ensures var d := Decode(ctx.cfg, Message(), 0);
              match st
              case Unfinished => d == NeedMore(parsed) && Valid()
              case Finished => ctx.Sound() && Complete(ctx.stack[0].obj)
              case Failed => d.ParseError?
              case Threw(what) => d == Overflowed(what)
    {
      hide Run, Inv, Emitted, Blobs, StackBlobs, Decode, PinContents, Contents, StateOk;
      ghost var msg := Message();
      Refinement.Refines(ctx.cfg, msg);
      st := ExecuteMessage();
      if st == Unfinished {
        seen := |msg|;
        assert msg[..seen] == msg;
      }
    }

    /**
     * next: the object that one-shot decoding finds at the start of the current message, or
     * false exactly when one-shot decoding needs more bytes, or its error. After parse_error the
     * buffers are still consistent; a size_overflow leaves them as they were.
     */
    method Next() returns (r: NextResult)
      requires Valid()
      modifies this, ctx
      ensures fed == old(fed) && start >= old(start) && used == old(used)
      ensures r.Got? ==>
                && Decode(ctx.cfg, old(Message()), 0) == Value(r.h.obj, start - old(start))
                && Valid() && outs == old(outs) + [r.h.obj] && live == old(live) + [r.h]
      ensures r.Nothing? ==>
                && Decode(ctx.cfg, old(Message()), 0) == NeedMore(parsed)
                && Valid()
      ensures !r.Got? ==> outs == old(outs) && start == old(start) && live == old(live)
      ensures r.Broken? ==> Decode(ctx.cfg, old(Message()), 0).ParseError? && Inv(Abs())
      ensures r.TooBig? ==>
                Decode(ctx.cfg, old(Message()), 0) == Overflowed(r.what) && Abs() == old(Abs()).(refs := ctx.refs)
    {
      hide Run, Inv, Emitted, Blobs, StackBlobs, Decode, PinContents, Contents, StateOk;
      var st := DecodeMessage();
      match st {
        case Failed => return Broken;
        case Threw(what) => return TooBig(what);
        case Unfinished => return Nothing;
        case Finished =>
          var h := TakeObject();
          return Got(h);
      }
    }

    /** What has come out so far against repeated one-shot decoding of the whole input. */
    ghost predicate Agrees(r: NextResult)
      requires !r.Got?
      reads this, ctx
    {
      var m := Messages(ctx.cfg, fed);
      && m.0 == outs
      && match r
         case Nothing => m.1 == NeedMore(parsed)
         case Broken => m.1.ParseError?
         case TooBig(what) => m.1 == Overflowed(what)
         case Got(_) => false
    }

    /** "repeat next() until it returns false" */
    method Drain() returns (r: NextResult)
      requires Valid()
      modifies this, ctx
      ensures !r.Got? && fed == old(fed) && used == old(used) && Agrees(r)
      ensures r.Nothing? ==> Valid()
    {
      hide Inv, Run, Blobs, StackBlobs, Decode, Emitted;
      while true
        invariant Valid() && fed == old(fed) && used == old(used)
        decreases |fed| - start
      {
        ghost var vs, pos := outs, start;
        EmittedWithin(ctx.cfg, fed, outs, start);
        EmittedIsPrefix(ctx.cfg, fed, outs, start);
        DecodeProgress(ctx.cfg, Message());
        r := Next();
        if !r.Got? {
          Last(ctx.cfg, fed[pos..]);
          assert vs + [] == vs;
          return;
        }
        EmittedWithin(ctx.cfg, fed, outs, start);
      }
    }

    /** One round of the loop that the class documents: reserve, read a piece, repeat next(). */
    method Receive(x: seq<byte>, grown: nat, moved: nat, garbage: int -> byte) returns (r: NextResult)
      requires Valid() && |x| + used < TWO_64
      requires (grown == buffer || grown !in mem) && moved !in mem
      modifies this, ctx
      ensures fed == old(fed) + x && used <= old(used) + |x| && !r.Got? && Agrees(r)
      ensures r.Nothing? ==> Valid()
    {
      hide Inv, Run, Blobs, StackBlobs, Decode, Emitted, BlobsOk, Messages;
      ReserveBuffer(|x|, grown, moved, garbage);
      Feed(x);
      r := Drain();
    }

    /**
     * The documented loop over a stream that arrives in any pieces, up to its end or an error:
     * the objects that come out, and the error, are those of repeated one-shot decoding of the
     * whole stream. The addresses that realloc and malloc return are arbitrary.
     */
    method ReceiveAll(pieces: seq<seq<byte>>, garbage: int -> byte) returns (r: NextResult)
      requires Valid() && pieces != [] && used + |Joined(pieces)| < TWO_64
      modifies this, ctx
      ensures !r.Got?
      ensures var m := Messages(ctx.cfg, old(fed) + Joined(pieces));
              && outs == m.0
              && (r.Nothing? <==> m.1.NeedMore?) && (r.Broken? <==> m.1.ParseError?)
              && (r.TooBig? <==> m.1.Overflowed?) && (r.TooBig? ==> m.1.what == r.what)
    {
      hide Inv, Run, Blobs, StackBlobs, Decode, Emitted, StreamOk, BlobsOk, Messages;
      ghost var all := fed + Joined(pieces);
      var rest := pieces;
      r := Nothing;
      while rest != []
        invariant r == Nothing && Valid() && fed + Joined(rest) == all && used + |Joined(rest)| < TWO_64
        invariant rest == pieces || Agrees(r)
        decreases rest
      {
        var x := rest[0];
        rest := rest[1..];
        FreshAddress(mem.Keys);
        var grown: nat :| grown == buffer || grown !in mem;
        var moved: nat :| moved !in mem;
        ghost var was := fed;
        r := Receive(x, grown, moved, garbage);
        assert (was + x) + Joined(rest) == was + (x + Joined(rest));
        if r != Nothing {
          MessagesStop(ctx.cfg, fed, Joined(rest));
          return;
        }
      }
      assert fed + [] == fed;
    }

    /** execute has just completed the object obj of the current message. */
    ghost predicate Complete(obj: Object)
      reads this, ctx
    {
      && Inv(Abs()) && BufferOk(Abs()) && ctx.Sound() && start <= |fed|
      && parsed <= |Message()| && Message()[parsed..] == Unread()
      && Decode(ctx.cfg, Message(), 0) == Value(obj, parsed)
      && Blobs(ctx.cfg, obj) == PinContents(pins) + Contents(ctx.refs)
      && (forall i | 0 <= i < |live| :: Blobs(ctx.cfg, live[i].obj) == PinContents(live[i].pins))
      && Emitted(ctx.cfg, fed, outs, start)
      && COUNTER_SIZE <= initial < TWO_64 && used + free < TWO_64
    }

    /** The rest of next once an object is complete. */
    method TakeObject() returns (h: Handle)
      requires ctx.Sound() && Complete(ctx.stack[0].obj)
      modifies this, ctx
      ensures Valid() && fed == old(fed) && start == old(start) + old(parsed) && used == old(used)
      ensures h.obj == old(ctx.stack[0].obj) && outs == old(outs) + [h.obj] && live == old(live) + [h]
    {
      hide Run, Inv, Emitted, Blobs, StackBlobs, Decode, PinContents, Contents, PinAll, Lifetime.HandOut, StateOk,
           Balanced, Holds;
      var obj := ctx.stack[0].obj;
      PinnedContents(pins, buffer, ctx.refs);
      h := HandOut(obj);
      InvBuffer(Abs());
      Restart(obj);
    }

    /** reset(): the next message starts after the one just handed out. */
    method Restart(ghost obj: Object)
      requires Inv(Abs()) && BufferOk(Abs()) && ctx.Sound() && start <= |fed|
      requires parsed <= |Message()| && Message()[parsed..] == Unread()
      requires Decode(ctx.cfg, Message(), 0) == Value(obj, parsed)
      requires ctx.refs == [] && pins == []
      requires forall i | 0 <= i < |live| :: Blobs(ctx.cfg, live[i].obj) == PinContents(live[i].pins)
      requires Emitted(ctx.cfg, fed, outs, start)
      requires COUNTER_SIZE <= initial < TWO_64 && used + free < TWO_64
      modifies this`parsed, this`outs, this`start, this`seen, ctx`cs, ctx`trail, ctx`stack
      ensures Valid() && start == old(start) + old(parsed) && outs == old(outs) + [obj]
    {
      hide Run, Inv, Emitted, Blobs, StackBlobs, Decode, PinContents, Contents, StateOk;
      EmittedSnoc(ctx.cfg, fed, outs, start, obj, parsed);
      ctx.Init();
      ghost var msg := Message();
      outs := outs + [obj];
      start, seen := start + parsed, 0;
      assert Message() == msg[parsed..];
      parsed := 0;
      FreshParser(ctx.cfg, Message());
      assert ctx.Frames() == [];
    }
  }

  lemma FreshAddress(used: set<nat>)
    ensures exists a: nat :: a !in used
  {
    var b := Above(used);
    assert b !in used;
  }

  lemma {:induction false} Above(used: set<nat>) returns (b: nat)
    ensures forall a | a in used :: a < b
    decreases used
  {
    b := 0;
    if used != {} {
      var a :| a in used;
      var c := Above(used - {a});
      b := if c <= a then a + 1 else c;
      assert forall x | x in used :: x == a || x in used - {a};
    }
  }

  lemma DecodeProgress(c: Config, b: seq<byte>)
    ensures Decode(c, b, 0).Value? ==> 1 <= Decode(c, b, 0).n <= |b|
  {
  }

  lemma Last(c: Config, b: seq<byte>)
    ensures !Decode(c, b, 0).Value? ==> Messages(c, b) == ([], Decode(c, b, 0))
  {
  }

  lemma ReleaseNone(mem: Heap, holds: multiset<nat>)
    requires Balanced(mem, holds)
    ensures ReleaseAll(mem, [], holds) == mem
  {
  }

  lemma DropMemory(u: Life, i: nat)
    requires Inv(u) && i < |u.live|
    ensures multiset(u.live[i].fin) <= Holds(u)
    ensures Drop(u, i).mem == ReleaseAll(u.mem, u.live[i].fin, Holds(u))
    ensures u.buffer in Drop(u, i).mem && Drop(u, i).mem[u.buffer].bytes == u.mem[u.buffer].bytes
  {
    hide ReleaseAll, Guarded, Readable;
    FinsSplit(u.live, i);
    DropKeeps(u, i);
  }

  lemma InvBuffer(u: Life)
    requires Inv(u)
    ensures BufferOk(u) && u.mem[u.buffer].count > 0 && Balanced(u.mem, Holds(u))
  {
  }

  lemma FreshParser(c: Config, msg: seq<byte>)
    ensures Run(c, INIT, msg[..0]) == More(INIT, 0)
    ensures StackBlobs(c, []) == PinContents([]) + Contents([])
    ensures Emitted(c, [], [], 0)
  {
  }

  lemma SoFar(older: seq<seq<byte>>, refs: seq<Ref>, more: seq<Ref>, off: nat)
    ensures older + Contents(refs) + Contents(more) == older + Contents(refs + Shift(more, off))
  {
  }

  /** What execute does to the buffers keeps their invariant. */
  lemma ParseFits(c: Config, s: State, b: seq<byte>, u: Life)
    requires StateOk(s) && Inv(u) && b == u.mem[u.buffer].bytes[u.off..u.used]
    requires !Run(c, s, b).Throw?
    ensures u.off + Run(c, s, b).n <= u.used
    ensures Inv(Parse(u, Run(c, s, b).n, Shift(Refs(c, s, b), u.off)))
  {
    hide Run, Refs, Balanced, Guarded, Holds;
    var n, rs, bytes := Run(c, s, b).n, Refs(c, s, b), u.mem[u.buffer].bytes;
    RefsPointInto(c, s, b);
    forall i | 0 <= i < |rs| ensures PointsInto(Shift(rs, u.off)[i], bytes, u.off + n) {
      assert rs[i] in rs;
      PointsIntoLonger(rs[i], bytes, u.off, u.used, n);
    }
    if rs != [] {
      RefsUseInput(c, s, b);
    }
    ParseKeeps(u, n, Shift(rs, u.off));
  }

  lemma PointsIntoLonger(r: Ref, bytes: seq<byte>, lo: nat, hi: nat, n: nat)
    requires lo <= hi <= |bytes| && PointsInto(r, bytes[lo..hi], n)
    ensures PointsInto(r.Plus(lo), bytes, lo + n)
  {
    SliceSlice(bytes, lo, hi, r.pos, r.pos + |r.data|);
  }

  lemma SliceSlice(s: seq<byte>, lo: nat, hi: nat, i: nat, j: nat)
    requires lo <= hi <= |s| && i <= j <= hi - lo
    ensures s[lo..hi][i..j] == s[lo + i..lo + j]
  {
    forall k | 0 <= k < j - i ensures s[lo..hi][i..j][k] == s[lo + i..lo + j][k] {
    }
  }
}
