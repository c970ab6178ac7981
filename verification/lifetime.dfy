/**
 * The reference-counted input buffers of unpacker: who holds which buffer, and which bytes the
 * objects in progress and the objects handed out still point at.
 */
module Lifetime {
  import opened Options
  import opened Bytes
  import opened Objects
  import opened References

  const COUNTER_SIZE: nat := 4

  /** A malloc'ed buffer: its counter and its bytes (the first COUNTER_SIZE belong to the counter). */
  datatype Block = Block(count: nat, bytes: seq<byte>)

  /** The live buffers, by address. */
  type Heap = map<nat, Block>

  /** A pointer from an object into a buffer. */
  datatype Pin = Pin(buf: nat, ref: Ref)

  /** An object handed out: its value, and the finalizers and pointers of its zone. */
  datatype Handle = Handle(obj: Object, fin: seq<nat>, pins: seq<Pin>)

  /**
   * buffer .. off: the fields m_buffer, m_used, m_free and m_off; fin: the finalizers pushed on
   * m_z; pins: what the object in progress points at in older buffers; refs: the same for the
   * current buffer (m_user.referenced() is refs != []); live: the objects handed out.
   */
  datatype Life = Life(mem: Heap, buffer: nat, used: nat, free: nat, off: nat,
                       fin: seq<nat>, pins: seq<Pin>, refs: seq<Ref>, live: seq<Handle>)

  // ---- counting holders ----

  ghost function Fins(hs: seq<Handle>): multiset<nat> {
    if hs == [] then multiset{} else Fins(hs[..|hs| - 1]) + multiset(hs[|hs| - 1].fin)
  }

  /** One hold for the unpacker itself, and one for each pending decr_count. */
  ghost function Holds(u: Life): multiset<nat> {
    multiset{u.buffer} + multiset(u.fin) + Fins(u.live)
  }

  /** Every buffer in memory is held, its counter says how often, and every held buffer is there. */
  ghost predicate Balanced(mem: Heap, holds: multiset<nat>) {
    && (forall id | id in mem :: mem[id].count == holds[id] && holds[id] > 0)
    && (forall id | id in holds :: id in mem)
  }

  /** incr_count */
  function Retain(mem: Heap, id: nat): Heap
    requires id in mem
  {
    mem[id := mem[id].(count := mem[id].count + 1)]
  }

  /** decr_count: the last holder frees the buffer. */
  function Release(mem: Heap, id: nat): Heap
    requires id in mem && mem[id].count > 0
  {
    if mem[id].count == 1 then mem - {id} else mem[id := mem[id].(count := mem[id].count - 1)]
  }

  lemma RetainBalances(mem: Heap, holds: multiset<nat>, id: nat)
    requires Balanced(mem, holds) && id in mem
    ensures Balanced(Retain(mem, id), holds + multiset{id})
  {
  }

  lemma ReleaseBalances(mem: Heap, holds: multiset<nat>, id: nat)
    requires Balanced(mem, holds) && id in holds
    ensures Balanced(Release(mem, id), holds - multiset{id})
  {
  }

  /** The destructor of a zone: its finalizers, last pushed first. */
  ghost function ReleaseAll(mem: Heap, fin: seq<nat>, holds: multiset<nat>): (mem': Heap)
    requires Balanced(mem, holds) && multiset(fin) <= holds
    ensures Balanced(mem', holds - multiset(fin))
    ensures forall id | id in mem' :: id in mem && mem'[id].bytes == mem[id].bytes
    decreases |fin|
  {
    if fin == [] then mem
    else
      var last := fin[|fin| - 1];
      assert fin == fin[..|fin| - 1] + [last];
      ReleaseBalances(mem, holds, last);
      assert (holds - multiset{last}) - multiset(fin[..|fin| - 1]) == holds - multiset(fin);
      ReleaseAll(Release(mem, last), fin[..|fin| - 1], holds - multiset{last})
  }

  /** One more finalizer. */
  lemma ReleaseAllStep(mem: Heap, fin: seq<nat>, k: nat, holds: multiset<nat>)
    requires k < |fin| && Balanced(mem, holds) && multiset(fin[..k + 1]) <= holds
    ensures fin[k] in mem && mem[fin[k]].count > 0
    ensures Balanced(Release(mem, fin[k]), holds - multiset{fin[k]})
    ensures multiset(fin[..k]) <= holds - multiset{fin[k]}
    ensures ReleaseAll(mem, fin[..k + 1], holds) == ReleaseAll(Release(mem, fin[k]), fin[..k], holds - multiset{fin[k]})
  {
    assert fin[..k + 1] == fin[..k] + [fin[k]];
    assert fin[..k + 1][..k] == fin[..k];
    assert fin[k] in holds;
    ReleaseBalances(mem, holds, fin[k]);
  }

  // ---- pointers ----

  /** The bytes of buffer id that may be pointed at: all of an older buffer, the parsed part of the current one. */
  ghost function Parsed(u: Life, id: nat): nat
    requires id in u.mem
  {
    if id == u.buffer then u.off else |u.mem[id].bytes|
  }

  /** The pointer can be read and still reads the bytes that were parsed there. */
  ghost predicate Readable(u: Life, p: Pin) {
    p.buf in u.mem && PointsInto(p.ref, u.mem[p.buf].bytes, Parsed(u, p.buf))
  }

  /** Each pointer is readable and protected by a finalizer of the same zone. */
  ghost predicate Guarded(u: Life, pins: seq<Pin>, fin: seq<nat>) {
    forall i | 0 <= i < |pins| :: pins[i].buf in fin && Readable(u, pins[i])
  }

  ghost predicate BufferOk(u: Life) {
    && u.buffer in u.mem
    && COUNTER_SIZE <= u.off <= u.used
    && u.used + u.free == |u.mem[u.buffer].bytes|
  }

  /** At the start of a buffer nothing points into it and nobody else holds it. */
  ghost predicate StartOk(u: Life) {
    u.off == COUNTER_SIZE ==> u.refs == [] && Holds(u)[u.buffer] == 1
  }

  /** The invariant of every run. */
  ghost predicate Inv(u: Life) {
    && Balanced(u.mem, Holds(u))
    && BufferOk(u)
    && StartOk(u)
    && (forall i | 0 <= i < |u.refs| :: Readable(u, Pin(u.buffer, u.refs[i])))
    && Guarded(u, u.pins, u.fin)
    && (forall i | 0 <= i < |u.live| :: Guarded(u, u.live[i].pins, u.live[i].fin))
  }

  /** The constructor: one buffer, held by the unpacker alone. */
  ghost function Opened(id: nat, bytes: seq<byte>): Life
    requires |bytes| >= COUNTER_SIZE
  {
    Life(map[id := Block(1, bytes)], id, COUNTER_SIZE, |bytes| - COUNTER_SIZE, COUNTER_SIZE, [], [], [], [])
  }

  lemma OpenedInv(id: nat, bytes: seq<byte>)
    requires |bytes| >= COUNTER_SIZE
    ensures Inv(Opened(id, bytes))
  {
    assert Holds(Opened(id, bytes)) == multiset{id};
  }

  // ---- the operations ----

  /** The caller writes x at buffer() and reports it to buffer_consumed. */
  ghost function Feed(u: Life, x: seq<byte>): Life
    requires BufferOk(u) && |x| <= u.free
  {
    var b := u.mem[u.buffer];
    var bytes := b.bytes[..u.used] + x + b.bytes[u.used + |x|..];
    u.(mem := u.mem[u.buffer := b.(bytes := bytes)], used := u.used + |x|, free := u.free - |x|)
  }

  /** expand_buffer, first branch: everything is parsed and nobody needs it. */
  ghost function Rewind(u: Life): Life
    requires BufferOk(u)
  {
    u.(free := u.free + u.used - COUNTER_SIZE, used := COUNTER_SIZE, off := COUNTER_SIZE)
  }

  /** expand_buffer, second branch: realloc may move the buffer to the address id. */
  ghost function Grow(u: Life, id: nat, tail: seq<byte>): Life
    requires BufferOk(u)
  {
    var bytes := u.mem[u.buffer].bytes[..u.used] + tail;
    u.(mem := (u.mem - {u.buffer})[id := Block(u.mem[u.buffer].count, bytes)], buffer := id, free := |tail|)
  }

  /** expand_buffer, third branch: the unparsed bytes move to a new buffer at the address id. */
  ghost function Move(u: Life, id: nat, head: seq<byte>, tail: seq<byte>): Life
    requires BufferOk(u) && Balanced(u.mem, Holds(u))
    requires |head| == COUNTER_SIZE
  {
    var rest := u.mem[u.buffer].bytes[u.off..u.used];
    var block := Block(1, head + rest + tail);
    var u' := u.(buffer := id, used := COUNTER_SIZE + |rest|, free := |tail|, off := COUNTER_SIZE);
    if u.refs != [] then
      u'.(mem := u.mem[id := block], fin := u.fin + [u.buffer], pins := u.pins + PinAll(u.buffer, u.refs), refs := [])
    else
      u'.(mem := Release(u.mem, u.buffer)[id := block])
  }

  function PinAll(id: nat, refs: seq<Ref>): (ps: seq<Pin>)
    ensures |ps| == |refs| && forall i | 0 <= i < |refs| :: ps[i] == Pin(id, refs[i])
  {
    seq(|refs|, i requires 0 <= i < |refs| => Pin(id, refs[i]))
  }

  /** execute: n bytes are parsed, leaving the new references rs. */
  ghost function Parse(u: Life, n: nat, rs: seq<Ref>): Life {
    u.(off := u.off + n, refs := u.refs + rs)
  }

  /** next, when an object is complete: flush_zone, release_zone, and the object goes out. */
  ghost function HandOut(u: Life, obj: Object): Life
    requires u.buffer in u.mem
  {
    var referenced := u.refs != [];
    var mem := if referenced then Retain(u.mem, u.buffer) else u.mem;
    var fin := if referenced then u.fin + [u.buffer] else u.fin;
    u.(mem := mem, fin := [], pins := [], refs := [],
       live := u.live + [Handle(obj, fin, u.pins + PinAll(u.buffer, u.refs))])
  }

  /** The caller destroys the i-th object. */
  ghost function Drop(u: Life, i: nat): Life
    requires i < |u.live| && Balanced(u.mem, Holds(u))
  {
    FinsSplit(u.live, i);
    u.(mem := ReleaseAll(u.mem, u.live[i].fin, Holds(u)), live := u.live[..i] + u.live[i + 1..])
  }

  lemma FinsSnoc(hs: seq<Handle>, h: Handle)
    ensures Fins(hs + [h]) == Fins(hs) + multiset(h.fin)
  {
    assert (hs + [h])[..|hs|] == hs;
  }

  lemma {:induction false} FinsSplit(hs: seq<Handle>, i: nat)
    requires i < |hs|
    ensures Fins(hs) == Fins(hs[..i] + hs[i + 1..]) + multiset(hs[i].fin)
    decreases |hs|
  {
    hide Fins;
    var init, last := hs[..|hs| - 1], hs[|hs| - 1];
    FinsSnoc(init, last);
    assert init + [last] == hs;
    if i < |hs| - 1 {
      FinsSplit(init, i);
      FinsSnoc(init[..i] + init[i + 1..], last);
      assert init[..i] + init[i + 1..] + [last] == hs[..i] + hs[i + 1..];
    } else {
      assert hs[..i] + hs[i + 1..] == init;
    }
  }

  // ---- every operation keeps the invariant ----

  lemma HandleHolds(hs: seq<Handle>, i: nat, id: nat)
    requires i < |hs| && id in hs[i].fin
    ensures id in Fins(hs)
  {
    FinsSplit(hs, i);
  }

  /** If only the unpacker holds its buffer, no object in progress or handed out guards a pointer into it. */
  lemma SoleHolder(u: Life)
    requires Holds(u)[u.buffer] == 1
    ensures u.buffer !in u.fin && u.buffer !in Fins(u.live)
    ensures forall i | 0 <= i < |u.live| :: u.buffer !in u.live[i].fin
  {
    assert u.buffer in multiset{u.buffer};
    forall i | 0 <= i < |u.live| ensures u.buffer !in u.live[i].fin {
      if u.buffer in u.live[i].fin {
        HandleHolds(u.live, i, u.buffer);
      }
    }
  }

  lemma SliceOfPrefix(b: seq<byte>, n: nat, lo: nat, hi: nat)
    requires lo <= hi <= n <= |b|
    ensures b[lo..hi] == b[..n][lo..hi]
  {
  }

  /** A pointer stays readable if its buffer survives with the same bytes below the parsed part. */
  lemma StaysReadable(u: Life, u': Life, p: Pin)
    requires Readable(u, p) && p.buf in u'.mem
    requires Parsed(u, p.buf) <= Parsed(u', p.buf) <= |u'.mem[p.buf].bytes|
    requires u'.mem[p.buf].bytes[..Parsed(u, p.buf)] == u.mem[p.buf].bytes[..Parsed(u, p.buf)]
    ensures Readable(u', p)
  {
    var n, b, b' := Parsed(u, p.buf), u.mem[p.buf].bytes, u'.mem[p.buf].bytes;
    var lo, hi := p.ref.pos, p.ref.pos + |p.ref.data|;
    SliceOfPrefix(b, n, lo, hi);
    SliceOfPrefix(b', n, lo, hi);
  }

  /** What an operation must leave alone for the pointers to stay readable. */
  ghost predicate Undisturbed(u: Life, u': Life, id: nat) {
    && id in u.mem && id in u'.mem
    && Parsed(u, id) <= Parsed(u', id) <= |u'.mem[id].bytes|
    && Parsed(u, id) <= |u.mem[id].bytes|
    && u'.mem[id].bytes[..Parsed(u, id)] == u.mem[id].bytes[..Parsed(u, id)]
  }

  lemma GuardedStays(u: Life, u': Life, pins: seq<Pin>, fin: seq<nat>)
    requires Guarded(u, pins, fin)
    requires forall id | id in fin :: Undisturbed(u, u', id)
    ensures Guarded(u', pins, fin)
  {
    hide Parsed, Readable;
    forall i | 0 <= i < |pins| ensures Readable(u', pins[i]) {
      StaysReadable(u, u', pins[i]);
    }
  }

  /** If every buffer held by a zone is undisturbed, so is every pointer of every zone. */
  lemma AllGuardedStay(u: Life, u': Life)
    requires Inv(u)
    requires forall id | id in multiset(u.fin) + Fins(u.live) :: Undisturbed(u, u', id)
    ensures Guarded(u', u.pins, u.fin)
    ensures forall i | 0 <= i < |u.live| :: Guarded(u', u.live[i].pins, u.live[i].fin)
  {
    hide Undisturbed, Guarded, Balanced, Fins;
    forall id | id in u.fin ensures Undisturbed(u, u', id) {
      assert id in multiset(u.fin);
    }
    GuardedStays(u, u', u.pins, u.fin);
    forall i | 0 <= i < |u.live| ensures Guarded(u', u.live[i].pins, u.live[i].fin) {
      forall id | id in u.live[i].fin ensures Undisturbed(u, u', id) {
        HandleHolds(u.live, i, id);
      }
      GuardedStays(u, u', u.live[i].pins, u.live[i].fin);
    }
  }

  lemma FeedKeeps(u: Life, x: seq<byte>)
    requires Inv(u) && |x| <= u.free
    ensures Inv(Feed(u, x))
    ensures var u' := Feed(u, x);
            u'.mem[u'.buffer].bytes[u'.off..u'.used] == u.mem[u.buffer].bytes[u.off..u.used] + x
  {
    var u' := Feed(u, x);
    var b, b' := u.mem[u.buffer].bytes, u'.mem[u.buffer].bytes;
    assert b'[..u.off] == b[..u.off];
    assert b'[u.off..u'.used] == b[u.off..u.used] + x;
    assert Holds(u') == Holds(u);
    forall id | id in u.mem ensures Undisturbed(u, u', id) {
    }
    AllGuardedStay(u, u');
    forall i | 0 <= i < |u.refs| ensures Readable(u', Pin(u.buffer, u.refs[i])) {
      StaysReadable(u, u', Pin(u.buffer, u.refs[i]));
    }
  }

  lemma RewindKeeps(u: Life)
    requires Inv(u) && u.used == u.off && u.mem[u.buffer].count == 1 && u.refs == []
    ensures Inv(Rewind(u))
  {
    var u' := Rewind(u);
    SoleHolder(u);
    assert Holds(u') == Holds(u);
    forall id | id in multiset(u.fin) + Fins(u.live) ensures Undisturbed(u, u', id) {
      assert id != u.buffer && id in u.mem;
    }
    AllGuardedStay(u, u');
  }

  lemma GrowKeeps(u: Life, id: nat, tail: seq<byte>)
    requires Inv(u) && u.off == COUNTER_SIZE
    requires id == u.buffer || id !in u.mem
    ensures Inv(Grow(u, id, tail))
    ensures var u' := Grow(u, id, tail);
            u'.mem[u'.buffer].bytes[u'.off..u'.used] == u.mem[u.buffer].bytes[u.off..u.used]
  {
    var u' := Grow(u, id, tail);
    SoleHolder(u);
    assert id !in multiset(u.fin) + Fins(u.live) by {
      assert id != u.buffer ==> id !in Holds(u);
    }
    assert Balanced(u'.mem, Holds(u'));
    forall x | x in multiset(u.fin) + Fins(u.live) ensures Undisturbed(u, u', x) {
      assert x in Holds(u) && x != u.buffer && x != id;
    }
    AllGuardedStay(u, u');
  }

  lemma ParseKeeps(u: Life, n: nat, rs: seq<Ref>)
    requires Inv(u) && u.off + n <= u.used
    requires forall i | 0 <= i < |rs| :: PointsInto(rs[i], u.mem[u.buffer].bytes, u.off + n)
    requires rs != [] ==> n > 0
    ensures Inv(Parse(u, n, rs))
  {
    var u' := Parse(u, n, rs);
    assert Holds(u') == Holds(u);
    forall id | id in u.mem ensures Undisturbed(u, u', id) {
    }
    AllGuardedStay(u, u');
  }

  lemma DropKeeps(u: Life, i: nat)
    requires Inv(u) && i < |u.live|
    ensures Inv(Drop(u, i))
  {
    hide ReleaseAll, Fins, Guarded, Readable;
    var u' := Drop(u, i);
    FinsSplit(u.live, i);
    assert Holds(u') == Holds(u) - multiset(u.live[i].fin);
    assert u.buffer in Holds(u');
    DropGuards(u, u', i);
  }

  lemma DropGuards(u: Life, u': Life, i: nat)
    requires Inv(u) && i < |u.live| && u'.live == u.live[..i] + u.live[i + 1..]
    requires u'.fin == u.fin && u'.pins == u.pins && u'.refs == u.refs && u'.buffer == u.buffer
    requires Balanced(u'.mem, Holds(u'))
    requires forall x | x in u'.mem :: Undisturbed(u, u', x)
    ensures Guarded(u', u'.pins, u'.fin)
    ensures forall j | 0 <= j < |u'.live| :: Guarded(u', u'.live[j].pins, u'.live[j].fin)
    ensures forall j | 0 <= j < |u.refs| :: Readable(u', Pin(u.buffer, u.refs[j]))
  {
    hide Undisturbed, Guarded, Fins;
    forall x | x in u'.fin ensures Undisturbed(u, u', x) {
      assert x in multiset(u'.fin) && x in Holds(u');
    }
    GuardedStays(u, u', u'.pins, u'.fin);
    forall j | 0 <= j < |u'.live| ensures Guarded(u', u'.live[j].pins, u'.live[j].fin) {
      var k := if j < i then j else j + 1;
      assert u'.live[j] == u.live[k];
      forall x | x in u'.live[j].fin ensures Undisturbed(u, u', x) {
        HandleHolds(u'.live, j, x);
        assert x in Holds(u');
      }
      GuardedStays(u, u', u'.live[j].pins, u'.live[j].fin);
    }
    assert u.buffer in Holds(u');
    UndisturbedRefs(u, u');
  }

  lemma UndisturbedRefs(u: Life, u': Life)
    requires u'.buffer == u.buffer && Undisturbed(u, u', u.buffer)
    requires forall j | 0 <= j < |u.refs| :: Readable(u, Pin(u.buffer, u.refs[j]))
    ensures forall j | 0 <= j < |u.refs| :: Readable(u', Pin(u.buffer, u.refs[j]))
  {
    hide Readable;
    forall j | 0 <= j < |u.refs| ensures Readable(u', Pin(u.buffer, u.refs[j])) {
      StaysReadable(u, u', Pin(u.buffer, u.refs[j]));
    }
  }

  lemma MoveBalances(u: Life, id: nat, head: seq<byte>, tail: seq<byte>)
    requires Inv(u) && id !in u.mem && |head| == COUNTER_SIZE
    ensures var u' := Move(u, id, head, tail);
            && Balanced(u'.mem, Holds(u')) && id !in Holds(u)
            && Holds(u') == (if u.refs != [] then Holds(u) else Holds(u) - multiset{u.buffer}) + multiset{id}
  {
    hide Fins, Guarded, Readable;
    var u' := Move(u, id, head, tail);
    assert id !in Holds(u);
    if u.refs != [] {
      assert Holds(u') == Holds(u) + multiset{id};
    } else {
      ReleaseBalances(u.mem, Holds(u), u.buffer);
      assert Holds(u') == Holds(u) - multiset{u.buffer} + multiset{id};
    }
  }

  lemma MoveSpares(u: Life, id: nat, head: seq<byte>, tail: seq<byte>, x: nat)
    requires Inv(u) && id !in u.mem && |head| == COUNTER_SIZE && x in multiset(u.fin) + Fins(u.live)
    ensures Undisturbed(u, Move(u, id, head, tail), x)
  {
    hide Fins, Guarded, Readable;
    MoveBalances(u, id, head, tail);
    assert x in Holds(u) && x in Holds(Move(u, id, head, tail));
  }

  lemma MoveKeeps(u: Life, id: nat, head: seq<byte>, tail: seq<byte>)
    requires Inv(u) && id !in u.mem && |head| == COUNTER_SIZE
    ensures Inv(Move(u, id, head, tail))
    ensures var u' := Move(u, id, head, tail);
            u'.mem[u'.buffer].bytes[u'.off..u'.used] == u.mem[u.buffer].bytes[u.off..u.used]
  {
    hide Fins, Guarded, Readable, Holds, Balanced, Undisturbed;
    var u' := Move(u, id, head, tail);
    MoveBalances(u, id, head, tail);
    forall x | x in multiset(u.fin) + Fins(u.live) ensures Undisturbed(u, u', x) {
      MoveSpares(u, id, head, tail, x);
    }
    MoveGuards(u, u');
  }

  lemma MoveGuards(u: Life, u': Life)
    requires Inv(u) && u'.live == u.live && u'.refs == [] && u'.buffer != u.buffer
    requires if u.refs != [] then
               && u'.fin == u.fin + [u.buffer] && u'.pins == u.pins + PinAll(u.buffer, u.refs)
               && u.buffer in u'.mem && u'.mem[u.buffer] == u.mem[u.buffer]
             else u'.fin == u.fin && u'.pins == u.pins
    requires forall x | x in multiset(u.fin) + Fins(u.live) :: Undisturbed(u, u', x)
    ensures Guarded(u', u'.pins, u'.fin)
    ensures forall i | 0 <= i < |u.live| :: Guarded(u', u.live[i].pins, u.live[i].fin)
  {
    hide Fins, Undisturbed;
    AllGuardedStay(u, u');
    if u.refs != [] {
      forall i | 0 <= i < |u.refs| ensures Readable(u', Pin(u.buffer, u.refs[i])) {
        StaysReadable(u, u', Pin(u.buffer, u.refs[i]));
      }
    }
  }

  lemma HandOutBalances(u: Life, obj: Object)
    requires Inv(u)
    ensures var u' := HandOut(u, obj);
            && Balanced(u'.mem, Holds(u'))
            && Holds(u') == if u.refs != [] then Holds(u) + multiset{u.buffer} else Holds(u)
  {
    hide Guarded, Readable, PinAll;
    var u' := HandOut(u, obj);
    assert u'.live[..|u'.live| - 1] == u.live;
    if u.refs != [] {
      RetainBalances(u.mem, Holds(u), u.buffer);
      assert Holds(u') == Holds(u) + multiset{u.buffer};
    } else {
      assert Holds(u') == Holds(u);
    }
  }

  lemma HandOutKeeps(u: Life, obj: Object)
    requires Inv(u)
    ensures Inv(HandOut(u, obj))
    ensures HandOut(u, obj).mem[u.buffer].bytes == u.mem[u.buffer].bytes
  {
    hide Guarded, Readable, Fins, Holds, Balanced;
    HandOutBalances(u, obj);
    HandOutGuards(u, HandOut(u, obj), obj);
  }

  lemma HandOutGuards(u: Life, u': Life, obj: Object)
    requires Inv(u) && u' == HandOut(u, obj)
    ensures Guarded(u', u'.pins, u'.fin)
    ensures forall i | 0 <= i < |u'.live| :: Guarded(u', u'.live[i].pins, u'.live[i].fin)
  {
    hide Fins;
    forall x | x in multiset(u.fin) + Fins(u.live) ensures Undisturbed(u, u', x) {
      assert x in Holds(u);
    }
    AllGuardedStay(u, u');
    forall i | 0 <= i < |u.refs| ensures Readable(u', Pin(u.buffer, u.refs[i])) {
      StaysReadable(u, u', Pin(u.buffer, u.refs[i]));
    }
  }

  // ---- runs ----

  /** What the unpacker, its caller and malloc can do to the buffers. */
  datatype Op =
    | Fed(x: seq<byte>)
    | Rewound
    | Grown(id: nat, tail: seq<byte>)
    | Moved(id: nat, head: seq<byte>, tail: seq<byte>)
    | Ate(n: nat, rs: seq<Ref>)
    | Gave(obj: Object)
    | Dropped(i: nat)

  /** The guards of the code; malloc and realloc return addresses that are not in use. */
  ghost predicate Ready(u: Life, op: Op)
    requires BufferOk(u)
  {
    match op
    case Fed(x) => |x| <= u.free
    case Rewound => u.used == u.off && u.mem[u.buffer].count == 1 && u.refs == []
    case Grown(id, _) => u.off == COUNTER_SIZE && (id == u.buffer || id !in u.mem)
    case Moved(id, head, _) => id !in u.mem && |head| == COUNTER_SIZE
    case Ate(n, rs) =>
      && u.off + n <= u.used && (rs != [] ==> n > 0)
      && (forall i | 0 <= i < |rs| :: PointsInto(rs[i], u.mem[u.buffer].bytes, u.off + n))
    case Gave(_) => true
    case Dropped(i) => i < |u.live|
  }

  ghost function Apply(u: Life, op: Op): Life
    requires Inv(u) && Ready(u, op)
  {
    match op
    case Fed(x) => Feed(u, x)
    case Rewound => Rewind(u)
    case Grown(id, tail) => Grow(u, id, tail)
    case Moved(id, head, tail) => Move(u, id, head, tail)
    case Ate(n, rs) => Parse(u, n, rs)
    case Gave(obj) => HandOut(u, obj)
    case Dropped(i) => Drop(u, i)
  }

  lemma StepKeeps(u: Life, op: Op)
    requires Inv(u) && Ready(u, op)
    ensures Inv(Apply(u, op))
  {
    hide Balanced, Holds, Guarded, Readable, StartOk, Feed, Rewind, Grow, Move, Parse, HandOut, Drop;
    match op
    case Fed(x) => FeedKeeps(u, x);
    case Rewound => RewindKeeps(u);
    case Grown(id, tail) => GrowKeeps(u, id, tail);
    case Moved(id, head, tail) => MoveKeeps(u, id, head, tail);
    case Ate(n, rs) => ParseKeeps(u, n, rs);
    case Gave(obj) => HandOutKeeps(u, obj);
    case Dropped(i) => DropKeeps(u, i);
  }

  ghost predicate Reaches(u: Life, ops: seq<Op>, v: Life)
    decreases ops
  {
    if ops == [] then u == v
    else (BufferOk(u) ==> Ready(u, ops[0])) && (Inv(u) ==> Reaches(Apply(u, ops[0]), ops[1..], v))
  }

  /**
   * In every run: a buffer's count is the number of its holders, the unpacker's own hold and the
   * pending decrements of zones; every pointer of an object in progress or handed out still reads
   * what was parsed there; and at COUNTER_SIZE the count is 1 and nothing is referenced.
   */
  lemma {:induction false} RunKeeps(u: Life, ops: seq<Op>, v: Life)
    requires Inv(u) && Reaches(u, ops, v)
    ensures Inv(v)
    decreases ops
  {
    hide Ready, Apply, Balanced, Guarded, Readable, StartOk;
    if ops != [] {
      StepKeeps(u, ops[0]);
      RunKeeps(Apply(u, ops[0]), ops[1..], v);
    }
  }

  /** Where the i-th object handed out is after the operations; None once it is destroyed. */
  ghost function Follow(ops: seq<Op>, i: nat): Option<nat>
    decreases ops
  {
    if ops == [] then Some(i)
    else if ops[0].Dropped? && ops[0].i == i then None
    else Follow(ops[1..], if ops[0].Dropped? && ops[0].i < i then i - 1 else i)
  }

  lemma HandleStays(u: Life, op: Op, i: nat)
    requires Inv(u) && Ready(u, op) && i < |u.live| && (op.Dropped? ==> op.i != i)
    ensures var j := if op.Dropped? && op.i < i then i - 1 else i;
            j < |Apply(u, op).live| && Apply(u, op).live[j] == u.live[i]
  {
    hide Balanced, Holds, Guarded, Readable, StartOk;
  }

  /**
   * An object handed out reads the same bytes for as long as it lives: over every run that does
   * not destroy it, it is still there and every pointer of it reads what was parsed.
   */
  lemma {:induction false} HandleReads(u: Life, ops: seq<Op>, v: Life, i: nat)
    requires Inv(u) && Reaches(u, ops, v) && i < |u.live| && Follow(ops, i).Some?
    ensures Follow(ops, i).value < |v.live| && v.live[Follow(ops, i).value] == u.live[i]
    ensures forall k | 0 <= k < |u.live[i].pins| :: Readable(v, u.live[i].pins[k])
    decreases ops
  {
    hide Ready, Apply, Balanced, Readable, StartOk;
    if ops == [] {
      assert Guarded(u, u.live[i].pins, u.live[i].fin);
    } else {
      StepKeeps(u, ops[0]);
      HandleStays(u, ops[0], i);
      HandleReads(Apply(u, ops[0]), ops[1..], v, if ops[0].Dropped? && ops[0].i < i then i - 1 else i);
    }
  }

  // ---- the end of the unpacker ----

  /** ~unpacker: its own hold goes, then the zone of the object in progress runs its finalizers. */
  ghost function Closed(u: Life): Heap
    requires Balanced(u.mem, Holds(u))
  {
    ReleaseBalances(u.mem, Holds(u), u.buffer);
    ReleaseAll(Release(u.mem, u.buffer), u.fin, Holds(u) - multiset{u.buffer})
  }

  /**
   * After that the objects handed out are the only holders: each buffer counts them and is there
   * as long as one is left, and every pointer of theirs still reads what was parsed.
   */
  lemma CloseReads(u: Life)
    requires Inv(u)
    ensures Balanced(Closed(u), Fins(u.live))
    ensures forall i, k | 0 <= i < |u.live| && 0 <= k < |u.live[i].pins| ::
              var p := u.live[i].pins[k];
              p.buf in Closed(u) && PointsInto(p.ref, Closed(u)[p.buf].bytes, |Closed(u)[p.buf].bytes|)
    ensures u.live == [] ==> Closed(u) == map[]
  {
    hide ReleaseAll, Fins, StartOk;
    ReleaseBalances(u.mem, Holds(u), u.buffer);
    assert Holds(u) - multiset{u.buffer} - multiset(u.fin) == Fins(u.live);
    forall i, k | 0 <= i < |u.live| && 0 <= k < |u.live[i].pins|
      ensures var p := u.live[i].pins[k];
              p.buf in Closed(u) && PointsInto(p.ref, Closed(u)[p.buf].bytes, |Closed(u)[p.buf].bytes|)
    {
      var p := u.live[i].pins[k];
      assert Guarded(u, u.live[i].pins, u.live[i].fin);
      HandleHolds(u.live, i, p.buf);
      assert p.buf in Closed(u) && Closed(u)[p.buf].bytes == u.mem[p.buf].bytes;
    }
    NoFins();
    if u.live == [] {
      assert forall id | id in Closed(u) :: Fins([])[id] > 0;
    }
  }

  lemma NoFins()
    ensures Fins([]) == multiset{}
  {
  }
}
