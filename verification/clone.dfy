/** clone: one zone chunk of precomputed size, and a deep copy of the object into it. */
module Cloning {
  import opened Options
  import opened Bytes
  import opened Objects
  import opened Sizing

  const ALIGN: nat := 8       // MSGPACK_ZONE_ALIGN
  const OBJECT: nat := 24     // sizeof(object)
  const PAIR: nat := 48       // sizeof(object_kv)

  // ---- aligned_zone_size ----

  function ZoneSize(v: Object): nat
    decreases v
  {
    match v
    case Array(items) => OBJECT * |items| + ItemsSize(items)
    case Map(pairs) => PAIR * |pairs| + PairsSize(pairs)
    case Ext(_, data) => AlignUp(|data| + 1, ALIGN)
    case Str(data) => AlignUp(|data|, ALIGN)
    case Bin(data) => AlignUp(|data|, ALIGN)
    case _ => 0
  }

  function ItemsSize(vs: seq<Object>): nat
    decreases vs
  {
    if vs == [] then 0 else ZoneSize(vs[0]) + ItemsSize(vs[1..])
  }

  function PairsSize(ps: seq<KV>): nat
    decreases ps
  {
    if ps == [] then 0 else PairSize(ps[0]) + PairsSize(ps[1..])
  }

  function PairSize(p: KV): nat
    decreases p
  {
    ZoneSize(p.key) + ZoneSize(p.val)
  }

  // ---- memory ----

  datatype Tag = StrTag | BinTag | ExtTag | ArrayTag | MapTag

  /** An object as it lies in memory: scalars by value, the rest by pointer and size. */
  datatype Header = Scalar(v: Object) | At(tag: Tag, ptr: nat, size: nat)

  datatype Cell = Byte(b: byte) | Slot(h: Header)

  type Memory = map<nat, Cell>

  ghost predicate BytesAt(mem: Memory, p: nat, bs: seq<byte>) {
    forall x: nat | p <= x < p + |bs| :: x in mem && mem[x] == Byte(bs[x - p])
  }

  /** h points to a block of n bytes inside [lo, hi). */
  ghost predicate PointsTo(h: Header, tag: Tag, size: nat, n: nat, lo: nat, hi: nat) {
    h.At? && h.tag == tag && h.size == size && lo <= h.ptr && h.ptr + n <= hi
  }

  /** Reading memory from header h gives v, and all storage of v lies in [lo, hi). */
  ghost predicate Holds(mem: Memory, h: Header, v: Object, lo: nat, hi: nat)
    decreases v, 0
  {
    match v
    case Str(data) => PointsTo(h, StrTag, |data|, |data|, lo, hi) && BytesAt(mem, h.ptr, data)
    case Bin(data) => PointsTo(h, BinTag, |data|, |data|, lo, hi) && BytesAt(mem, h.ptr, data)
    case Ext(kind, data) => PointsTo(h, ExtTag, |data|, 1 + |data|, lo, hi) && BytesAt(mem, h.ptr, [kind] + data)
    case Array(items) =>
      PointsTo(h, ArrayTag, |items|, OBJECT * |items|, lo, hi) && HoldsItems(mem, h.ptr, items, lo, hi)
    case Map(pairs) =>
      PointsTo(h, MapTag, |pairs|, PAIR * |pairs|, lo, hi) && HoldsPairs(mem, h.ptr, pairs, lo, hi)
    case _ => h == Scalar(v)
  }

  /** The slot at p holds v, with the storage of v in [lo, hi). */
  ghost predicate HoldsAt(mem: Memory, p: nat, v: Object, lo: nat, hi: nat)
    decreases v, 1
  {
    p in mem && mem[p].Slot? && Holds(mem, mem[p].h, v, lo, hi)
  }

  ghost predicate HoldsItems(mem: Memory, p: nat, vs: seq<Object>, lo: nat, hi: nat)
    decreases vs
  {
    vs == [] || (HoldsAt(mem, p, vs[0], lo, hi) && HoldsItems(mem, p + OBJECT, vs[1..], lo, hi))
  }

  ghost predicate HoldsPairs(mem: Memory, p: nat, ps: seq<KV>, lo: nat, hi: nat)
    decreases ps
  {
    ps == [] || (HoldsPair(mem, p, ps[0], lo, hi) && HoldsPairs(mem, p + PAIR, ps[1..], lo, hi))
  }

  ghost predicate HoldsPair(mem: Memory, p: nat, kv: KV, lo: nat, hi: nat)
    decreases kv
  {
    HoldsAt(mem, p, kv.key, lo, hi) && HoldsAt(mem, p + OBJECT, kv.val, lo, hi)
  }

  // ---- the copy ----

  datatype Extent = Extent(addr: nat, size: nat)

  /** The zone's only chunk: free from ptr to end; blocks: what allocate_align has returned. */
  datatype Arena = Arena(ptr: nat, end: nat, mem: Memory, blocks: seq<Extent>)

  /** allocate_align inside the chunk; None stands for a call of allocate_expand. */
  function Take(a: Arena, size: nat): Option<(Arena, nat)> {
    var p := AlignUp(a.ptr, ALIGN);
    if p + size <= a.end then Some((a.(ptr := p + size, blocks := a.blocks + [Extent(p, size)]), p)) else None
  }

  /** memcpy to p. */
  function Write(mem: Memory, p: nat, bs: seq<byte>): (m: Memory)
    decreases |bs|
  {
    if bs == [] then mem else Write(mem[p := Byte(bs[0])], p + 1, bs[1..])
  }

  function CopyBytes(a: Arena, bs: seq<byte>): Option<(Arena, nat)> {
    match Take(a, |bs|)
    case None => None
    case Some((b, p)) => Some((b.(mem := Write(b.mem, p, bs)), p))
  }

  /** size + 1 in the 32 bits of ext.size: the bytes that object_with_zone copies of an EXT. */
  function ExtBytes(kind: byte, data: seq<byte>): seq<byte> {
    ([kind] + data)[..if |data| + 1 == TWO_32 then 0 else |data| + 1]
  }

  /** object_with_zone<object> */
  function CopyObject(a: Arena, v: Object): Option<(Arena, Header)>
    decreases v, 0
  {
    match v
    case Str(data) =>
      (match CopyBytes(a, data) case None => None case Some((b, p)) => Some((b, At(StrTag, p, |data|))))
    case Bin(data) =>
      (match CopyBytes(a, data) case None => None case Some((b, p)) => Some((b, At(BinTag, p, |data|))))
    case Ext(kind, data) =>
      (match CopyBytes(a, ExtBytes(kind, data)) case None => None case Some((b, p)) => Some((b, At(ExtTag, p, |data|))))
    case Array(items) =>
      (match Take(a, OBJECT * |items|)
       case None => None
       case Some((b, p)) =>
         match CopyItems(b, items, p) case None => None case Some(d) => Some((d, At(ArrayTag, p, |items|))))
    case Map(pairs) =>
      (match Take(a, PAIR * |pairs|)
       case None => None
       case Some((b, p)) =>
         match CopyPairs(b, pairs, p) case None => None case Some(d) => Some((d, At(MapTag, p, |pairs|))))
    case _ => Some((a, Scalar(v)))
  }

  /** Copy v and store its header in the slot at p. */
  function CopyTo(a: Arena, v: Object, p: nat): Option<Arena>
    decreases v, 1
  {
    match CopyObject(a, v)
    case None => None
    case Some((b, h)) => Some(b.(mem := b.mem[p := Slot(h)]))
  }

  function CopyItems(a: Arena, vs: seq<Object>, p: nat): Option<Arena>
    decreases vs
  {
    if vs == [] then Some(a)
    else match CopyTo(a, vs[0], p)
      case None => None
      case Some(b) => CopyItems(b, vs[1..], p + OBJECT)
  }

  function CopyPairs(a: Arena, ps: seq<KV>, p: nat): Option<Arena>
    decreases ps
  {
    if ps == [] then Some(a)
    else match CopyPair(a, ps[0], p)
      case None => None
      case Some(b) => CopyPairs(b, ps[1..], p + PAIR)
  }

  function CopyPair(a: Arena, kv: KV, p: nat): Option<Arena>
    decreases kv
  {
    match CopyTo(a, kv.key, p)
    case None => None
    case Some(b) => CopyTo(b, kv.val, p + OBJECT)
  }

  // ---- memory that stays the same ----

  ghost predicate Agree(mem: Memory, mem': Memory, lo: nat, hi: nat) {
    forall x: nat | lo <= x < hi :: (x in mem <==> x in mem') && (x in mem ==> mem'[x] == mem[x])
  }

  lemma {:induction false} WriteEffect(mem: Memory, p: nat, bs: seq<byte>)
    ensures BytesAt(Write(mem, p, bs), p, bs)
    ensures Agree(mem, Write(mem, p, bs), 0, p)
    decreases |bs|
  {
    if bs != [] {
      var mem1 := mem[p := Byte(bs[0])];
      WriteEffect(mem1, p + 1, bs[1..]);
    }
  }

  /** A stored object can be read in any memory that agrees on its storage, and in a larger window. */
  lemma {:induction false} HoldsFrame(mem: Memory, mem': Memory, h: Header, v: Object, lo: nat, hi: nat, lo': nat,
          hi': nat)
    requires Holds(mem, h, v, lo, hi) && Agree(mem, mem', lo, hi) && lo' <= lo && hi <= hi'
    ensures Holds(mem', h, v, lo', hi')
    decreases v, 0
  {
    match v {
      case Array(items) => HoldsItemsFrame(mem, mem', h.ptr, items, lo, hi, lo', hi');
      case Map(pairs) => HoldsPairsFrame(mem, mem', h.ptr, pairs, lo, hi, lo', hi');
      case _ =>
    }
  }

  lemma {:induction false} HoldsAtFrame(mem: Memory, mem': Memory, p: nat, v: Object, lo: nat, hi: nat, lo': nat,
          hi': nat)
    requires HoldsAt(mem, p, v, lo, hi) && Agree(mem, mem', lo, hi) && lo' <= lo && hi <= hi'
    requires Agree(mem, mem', p, p + OBJECT)
    ensures HoldsAt(mem', p, v, lo', hi')
    decreases v, 1
  {
    hide Holds;
    HoldsFrame(mem, mem', mem[p].h, v, lo, hi, lo', hi');
  }

  lemma {:induction false} HoldsItemsFrame(mem: Memory, mem': Memory, p: nat, vs: seq<Object>, lo: nat, hi: nat,
          lo': nat, hi': nat)
    requires HoldsItems(mem, p, vs, lo, hi) && Agree(mem, mem', lo, hi) && lo' <= lo && hi <= hi'
    requires Agree(mem, mem', p, p + OBJECT * |vs|)
    ensures HoldsItems(mem', p, vs, lo', hi')
    decreases vs
  {
    hide HoldsAt;
    if vs != [] {
      HoldsAtFrame(mem, mem', p, vs[0], lo, hi, lo', hi');
      HoldsItemsFrame(mem, mem', p + OBJECT, vs[1..], lo, hi, lo', hi');
    }
  }

  lemma {:induction false} HoldsPairsFrame(mem: Memory, mem': Memory, p: nat, ps: seq<KV>, lo: nat, hi: nat, lo': nat,
          hi': nat)
    requires HoldsPairs(mem, p, ps, lo, hi) && Agree(mem, mem', lo, hi) && lo' <= lo && hi <= hi'
    requires Agree(mem, mem', p, p + PAIR * |ps|)
    ensures HoldsPairs(mem', p, ps, lo', hi')
    decreases ps
  {
    hide HoldsPair;
    if ps != [] {
      HoldsPairFrame(mem, mem', p, ps[0], lo, hi, lo', hi');
      HoldsPairsFrame(mem, mem', p + PAIR, ps[1..], lo, hi, lo', hi');
    }
  }

  lemma {:induction false} HoldsPairFrame(mem: Memory, mem': Memory, p: nat, kv: KV, lo: nat, hi: nat, lo': nat,
          hi': nat)
    requires HoldsPair(mem, p, kv, lo, hi) && Agree(mem, mem', lo, hi) && lo' <= lo && hi <= hi'
    requires Agree(mem, mem', p, p + PAIR)
    ensures HoldsPair(mem', p, kv, lo', hi')
    decreases kv
  {
    hide HoldsAt;
    HoldsAtFrame(mem, mem', p, kv.key, lo, hi, lo', hi');
    HoldsAtFrame(mem, mem', p + OBJECT, kv.val, lo, hi, lo', hi');
  }

  // ---- the precomputed size suffices, and the copy is faithful ----

  /** The blocks bs lie in [lo, hi), each after the one before it. */
  ghost predicate Chain(bs: seq<Extent>, lo: nat, hi: nat)
    decreases |bs|
  {
    if bs == [] then lo <= hi else lo <= bs[0].addr && Chain(bs[1..], bs[0].addr + bs[0].size, hi)
  }

  lemma {:induction false} ChainJoin(bs: seq<Extent>, cs: seq<Extent>, lo: nat, mid: nat, hi: nat)
    requires Chain(bs, lo, mid) && Chain(cs, mid, hi)
    ensures Chain(bs + cs, lo, hi)
    decreases |bs|
  {
    if bs == [] {
      assert bs + cs == cs;
      ChainLower(cs, mid, lo, hi);
    } else {
      ChainJoin(bs[1..], cs, bs[0].addr + bs[0].size, mid, hi);
      assert (bs + cs)[1..] == bs[1..] + cs;
    }
  }

  lemma ChainLower(bs: seq<Extent>, lo: nat, lower: nat, hi: nat)
    requires Chain(bs, lo, hi) && lower <= lo
    ensures Chain(bs, lower, hi)
  {
  }

  /** Blocks of a chain are pairwise disjoint and inside its bounds. */
  lemma {:induction false} ChainDisjoint(bs: seq<Extent>, lo: nat, hi: nat)
    requires Chain(bs, lo, hi)
    ensures lo <= hi
    ensures forall i | 0 <= i < |bs| :: lo <= bs[i].addr && bs[i].addr + bs[i].size <= hi
    ensures forall i, j | 0 <= i < j < |bs| :: bs[i].addr + bs[i].size <= bs[j].addr
    decreases |bs|
  {
    if bs != [] {
      var rest, mid := bs[1..], bs[0].addr + bs[0].size;
      ChainDisjoint(rest, mid, hi);
      forall i | 0 < i < |bs| ensures mid <= bs[i].addr && bs[i].addr + bs[i].size <= hi {
        assert bs[i] == rest[i - 1];
      }
      forall i, j | 0 <= i < j < |bs| ensures bs[i].addr + bs[i].size <= bs[j].addr {
        assert bs[j] == rest[j - 1];
        if i > 0 {
          assert bs[i] == rest[i - 1];
        }
      }
    }
  }

  function Aligned(p: nat): nat { AlignUp(p, ALIGN) }

  lemma AlignedFacts(p: nat, n: nat)
    ensures p <= Aligned(p) && Aligned(Aligned(p) + n) == Aligned(p) + Aligned(n)
    ensures Aligned(OBJECT * n) == OBJECT * n && Aligned(PAIR * n) == PAIR * n
  {
    assert (OBJECT * n + 7) / 8 == 3 * n;
    assert (PAIR * n + 7) / 8 == 6 * n;
  }

  /** From a to b the zone took new blocks in order, `size` bytes with their alignment. */
  ghost predicate Grew(a: Arena, b: Arena, size: nat) {
    && b.end == a.end && a.ptr <= b.ptr && Aligned(b.ptr) == Aligned(a.ptr) + size
    && |a.blocks| <= |b.blocks| && b.blocks[..|a.blocks|] == a.blocks
    && Chain(b.blocks[|a.blocks|..], a.ptr, b.ptr)
  }

  lemma GrewTwice(a: Arena, b: Arena, d: Arena, m: nat, n: nat)
    requires Grew(a, b, m) && Grew(b, d, n)
    ensures Grew(a, d, m + n)
  {
    hide Chain, AlignUp;
    var i, j := |a.blocks|, |b.blocks|;
    ChainJoin(b.blocks[i..], d.blocks[j..], a.ptr, b.ptr, d.ptr);
    assert d.blocks[i..j] == b.blocks[i..];
    assert d.blocks[i..] == d.blocks[i..j] + d.blocks[j..];
    assert d.blocks[..i] == d.blocks[..j][..i];
  }

  lemma TakeGrew(a: Arena, size: nat)
    requires Aligned(a.ptr) + size <= a.end
    ensures Take(a, size).Some?
    ensures var (b, p) := Take(a, size).value;
            && Grew(a, b, Aligned(size)) && b.mem == a.mem
            && a.ptr <= p == Aligned(a.ptr) && b.ptr == p + size
  {
    AlignedFacts(a.ptr, size);
    hide AlignUp;
    var (b, p) := Take(a, size).value;
    assert b.blocks[|a.blocks|..] == [Extent(p, size)];
    assert Chain([Extent(p, size)][1..], p + size, b.ptr);
  }

  /** No EXT whose 32-bit size field is 0xffffffff, for which size + 1 wraps to 0. */
  ghost predicate NoMaxExt(v: Object)
    decreases v
  {
    match v
    case Ext(_, data) => |data| + 1 != TWO_32
    case Array(items) => forall x | x in items :: NoMaxExt(x)
    case Map(pairs) => forall p | p in pairs :: NoMaxExt(p.key) && NoMaxExt(p.val)
    case _ => true
  }

  /** The copy of v fits, changes nothing below ptr, and reads back as v from its own storage. */
  ghost predicate CopiesWell(a: Arena, v: Object) {
    var r := CopyObject(a, v);
    && r.Some?
    && var (b, h) := r.value;
       && Grew(a, b, ZoneSize(v)) && Agree(a.mem, b.mem, 0, a.ptr)
       && Holds(b.mem, h, v, a.ptr, b.ptr)
  }

  lemma BlobCopies(a: Arena, bs: seq<byte>)
    requires Aligned(a.ptr) + Aligned(|bs|) <= a.end
    ensures CopyBytes(a, bs).Some?
    ensures var (b, p) := CopyBytes(a, bs).value;
            && Grew(a, b, Aligned(|bs|)) && Agree(a.mem, b.mem, 0, a.ptr)
            && a.ptr <= p && p + |bs| <= b.ptr && BytesAt(b.mem, p, bs)
  {
    hide AlignUp, Chain;
    AlignedFacts(|bs|, 0);
    TakeGrew(a, |bs|);
    var (b, p) := Take(a, |bs|).value;
    WriteEffect(b.mem, p, bs);
  }

  lemma {:induction false} CopyObjectOk(a: Arena, v: Object)
    requires NoMaxExt(v) && Aligned(a.ptr) + ZoneSize(v) <= a.end
    ensures CopiesWell(a, v)
    decreases v, 0
  {
    hide AlignUp, Aligned, Grew, Chain;
    match v {
      case Str(data) => AlignedIs(|data|); BlobCopies(a, data);
      case Bin(data) => AlignedIs(|data|); BlobCopies(a, data);
      case Ext(kind, data) =>
        AlignedIs(|data| + 1);
        assert ExtBytes(kind, data) == [kind] + data;
        BlobCopies(a, [kind] + data);
      case Array(items) => CopyArrayOk(a, v);
      case Map(pairs) => CopyMapOk(a, v);
      case _ => GrewNothing(a);
    }
  }

  lemma AlignedIs(n: nat)
    ensures Aligned(n) == AlignUp(n, ALIGN)
  {
  }

  lemma GrewNothing(a: Arena)
    ensures Grew(a, a, 0)
  {
    assert a.blocks[|a.blocks|..] == [];
  }

  lemma {:induction false} CopyArrayOk(a: Arena, v: Object)
    requires v.Array? && NoMaxExt(v) && Aligned(a.ptr) + ZoneSize(v) <= a.end
    ensures CopiesWell(a, v)
    decreases v, 0, 0
  {
    hide AlignUp, Aligned, Grew, Chain;
    var n := OBJECT * |v.items|;
    AlignedFacts(a.ptr, |v.items|);
    AlignedFacts(a.ptr, n);
    TakeGrew(a, n);
    var (b, p) := Take(a, n).value;
    CopyItemsOk(b, v.items, p);
    var d := CopyItems(b, v.items, p).value;
    GrewTwice(a, b, d, n, ItemsSize(v.items));
    GrewMonotone(a, b, n);
    GrewMonotone(b, d, ItemsSize(v.items));
    HoldsItemsFrame(d.mem, d.mem, p, v.items, b.ptr, d.ptr, a.ptr, d.ptr);
  }

  lemma {:induction false} CopyMapOk(a: Arena, v: Object)
    requires v.Map? && NoMaxExt(v) && Aligned(a.ptr) + ZoneSize(v) <= a.end
    ensures CopiesWell(a, v)
    decreases v, 0, 0
  {
    hide AlignUp, Aligned, Grew, Chain;
    var n := PAIR * |v.pairs|;
    AlignedFacts(a.ptr, |v.pairs|);
    AlignedFacts(a.ptr, n);
    TakeGrew(a, n);
    var (b, p) := Take(a, n).value;
    CopyPairsOk(b, v.pairs, p);
    var d := CopyPairs(b, v.pairs, p).value;
    GrewTwice(a, b, d, n, PairsSize(v.pairs));
    GrewMonotone(a, b, n);
    GrewMonotone(b, d, PairsSize(v.pairs));
    HoldsPairsFrame(d.mem, d.mem, p, v.pairs, b.ptr, d.ptr, a.ptr, d.ptr);
  }

  lemma GrewMonotone(a: Arena, b: Arena, n: nat)
    requires Grew(a, b, n)
    ensures a.ptr <= b.ptr && b.end == a.end && Aligned(b.ptr) <= Aligned(a.ptr) + n
  {
  }

  lemma {:induction false} CopyToOk(a: Arena, v: Object, p: nat)
    requires NoMaxExt(v) && Aligned(a.ptr) + ZoneSize(v) <= a.end && p + OBJECT <= a.ptr
    ensures CopyTo(a, v, p).Some?
    ensures var b := CopyTo(a, v, p).value;
            && Grew(a, b, ZoneSize(v))
            && Agree(a.mem, b.mem, 0, p) && Agree(a.mem, b.mem, p + OBJECT, a.ptr)
            && HoldsAt(b.mem, p, v, a.ptr, b.ptr)
    decreases v, 1
  {
    hide AlignUp, Aligned, Chain, CopyObject, Holds;
    CopyObjectOk(a, v);
    var (b, h) := CopyObject(a, v).value;
    HoldsFrame(b.mem, b.mem[p := Slot(h)], h, v, a.ptr, b.ptr, a.ptr, b.ptr);
  }

  lemma {:induction false} CopyItemsOk(a: Arena, vs: seq<Object>, p: nat)
    requires forall x | x in vs :: NoMaxExt(x)
    requires Aligned(a.ptr) + ItemsSize(vs) <= a.end && p + OBJECT * |vs| <= a.ptr
    ensures CopyItems(a, vs, p).Some?
    ensures var b := CopyItems(a, vs, p).value;
            && Grew(a, b, ItemsSize(vs))
            && Agree(a.mem, b.mem, 0, p) && Agree(a.mem, b.mem, p + OBJECT * |vs|, a.ptr)
            && HoldsItems(b.mem, p, vs, a.ptr, b.ptr)
    decreases vs
  {
    hide AlignUp, Aligned, Grew, Chain, CopyTo, HoldsAt, NoMaxExt;
    if vs == [] {
      GrewNothing(a);
    } else {
      CopyToOk(a, vs[0], p);
      var b := CopyTo(a, vs[0], p).value;
      GrewMonotone(a, b, ZoneSize(vs[0]));
      CopyItemsOk(b, vs[1..], p + OBJECT);
      var d := CopyItems(b, vs[1..], p + OBJECT).value;
      GrewMonotone(b, d, ItemsSize(vs[1..]));
      GrewTwice(a, b, d, ZoneSize(vs[0]), ItemsSize(vs[1..]));
      HoldsAtFrame(b.mem, d.mem, p, vs[0], a.ptr, b.ptr, a.ptr, d.ptr);
      HoldsItemsFrame(d.mem, d.mem, p + OBJECT, vs[1..], b.ptr, d.ptr, a.ptr, d.ptr);
    }
  }

  lemma {:induction false} CopyPairsOk(a: Arena, ps: seq<KV>, p: nat)
    requires forall kv | kv in ps :: NoMaxExt(kv.key) && NoMaxExt(kv.val)
    requires Aligned(a.ptr) + PairsSize(ps) <= a.end && p + PAIR * |ps| <= a.ptr
    ensures CopyPairs(a, ps, p).Some?
    ensures var b := CopyPairs(a, ps, p).value;
            && Grew(a, b, PairsSize(ps))
            && Agree(a.mem, b.mem, 0, p) && Agree(a.mem, b.mem, p + PAIR * |ps|, a.ptr)
            && HoldsPairs(b.mem, p, ps, a.ptr, b.ptr)
    decreases ps
  {
    hide AlignUp, Aligned, Grew, Chain, CopyPair, HoldsPair, NoMaxExt;
    if ps == [] {
      GrewNothing(a);
    } else {
      CopyPairOk(a, ps[0], p);
      var b := CopyPair(a, ps[0], p).value;
      GrewMonotone(a, b, PairSize(ps[0]));
      CopyPairsOk(b, ps[1..], p + PAIR);
      var d := CopyPairs(b, ps[1..], p + PAIR).value;
      GrewMonotone(b, d, PairsSize(ps[1..]));
      GrewTwice(a, b, d, PairSize(ps[0]), PairsSize(ps[1..]));
      HoldsPairFrame(b.mem, d.mem, p, ps[0], a.ptr, b.ptr, a.ptr, d.ptr);
      HoldsPairsFrame(d.mem, d.mem, p + PAIR, ps[1..], b.ptr, d.ptr, a.ptr, d.ptr);
    }
  }

  lemma {:induction false} CopyPairOk(a: Arena, kv: KV, p: nat)
    requires NoMaxExt(kv.key) && NoMaxExt(kv.val)
    requires Aligned(a.ptr) + PairSize(kv) <= a.end && p + PAIR <= a.ptr
    ensures CopyPair(a, kv, p).Some?
    ensures var b := CopyPair(a, kv, p).value;
            && Grew(a, b, PairSize(kv))
            && Agree(a.mem, b.mem, 0, p) && Agree(a.mem, b.mem, p + PAIR, a.ptr)
            && HoldsPair(b.mem, p, kv, a.ptr, b.ptr)
    decreases kv
  {
    hide AlignUp, Aligned, Grew, Chain, CopyTo, HoldsAt, NoMaxExt;
    CopyToOk(a, kv.key, p);
    var b := CopyTo(a, kv.key, p).value;
    GrewMonotone(a, b, ZoneSize(kv.key));
    CopyToOk(b, kv.val, p + OBJECT);
    var d := CopyTo(b, kv.val, p + OBJECT).value;
    GrewMonotone(b, d, ZoneSize(kv.val));
    GrewTwice(a, b, d, ZoneSize(kv.key), ZoneSize(kv.val));
    HoldsAtFrame(b.mem, d.mem, p, kv.key, a.ptr, b.ptr, a.ptr, d.ptr);
    HoldsAtFrame(d.mem, d.mem, p + OBJECT, kv.val, b.ptr, d.ptr, a.ptr, d.ptr);
  }

  /**
   * clone: in a zone whose one chunk has exactly aligned_zone_size(v) bytes at an aligned address,
   * the deep copy never asks for another chunk and leaves no room for another block, reads back as
   * v, and its blocks are pairwise disjoint and inside the chunk.
   */
  lemma CloneIsFaithful(v: Object, base: nat, mem: Memory)
    requires NoMaxExt(v) && base % ALIGN == 0
    ensures var r := CopyObject(Arena(base, base + ZoneSize(v), mem, []), v);
            && r.Some?
            && var (b, h) := r.value;
               && Holds(b.mem, h, v, base, base + ZoneSize(v))
               && Agree(mem, b.mem, 0, base) && Aligned(b.ptr) == base + ZoneSize(v)
               && (forall i | 0 <= i < |b.blocks| ::
                     base <= b.blocks[i].addr && b.blocks[i].addr + b.blocks[i].size <= base + ZoneSize(v))
               && (forall i, j | 0 <= i < j < |b.blocks| :: b.blocks[i].addr + b.blocks[i].size <= b.blocks[j].addr)
  {
    hide AlignUp, Aligned, Chain, CopyObject, Holds, ZoneSize;
    var a := Arena(base, base + ZoneSize(v), mem, []);
    AlignedBase(base);
    CopyObjectOk(a, v);
    var (b, h) := CopyObject(a, v).value;
    assert b.blocks[0..] == b.blocks;
    AlignedFacts(b.ptr, 0);
    ChainDisjoint(b.blocks, base, b.ptr);
    HoldsFrame(b.mem, b.mem, h, v, base, b.ptr, base, a.end);
  }

  lemma AlignedBase(base: nat)
    requires base % ALIGN == 0
    ensures Aligned(base) == base
  {
  }

  /** The exception: the copy of an EXT of size 0xffffffff takes an empty block and copies nothing. */
  lemma MaxExtIsLost(kind: byte, data: seq<byte>, base: nat)
    requires |data| + 1 == TWO_32 && base % ALIGN == 0
    ensures var v := Ext(kind, data);
            var r := CopyObject(Arena(base, base + ZoneSize(v), map[], []), v);
            && r.Some? && r.value.0.blocks == [Extent(base, 0)]
            && !Holds(r.value.0.mem, r.value.1, v, base, base + ZoneSize(v))
  {
    var v := Ext(kind, data);
    AlignedBase(base);
    var (b, h) := CopyObject(Arena(base, base + ZoneSize(v), map[], []), v).value;
    assert ExtBytes(kind, data) == [];
    assert b.mem == map[] && base !in b.mem;
  }
}
