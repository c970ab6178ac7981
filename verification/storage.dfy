/** How much storage a deep copy takes, and when that is what the object needs. */
module Storage {
  import opened Bytes
  import opened Objects
  import opened Cloning
  import Zones

  ghost function Total(bs: seq<Extent>): nat {
    if bs == [] then 0 else Total(bs[..|bs| - 1]) + bs[|bs| - 1].size
  }

  /** The bytes behind the pointers of v; lost: an EXT of size 0xffffffff counts for nothing. */
  ghost function Needs(v: Object, lost: bool): nat
    decreases v
  {
    match v
    case Str(data) => |data|
    case Bin(data) => |data|
    case Ext(kind, data) => if lost then |ExtBytes(kind, data)| else |data| + 1
    case Array(items) => OBJECT * |items| + NeedsItems(items, lost)
    case Map(pairs) => PAIR * |pairs| + NeedsPairs(pairs, lost)
    case _ => 0
  }

  ghost function NeedsItems(vs: seq<Object>, lost: bool): nat
    decreases vs
  {
    if vs == [] then 0 else Needs(vs[0], lost) + NeedsItems(vs[1..], lost)
  }

  ghost function NeedsPairs(ps: seq<KV>, lost: bool): nat
    decreases ps
  {
    if ps == [] then 0 else NeedsPair(ps[0], lost) + NeedsPairs(ps[1..], lost)
  }

  ghost function NeedsPair(p: KV, lost: bool): nat
    decreases p
  {
    Needs(p.key, lost) + Needs(p.val, lost)
  }

  lemma TotalGrows(bs: seq<Extent>, b: Extent)
    ensures Total(bs + [b]) == Total(bs) + b.size
  {
    assert (bs + [b])[..|bs|] == bs;
  }

  lemma TakeTotals(a: Arena, size: nat)
    ensures Take(a, size).Some? ==> Total(Take(a, size).value.0.blocks) == Total(a.blocks) + size
  {
    hide Total;
    var p := Sizing.AlignUp(a.ptr, ALIGN);
    TotalGrows(a.blocks, Extent(p, size));
  }

  lemma {:induction false} CopyTakes(a: Arena, v: Object)
    ensures CopyObject(a, v).Some? ==> Total(CopyObject(a, v).value.0.blocks) == Total(a.blocks) + Needs(v, true)
    decreases v, 0
  {
    hide Total, Take, ExtBytes, Write;
    match v {
      case Str(data) => TakeTotals(a, |data|);
      case Bin(data) => TakeTotals(a, |data|);
      case Ext(kind, data) => TakeTotals(a, |ExtBytes(kind, data)|);
      case Array(items) =>
        TakeTotals(a, OBJECT * |items|);
        if Take(a, OBJECT * |items|).Some? {
          var (b, p) := Take(a, OBJECT * |items|).value;
          CopyItemsTakes(b, items, p);
        }
      case Map(pairs) =>
        TakeTotals(a, PAIR * |pairs|);
        if Take(a, PAIR * |pairs|).Some? {
          var (b, p) := Take(a, PAIR * |pairs|).value;
          CopyPairsTakes(b, pairs, p);
        }
      case _ =>
    }
  }

  lemma {:induction false} CopyToTakes(a: Arena, v: Object, p: nat)
    ensures CopyTo(a, v, p).Some? ==> Total(CopyTo(a, v, p).value.blocks) == Total(a.blocks) + Needs(v, true)
    decreases v, 1
  {
    hide Total, Needs, CopyObject;
    CopyTakes(a, v);
  }

  lemma {:induction false} CopyItemsTakes(a: Arena, vs: seq<Object>, p: nat)
    ensures CopyItems(a, vs, p).Some? ==>
              Total(CopyItems(a, vs, p).value.blocks) == Total(a.blocks) + NeedsItems(vs, true)
    decreases vs
  {
    hide Total, Needs, CopyTo;
    if vs != [] {
      CopyToTakes(a, vs[0], p);
      if CopyTo(a, vs[0], p).Some? {
        CopyItemsTakes(CopyTo(a, vs[0], p).value, vs[1..], p + OBJECT);
      }
    }
  }

  lemma {:induction false} CopyPairsTakes(a: Arena, ps: seq<KV>, p: nat)
    ensures CopyPairs(a, ps, p).Some? ==>
              Total(CopyPairs(a, ps, p).value.blocks) == Total(a.blocks) + NeedsPairs(ps, true)
    decreases ps
  {
    hide Total, NeedsPair, CopyPair;
    if ps != [] {
      CopyPairTakes(a, ps[0], p);
      if CopyPair(a, ps[0], p).Some? {
        CopyPairsTakes(CopyPair(a, ps[0], p).value, ps[1..], p + PAIR);
      }
    }
  }

  lemma {:induction false} CopyPairTakes(a: Arena, kv: KV, p: nat)
    ensures CopyPair(a, kv, p).Some? ==> Total(CopyPair(a, kv, p).value.blocks) == Total(a.blocks) + NeedsPair(kv, true)
    decreases kv
  {
    hide Total, Needs, CopyTo;
    CopyToTakes(a, kv.key, p);
    if CopyTo(a, kv.key, p).Some? {
      CopyToTakes(CopyTo(a, kv.key, p).value, kv.val, p + OBJECT);
    }
  }

  lemma {:induction false} LostIff(v: Object)
    requires Representable(v)
    ensures Needs(v, true) <= Needs(v, false)
    ensures Needs(v, true) == Needs(v, false) <==> NoMaxExt(v)
    decreases v
  {
    match v {
      case Array(items) => LostItemsIff(items);
      case Map(pairs) => LostPairsIff(pairs);
      case _ =>
    }
  }

  lemma {:induction false} LostItemsIff(vs: seq<Object>)
    requires forall x | x in vs :: Representable(x)
    ensures NeedsItems(vs, true) <= NeedsItems(vs, false)
    ensures NeedsItems(vs, true) == NeedsItems(vs, false) <==> forall x | x in vs :: NoMaxExt(x)
    decreases vs
  {
    hide Needs, NoMaxExt;
    if vs != [] {
      LostIff(vs[0]);
      LostItemsIff(vs[1..]);
      assert vs == [vs[0]] + vs[1..];
    }
  }

  lemma {:induction false} LostPairsIff(ps: seq<KV>)
    requires forall p | p in ps :: Representable(p.key) && Representable(p.val)
    ensures NeedsPairs(ps, true) <= NeedsPairs(ps, false)
    ensures NeedsPairs(ps, true) == NeedsPairs(ps, false) <==> forall p | p in ps :: NoMaxExt(p.key) && NoMaxExt(p.val)
    decreases ps
  {
    hide Needs, NoMaxExt;
    if ps != [] {
      LostPairIff(ps[0]);
      LostPairsIff(ps[1..]);
      assert ps == [ps[0]] + ps[1..];
    }
  }

  lemma {:induction false} LostPairIff(p: KV)
    requires Representable(p.key) && Representable(p.val)
    ensures NeedsPair(p, true) <= NeedsPair(p, false)
    ensures NeedsPair(p, true) == NeedsPair(p, false) <==> NoMaxExt(p.key) && NoMaxExt(p.val)
    decreases p
  {
    hide Needs, NoMaxExt;
    LostIff(p.key);
    LostIff(p.val);
  }

  /**
   * For every object, clone's copy fits the precomputed chunk with all the storage the object
   * needs exactly when no EXT in it has size 0xffffffff.
   */
  lemma CloneStoresIff(v: Object, base: nat, mem: Memory)
    requires Representable(v) && base % ALIGN == 0
    ensures var r := CopyObject(Arena(base, base + ZoneSize(v), mem, []), v);
            r.Some? && Total(r.value.0.blocks) == Needs(v, false) <==> NoMaxExt(v)
  {
    hide CopyObject, Needs, NoMaxExt, Holds, ZoneSize, Representable;
    CopyTakes(Arena(base, base + ZoneSize(v), mem, []), v);
    LostIff(v);
    if NoMaxExt(v) {
      CloneIsFaithful(v, base, mem);
    }
  }

  /** The zone's newest chunk has the free part of the arena. */
  ghost predicate Backs(z: Zones.Zone, a: Arena) {
    Zones.ChunksOk(z) && z.chunkSize < TWO_64 && z.ptr == a.ptr && z.ptr + z.free == a.end
  }

  /**
   * Take is allocate_align of the zone: it succeeds exactly when the zone needs no chunk, and then
   * at the same address and with the same free part left.
   */
  lemma TakeIsAllocate(a: Arena, z: Zones.Zone, size: nat, base: nat)
    requires Backs(z, a) && size + ALIGN < TWO_64
    ensures Take(a, size).Some? <==> !Zones.NeedsChunk(z, size, ALIGN)
    ensures Take(a, size).Some? ==>
              var (z', p) := Zones.AllocateAlign(z, size, ALIGN, base);
              p == Take(a, size).value.1 && Backs(z', Take(a, size).value.0) && z'.chunks == z.chunks
  {
    hide Sizing.GrownSize;
    Sizing.AlignUpIsNext(a.ptr, ALIGN);
  }
}
