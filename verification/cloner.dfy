/** clone and object_with_zone as they run: loops over the elements, writing into zone memory. */
module Cloners {
  import opened Options
  import opened Bytes
  import opened Objects
  import opened Sizing
  import opened Cloning

  /** aligned_zone_size */
  method AlignedZoneSize(v: Object) returns (s: nat)
    ensures s == ZoneSize(v)
    decreases v
  {
    match v {
      case Array(items) =>
        s := OBJECT * |items|;
        var n := SizeOfItems(items);
        s := s + n;
      case Map(pairs) =>
        s := PAIR * |pairs|;
        var n := SizeOfPairs(pairs);
        s := s + n;
      case Ext(_, data) => s := AlignUp(|data| + 1, ALIGN);
      case Str(data) => s := AlignUp(|data|, ALIGN);
      case Bin(data) => s := AlignUp(|data|, ALIGN);
      case _ => s := 0;
    }
  }

  method SizeOfItems(vs: seq<Object>) returns (s: nat)
    ensures s == ItemsSize(vs)
    decreases vs, 0
  {
    s := 0;
    var i := 0;
    while i < |vs|
      invariant i <= |vs| && s + ItemsSize(vs[i..]) == ItemsSize(vs)
    {
      var n := AlignedZoneSize(vs[i]);
      assert vs[i..][1..] == vs[i + 1..];
      s := s + n;
      i := i + 1;
    }
  }

  method SizeOfPairs(ps: seq<KV>) returns (s: nat)
    ensures s == PairsSize(ps)
    decreases ps, 0
  {
    s := 0;
    var i := 0;
    while i < |ps|
      invariant i <= |ps| && s + PairsSize(ps[i..]) == PairsSize(ps)
    {
      var n := SizeOfPair(ps[i]);
      assert ps[i..][1..] == ps[i + 1..];
      s := s + n;
      i := i + 1;
    }
  }

  method SizeOfPair(p: KV) returns (s: nat)
    ensures s == PairSize(p)
    decreases p
  {
    s := AlignedZoneSize(p.key);
    var n := AlignedZoneSize(p.val);
    s := s + n;
  }

  /** The zone that clone creates, with the memory behind it. */
  class Cloner {
    var ptr: nat
    var end: nat
    var mem: Memory
    var blocks: seq<Extent>

    ghost function Abs(): Arena
      reads this
    {
      Arena(ptr, end, mem, blocks)
    }

    constructor (base: nat, size: nat, mem: Memory)
      ensures Abs() == Arena(base, base + size, mem, [])
    {
      ptr, end, this.mem, blocks := base, base + size, mem, [];
    }

    /** allocate_align; not ok means that allocate_expand would be called. */
    method Allocate(size: nat) returns (ok: bool, p: nat)
      modifies this`ptr, this`blocks
      ensures Take(old(Abs()), size) == if ok then Some((Abs(), p)) else None
    {
      p := AlignUp(ptr, ALIGN);
      if p + size <= end {
        ptr := p + size;
        blocks := blocks + [Extent(p, size)];
        ok := true;
      } else {
        ok := false;
      }
    }

    method MemCpy(p: nat, bs: seq<byte>)
      modifies this`mem
      ensures mem == Write(old(mem), p, bs)
    {
      var i := 0;
      while i < |bs|
        invariant i <= |bs| && Write(mem, p + i, bs[i..]) == Write(old(mem), p, bs)
      {
        mem := mem[p + i := Byte(bs[i])];
        assert bs[i..][1..] == bs[i + 1..];
        i := i + 1;
      }
    }

    method CopyBlob(bs: seq<byte>) returns (ok: bool, p: nat)
      modifies this
      ensures CopyBytes(old(Abs()), bs) == if ok then Some((Abs(), p)) else None
    {
      ok, p := Allocate(|bs|);
      if ok {
        MemCpy(p, bs);
      }
    }

    /** object_with_zone<object> */
    method Copy(v: Object) returns (ok: bool, h: Header)
      modifies this
      ensures CopyObject(old(Abs()), v) == if ok then Some((Abs(), h)) else None
      decreases v, 0
    {
      hide CopyBytes, Take;
      var p;
      match v {
        case Str(data) =>
          ok, p := CopyBlob(data);
          h := At(StrTag, p, |data|);
        case Bin(data) =>
          ok, p := CopyBlob(data);
          h := At(BinTag, p, |data|);
        case Ext(kind, data) =>
          ok, p := CopyBlob(ExtBytes(kind, data));
          h := At(ExtTag, p, |data|);
        case Array(items) =>
          ok, p := Allocate(OBJECT * |items|);
          if ok {
            ok := CopyAll(items, p);
          }
          h := At(ArrayTag, p, |items|);
        case Map(pairs) =>
          ok, p := Allocate(PAIR * |pairs|);
          if ok {
            ok := CopyAllPairs(pairs, p);
          }
          h := At(MapTag, p, |pairs|);
        case _ =>
          ok, h := true, Scalar(v);
      }
    }

    method CopyInto(v: Object, p: nat) returns (ok: bool)
      modifies this
      ensures CopyTo(old(Abs()), v, p) == if ok then Some(Abs()) else None
      decreases v, 1
    {
      var h;
      ok, h := Copy(v);
      if ok {
        mem := mem[p := Slot(h)];
      }
    }

    method CopyAll(vs: seq<Object>, p: nat) returns (ok: bool)
      modifies this
      ensures CopyItems(old(Abs()), vs, p) == if ok then Some(Abs()) else None
      decreases vs, 0
    {
      hide CopyTo;
      var i := 0;
      while i < |vs|
        invariant i <= |vs|
        invariant CopyItems(Abs(), vs[i..], p + OBJECT * i) == CopyItems(old(Abs()), vs, p)
      {
        ok := CopyInto(vs[i], p + OBJECT * i);
        assert vs[i..][1..] == vs[i + 1..];
        if !ok {
          return;
        }
        i := i + 1;
      }
      ok := true;
    }

    method CopyAllPairs(ps: seq<KV>, p: nat) returns (ok: bool)
      modifies this
      ensures CopyPairs(old(Abs()), ps, p) == if ok then Some(Abs()) else None
      decreases ps, 0
    {
      hide CopyPair;
      var i := 0;
      while i < |ps|
        invariant i <= |ps|
        invariant CopyPairs(Abs(), ps[i..], p + PAIR * i) == CopyPairs(old(Abs()), ps, p)
      {
        ok := CopyOnePair(ps[i], p + PAIR * i);
        assert ps[i..][1..] == ps[i + 1..];
        if !ok {
          return;
        }
        i := i + 1;
      }
      ok := true;
    }

    method CopyOnePair(kv: KV, p: nat) returns (ok: bool)
      modifies this
      ensures CopyPair(old(Abs()), kv, p) == if ok then Some(Abs()) else None
      decreases kv
    {
      ok := CopyInto(kv.key, p);
      if ok {
        ok := CopyInto(kv.val, p + OBJECT);
      }
    }
  }

  /** What clone returns: the source itself when it needs no storage, else a copy in a zone. */
  datatype Cloned = SameObject(v: Object) | InZone(h: Header, mem: Memory)

  /** clone; base is the payload address of the zone's chunk. */
  method Clone(v: Object, base: nat, mem: Memory) returns (r: Cloned)
    requires base % ALIGN == 0
    ensures ZoneSize(v) == 0 ==> r == SameObject(v)
    ensures ZoneSize(v) > 0 && NoMaxExt(v) ==>
              r.InZone? && Holds(r.mem, r.h, v, base, base + ZoneSize(v)) && Agree(mem, r.mem, 0, base)
  {
    hide ZoneSize, CopyObject, Holds, NoMaxExt;
    var size := AlignedZoneSize(v);
    if size == 0 {
      return SameObject(v);
    }
    if NoMaxExt(v) {
      CloneIsFaithful(v, base, mem);
    }
    var z := new Cloner(base, size, mem);
    var ok, h := z.Copy(v);
    return InZone(h, z.mem);
  }
}
