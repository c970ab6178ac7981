/** packer<Stream>: serialization to the shortest MessagePack format. */
module Packing {
  import opened Bytes
  import opened Objects

  // ---- what is written, as a function of the value ----

  /** The shortest integer format, as "Serialization: type to format conversion" asks. */
  function IntBytes(i: int): seq<byte>
    requires -TWO_64 <= 2 * i && i < TWO_64
  {
    if 0 <= i then
      if i < 0x80 then [i]
      else if i < 0x100 then [0xcc, i]
      else if i < 0x1_0000 then [0xcd] + Be(i, 2)
      else if i < TWO_32 then [0xce] + Be(i, 4)
      else [0xcf] + Be(i, 8)
    else
      if -0x20 <= i then [0x100 + i]
      else if -0x80 <= i then [0xd0, 0x100 + i]
      else if -0x8000 <= i then [0xd1] + Be(0x1_0000 + i, 2)
      else if -0x8000_0000 <= i then [0xd2] + Be(TWO_32 + i, 4)
      else [0xd3] + Be(TWO_64 + i, 8)
  }

  function StrHeader(l: nat): seq<byte>
    requires l < TWO_32
  {
    if l < 0x20 then [0xa0 + l]
    else if l < 0x100 then [0xd9, l]
    else if l < 0x1_0000 then [0xda] + Be(l, 2)
    else [0xdb] + Be(l, 4)
  }

  function BinHeader(l: nat): seq<byte>
    requires l < TWO_32
  {
    if l < 0x100 then [0xc4, l]
    else if l < 0x1_0000 then [0xc5] + Be(l, 2)
    else [0xc6] + Be(l, 4)
  }

  function ExtHeader(l: nat, kind: byte): seq<byte>
    requires l < TWO_32
  {
    if l == 1 then [0xd4, kind]
    else if l == 2 then [0xd5, kind]
    else if l == 4 then [0xd6, kind]
    else if l == 8 then [0xd7, kind]
    else if l == 16 then [0xd8, kind]
    else if l < 0x100 then [0xc7, l, kind]
    else if l < 0x1_0000 then [0xc8] + Be(l, 2) + [kind]
    else [0xc9] + Be(l, 4) + [kind]
  }

  /** fix: the first byte of the short form; long: the first byte of the 16-bit form. */
  function SizeHeader(n: nat, fix: byte, long: byte): seq<byte>
    requires n < TWO_32 && fix <= 0xf0 && long < 0xff
  {
    if n < 16 then [fix + n]
    else if n < 0x1_0000 then [long] + Be(n, 2)
    else [long + 1] + Be(n, 4)
  }

  function ArrayHeader(n: nat): seq<byte>
    requires n < TWO_32
  {
    SizeHeader(n, 0x90, 0xdc)
  }

  function MapHeader(n: nat): seq<byte>
    requires n < TWO_32
  {
    SizeHeader(n, 0x80, 0xde)
  }

  /** The bytes of a whole object. */
  ghost function Packed(v: Object): seq<byte>
    requires Representable(v)
    decreases v
  {
    match v
    case Nil => [0xc0]
    case Boolean(b) => [if b then 0xc3 else 0xc2]
    case PosInt(u) => IntBytes(u)
    case NegInt(i) => IntBytes(i)
    case Float(bits) => [0xcb] + Be(bits, 8)
    case Str(data) => StrHeader(|data|) + data
    case Bin(data) => BinHeader(|data|) + data
    case Ext(kind, data) => ExtHeader(|data|, kind) + data
    case Array(items) => ArrayHeader(|items|) + PackedItems(items)
    case Map(pairs) => MapHeader(|pairs|) + PackedPairs(pairs)
  }

  ghost function PackedItems(vs: seq<Object>): seq<byte>
    requires forall x | x in vs :: Representable(x)
    decreases vs
  {
    if vs == [] then [] else Packed(vs[0]) + PackedItems(vs[1..])
  }

  ghost function PackedPairs(ps: seq<KV>): seq<byte>
    requires forall p | p in ps :: Representable(p.key) && Representable(p.val)
    decreases ps
  {
    if ps == [] then [] else PackedKV(ps[0]) + PackedPairs(ps[1..])
  }

  ghost function PackedKV(p: KV): seq<byte>
    requires Representable(p.key) && Representable(p.val)
    decreases p
  {
    Packed(p.key) + Packed(p.val)
  }

  // ---- the packer object ----

  /** take8_8 .. take8_64: the low byte of any integer. */
  function Take8(d: int): byte { d % 0x100 }

  /** _msgpack_store16/32/64 of a value converted to w bytes. */
  function Store(d: int, w: nat): seq<byte> { Be(d % Pow256(w), w) }

  lemma StoreIsBe(d: int)
    ensures 0 <= d < 0x1_0000 ==> Store(d, 2) == Be(d, 2)
    ensures 0 <= d < TWO_32 ==> Store(d, 4) == Be(d, 4)
    ensures 0 <= d ==> Store(d, 4) == Be(d % TWO_32, 4)
    ensures 0 <= d < TWO_64 ==> Store(d, 8) == Be(d, 8)
    ensures -0x1_0000 <= d < 0 ==> Store(d, 2) == Be(0x1_0000 + d, 2)
    ensures -TWO_32 <= d < 0 ==> Store(d, 4) == Be(TWO_32 + d, 4)
    ensures -TWO_64 <= d < 0 ==> Store(d, 8) == Be(TWO_64 + d, 8)
    ensures 0 <= d < 0x100 ==> Take8(d) == d
    ensures -0x100 <= d < 0 ==> Take8(d) == 0x100 + d
  {
    Pow256Values();
    hide Pow256, Be;
  }

  class Packer {
    var stream: seq<byte>

    constructor ()
      ensures stream == []
    {
      stream := [];
    }

    method AppendBuffer(buf: seq<byte>)
      modifies this
      ensures stream == old(stream) + buf
    {
      stream := stream + buf;
    }

    method PackUint8(d: int)
      requires 0 <= d < 0x100
      modifies this
      ensures stream == old(stream) + IntBytes(d)
    {
      hide Be, Store, Take8;
      StoreIsBe(d);
      if d < 0x80 {
        AppendBuffer([Take8(d)]);
      } else {
        AppendBuffer([0xcc, Take8(d)]);
      }
    }

    method PackUint16(d: int)
      requires 0 <= d < 0x1_0000
      modifies this
      ensures stream == old(stream) + IntBytes(d)
    {
      hide Be, Store, Take8;
      StoreIsBe(d);
      if d < 0x80 {
        AppendBuffer([Take8(d)]);
      } else if d < 0x100 {
        AppendBuffer([0xcc, Take8(d)]);
      } else {
        AppendBuffer([0xcd] + Store(d, 2));
      }
    }

    method PackUint32(d: int)
      requires 0 <= d < TWO_32
      modifies this
      ensures stream == old(stream) + IntBytes(d)
    {
      hide Be, Store, Take8;
      StoreIsBe(d);
      if d < 0x100 {
        if d < 0x80 {
          AppendBuffer([Take8(d)]);
        } else {
          AppendBuffer([0xcc, Take8(d)]);
        }
      } else {
        if d < 0x1_0000 {
          AppendBuffer([0xcd] + Store(d, 2));
        } else {
          AppendBuffer([0xce] + Store(d, 4));
        }
      }
    }

    method PackUint64(d: int)
      requires 0 <= d < TWO_64
      modifies this
      ensures stream == old(stream) + IntBytes(d)
    {
      hide Be, Store, Take8;
      StoreIsBe(d);
      if d < 0x100 {
        if d < 0x80 {
          AppendBuffer([Take8(d)]);
        } else {
          AppendBuffer([0xcc, Take8(d)]);
        }
      } else {
        if d < 0x1_0000 {
          AppendBuffer([0xcd] + Store(d, 2));
        } else if d < TWO_32 {
          AppendBuffer([0xce] + Store(d, 4));
        } else {
          AppendBuffer([0xcf] + Store(d, 8));
        }
      }
    }

    method PackInt8(d: int)
      requires -0x80 <= d < 0x80
      modifies this
      ensures stream == old(stream) + IntBytes(d)
    {
      hide Be, Store, Take8;
      StoreIsBe(d);
      if d < -0x20 {
        AppendBuffer([0xd0, Take8(d)]);
      } else {
        AppendBuffer([Take8(d)]);
      }
    }

    method PackInt16(d: int)
      requires -0x8000 <= d < 0x8000
      modifies this
      ensures stream == old(stream) + IntBytes(d)
    {
      hide Be, Store, Take8;
      StoreIsBe(d);
      if d < -0x20 {
        if d < -0x80 {
          AppendBuffer([0xd1] + Store(d, 2));
        } else {
          AppendBuffer([0xd0, Take8(d)]);
        }
      } else if d < 0x80 {
        AppendBuffer([Take8(d)]);
      } else {
        if d < 0x100 {
          AppendBuffer([0xcc, Take8(d)]);
        } else {
          AppendBuffer([0xcd] + Store(d, 2));
        }
      }
    }

    method PackInt32(d: int)
      requires -0x8000_0000 <= d < 0x8000_0000
      modifies this
      ensures stream == old(stream) + IntBytes(d)
    {
      hide Be, Store, Take8;
      StoreIsBe(d);
      if d < -0x20 {
        if d < -0x8000 {
          AppendBuffer([0xd2] + Store(d, 4));
        } else if d < -0x80 {
          AppendBuffer([0xd1] + Store(d, 2));
        } else {
          AppendBuffer([0xd0, Take8(d)]);
        }
      } else if d < 0x80 {
        AppendBuffer([Take8(d)]);
      } else {
        if d < 0x100 {
          AppendBuffer([0xcc, Take8(d)]);
        } else if d < 0x1_0000 {
          AppendBuffer([0xcd] + Store(d, 2));
        } else {
          AppendBuffer([0xce] + Store(d, 4));
        }
      }
    }

    method PackInt64(d: int)
      requires -TWO_64 <= 2 * d < TWO_64
      modifies this
      ensures stream == old(stream) + IntBytes(d)
    {
      hide Be, Store, Take8;
      StoreIsBe(d);
      if d < -0x20 {
        if d < -0x8000 {
          if d < -0x8000_0000 {
            AppendBuffer([0xd3] + Store(d, 8));
          } else {
            AppendBuffer([0xd2] + Store(d, 4));
          }
        } else {
          if d < -0x80 {
            AppendBuffer([0xd1] + Store(d, 2));
          } else {
            AppendBuffer([0xd0, Take8(d)]);
          }
        }
      } else if d < 0x80 {
        AppendBuffer([Take8(d)]);
      } else {
        if d < 0x1_0000 {
          if d < 0x100 {
            AppendBuffer([0xcc, Take8(d)]);
          } else {
            AppendBuffer([0xcd] + Store(d, 2));
          }
        } else {
          if d < TWO_32 {
            AppendBuffer([0xce] + Store(d, 4));
          } else {
            AppendBuffer([0xcf] + Store(d, 8));
          }
        }
      }
    }

    method PackStr(l: nat)
      requires l < TWO_32
      modifies this
      ensures stream == old(stream) + StrHeader(l)
    {
      hide Be, Store;
      StoreIsBe(l);
      if l < 32 {
        AppendBuffer([0xa0 + l]);
      } else if l < 256 {
        AppendBuffer([0xd9, l]);
      } else if l < 65536 {
        AppendBuffer([0xda] + Store(l, 2));
      } else {
        AppendBuffer([0xdb] + Store(l, 4));
      }
    }

    method PackBin(l: nat)
      requires l < TWO_32
      modifies this
      ensures stream == old(stream) + BinHeader(l)
    {
      hide Be, Store;
      StoreIsBe(l);
      if l < 256 {
        AppendBuffer([0xc4, l]);
      } else if l < 65536 {
        AppendBuffer([0xc5] + Store(l, 2));
      } else {
        AppendBuffer([0xc6] + Store(l, 4));
      }
    }

    /** A size_t from 2^32 on is cut to 32 bits in the header. */
    method PackExt(l: nat, kind: byte)
      requires l < TWO_64
      modifies this
      ensures l < TWO_32 ==> stream == old(stream) + ExtHeader(l, kind)
      ensures l >= TWO_32 ==> stream == old(stream) + ([0xc9] + Be(l % TWO_32, 4) + [kind])
    {
      hide Be, Store;
      StoreIsBe(l);
      if l == 1 {
        AppendBuffer([0xd4, kind]);
      } else if l == 2 {
        AppendBuffer([0xd5, kind]);
      } else if l == 4 {
        AppendBuffer([0xd6, kind]);
      } else if l == 8 {
        AppendBuffer([0xd7, kind]);
      } else if l == 16 {
        AppendBuffer([0xd8, kind]);
      } else if l < 256 {
        AppendBuffer([0xc7, l, kind]);
      } else if l < 65536 {
        AppendBuffer([0xc8] + Store(l, 2) + [kind]);
      } else {
        AppendBuffer([0xc9] + Store(l, 4) + [kind]);
      }
    }

    method PackArray(n: nat)
      requires n < TWO_32
      modifies this
      ensures stream == old(stream) + ArrayHeader(n)
    {
      hide Be, Store;
      StoreIsBe(n);
      if n < 16 {
        AppendBuffer([0x90 + n]);
      } else if n < 65536 {
        AppendBuffer([0xdc] + Store(n, 2));
      } else {
        AppendBuffer([0xdd] + Store(n, 4));
      }
    }

    method PackMap(n: nat)
      requires n < TWO_32
      modifies this
      ensures stream == old(stream) + MapHeader(n)
    {
      hide Be, Store;
      StoreIsBe(n);
      if n < 16 {
        AppendBuffer([0x80 + n]);
      } else if n < 65536 {
        AppendBuffer([0xde] + Store(n, 2));
      } else {
        AppendBuffer([0xdf] + Store(n, 4));
      }
    }

    /** pack<object> */
    method PackObject(v: Object)
      requires Representable(v)
      modifies this
      ensures stream == old(stream) + Packed(v)
      decreases v
    {
      hide Be, Store, IntBytes, StrHeader, BinHeader, ExtHeader, SizeHeader;
      match v {
        case Nil => AppendBuffer([0xc0]);
        case Boolean(b) =>
          if b { AppendBuffer([0xc3]); } else { AppendBuffer([0xc2]); }
        case PosInt(u) => PackUint64(u);
        case NegInt(i) => PackInt64(i);
        case Float(bits) =>
          StoreIsBe(bits);
          AppendBuffer([0xcb] + Store(bits, 8));
        case Str(data) =>
          PackStr(|data|);
          AppendBuffer(data);
        case Bin(data) =>
          PackBin(|data|);
          AppendBuffer(data);
        case Ext(kind, data) =>
          PackExt(|data|, kind);
          AppendBuffer(data);
        case Array(items) =>
          PackArray(|items|);
          PackItems(items);
        case Map(pairs) =>
          PackMap(|pairs|);
          PackPairs(pairs);
      }
    }

    /** The loop of pack<object> over the elements of an array. */
    method PackItems(vs: seq<Object>)
      requires forall x | x in vs :: Representable(x)
      modifies this
      ensures stream == old(stream) + PackedItems(vs)
      decreases vs, 0
    {
      hide Packed, Representable;
      var i := 0;
      while i < |vs|
        invariant i <= |vs|
        invariant stream + PackedItems(vs[i..]) == old(stream) + PackedItems(vs)
      {
        PackObject(vs[i]);
        assert vs[i..][1..] == vs[i + 1..];
        i := i + 1;
      }
    }

    method PackPairs(ps: seq<KV>)
      requires forall p | p in ps :: Representable(p.key) && Representable(p.val)
      modifies this
      ensures stream == old(stream) + PackedPairs(ps)
      decreases ps, 0
    {
      hide Packed, Representable;
      var i := 0;
      while i < |ps|
        invariant i <= |ps|
        invariant stream + PackedPairs(ps[i..]) == old(stream) + PackedPairs(ps)
      {
        PackKV(ps[i]);
        assert ps[i..][1..] == ps[i + 1..];
        i := i + 1;
      }
    }

    method PackKV(p: KV)
      requires Representable(p.key) && Representable(p.val)
      modifies this
      ensures stream == old(stream) + PackedKV(p)
      decreases p
    {
      PackObject(p.key);
      PackObject(p.val);
    }
  }
}
