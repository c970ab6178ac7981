/** Bytes and the big-endian byte order of the wire (sysdep.h load/store macros). */
module Bytes {
  type byte = x: int | 0 <= x < 256

  const TWO_32: int := 0x1_0000_0000
  const TWO_64: int := 0x1_0000_0000_0000_0000

  function Pow256(w: nat): (p: int)
    ensures p >= 1
  {
    if w == 0 then 1 else 256 * Pow256(w - 1)
  }

  /** The low `w` bytes of `n`, most significant first. */
  function Be(n: nat, w: nat): (s: seq<byte>)
    ensures |s| == w
  {
    if w == 0 then [] else Be(n / 256, w - 1) + [n % 256]
  }

  /** The unsigned number written in `s`, most significant byte first. */
  function FromBe(s: seq<byte>): (n: nat)
    ensures n < Pow256(|s|)
  {
    if s == [] then 0 else FromBe(s[..|s| - 1]) * 256 + s[|s| - 1]
  }

  /** The two's complement number written in `s`. */
  function FromBeSigned(s: seq<byte>): (i: int)
    requires s != []
    ensures -Pow256(|s|) <= 2 * i < Pow256(|s|)
  {
    var u := FromBe(s);
    if 2 * u >= Pow256(|s|) then u - Pow256(|s|) else u
  }

  lemma Pow256Values()
    ensures Pow256(1) == 0x100 && Pow256(2) == 0x1_0000
    ensures Pow256(4) == TWO_32 && Pow256(8) == TWO_64
  {
    assert Pow256(3) == 0x100_0000;
    assert Pow256(6) == 0x1_0000_0000_0000 by {
      assert Pow256(5) == 0x100_0000_0000;
    }
    assert Pow256(7) == 0x100_0000_0000_0000;
  }

  /** Storing and loading again gives the number back, for every number that fits the width. */
  lemma {:induction false} LoadStore(n: nat, w: nat)
    requires n < Pow256(w)
    ensures FromBe(Be(n, w)) == n
  {
    if w > 0 {
      LoadStore(n / 256, w - 1);
      assert Be(n, w)[..w - 1] == Be(n / 256, w - 1);
    }
  }

  /** The first byte is the most significant one. */
  lemma {:induction false} BigEndian(first: byte, s: seq<byte>)
    ensures FromBe([first] + s) == first * Pow256(|s|) + FromBe(s)
    decreases |s|
  {
    var b := [first] + s;
    if s == [] {
      assert b[..0] == [];
    } else {
      BigEndian(first, s[..|s| - 1]);
      assert b[..|b| - 1] == [first] + s[..|s| - 1];
      Scaled(first, Pow256(|s| - 1));
    }
  }

  lemma Scaled(a: int, p: int)
    ensures a * (256 * p) == a * p * 256
  {
  }

  /** Loading and storing again gives the bytes back. */
  lemma {:induction false} StoreLoad(s: seq<byte>)
    ensures Be(FromBe(s), |s|) == s
  {
    if s != [] {
      var init := s[..|s| - 1];
      StoreLoad(init);
      assert FromBe(s) / 256 == FromBe(init) && FromBe(s) % 256 == s[|s| - 1];
    }
  }

  /** A negative number stored modulo 256^w loads back as itself. */
  lemma LoadStoreSigned(i: int, w: nat)
    requires w > 0 && -Pow256(w) <= 2 * i < Pow256(w)
    ensures FromBeSigned(Be(if i < 0 then i + Pow256(w) else i, w)) == i
  {
    LoadStore(if i < 0 then i + Pow256(w) else i, w);
  }
}

/** A value that may be missing. */
module Options {
  datatype Option<T> = None | Some(value: T)
}
