/** The size computations shared by the unpacker and the zone: doubling in size_t, and alignment. */
module Sizing {
  import opened Bytes

  /** Double `from` until it reaches `need`; take `need` itself when size_t wraps around. */
  function GrownSize(from: nat, need: nat): (n: nat)
    requires from < TWO_64 && need < TWO_64
    ensures need <= n < TWO_64
    ensures n == from || n == need || n < 2 * need
    decreases need - from
  {
    if from >= need then from
    else
      var twice := from * 2 % TWO_64;
      if twice <= from then need else GrownSize(twice, need)
  }

  /** n is `from` doubled some number of times. */
  ghost predicate Doubled(from: nat, n: nat)
    decreases n
  {
    n == from || (n % 2 == 0 && 0 < n && Doubled(from, n / 2))
  }

  lemma {:induction false} DoubledOnce(from: nat, n: nat)
    requires Doubled(2 * from, n)
    ensures Doubled(from, n)
    decreases n
  {
    if n == 2 * from {
      assert n == 0 || Doubled(from, n / 2);
    } else {
      DoubledOnce(from, n / 2);
    }
  }

  lemma NotDoubled(n: nat)
    ensures Doubled(n, n)
  {
  }

  lemma Wrapped(n: nat)
    requires n < TWO_64 && n * 2 % TWO_64 <= n
    ensures n == 0 || 2 * n >= TWO_64
  {
  }

  lemma Twice(n: nat)
    requires n < TWO_64 && n * 2 % TWO_64 > n
    ensures n * 2 % TWO_64 == 2 * n
  {
  }

  /** Doubling has reached m, which is too small, and would not make it larger in size_t. */
  ghost predicate Stuck(from: nat, need: nat, m: nat) {
    m < need && Doubled(from, m) && (m == 0 || 2 * m >= TWO_64)
  }

  /** The size only ever doubles, except that it jumps to what is needed when doubling overflows. */
  lemma {:induction false} GrowthDoubles(from: nat, need: nat)
    requires from < TWO_64 && need < TWO_64
    ensures Doubled(from, GrownSize(from, need))
            || (GrownSize(from, need) == need && exists m: nat :: Stuck(from, need, m))
    decreases need - from
  {
    hide Doubled;
    if from >= need {
      NotDoubled(from);
    } else {
      var twice := from * 2 % TWO_64;
      if twice > from {
        Twice(from);
        GrowthDoubles(twice, need);
        if Doubled(twice, GrownSize(twice, need)) {
          DoubledOnce(from, GrownSize(twice, need));
        } else {
          var m: nat :| Stuck(twice, need, m);
          DoubledOnce(from, m);
          assert Stuck(from, need, m);
        }
      } else {
        NotDoubled(from);
        Wrapped(from);
        assert Stuck(from, need, from);
      }
    }
  }

  /**
   * A buffer that holds `used` bytes and is grown for `size` more, with the sum computed in size_t,
   * has room for them exactly if that sum does not wrap around.
   */
  lemma RoomIff(from: nat, used: nat, size: nat)
    requires from < TWO_64 && used < TWO_64 && size < TWO_64
    ensures GrownSize(from, (size + used) % TWO_64) - used >= size <==> size + used < TWO_64
  {
    if size + used < TWO_64 {
      assert (size + used) % TWO_64 == size + used;
    }
  }

  /** The loop that computes it (expand_buffer, allocate_expand). */
  method GrowSize(from: nat, need: nat) returns (n: nat)
    requires from < TWO_64 && need < TWO_64
    ensures n == GrownSize(from, need)
  {
    n := from;
    while n < need
      invariant n < TWO_64 && GrownSize(n, need) == GrownSize(from, need)
      decreases need - n
    {
      var tmp := n * 2 % TWO_64;
      if tmp <= n {
        n := need;
        break;
      }
      n := tmp;
    }
  }

  /** aligned_size, and the pointer rounding of allocate_align. */
  function AlignUp(p: nat, align: nat): (q: nat)
    requires align > 0
  {
    (p + align - 1) / align * align
  }

  function AlignDown(p: nat, align: nat): nat
    requires align > 0
  {
    p / align * align
  }

  predicate Multiple(p: nat, align: nat)
    requires align > 0
  {
    p % align == 0
  }

  /** AlignUp gives the first multiple at or after p. */
  lemma AlignUpIsNext(p: nat, align: nat)
    requires align > 0
    ensures p <= AlignUp(p, align) < p + align
    ensures Multiple(AlignUp(p, align), align)
  {
    var m := p + align - 1;
    DivMod(m, align);
    MultipleMod(m / align, align);
  }

  /** Rounding down leaves exactly the multiples alone and moves everything else below itself. */
  lemma AlignDownIsPrevious(p: nat, align: nat)
    requires align > 0
    ensures p - align < AlignDown(p, align) <= p
    ensures Multiple(AlignDown(p, align), align)
    ensures AlignDown(p, align) == p <==> Multiple(p, align)
  {
    DivMod(p, align);
    MultipleMod(p / align, align);
  }

  lemma DivMod(m: nat, k: nat)
    requires k > 0
    ensures m == m / k * k + m % k && 0 <= m % k < k
  {
  }

  lemma {:induction false} MultipleMod(q: nat, k: nat)
    requires k > 0
    ensures q * k % k == 0
  {
    if q > 0 {
      MultipleMod(q - 1, k);
      ModPlus((q - 1) * k, k);
      assert q * k == (q - 1) * k + k;
    }
  }

  lemma ModPlus(a: nat, k: nat)
    requires k > 0 && a % k == 0
    ensures (a + k) % k == 0
  {
    var q := (a + k) / k;
    DivMod(a, k);
    DivMod(a + k, k);
    var d := a / k + 1;
    assert a + k == d * k;
    MulDiff(d, q, k, (a + k) % k);
  }

  /** d * k == q * k + r with 0 <= r < k leaves no remainder. */
  lemma MulDiff(d: int, q: int, k: nat, r: nat)
    requires k > 0 && d * k == q * k + r && r < k
    ensures r == 0
  {
    var e := d - q;
    assert e * k == r;
    assert e >= 1 ==> e * k >= k;
    assert e <= -1 ==> e * k < 0;
  }
}
