/** gobjfs::stats::StatsCounter<int64_t>, with mean_ and meanSquared_ over the reals. */
module Statistics {
  const LOWEST: int := -0x8000_0000_0000_0000
  const HIGHEST: int := 0x7fff_ffff_ffff_ffff

  datatype Stats = Stats(min: int, max: int, mean: real, squares: real, n: nat)

  const EMPTY := Stats(HIGHEST, LOWEST, 0.0, 0.0, 0)

  function Product(a: real, b: real): real {
    a * b
  }

  /** The average of n samples with average m and one more sample x. */
  function NextMean(m: real, n: nat, x: real): real {
    m + (x - m) / (n + 1) as real
  }

  function Updated(s: Stats, x: int): Stats {
    var r := x as real;
    var mean := NextMean(s.mean, s.n, r);
    Stats(if s.min > x then x else s.min, if s.max < x then x else s.max,
          mean, s.squares + Product(r - s.mean, r - mean), s.n + 1)
  }

  function Weighted(a: real, n: nat, b: real, k: nat): real
    requires n + k > 0
  {
    (a * n as real + b * k as real) / (n + k) as real
  }

  /** operator+=; with both counters empty the source divides zero by zero. */
  function Merged(s: Stats, t: Stats): Stats
    requires s.n + t.n > 0
  {
    Stats(if s.min < t.min then s.min else t.min, if s.max > t.max then s.max else t.max,
          Weighted(s.mean, s.n, t.mean, t.n), Weighted(s.squares, s.n, t.squares, t.n), s.n + t.n)
  }

  // ---- what the fields mean ----

  function Sum(xs: seq<int>): real {
    if xs == [] then 0.0 else Sum(xs[..|xs| - 1]) + xs[|xs| - 1] as real
  }

  /** Sum of the squared deviations from c. */
  function Deviation(xs: seq<int>, c: real): real {
    if xs == [] then 0.0
    else
      var d := xs[|xs| - 1] as real - c;
      Deviation(xs[..|xs| - 1], c) + Product(d, d)
  }

  ghost predicate IsMin(m: int, xs: seq<int>) {
    if xs == [] then m == HIGHEST else m in xs && forall i | 0 <= i < |xs| :: m <= xs[i]
  }

  ghost predicate IsMax(m: int, xs: seq<int>) {
    if xs == [] then m == LOWEST else m in xs && forall i | 0 <= i < |xs| :: xs[i] <= m
  }

  ghost predicate InRange(xs: seq<int>) {
    forall i | 0 <= i < |xs| :: LOWEST <= xs[i] <= HIGHEST
  }

  /** Count, least and greatest sample, and average. */
  ghost predicate Summarises(s: Stats, xs: seq<int>) {
    && s.n == |xs| && IsMin(s.min, xs) && IsMax(s.max, xs)
    && Product(s.mean, |xs| as real) == Sum(xs) && (xs == [] ==> s.mean == 0.0)
  }

  /** meanSquared_ is the sum of squared deviations from the average. */
  ghost predicate Measures(s: Stats, xs: seq<int>) {
    Summarises(s, xs) && s.squares == Deviation(xs, s.mean)
  }

  // ---- Welford's update ----

  function SumOfSquares(xs: seq<int>): real {
    if xs == [] then 0.0
    else
      var x := xs[|xs| - 1] as real;
      SumOfSquares(xs[..|xs| - 1]) + Product(x, x)
  }

  /** (q, s, n) stand for the sums of squares and of samples and their number; Spread is the deviation from c. */
  function Spread(q: real, s: real, n: real, c: real): real {
    q - 2.0 * c * s + n * c * c
  }

  lemma SpreadStep(q: real, s: real, n: real, x: real, c: real)
    ensures Spread(q, s, n, c) + Product(x - c, x - c) == Spread(q + Product(x, x), s + x, n + 1.0, c)
  {
  }

  lemma {:induction false} DeviationExpands(xs: seq<int>, c: real)
    ensures Deviation(xs, c) == Spread(SumOfSquares(xs), Sum(xs), |xs| as real, c)
    decreases xs
  {
    if xs == [] {
      assert Spread(0.0, 0.0, 0.0, c) == 0.0;
    } else {
      var ys, x := xs[..|xs| - 1], xs[|xs| - 1] as real;
      DeviationExpands(ys, c);
      SpreadGrows(xs, ys, x, c);
    }
  }

  lemma SpreadGrows(xs: seq<int>, ys: seq<int>, x: real, c: real)
    requires xs != [] && ys == xs[..|xs| - 1] && x == xs[|xs| - 1] as real
    requires Deviation(ys, c) == Spread(SumOfSquares(ys), Sum(ys), |ys| as real, c)
    ensures Deviation(xs, c) == Spread(SumOfSquares(xs), Sum(xs), |xs| as real, c)
  {
    hide Spread, Product;
    assert |xs| as real == |ys| as real + 1.0;
    SpreadStep(SumOfSquares(ys), Sum(ys), |ys| as real, x, c);
  }

  /** The algebra of one update: m and m1 are the averages before and after. */
  lemma WelfordStep(q: real, s: real, n: real, x: real, m: real, m1: real)
    requires Product(m, n) == s && Product(m1, n + 1.0) == s + x
    ensures Spread(q + Product(x, x), s + x, n + 1.0, m1) == Spread(q, s, n, m) + Product(x - m, x - m1)
  {
    assert (n + 1.0) * m1 * m1 == m1 * (s + x);
    assert n * m * m == m * s;
    assert m * (m1 * (n + 1.0)) == m * (s + x);
    assert m1 * (m * n) == m1 * s;
    assert m * (m1 * (n + 1.0)) == m1 * (m * n) + m * m1;
  }

  /** Whatever the samples, an update keeps count, extremes and mean at their meaning. */
  lemma UpdateSummarises(s: Stats, xs: seq<int>, x: int)
    requires Summarises(s, xs) && InRange(xs) && LOWEST <= x <= HIGHEST
    ensures Summarises(Updated(s, x), xs + [x]) && InRange(xs + [x])
  {
    hide IsMin, IsMax, Sum, Product, NextMean;
    SumsGrow(xs, x);
    MeanStep(s.mean, |xs|, x as real, Sum(xs));
    UpdateExtremes(s, xs, x);
  }

  /** And Welford's step keeps meanSquared_ the sum of squared deviations from the new mean. */
  lemma UpdateMeasures(s: Stats, xs: seq<int>, x: int)
    requires Measures(s, xs) && InRange(xs) && LOWEST <= x <= HIGHEST
    ensures Measures(Updated(s, x), xs + [x])
  {
    hide IsMin, IsMax, Spread, Deviation, SumOfSquares, Sum, Product, NextMean;
    var ys, t := xs + [x], Updated(s, x);
    UpdateSummarises(s, xs, x);
    SumsGrow(xs, x);
    var n, r: real := |xs| as real, x as real;
    MeanStep(s.mean, |xs|, r, Sum(xs));
    DeviationExpands(xs, s.mean);
    DeviationExpands(ys, t.mean);
    WelfordStep(SumOfSquares(xs), Sum(xs), n, r, s.mean, t.mean);
  }

  lemma SumsGrow(xs: seq<int>, x: int)
    ensures Sum(xs + [x]) == Sum(xs) + x as real
    ensures SumOfSquares(xs + [x]) == SumOfSquares(xs) + Product(x as real, x as real)
    ensures |xs + [x]| as real == |xs| as real + 1.0
  {
    assert (xs + [x])[..|xs|] == xs;
  }

  lemma MeanStep(m: real, n: nat, x: real, s: real)
    requires Product(m, n as real) == s
    ensures Product(NextMean(m, n, x), n as real + 1.0) == s + x
  {
    var q := (x - m) / (n + 1) as real;
    assert q * (n + 1) as real == x - m;
  }

  lemma UpdateExtremes(s: Stats, xs: seq<int>, x: int)
    requires IsMin(s.min, xs) && IsMax(s.max, xs) && InRange(xs) && LOWEST <= x <= HIGHEST
    ensures IsMin(Updated(s, x).min, xs + [x]) && IsMax(Updated(s, x).max, xs + [x])
  {
    assert (xs + [x])[|xs|] == x;
    assert forall i | 0 <= i < |xs| :: (xs + [x])[i] == xs[i];
  }

  /** A counter that was given the samples xs. */
  function Fed(xs: seq<int>): Stats {
    if xs == [] then EMPTY else Updated(Fed(xs[..|xs| - 1]), xs[|xs| - 1])
  }

  /** After any samples, mean_ is their average and meanSquared_ the sum of squared deviations from it. */
  lemma {:induction false} FedMeasures(xs: seq<int>)
    requires InRange(xs)
    ensures Measures(Fed(xs), xs)
    decreases xs
  {
    hide Updated;
    if xs != [] {
      FedMeasures(xs[..|xs| - 1]);
      UpdateMeasures(Fed(xs[..|xs| - 1]), xs[..|xs| - 1], xs[|xs| - 1]);
      assert xs == xs[..|xs| - 1] + [xs[|xs| - 1]];
    }
  }

  // ---- merging ----

  lemma {:induction false} SumsJoin(xs: seq<int>, ys: seq<int>)
    ensures Sum(xs + ys) == Sum(xs) + Sum(ys) && SumOfSquares(xs + ys) == SumOfSquares(xs) + SumOfSquares(ys)
    decreases ys
  {
    hide Product;
    if ys == [] {
      assert xs + ys == xs;
    } else {
      SumsJoin(xs, ys[..|ys| - 1]);
      assert (xs + ys)[..|xs + ys| - 1] == xs + ys[..|ys| - 1];
    }
  }

  lemma WeightedMean(a: real, n: nat, b: real, k: nat)
    requires n + k > 0
    ensures Product(Weighted(a, n, b, k), (n + k) as real) == Product(a, n as real) + Product(b, k as real)
  {
  }

  /** Count, minimum, maximum and mean of a merge are those of the samples together. */
  lemma MergeSummarises(s: Stats, xs: seq<int>, t: Stats, ys: seq<int>)
    requires Summarises(s, xs) && Summarises(t, ys) && InRange(xs) && InRange(ys) && |xs| + |ys| > 0
    ensures Summarises(Merged(s, t), xs + ys) && InRange(xs + ys)
  {
    hide Product, Weighted, Sum, IsMin, IsMax;
    SumsJoin(xs, ys);
    WeightedMean(s.mean, s.n, t.mean, t.n);
    MergeExtremes(s, xs, t, ys);
  }

  lemma MergeExtremes(s: Stats, xs: seq<int>, t: Stats, ys: seq<int>)
    requires IsMin(s.min, xs) && IsMax(s.max, xs) && IsMin(t.min, ys) && IsMax(t.max, ys)
    requires InRange(xs) && InRange(ys) && s.n + t.n > 0
    ensures IsMin(Merged(s, t).min, xs + ys) && IsMax(Merged(s, t).max, xs + ys)
  {
    hide Weighted;
    var zs, m := xs + ys, Merged(s, t);
    assert forall i | 0 <= i < |xs| :: zs[i] == xs[i];
    assert forall i | 0 <= i < |ys| :: zs[|xs| + i] == ys[i];
  }

  /** Counters merged in some order. */
  datatype Merging = One(xs: seq<int>) | Both(left: Merging, right: Merging)

  function Samples(m: Merging): seq<int> {
    match m
    case One(xs) => xs
    case Both(l, r) => Samples(l) + Samples(r)
  }

  /** No merge has two empty sides. */
  ghost predicate Mergeable(m: Merging) {
    match m
    case One(xs) => InRange(xs)
    case Both(l, r) => Mergeable(l) && Mergeable(r) && |Samples(l)| + |Samples(r)| > 0
  }

  ghost function Total(m: Merging): Stats
    requires Mergeable(m)
    decreases m
  {
    match m
    case One(xs) => Fed(xs)
    case Both(l, r) =>
      var a, b := Total(l), Total(r);
      if a.n + b.n > 0 then Merged(a, b) else EMPTY
  }

  lemma {:induction false} TotalSummarises(m: Merging)
    requires Mergeable(m)
    ensures Summarises(Total(m), Samples(m)) && InRange(Samples(m))
    decreases m
  {
    hide Merged, Updated, InRange;
    match m
    case One(xs) => FedMeasures(xs);
    case Both(l, r) =>
      TotalSummarises(l);
      TotalSummarises(r);
      MergeSummarises(Total(l), Samples(l), Total(r), Samples(r));
  }

  function Without(xs: seq<int>, i: nat): seq<int>
    requires i < |xs|
  {
    xs[..i] + xs[i + 1..]
  }

  lemma SumOne(x: int)
    ensures Sum([x]) == x as real
  {
    assert [x][..0] == [] && Sum([]) == 0.0;
  }

  lemma SumRemoves(xs: seq<int>, i: nat)
    requires i < |xs|
    ensures Sum(xs) == Sum(Without(xs, i)) + xs[i] as real
  {
    hide Sum, SumOfSquares;
    SumsJoin(xs[..i], xs[i..]);
    SumsJoin(xs[..i], xs[i + 1..]);
    SumsJoin([xs[i]], xs[i + 1..]);
    assert xs == xs[..i] + xs[i..] && xs[i..] == [xs[i]] + xs[i + 1..];
    SumOne(xs[i]);
  }

  lemma Removes(xs: seq<int>, i: nat)
    requires i < |xs|
    ensures multiset(Without(xs, i)) == multiset(xs) - multiset{xs[i]} && |Without(xs, i)| == |xs| - 1
  {
    assert xs == xs[..i] + [xs[i]] + xs[i + 1..];
  }

  lemma {:induction false} SumPermutes(xs: seq<int>, ys: seq<int>)
    requires multiset(xs) == multiset(ys)
    ensures Sum(xs) == Sum(ys)
    decreases |xs|
  {
    hide Sum, Without;
    if xs == [] {
      assert |multiset(ys)| == 0;
    } else {
      assert xs[0] in multiset(ys);
      var i :| 0 <= i < |ys| && ys[i] == xs[0];
      SumRemoves(xs, 0);
      SumRemoves(ys, i);
      Removes(xs, 0);
      Removes(ys, i);
      SumPermutes(Without(xs, 0), Without(ys, i));
    }
  }

  /** However counters over the same samples are fed and merged, they agree on count, minimum, maximum and mean. */
  lemma AnyOrder(a: Merging, b: Merging)
    requires Mergeable(a) && Mergeable(b) && multiset(Samples(a)) == multiset(Samples(b))
    ensures var s, t := Total(a), Total(b);
            s.n == t.n && s.min == t.min && s.max == t.max && s.mean == t.mean
  {
    hide Total, Samples, Mergeable, Sum;
    var xs, ys := Samples(a), Samples(b);
    TotalSummarises(a);
    TotalSummarises(b);
    SumPermutes(xs, ys);
    assert |xs| == |multiset(xs)| == |multiset(ys)| == |ys|;
    SameExtremes(Total(a), xs, Total(b), ys);
    if xs != [] {
      SameQuotient(Total(a).mean, Total(b).mean, |xs|);
    }
  }

  lemma SameQuotient(m: real, k: real, n: nat)
    requires n > 0 && Product(m, n as real) == Product(k, n as real)
    ensures m == k
  {
    hide Product;
    Distributes(m, k, n as real);
    if m != k {
      NotZero(m - k, n as real);
      assert false;
    }
  }

  lemma Distributes(m: real, k: real, n: real)
    ensures Product(m - k, n) == Product(m, n) - Product(k, n)
  {
  }

  lemma NotZero(d: real, n: real)
    requires d != 0.0 && n > 0.0
    ensures Product(d, n) != 0.0
  {
    if d > 0.0 {
      Positive(d, n);
    } else {
      Positive(-d, n);
      assert Product(-d, n) == -Product(d, n);
    }
  }

  lemma SameExtremes(s: Stats, xs: seq<int>, t: Stats, ys: seq<int>)
    requires IsMin(s.min, xs) && IsMax(s.max, xs) && IsMin(t.min, ys) && IsMax(t.max, ys)
    requires multiset(xs) == multiset(ys) && |xs| == |ys|
    ensures s.min == t.min && s.max == t.max
  {
    assert forall x :: x in xs <==> x in multiset(xs);
    assert forall y :: y in ys <==> y in multiset(ys);
    if xs != [] {
      assert s.min in ys && t.min in xs && s.max in ys && t.max in xs;
    }
  }

  // ---- merging the squares ----

  lemma {:induction false} DeviationSign(xs: seq<int>, c: real)
    ensures Deviation(xs, c) >= 0.0
    ensures Deviation(xs, c) == 0.0 <==> forall i | 0 <= i < |xs| :: xs[i] as real == c
    decreases xs
  {
    if xs != [] {
      var ys, d := xs[..|xs| - 1], xs[|xs| - 1] as real - c;
      DeviationSign(ys, c);
      SquareSign(d);
    }
  }

  lemma Positive(a: real, b: real)
    requires a > 0.0 && b > 0.0
    ensures Product(a, b) > 0.0
  {
  }

  lemma Squared(d: real)
    requires d < 0.0
    ensures Product(d, d) > 0.0
  {
    Positive(-d, -d);
    assert Product(-d, -d) == Product(d, d);
  }

  lemma Zero()
    ensures Product(0.0, 0.0) == 0.0
  {
  }

  lemma SquareSign(d: real)
    ensures Product(d, d) >= 0.0
    ensures Product(d, d) == 0.0 <==> d == 0.0
  {
    hide Product;
    if d > 0.0 {
      Positive(d, d);
    } else if d < 0.0 {
      Squared(d);
    } else {
      Zero();
    }
  }

  /** What the weighted average of two sums of squared deviations lacks, times the number of samples. */
  function Gap(a: real, m: real, n: real, b: real, l: real, k: real): real {
    a * k + b * n + n * k * (m - l) * (m - l)
  }

  lemma GapAlgebra(q: real, s: real, n: real, m: real, p: real, u: real, k: real, l: real, c: real)
    requires Product(m, n) == s && Product(l, k) == u && Product(c, n + k) == s + u
    ensures var a, b := Spread(q, s, n, m), Spread(p, u, k, l);
            Product(Spread(q + p, s + u, n + k, c), n + k) == Product(a, n) + Product(b, k) + Gap(a, m, n, b, l, k)
  {
    var a, b, w := Spread(q, s, n, m), Spread(p, u, k, l), n + k;
    assert a == q - m * s by { assert n * m * m == m * s; }
    assert b == p - l * u by { assert k * l * l == l * u; }
    assert Spread(q + p, s + u, w, c) == q + p - c * (s + u) by { assert w * c * c == c * (s + u); }
    assert (c * (s + u)) * w == (s + u) * (s + u) by { assert c * w == s + u; }
    Cross(s, n, m, u, k, l);
  }

  lemma Cross(s: real, n: real, m: real, u: real, k: real, l: real)
    requires m * n == s && l * k == u
    ensures (m * s + l * u) * (n + k) == (s + u) * (s + u) + n * k * (m - l) * (m - l)
  {
    assert m * s * n == s * s && l * u * k == u * u;
    assert m * s * k == n * k * m * m && l * u * n == n * k * l * l;
    assert s * u == n * k * m * l;
  }

  ghost predicate Constant(xs: seq<int>) {
    forall i, j | 0 <= i < j < |xs| :: xs[i] == xs[j]
  }

  /**
   * operator+= averages meanSquared_ although it is a sum, so it falls short of the deviation of
   * the samples together, except exactly when one side is empty or all samples are equal.
   */
  lemma MergeSquaresIff(s: Stats, xs: seq<int>, t: Stats, ys: seq<int>)
    requires Measures(s, xs) && Measures(t, ys) && InRange(xs) && InRange(ys) && |xs| + |ys| > 0
    ensures var m := Merged(s, t);
            && m.squares <= Deviation(xs + ys, m.mean)
            && (m.squares == Deviation(xs + ys, m.mean) <==> xs == [] || ys == [] || Constant(xs + ys))
  {
    hide Constant, Merged, Deviation;
    if xs == [] || ys == [] {
      MergeEmpty(s, xs, t, ys);
    } else {
      MergeBoth(s, xs, t, ys);
    }
  }

  /** Merging with an empty counter changes nothing. */
  lemma MergeEmpty(s: Stats, xs: seq<int>, t: Stats, ys: seq<int>)
    requires Measures(s, xs) && Measures(t, ys) && |xs| + |ys| > 0 && (xs == [] || ys == [])
    ensures Merged(s, t).squares == Deviation(xs + ys, Merged(s, t).mean)
  {
    hide Deviation, Sum, IsMin, IsMax;
    var zs, n := if xs == [] then ys else xs, |xs| + |ys|;
    assert xs + ys == zs;
    NoDeviation(s.mean);
    NoDeviation(t.mean);
    if xs == [] {
      OneSided(t.mean, n);
      OneSided(t.squares, n);
    } else {
      OneSided(s.mean, n);
      OneSided(s.squares, n);
    }
  }

  lemma NoDeviation(c: real)
    ensures Deviation([], c) == 0.0
  {
  }

  lemma OneSided(a: real, n: nat)
    requires n > 0
    ensures Weighted(a, n, 0.0, 0) == a && Weighted(0.0, 0, a, n) == a
  {
    assert a * n as real / n as real == a;
  }

  lemma MergeBoth(s: Stats, xs: seq<int>, t: Stats, ys: seq<int>)
    requires Measures(s, xs) && Measures(t, ys) && InRange(xs) && InRange(ys) && xs != [] && ys != []
    ensures var m := Merged(s, t);
            && m.squares <= Deviation(xs + ys, m.mean)
            && (m.squares == Deviation(xs + ys, m.mean) <==> Constant(xs + ys))
  {
    hide Product, Weighted, Sum, SumOfSquares, Deviation, IsMin, IsMax, Spread, Gap, InRange;
    var m, zs := Merged(s, t), xs + ys;
    var n, k: real := |xs| as real, |ys| as real;
    MergeSummarises(s, xs, t, ys);
    SumsJoin(xs, ys);
    DeviationExpands(xs, s.mean);
    DeviationExpands(ys, t.mean);
    DeviationExpands(zs, m.mean);
    GapAlgebra(SumOfSquares(xs), Sum(xs), n, s.mean, SumOfSquares(ys), Sum(ys), k, t.mean, m.mean);
    WeightedMean(s.squares, s.n, t.squares, t.n);
    DeviationSign(xs, s.mean);
    DeviationSign(ys, t.mean);
    GapSign(s.squares, s.mean, n, t.squares, t.mean, k);
    Scale(m.squares, Deviation(zs, m.mean), n + k, Gap(s.squares, s.mean, n, t.squares, t.mean, k));
    AllEqual(xs, s.mean, ys, t.mean);
  }

  lemma GapSign(a: real, m: real, n: real, b: real, l: real, k: real)
    requires a >= 0.0 && b >= 0.0 && n > 0.0 && k > 0.0
    ensures Gap(a, m, n, b, l, k) >= 0.0
    ensures Gap(a, m, n, b, l, k) == 0.0 <==> a == 0.0 && b == 0.0 && m == l
  {
    SquareSign(m - l);
    var d := (m - l) * (m - l);
    assert n * k * (m - l) * (m - l) == (n * k) * d;
    assert a * k >= 0.0 && b * n >= 0.0 && (n * k) * d >= 0.0;
    assert a > 0.0 ==> a * k > 0.0;
    assert b > 0.0 ==> b * n > 0.0;
    assert d > 0.0 ==> (n * k) * d > 0.0;
  }

  lemma Scale(a: real, b: real, w: real, gap: real)
    requires w > 0.0 && Product(b, w) == Product(a, w) + gap && gap >= 0.0
    ensures a <= b && (a == b <==> gap == 0.0)
  {
    assert (b - a) * w == gap;
  }

  lemma AllEqual(xs: seq<int>, m: real, ys: seq<int>, l: real)
    requires xs != [] && ys != []
    requires Product(m, |xs| as real) == Sum(xs) && Product(l, |ys| as real) == Sum(ys)
    ensures (forall i | 0 <= i < |xs| :: xs[i] as real == m) && (forall i | 0 <= i < |ys| :: ys[i] as real == l)
              && m == l
            <==> Constant(xs + ys)
  {
    hide Sum;
    var zs := xs + ys;
    if Constant(zs) {
      var x := xs[0];
      assert zs[0] == x;
      assert forall i | 0 <= i < |xs| :: xs[i] == zs[i];
      assert forall i | 0 <= i < |ys| :: ys[i] == zs[|xs| + i];
      assert forall i | 0 <= i < |zs| :: zs[i] == x;
      SumConstant(xs, x);
      SumConstant(ys, x);
      SameQuotient(m, x as real, |xs|);
      SameQuotient(l, x as real, |ys|);
    } else {
      var i, j :| 0 <= i < j < |zs| && zs[i] != zs[j];
      var a := if i < |xs| then xs[i] else ys[i - |xs|];
      var b := if j < |xs| then xs[j] else ys[j - |xs|];
      assert a as real != b as real;
    }
  }

  lemma {:induction false} SumConstant(xs: seq<int>, x: int)
    requires forall i | 0 <= i < |xs| :: xs[i] == x
    ensures Sum(xs) == Product(x as real, |xs| as real)
    decreases xs
  {
    if xs != [] {
      SumConstant(xs[..|xs| - 1], x);
    }
  }

  // ---- the counter ----

  class StatsCounter {
    var min: int
    var max: int
    var mean: real
    var meanSquared: real
    var numSamples: nat
    ghost var samples: seq<int>  // all samples so far, merged ones included

    ghost function Abs(): Stats
      reads this
    {
      Stats(min, max, mean, meanSquared, numSamples)
    }

    /** Count, minimum, maximum and mean are those of the samples. */
    ghost predicate Valid()
      reads this
    {
      InRange(samples) && Summarises(Abs(), samples)
    }

    /** meanSquared_ is right too. */
    ghost predicate Exact()
      reads this
    {
      Measures(Abs(), samples)
    }

    constructor ()
      ensures Valid() && Exact() && samples == []
    {
      min, max, mean, meanSquared, numSamples := HIGHEST, LOWEST, 0.0, 0.0, 0;
      samples := [];
      new;
      FedMeasures([]);
    }

    /** One more sample. */
    method UpdateStats(data: int)
      requires Valid() && LOWEST <= data <= HIGHEST
      modifies this
      ensures Valid() && samples == old(samples) + [data]
      ensures old(Exact()) ==> Exact()
    {
      hide Product, Summarises, Measures;
      ghost var s := Abs();
      if min > data {
        min := data;
      }
      if max < data {
        max := data;
      }
      numSamples := numSamples + 1;
      var delta := data as real - mean;
      mean := mean + delta / numSamples as real;
      assert mean == NextMean(s.mean, s.n, data as real);
      meanSquared := meanSquared + Product(delta, data as real - mean);
      UpdateSummarises(s, samples, data);
      if Measures(s, samples) {
        UpdateMeasures(s, samples, data);
      }
      samples := samples + [data];
    }

    /**
     * The samples of two counters, possibly the same one, together. meanSquared_ stays right
     * exactly if one side was empty or all samples are equal.
     */
    method MergeFrom(other: StatsCounter)
      requires Valid() && other.Valid() && numSamples + other.numSamples > 0
      modifies this
      ensures Valid() && samples == old(samples) + old(other.samples)
      ensures Product(meanSquared, numSamples as real)
           == Product(old(meanSquared), old(numSamples) as real)
              + Product(old(other.meanSquared), old(other.numSamples) as real)
      ensures old(Exact() && other.Exact()) ==>
                (Exact() <==> old(samples) == [] || old(other.samples) == [] || Constant(samples))
    {
      hide Product, Weighted, Summarises, Measures, Constant;
      ghost var a, xs, b, ys := Abs(), samples, other.Abs(), other.samples;
      Counted(a, xs);
      Counted(b, ys);
      var n, k := numSamples, other.numSamples;
      var m, s := other.mean, other.meanSquared;
      min := if min < other.min then min else other.min;
      max := if max > other.max then max else other.max;
      mean := Weighted(mean, n, m, k);
      meanSquared := Weighted(meanSquared, n, s, k);
      numSamples := n + k;
      samples := xs + ys;
      MergeSummarises(a, xs, b, ys);
      WeightedMean(a.squares, n, s, k);
      if Measures(a, xs) && Measures(b, ys) {
        MergeSquaresIff(a, xs, b, ys);
        Measured(Abs(), samples);
      }
    }
  }

  lemma Counted(s: Stats, xs: seq<int>)
    requires Summarises(s, xs)
    ensures s.n == |xs|
  {
  }

  lemma Measured(s: Stats, xs: seq<int>)
    requires Summarises(s, xs)
    ensures Measures(s, xs) <==> s.squares == Deviation(xs, s.mean)
  {
  }
}
