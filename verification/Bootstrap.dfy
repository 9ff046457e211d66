/** The moving-block bootstrap interval on paired loss deltas, and its percentile (forecaster/forecast_backtest.py). */
module Bootstrap {
  import opened Wrappers
  import opened RealOrder
  import opened RealSums
  import opened CubeRoot

  // ----- Percentiles -----

  function Blend(a: real, b: real, near: real, far: real): real {
    a * near + b * far
  }

  function Interpolated(a: real, b: real, frac: real): real {
    Blend(a, b, 1.0 - frac, frac)
  }

  function Rank(percent: real, count: nat): real {
    percent / 100.0 * (count - 1) as real
  }

  /** The interpolated value at a real position in an ordered list. */
  function ValueAt(ordered: seq<real>, rank: real): real
    requires ordered != [] && 0.0 <= rank <= (|ordered| - 1) as real
  {
    var lo := rank.Floor;
    if lo as real == rank then ordered[lo] else Interpolated(ordered[lo], ordered[lo + 1], rank - lo as real)
  }

  lemma RankInRange(percent: real, count: nat)
    requires 0.0 <= percent <= 100.0 && count > 0
    ensures 0.0 <= Rank(percent, count) <= (count - 1) as real
  {
    ProductInRange(percent / 100.0, (count - 1) as real, Rank(percent, count));
  }

  lemma ProductInRange(p: real, m: real, r: real)
    requires 0.0 <= p <= 1.0 && m >= 0.0 && r == p * m
    ensures 0.0 <= r <= m
  {
    assert (1.0 - p) * m == m - r;
    NonNegativeProduct(p, m, r);
    NonNegativeProduct(1.0 - p, m, m - r);
  }

  lemma NonNegativeProduct(x: real, y: real, r: real)
    requires x >= 0.0 && y >= 0.0 && r == x * y
    ensures r >= 0.0
  {
  }

  function Percentile(values: seq<real>, percent: real): real
    requires 0.0 <= percent <= 100.0
  {
    if values == [] then 0.0
    else
      RankInRange(percent, |values|);
      ValueAt(Sorted(values), Rank(percent, |values|))
  }

  /**
   * A percentile sits at its share of the way along the ordered values: the first at 0, the last at 100, and between
   * two neighbours as far along as its rank is.
   */
  lemma PercentileInterpolates(values: seq<real>, percent: real, lo: nat, frac: real)
    requires values != [] && 0.0 <= percent <= 100.0 && lo < |values| && 0.0 <= frac < 1.0
    requires (lo as real + frac) * 100.0 == percent * (|values| - 1) as real
    ensures frac == 0.0 ==> Percentile(values, percent) == Sorted(values)[lo]
    ensures frac > 0.0 ==>
      lo + 1 < |values|
      && Percentile(values, percent) == Sorted(values)[lo] + frac * (Sorted(values)[lo + 1] - Sorted(values)[lo])
  {
    hide Sorted;
    RankInRange(percent, |values|);
    RankIs(percent, |values|, lo as real + frac);
    assert (lo as real + frac).Floor == lo;
    if frac > 0.0 {
      InterpolatedIs(Sorted(values)[lo], Sorted(values)[lo + 1], frac);
    }
  }

  lemma RankIs(percent: real, count: nat, rank: real)
    requires count > 0 && rank * 100.0 == percent * (count - 1) as real
    ensures Rank(percent, count) == rank
  {
    var n := (count - 1) as real;
    assert percent / 100.0 * n == percent * n / 100.0;
  }

  lemma InterpolatedIs(a: real, b: real, frac: real)
    ensures Interpolated(a, b, frac) == a + frac * (b - a)
  {
  }

  lemma NothingHasPercentileZero(percent: real)
    requires 0.0 <= percent <= 100.0
    ensures Percentile([], percent) == 0.0
  {
  }

  lemma BlendMonotone(a: real, b: real, a': real, b': real, near: real, far: real)
    requires near >= 0.0 && far >= 0.0 && a <= a' && b <= b'
    ensures Blend(a, b, near, far) <= Blend(a', b', near, far)
  {
    ProductOrder(a', a, near);
    ProductOrder(b', b, far);
  }

  lemma BlendOfEquals(x: real, near: real, far: real)
    requires near + far == 1.0
    ensures Blend(x, x, near, far) == x
  {
    Distribute(1.0, near, far, x);
  }

  lemma InterpolatedBetween(a: real, b: real, frac: real, low: real, high: real)
    requires 0.0 <= frac <= 1.0 && low <= a <= high && low <= b <= high
    ensures low <= Interpolated(a, b, frac) <= high
  {
    hide Blend;
    BlendMonotone(low, low, a, b, 1.0 - frac, frac);
    BlendMonotone(a, b, high, high, 1.0 - frac, frac);
    BlendOfEquals(low, 1.0 - frac, frac);
    BlendOfEquals(high, 1.0 - frac, frac);
  }

  lemma ProductOrder(x: real, y: real, factor: real)
    requires x >= y && factor >= 0.0
    ensures x * factor >= y * factor
  {
  }

  lemma InterpolatedMonotone(a: real, b: real, a': real, b': real, frac: real)
    requires 0.0 <= frac <= 1.0 && a <= a' && b <= b'
    ensures Interpolated(a, b, frac) <= Interpolated(a', b', frac)
  {
    hide Blend;
    BlendMonotone(a, b, a', b', 1.0 - frac, frac);
  }

  lemma FurtherAlong(a: real, b: real, frac: real, frac': real)
    requires a <= b && frac <= frac'
    ensures Interpolated(a, b, frac) <= Interpolated(a, b, frac')
  {
    ProductOrder(frac', frac, b - a);
    assert a * (1.0 - frac) + b * frac == a + frac * (b - a);
    assert a * (1.0 - frac') + b * frac' == a + frac' * (b - a);
  }

  lemma ValueInRange(ordered: seq<real>, rank: real, low: real, high: real)
    requires ordered != [] && 0.0 <= rank <= (|ordered| - 1) as real
    requires forall i :: 0 <= i < |ordered| ==> low <= ordered[i] <= high
    ensures low <= ValueAt(ordered, rank) <= high
  {
    hide Interpolated;
    var lo := rank.Floor;
    if lo as real != rank {
      InterpolatedBetween(ordered[lo], ordered[lo + 1], rank - lo as real, low, high);
    }
  }

  lemma ValueMonotone(s: seq<real>, t: seq<real>, rank: real)
    requires s != [] && Below(s, t) && 0.0 <= rank <= (|s| - 1) as real
    ensures ValueAt(s, rank) <= ValueAt(t, rank)
  {
    hide Interpolated;
    var lo := rank.Floor;
    if lo as real != rank {
      InterpolatedMonotone(s[lo], s[lo + 1], t[lo], t[lo + 1], rank - lo as real);
    }
  }

  /** Between two neighbours the value lies between them. */
  lemma ValueBetweenNeighbours(ordered: seq<real>, rank: real)
    requires Ascending(ordered) && ordered != [] && 0.0 <= rank <= (|ordered| - 1) as real
    ensures ordered[rank.Floor] <= ValueAt(ordered, rank)
    ensures rank.Floor + 1 < |ordered| ==> ValueAt(ordered, rank) <= ordered[rank.Floor + 1]
  {
    hide Interpolated;
    var lo := rank.Floor;
    if lo as real != rank {
      InterpolatedBetween(ordered[lo], ordered[lo + 1], rank - lo as real, ordered[lo], ordered[lo + 1]);
    }
  }

  lemma ValueRises(ordered: seq<real>, rank: real, later: real)
    requires Ascending(ordered) && ordered != [] && 0.0 <= rank <= later <= (|ordered| - 1) as real
    ensures ValueAt(ordered, rank) <= ValueAt(ordered, later)
  {
    hide Interpolated;
    ValueBetweenNeighbours(ordered, rank);
    ValueBetweenNeighbours(ordered, later);
    var lo, lo' := rank.Floor, later.Floor;
    if lo == lo' && lo as real != rank {
      FurtherAlong(ordered[lo], ordered[lo + 1], rank - lo as real, later - lo as real);
    }
  }

  /** A percentile never leaves the range of the values, rises with the percent, and rises with the values. */
  lemma PercentileInRange(values: seq<real>, percent: real, low: real, high: real)
    requires values != [] && 0.0 <= percent <= 100.0
    requires forall x :: x in values ==> low <= x <= high
    ensures low <= Percentile(values, percent) <= high
  {
    hide ValueAt, Rank, Sorted;
    RankInRange(percent, |values|);
    SortedPermutes(values);
    var ordered := Sorted(values);
    forall i | 0 <= i < |ordered| ensures low <= ordered[i] <= high {
      assert ordered[i] in multiset(ordered);
      assert ordered[i] in multiset(values);
      assert ordered[i] in values;
    }
    ValueInRange(Sorted(values), Rank(percent, |values|), low, high);
  }

  lemma PercentileRises(values: seq<real>, percent: real, greater: real)
    requires 0.0 <= percent <= greater <= 100.0
    ensures Percentile(values, percent) <= Percentile(values, greater)
  {
    if values != [] {
      hide ValueAt;
      RankInRange(percent, |values|);
      RankInRange(greater, |values|);
      SortedAscends(values);
      ProductOrder(greater / 100.0, percent / 100.0, (|values| - 1) as real);
      ValueRises(Sorted(values), Rank(percent, |values|), Rank(greater, |values|));
    }
  }

  lemma PercentileMonotone(s: seq<real>, t: seq<real>, percent: real)
    requires Below(s, t) && 0.0 <= percent <= 100.0
    ensures Percentile(s, percent) <= Percentile(t, percent)
  {
    if s != [] {
      hide ValueAt, Rank;
      RankInRange(percent, |s|);
      SortedBelow(s, t);
      ValueMonotone(Sorted(s), Sorted(t), Rank(percent, |s|));
    }
  }

  // ----- Resampling -----

  /** One replicate's block starts: every block fits without wrapping, and there are enough of them. */
  predicate ValidStarts(starts: seq<nat>, block: nat, n: nat) {
    1 <= block <= n && (forall k :: 0 <= k < |starts| ==> starts[k] + block <= n) && |starts| * block >= n
  }

  /** Position i of a replicate comes from its block, at its own offset. */
  function SourceIndex(starts: seq<nat>, block: nat, n: nat, i: nat): (index: nat)
    requires ValidStarts(starts, block, n) && i < n
    ensures index < n
  {
    BlockInRange(|starts|, block, i);
    starts[i / block] + i % block
  }

  lemma BlockInRange(count: nat, block: nat, i: nat)
    requires block >= 1 && i < count * block
    ensures i / block < count
  {
    assert i == i / block * block + i % block;
    if i / block >= count {
      ScaledOrder(count, i / block, block);
    }
  }

  lemma ScaledOrder(a: nat, b: nat, c: nat)
    requires a <= b
    ensures a * c <= b * c
  {
  }

  function Replicate(deltas: seq<real>, starts: seq<nat>, block: nat): (values: seq<real>)
    requires ValidStarts(starts, block, |deltas|)
    ensures |values| == |deltas|
    ensures forall i :: 0 <= i < |values| ==> values[i] == deltas[SourceIndex(starts, block, |deltas|, i)]
  {
    seq(|deltas|, i requires 0 <= i < |deltas| => deltas[SourceIndex(starts, block, |deltas|, i)])
  }

  /** Long enough to keep a few days together, never longer than the series. */
  function BlockLength(n: nat): (block: nat)
    ensures block >= 1 && (n >= 1 ==> block <= n)
    ensures n >= 1 ==> Cube(2 * block - 1) < 8 * n < Cube(2 * block + 1)
  {
    var root := RoundedCubeRoot(n);
    if root == 0 then 1 else root
  }

  predicate ValidDraws(draws: seq<seq<nat>>, block: nat, n: nat) {
    forall k :: 0 <= k < |draws| ==> ValidStarts(draws[k], block, n)
  }

  function Means(deltas: seq<real>, draws: seq<seq<nat>>, block: nat): (means: seq<real>)
    requires deltas != [] && ValidDraws(draws, block, |deltas|)
    ensures |means| == |draws|
    ensures forall k :: 0 <= k < |draws| ==> means[k] == Mean(Replicate(deltas, draws[k], block))
  {
    seq(|draws|, k requires 0 <= k < |draws| => Mean(Replicate(deltas, draws[k], block)))
  }

  function Interval(deltas: seq<real>, draws: seq<seq<nat>>, block: nat, alpha: real): Option<(real, real)>
    requires |deltas| >= 2 ==> ValidDraws(draws, block, |deltas|)
    requires 0.0 <= alpha <= 1.0
  {
    if |deltas| < 2 then None
    else
      var means := Means(deltas, draws, block);
      Some((Percentile(means, 100.0 * alpha / 2.0), Percentile(means, 100.0 * (1.0 - alpha / 2.0))))
  }

  lemma {:induction false} SumInRange(f: int -> real, n: nat, low: real, high: real)
    requires forall i :: 0 <= i < n ==> low <= f(i) <= high
    ensures low * n as real <= SumTo(f, n) <= high * n as real
  {
    if n > 0 {
      SumInRange(f, n - 1, low, high);
      Distribute(n as real, (n - 1) as real, 1.0, low);
      Distribute(n as real, (n - 1) as real, 1.0, high);
    }
  }

  lemma QuotientInRange(total: real, n: real, low: real, high: real)
    requires n > 0.0 && low * n <= total <= high * n
    ensures low <= total / n <= high
  {
    if total / n < low {
      ProductOrder(low, total / n, n);
    }
  }

  lemma MeanInRange(values: seq<real>, low: real, high: real)
    requires values != [] && forall i :: 0 <= i < |values| ==> low <= values[i] <= high
    ensures low <= Mean(values) <= high
  {
    SumInRange(Elements(values), |values|, low, high);
    QuotientInRange(SumTo(Elements(values), |values|), |values| as real, low, high);
  }

  lemma {:induction false} SumMonotone(f: int -> real, g: int -> real, n: nat)
    requires forall i :: 0 <= i < n ==> f(i) <= g(i)
    ensures SumTo(f, n) <= SumTo(g, n)
  {
    if n > 0 {
      SumMonotone(f, g, n - 1);
    }
  }

  lemma QuotientOrder(x: real, y: real, n: real)
    requires n > 0.0 && x <= y
    ensures x / n <= y / n
  {
  }

  lemma MeanMonotone(s: seq<real>, t: seq<real>)
    requires s != [] && Below(s, t)
    ensures Mean(s) <= Mean(t)
  {
    SumMonotone(Elements(s), Elements(t), |s|);
    QuotientOrder(SumTo(Elements(s), |s|), SumTo(Elements(t), |t|), |s| as real);
  }

  /** The interval is ordered and stays inside the range of the deltas themselves. */
  lemma IntervalInRange(deltas: seq<real>, draws: seq<seq<nat>>, block: nat, alpha: real, low: real, high: real)
    requires |deltas| >= 2 && draws != [] && ValidDraws(draws, block, |deltas|) && 0.0 <= alpha <= 1.0
    requires forall i :: 0 <= i < |deltas| ==> low <= deltas[i] <= high
    ensures var interval := Interval(deltas, draws, block, alpha).value;
            low <= interval.0 <= interval.1 <= high
  {
    hide Mean, Percentile, SourceIndex, ValidStarts;
    var means := Means(deltas, draws, block);
    forall x | x in means ensures low <= x <= high {
      var k :| 0 <= k < |means| && means[k] == x;
      MeanInRange(Replicate(deltas, draws[k], block), low, high);
    }
    PercentileInRange(means, 100.0 * alpha / 2.0, low, high);
    PercentileInRange(means, 100.0 * (1.0 - alpha / 2.0), low, high);
    PercentileRises(means, 100.0 * alpha / 2.0, 100.0 * (1.0 - alpha / 2.0));
  }

  /**
   * The gate is monotone. Replicates depend on the draws and the length only, so lowering any candidate loss lowers
   * both ends of the interval, and a candidate that ships keeps shipping when its losses improve.
   */
  lemma LowerDeltasLowerInterval(better: seq<real>, worse: seq<real>, draws: seq<seq<nat>>, block: nat, alpha: real)
    requires |worse| >= 2 && Below(better, worse) && ValidDraws(draws, block, |worse|) && 0.0 <= alpha <= 1.0
    ensures var a, b := Interval(better, draws, block, alpha).value, Interval(worse, draws, block, alpha).value;
            a.0 <= b.0 && a.1 <= b.1
  {
    hide Mean, Percentile, SourceIndex, ValidStarts;
    forall k | 0 <= k < |draws| ensures Means(better, draws, block)[k] <= Means(worse, draws, block)[k] {
      MeanMonotone(Replicate(better, draws[k], block), Replicate(worse, draws[k], block));
    }
    PercentileMonotone(Means(better, draws, block), Means(worse, draws, block), 100.0 * alpha / 2.0);
    PercentileMonotone(Means(better, draws, block), Means(worse, draws, block), 100.0 * (1.0 - alpha / 2.0));
  }

  // ----- The loops -----

  /** After k blocks, every position holds its own block's reading. */
  predicate Drawn(values: seq<real>, deltas: seq<real>, starts: seq<nat>, block: nat, k: nat)
    requires ValidStarts(starts, block, |deltas|)
  {
    && k <= |starts| && |values| == k * block
    && forall i :: 0 <= i < |values| ==> i / block < k && values[i] == deltas[starts[i / block] + i % block]
  }

  lemma DrawBlock(values: seq<real>, deltas: seq<real>, starts: seq<nat>, block: nat, k: nat)
    requires ValidStarts(starts, block, |deltas|) && Drawn(values, deltas, starts, block, k) && k < |starts|
    ensures Drawn(values + deltas[starts[k]..starts[k] + block], deltas, starts, block, k + 1)
  {
    var more := values + deltas[starts[k]..starts[k] + block];
    forall i: nat | k * block <= i < k * block + block ensures i / block == k && i % block == i - k * block {
      InBlock(k, block, i);
    }
    ScaledNext(k, block);
  }

  lemma ScaledNext(k: nat, block: nat)
    ensures (k + 1) * block == k * block + block
  {
  }

  lemma DrawnIsReplicate(values: seq<real>, deltas: seq<real>, starts: seq<nat>, block: nat, k: nat)
    requires ValidStarts(starts, block, |deltas|) && Drawn(values, deltas, starts, block, k) && |values| >= |deltas|
    ensures values[..|deltas|] == Replicate(deltas, starts, block)
  {
  }

  /** Blocks drawn until the replicate is long enough, then cut to length. */
  method Resample(deltas: seq<real>, starts: seq<nat>, block: nat) returns (values: seq<real>)
    requires ValidStarts(starts, block, |deltas|)
    ensures values == Replicate(deltas, starts, block)
  {
    hide Replicate, SourceIndex;
    values := [];
    var k := 0;
    assert Drawn(values, deltas, starts, block, k);
    while |values| < |deltas|
      invariant Drawn(values, deltas, starts, block, k)
      decreases |starts| - k
    {
      EnoughBlocks(k, |starts|, block, |deltas|);
      DrawBlock(values, deltas, starts, block, k);
      hide Drawn;
      values := values + deltas[starts[k]..starts[k] + block];
      k := k + 1;
    }
    DrawnIsReplicate(values, deltas, starts, block, k);
    values := values[..|deltas|];
  }

  lemma EnoughBlocks(k: nat, count: nat, block: nat, n: nat)
    requires k <= count && k * block < n <= count * block
    ensures k < count
  {
  }

  lemma InBlock(k: nat, block: nat, i: nat)
    requires block >= 1 && k * block <= i < k * block + block
    ensures i / block == k && i % block == i - k * block
  {
    var r := i - k * block;
    assert i == k * block + r;
    DivisionIsUnique(i, block, k, r);
  }

  lemma DivisionIsUnique(i: nat, block: nat, q: nat, r: nat)
    requires block >= 1 && i == q * block + r && r < block
    ensures i / block == q && i % block == r
  {
    var q', r' := i / block, i % block;
    assert i == q' * block + r';
    if q' < q {
      ScaledOrder(q' + 1, q, block);
    } else if q' > q {
      ScaledOrder(q + 1, q', block);
    }
  }

  method MovingBlockBootstrap(deltas: seq<real>, draws: seq<seq<nat>>, alpha: real)
    returns (interval: Option<(real, real)>)
    requires |deltas| >= 2 ==> ValidDraws(draws, BlockLength(|deltas|), |deltas|)
    requires 0.0 <= alpha <= 1.0
    ensures interval == Interval(deltas, draws, BlockLength(|deltas|), alpha)
  {
    if |deltas| < 2 {
      return None;
    }
    var block := BlockLength(|deltas|);
    hide Mean, Percentile, SourceIndex, ValidStarts;
    var means: seq<real>, k := [], 0;
    while k < |draws|
      invariant 0 <= k == |means| <= |draws|
      invariant forall j :: 0 <= j < k ==> means[j] == Means(deltas, draws, block)[j]
    {
      var resampled := Resample(deltas, draws[k], block);
      means := means + [Mean(resampled)];
      k := k + 1;
    }
    assert means == Means(deltas, draws, block);
    interval := Some((Percentile(means, 100.0 * alpha / 2.0), Percentile(means, 100.0 * (1.0 - alpha / 2.0))));
  }
}
