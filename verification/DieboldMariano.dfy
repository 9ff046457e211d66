/**
 * The Newey-West long-run variance behind the Diebold-Mariano statistic
 * (forecaster/forecast_backtest.py). What holds of the variance holds at every lag; the test itself rounds a cube root.
 */
module DieboldMariano {
  import opened RealSums
  import opened CubeRoot

  datatype Statistic = Undefined(lags: nat) | Defined(mean: real, meanVariance: real, lags: nat)

  type Matrix = seq<seq<real>>

  /** The entry at (i, k), or zero outside the matrix. */
  function Entry(q: Matrix, i: int, k: int): real {
    if 0 <= i < |q| then At(q[i], k) else 0.0
  }

  /** All products of two deviations. */
  function ProductMatrix(c: seq<real>): Matrix {
    seq(|c|, i requires 0 <= i < |c| => seq(|c|, k requires 0 <= k < |c| => c[i] * c[k]))
  }

  lemma ProductEntry(c: seq<real>, i: int, k: int, x: real, y: real)
    requires x == At(c, i) && y == At(c, k)
    ensures Entry(ProductMatrix(c), i, k) == x * y
  {
  }

  function LagProduct(q: Matrix, lag: int): int -> real {
    i => Entry(q, i, i - lag)
  }

  /** The sum along one off-diagonal: n times the autocovariance at that lag. */
  function DiagonalSum(q: Matrix, n: nat, lag: int): real {
    SumTo(LagProduct(q, lag), n)
  }

  function AutoSum(c: seq<real>, lag: int): real {
    DiagonalSum(ProductMatrix(c), |c|, lag)
  }

  function Centered(values: seq<real>): (c: seq<real>)
    requires |values| > 0
    ensures |c| == |values|
    ensures forall i :: 0 <= i < |c| ==> c[i] == values[i] - Mean(values)
  {
    var mean := Mean(values);
    seq(|values|, i requires 0 <= i < |values| => values[i] - mean)
  }

  function BartlettWeight(lag: nat, maxLag: nat): real {
    1.0 - lag as real / (maxLag as real + 1.0)
  }

  function LagTerm(weight: real, autoSum: real, n: nat): real
    requires n > 0
  {
    2.0 * weight * (autoSum / n as real)
  }

  /** The running long-run variance after the first k lags, with the Bartlett weights of maxLag. */
  function LongRunPrefix(c: seq<real>, maxLag: nat, k: nat): real
    requires |c| > 0
  {
    if k == 0 then
      AutoSum(c, 0) / |c| as real
    else
      LongRunPrefix(c, maxLag, k - 1) + LagTerm(BartlettWeight(k, maxLag), AutoSum(c, k), |c|)
  }

  function LongRunVariance(c: seq<real>, maxLag: nat): real
    requires |c| > 0
  {
    LongRunPrefix(c, maxLag, maxLag)
  }

  /** The sum of the maxLag+1 deviations ending at t, zero-padded on both sides. */
  function Window(c: seq<real>, maxLag: nat, t: int): real {
    if maxLag == 0 then At(c, t) else Window(c, maxLag - 1, t) + At(c, t - maxLag)
  }

  function WindowSquares(c: seq<real>, maxLag: nat): int -> real {
    t => Square(Window(c, maxLag, t))
  }

  // ----- The algebra: a Bartlett-weighted sum is a sum of squared windows -----

  ghost predicate Supported(q: Matrix, n: nat) {
    |q| == n && forall i :: 0 <= i < n ==> |q[i]| == n
  }

  function DelayedProduct(q: Matrix, j: int, k: int): int -> real {
    t => Entry(q, t - j, t - k)
  }

  lemma DelayedProductSum(q: Matrix, n: nat, j: nat, k: nat, m: nat)
    requires Supported(q, n) && j <= k && m >= n + j
    ensures SumTo(DelayedProduct(q, j, k), m) == DiagonalSum(q, n, k - j)
  {
    var f, g := LagProduct(q, k - j), DelayedProduct(q, j, k);
    assert forall i :: f(i) == Entry(q, i, i - (k - j));
    assert forall t :: g(t) == f(t - j);
    SumShift(f, g, j, n, m);
  }

  /** Entry(q, t, t-k) + Entry(q, t-1, t-k) + ... + Entry(q, t-w, t-k). */
  function Cross(q: Matrix, w: nat, k: int, t: int): real {
    if w == 0 then Entry(q, t, t - k) else Cross(q, w - 1, k, t) + Entry(q, t - w, t - k)
  }

  /** The sum of q over the (maxLag+1)-square of indices ending at t, one border at a time. */
  function Block(q: Matrix, maxLag: nat, t: int): real {
    if maxLag == 0 then Entry(q, t, t)
    else Block(q, maxLag - 1, t) + (Cross(q, maxLag - 1, maxLag, t) + Cross(q, maxLag - 1, maxLag, t))
         + Entry(q, t - maxLag, t - maxLag)
  }

  function Crosses(q: Matrix, w: nat, k: int): int -> real {
    t => Cross(q, w, k, t)
  }

  function Blocks(q: Matrix, maxLag: nat): int -> real {
    t => Block(q, maxLag, t)
  }

  /** DiagonalSum at lags k, k-1, ..., k-w. */
  function DescendingSums(q: Matrix, n: nat, w: nat, k: nat): real {
    if w == 0 then DiagonalSum(q, n, k) else DescendingSums(q, n, w - 1, k) + DiagonalSum(q, n, k - w)
  }

  /** DiagonalSum at lags 1, ..., k. */
  function AscendingSums(q: Matrix, n: nat, k: nat): real {
    if k == 0 then 0.0 else AscendingSums(q, n, k - 1) + DiagonalSum(q, n, k)
  }

  lemma {:induction false} CrossSum(q: Matrix, n: nat, w: nat, k: nat, m: nat)
    requires Supported(q, n) && w < k && m >= n + k
    ensures SumTo(Crosses(q, w, k), m) == DescendingSums(q, n, w, k)
  {
    var h, g := Crosses(q, w, k), DelayedProduct(q, w, k);
    DelayedProductSum(q, n, w, k, m);
    if w == 0 {
      SumCongruence(h, g, m);
    } else {
      CrossSum(q, n, w - 1, k, m);
      SumAdd(h, Crosses(q, w - 1, k), g, m);
    }
  }

  lemma {:induction false} DescendingIsAscending(q: Matrix, n: nat, w: nat, k: nat)
    requires w < k
    ensures AscendingSums(q, n, k) == AscendingSums(q, n, k - w - 1) + DescendingSums(q, n, w, k)
  {
    if w > 0 {
      DescendingIsAscending(q, n, w - 1, k);
    }
  }

  /** The Bartlett numerator, grown one lag at a time. */
  function Bartlett(q: Matrix, n: nat, maxLag: nat): real {
    if maxLag == 0 then DiagonalSum(q, n, 0)
    else Bartlett(q, n, maxLag - 1) + DiagonalSum(q, n, 0)
         + (AscendingSums(q, n, maxLag) + AscendingSums(q, n, maxLag))
  }

  lemma {:induction false} SumBorder(h: int -> real, f: int -> real, g: int -> real, e: int -> real, m: nat)
    requires forall t :: 0 <= t < m ==> h(t) == f(t) + (g(t) + g(t)) + e(t)
    ensures SumTo(h, m) == SumTo(f, m) + (SumTo(g, m) + SumTo(g, m)) + SumTo(e, m)
  {
    if m > 0 {
      SumBorder(h, f, g, e, m - 1);
    }
  }

  lemma {:induction false} BlockSum(q: Matrix, n: nat, maxLag: nat, m: nat)
    requires Supported(q, n) && m >= n + maxLag
    ensures SumTo(Blocks(q, maxLag), m) == Bartlett(q, n, maxLag)
  {
    var h, last := Blocks(q, maxLag), DelayedProduct(q, maxLag, maxLag);
    DelayedProductSum(q, n, maxLag, maxLag, m);
    if maxLag == 0 {
      SumCongruence(h, last, m);
    } else {
      var previous, cross := Blocks(q, maxLag - 1), Crosses(q, maxLag - 1, maxLag);
      BlockSum(q, n, maxLag - 1, m);
      CrossSum(q, n, maxLag - 1, maxLag, m);
      DescendingIsAscending(q, n, maxLag - 1, maxLag);
      SumBorder(h, previous, cross, last, m);
    }
  }

  /** Sum over l = 1..k of (maxLag + 1 - l) times the l-th diagonal sum. */
  function WeightedSums(q: Matrix, n: nat, maxLag: nat, k: nat): real {
    if k == 0 then 0.0
    else WeightedSums(q, n, maxLag, k - 1) + (maxLag + 1 - k) as real * DiagonalSum(q, n, k)
  }

  lemma AddOne(x: real, a: real)
    ensures (x + 1.0) * a == x * a + a
  {
  }

  lemma {:induction false} WeightedStep(q: Matrix, n: nat, maxLag: nat, k: nat)
    requires maxLag > 0 && k <= maxLag
    ensures WeightedSums(q, n, maxLag, k) == WeightedSums(q, n, maxLag - 1, k) + AscendingSums(q, n, k)
  {
    if k > 0 {
      WeightedStep(q, n, maxLag, k - 1);
      AddOne((maxLag - k) as real, DiagonalSum(q, n, k));
      assert (maxLag + 1 - k) as real == (maxLag - k) as real + 1.0;
    }
  }

  lemma {:induction false} BartlettIsWeighted(q: Matrix, n: nat, maxLag: nat)
    ensures Bartlett(q, n, maxLag)
         == (maxLag + 1) as real * DiagonalSum(q, n, 0) + 2.0 * WeightedSums(q, n, maxLag, maxLag)
  {
    if maxLag > 0 {
      BartlettIsWeighted(q, n, maxLag - 1);
      WeightedStep(q, n, maxLag, maxLag);
      AddOne(maxLag as real, DiagonalSum(q, n, 0));
      assert (maxLag + 1) as real == maxLag as real + 1.0;
      assert WeightedSums(q, n, maxLag - 1, maxLag) == WeightedSums(q, n, maxLag - 1, maxLag - 1);
    }
  }

  lemma SquareOfSum(w: real, p: real, q: real)
    requires w == p + q
    ensures Square(w) == Square(p) + (p * q + p * q) + q * q
  {
    Distribute(w, p, q, p);
    Distribute(w, p, q, q);
    Distribute(w, p, q, w);
  }

  lemma AddTerm(a: real, b: real, ab: real, p: real, q: real, w: real, r: real)
    requires a == p * r && b == q * r && ab == a + b && w == p + q
    ensures ab == w * r
  {
    Distribute(w, p, q, r);
  }

  lemma {:induction false} WindowCross(c: seq<real>, w: nat, k: int, t: int, window: real, delayed: real)
    requires window == Window(c, w, t) && delayed == At(c, t - k)
    ensures Cross(ProductMatrix(c), w, k, t) == window * delayed
  {
    var q := ProductMatrix(c);
    ProductEntry(c, t - w, t - k, At(c, t - w), delayed);
    if w > 0 {
      var shorter := Window(c, w - 1, t);
      WindowCross(c, w - 1, k, t, shorter, delayed);
      AddTerm(Cross(q, w - 1, k, t), Entry(q, t - w, t - k), Cross(q, w, k, t),
              shorter, At(c, t - w), window, delayed);
    }
  }

  /** Over the deviations' product matrix, a block is the square of a window sum. */
  lemma {:induction false} BlockIsWindowSquare(c: seq<real>, maxLag: nat, t: int)
    ensures Block(ProductMatrix(c), maxLag, t) == Square(Window(c, maxLag, t))
  {
    var last := At(c, t - maxLag);
    ProductEntry(c, t - maxLag, t - maxLag, last, last);
    if maxLag > 0 {
      var shorter := Window(c, maxLag - 1, t);
      BlockIsWindowSquare(c, maxLag - 1, t);
      WindowCross(c, maxLag - 1, maxLag, t, shorter, last);
      SquareOfSum(Window(c, maxLag, t), shorter, last);
    }
  }

  lemma WindowSquareSum(c: seq<real>, maxLag: nat)
    ensures SumTo(WindowSquares(c, maxLag), |c| + maxLag) == Bartlett(ProductMatrix(c), |c|, maxLag)
  {
    var q := ProductMatrix(c);
    forall t | 0 <= t < |c| + maxLag ensures WindowSquares(c, maxLag)(t) == Blocks(q, maxLag)(t) {
      BlockIsWindowSquare(c, maxLag, t);
    }
    SumCongruence(WindowSquares(c, maxLag), Blocks(q, maxLag), |c| + maxLag);
    assert Supported(q, |c|);
    BlockSum(q, |c|, maxLag, |c| + maxLag);
  }

  lemma ScaleQuotient(n: real, r: real, a: real)
    requires n != 0.0
    ensures n * r * (a / n) == r * a
  {
    assert n * (a / n) == a;
    assert n * r * (a / n) == r * (n * (a / n));
  }

  lemma ScaleTerm(n: nat, r: real, w: real, a: real, k: real, nr: real, term: real)
    requires n > 0 && r * w == k && nr == n as real * r && term == LagTerm(w, a, n)
    ensures nr * term == 2.0 * (k * a)
  {
    var b := a / n as real;
    assert n as real * b == a;
    calc {
      nr * term;
      2.0 * ((r * w) * (n as real * b));
      2.0 * (k * a);
    }
  }

  lemma {:induction false} ScaledPrefix(c: seq<real>, maxLag: nat, k: nat)
    requires |c| > 0 && k <= maxLag
    ensures |c| as real * (maxLag + 1) as real * LongRunPrefix(c, maxLag, k)
         == (maxLag + 1) as real * AutoSum(c, 0) + 2.0 * WeightedSums(ProductMatrix(c), |c|, maxLag, k)
  {
    hide SumTo, LagTerm;
    var n, r := |c| as real, (maxLag + 1) as real;
    if k == 0 {
      ScaleQuotient(n, r, AutoSum(c, 0));
    } else {
      ScaledPrefix(c, maxLag, k - 1);
      ScaledWeight(k, maxLag);
      var before, after := LongRunPrefix(c, maxLag, k - 1), LongRunPrefix(c, maxLag, k);
      var term := LagTerm(BartlettWeight(k, maxLag), AutoSum(c, k), |c|);
      ScaleTerm(|c|, r, BartlettWeight(k, maxLag), AutoSum(c, k), (maxLag + 1 - k) as real, n * r, term);
      Distribute(after, before, term, n * r);
    }
  }

  lemma ScaledWeight(k: nat, maxLag: nat)
    requires k <= maxLag
    ensures (maxLag + 1) as real * BartlettWeight(k, maxLag) == (maxLag + 1 - k) as real
  {
    var r := (maxLag + 1) as real;
    assert r == maxLag as real + 1.0;
    assert r * (k as real / r) == k as real;
    Distribute(BartlettWeight(k, maxLag), 1.0, -(k as real / r), r);
  }

  /** The identity the sign argument rests on: the variance is a scaled sum of squared window sums. */
  lemma LongRunVarianceIsSumOfSquares(c: seq<real>, maxLag: nat)
    requires |c| > 0
    ensures |c| as real * (maxLag + 1) as real * LongRunVariance(c, maxLag)
         == SumTo(WindowSquares(c, maxLag), |c| + maxLag)
  {
    hide SumTo, ProductMatrix;
    ScaledPrefix(c, maxLag, maxLag);
    BartlettIsWeighted(ProductMatrix(c), |c|, maxLag);
    WindowSquareSum(c, maxLag);
  }

  /** Window sums that all vanish force every deviation to vanish, one index at a time. */
  lemma {:induction false} ZeroWindowsForceZeros(c: seq<real>, maxLag: nat, t: nat)
    requires forall u :: 0 <= u < |c| ==> Window(c, maxLag, u) == 0.0
    requires t <= |c|
    ensures forall i :: 0 <= i < t ==> c[i] == 0.0
  {
    if t > 0 {
      ZeroWindowsForceZeros(c, maxLag, t - 1);
      WindowOfZeroPast(c, maxLag, t - 1);
    }
  }

  lemma {:induction false} WindowOfZeroPast(c: seq<real>, maxLag: nat, t: nat)
    requires t < |c| && forall i :: 0 <= i < t ==> c[i] == 0.0
    ensures Window(c, maxLag, t) == c[t]
  {
    if maxLag > 0 {
      WindowOfZeroPast(c, maxLag - 1, t);
    }
  }

  lemma {:induction false} WindowOfZeros(c: seq<real>, maxLag: nat, t: int)
    requires forall i :: 0 <= i < |c| ==> c[i] == 0.0
    ensures Window(c, maxLag, t) == 0.0
  {
    if maxLag > 0 {
      WindowOfZeros(c, maxLag - 1, t);
    }
  }

  /** Never negative, at any lag, and zero exactly for a vanishing deviation sequence. */
  lemma LongRunVarianceSign(c: seq<real>, maxLag: nat)
    requires |c| > 0
    ensures LongRunVariance(c, maxLag) >= 0.0
    ensures LongRunVariance(c, maxLag) == 0.0 <==> forall i :: 0 <= i < |c| ==> c[i] == 0.0
  {
    var v, k := LongRunVariance(c, maxLag), |c| as real * (maxLag + 1) as real;
    var squares := WindowSquares(c, maxLag);
    LongRunVarianceIsSumOfSquares(c, maxLag);
    SumNonNegative(squares, |c| + maxLag);
    assert k > 0.0;
    assert v < 0.0 ==> k * v < 0.0;
    assert v == 0.0 <==> k * v == 0.0;
    if v == 0.0 {
      forall u | 0 <= u < |c| ensures Window(c, maxLag, u) == 0.0 {
        assert squares(u) == 0.0;
      }
      ZeroWindowsForceZeros(c, maxLag, |c|);
    }
    if forall i :: 0 <= i < |c| ==> c[i] == 0.0 {
      forall t | 0 <= t < |c| + maxLag ensures squares(t) == 0.0 {
        WindowOfZeros(c, maxLag, t);
      }
    }
  }

  predicate Constant(values: seq<real>) {
    forall i, j :: 0 <= i < |values| && 0 <= j < |values| ==> values[i] == values[j]
  }

  /** The `<= 0` exit of the test is exactly the constant series. */
  lemma OnlyConstantSeriesHaveNoVariance(values: seq<real>, maxLag: nat)
    requires |values| > 0
    ensures LongRunVariance(Centered(values), maxLag) >= 0.0
    ensures LongRunVariance(Centered(values), maxLag) <= 0.0 <==> Constant(values)
  {
    var c := Centered(values);
    LongRunVarianceSign(c, maxLag);
    if Constant(values) {
      SumConstant(Elements(values), values[0], |values|);
      assert Mean(values) == values[0] * |values| as real / |values| as real;
    } else {
      var i, j :| 0 <= i < |values| && 0 <= j < |values| && values[i] != values[j];
      assert c[i] != c[j];
    }
  }

  // ----- The test itself -----

  /** Before the first full lag the zero-padded products vanish. */
  lemma EarlyLagProducts(c: seq<real>, lag: nat)
    requires lag <= |c|
    ensures SumTo(LagProduct(ProductMatrix(c), lag), lag) == 0.0
  {
    var f := LagProduct(ProductMatrix(c), lag);
    forall i | 0 <= i < lag ensures f(i) == 0.0 {
      assert f(i) == Entry(ProductMatrix(c), i, i - lag);
    }
    SumTrailingZeros(f, 0, lag);
  }

  /** The sum of products of deviations `lag` places apart. */
  method LaggedSum(c: seq<real>, lag: nat) returns (cov: real)
    requires lag <= |c|
    ensures cov == AutoSum(c, lag)
  {
    cov := 0.0;
    EarlyLagProducts(c, lag);
    for i := lag to |c|
      invariant cov == SumTo(LagProduct(ProductMatrix(c), lag), i)
    {
      ProductEntry(c, i, i - lag, c[i], c[i - lag]);
      cov := cov + c[i] * c[i - lag];
    }
  }

  function MaxLag(n: nat): (lag: nat)
    requires n > 0
    ensures lag < n
    ensures n >= 3 ==> lag >= 1 && Cube(2 * lag - 1) < 8 * n < Cube(2 * lag + 1)
  {
    RootOfLength(n);
    var root := RoundedCubeRoot(n);
    if n - 1 < root then n - 1 else root
  }

  lemma LongRunSteps(c: seq<real>, maxLag: nat)
    requires |c| > 0
    ensures LongRunPrefix(c, maxLag, 0) == AutoSum(c, 0) / |c| as real
    ensures LongRunPrefix(c, maxLag, maxLag) == LongRunVariance(c, maxLag)
  {
  }

  lemma LongRunStep(c: seq<real>, maxLag: nat, lag: nat, n: nat, cov: real, weight: real, term: real)
    requires |c| == n > 0 && lag > 0 && cov == AutoSum(c, lag)
    requires weight == 1.0 - lag as real / (maxLag as real + 1.0) && term == 2.0 * weight * (cov / n as real)
    ensures LongRunPrefix(c, maxLag, lag) == LongRunPrefix(c, maxLag, lag - 1) + term
  {
    hide AutoSum;
    assert weight == BartlettWeight(lag, maxLag);
    assert term == LagTerm(weight, cov, n);
  }

  /**
   * The test on finite paired loss deltas. The statistic is mean / sqrt(meanVariance);
   * it is undefined exactly for fewer than three deltas or a constant series.
   */
  method Test(deltas: seq<real>) returns (r: Statistic)
    ensures |deltas| < 3 ==> r.lags == 0
    ensures |deltas| >= 3 ==>
      1 <= r.lags < |deltas| && Cube(2 * r.lags - 1) < 8 * |deltas| < Cube(2 * r.lags + 1)
    ensures r.Undefined? <==> |deltas| < 3 || Constant(deltas)
    ensures r.Defined? ==>
      && r.mean == Mean(deltas)
      && r.meanVariance == LongRunVariance(Centered(deltas), r.lags) / |deltas| as real
      && r.meanVariance > 0.0
  {
    hide MaxLag, Cube, AutoSum, Constant, LongRunVariance, LongRunPrefix;
    var n := |deltas|;
    if n < 3 {
      return Undefined(0);
    }
    var total := 0.0;
    for i := 0 to n
      invariant total == SumTo(Elements(deltas), i)
    {
      total := total + deltas[i];
    }
    var mean := total / n as real;
    var centered := Centered(deltas);
    var maxLag := MaxLag(n);
    var gamma0 := LaggedSum(centered, 0);
    var longRun := gamma0 / n as real;
    LongRunSteps(centered, maxLag);
    for lag := 1 to maxLag + 1
      invariant longRun == LongRunPrefix(centered, maxLag, lag - 1)
    {
      var cov := LaggedSum(centered, lag);
      var weight := 1.0 - lag as real / (maxLag as real + 1.0);
      var term := 2.0 * weight * (cov / n as real);
      LongRunStep(centered, maxLag, lag, n, cov, weight, term);
      longRun := longRun + term;
    }
    OnlyConstantSeriesHaveNoVariance(deltas, maxLag);
    if longRun <= 0.0 {
      return Undefined(maxLag);
    }
    r := Defined(mean, longRun / n as real, maxLag);
  }

  /**
   * What the square root in the statistic decides can be told without it: the statistic has the mean's sign, and passes
   * a critical value exactly when the squared mean passes that many variances.
   */
  lemma StatisticPassesExactlyWhen(mean: real, variance: real, root: real, stat: real, z: real)
    requires variance > 0.0 && IsRoot(root, variance) && stat * root == mean && z >= 0.0
    ensures Magnitude(stat) > z <==> Square(mean) > Square(z) * variance
    ensures (stat < 0.0 <==> mean < 0.0) && (stat > 0.0 <==> mean > 0.0)
  {
    hide Square;
    RootIsPositive(root, variance);
    ProductSign(stat, root, mean);
    ProductSquare(stat, root, mean, Square(stat), variance);
    MagnitudeSquare(stat);
    SquaresOrder(z, Magnitude(stat));
    ScaledStrictly(Square(z), Square(stat), variance);
  }

  lemma RootIsPositive(root: real, variance: real)
    requires variance > 0.0 && IsRoot(root, variance)
    ensures root > 0.0
  {
  }

  lemma ProductSign(x: real, root: real, p: real)
    requires root > 0.0 && p == x * root
    ensures (x < 0.0 <==> p < 0.0) && (x > 0.0 <==> p > 0.0)
  {
  }

  lemma ProductSquare(x: real, root: real, p: real, xx: real, v: real)
    requires p == x * root && xx == Square(x) && v == Square(root)
    ensures Square(p) == xx * v
  {
    assert p * p == (x * x) * (root * root);
  }

  lemma ScaledStrictly(x: real, y: real, factor: real)
    requires factor > 0.0
    ensures x < y <==> x * factor < y * factor
  {
  }
}
