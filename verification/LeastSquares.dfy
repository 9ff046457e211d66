/** The two-parameter least-squares fit (forecaster/postproc_models.py, `_simple_ols`), over the reals. */
module LeastSquares {
  import opened RealSums

  datatype Line = Line(intercept: real, slope: real)

  /** Below this determinant the fit falls back to the mean of y. */
  const FALLBACK_BAND := 1e-12

  function Inner(xs: seq<real>, ys: seq<real>): real {
    SumTo(Products(xs, ys), |xs|)
  }

  /** n * inner - tx * ty, the scaled covariance of two totals. */
  function Scaled(n: real, inner: real, tx: real, ty: real): real {
    n * inner - tx * ty
  }

  function Covariance(xs: seq<real>, ys: seq<real>): real {
    Scaled(|xs| as real, Inner(xs, ys), Total(xs), Total(ys))
  }

  function Determinant(xs: seq<real>): real {
    Covariance(xs, xs)
  }

  function Solve(n: nat, sx: real, sy: real, cov: real, det: real): Line
    requires n > 0 && det != 0.0
  {
    var slope := cov / det;
    Line((sy - slope * sx) / n as real, slope)
  }

  function Fit(xs: seq<real>, ys: seq<real>): Line
    requires |xs| == |ys|
  {
    var n := |xs|;
    if n < 2 then
      Line(if n == 0 then 0.0 else Mean(ys), 0.0)
    else
      var det := Determinant(xs);
      if -FALLBACK_BAND < det < FALLBACK_BAND then Line(Total(ys) / n as real, 0.0)
      else Solve(n, Total(xs), Total(ys), Covariance(xs, ys), det)
  }

  function Residual(line: Line, x: real, y: real): real {
    y - (line.intercept + line.slope * x)
  }

  function Residuals(line: Line, xs: seq<real>, ys: seq<real>): int -> real {
    i => Residual(line, At(xs, i), At(ys, i))
  }

  function SquaredResiduals(line: Line, xs: seq<real>, ys: seq<real>): int -> real {
    i => Square(Residual(line, At(xs, i), At(ys, i)))
  }

  function SquaredError(line: Line, xs: seq<real>, ys: seq<real>): real {
    SumTo(SquaredResiduals(line, xs, ys), |xs|)
  }

  // ----- Expanding sums of residuals -----

  lemma {:induction false} ResidualSum(line: Line, xs: seq<real>, ys: seq<real>, k: nat, a: real, b: real)
    requires a == line.intercept && b == line.slope
    ensures SumTo(Residuals(line, xs, ys), k)
         == SumTo(Elements(ys), k) - a * k as real - b * SumTo(Elements(xs), k)
  {
    if k > 0 {
      ResidualSum(line, xs, ys, k - 1, a, b);
      Distribute(k as real, (k - 1) as real, 1.0, a);
      Distribute(SumTo(Elements(xs), k), SumTo(Elements(xs), k - 1), At(xs, k - 1), b);
    }
  }

  lemma SquaredResidualExpands(line: Line, x: real, y: real, c0: real, c1: real, c2: real, c3: real, c4: real,
                               xx: real, xy: real, yy: real)
    requires c0 == line.intercept * line.intercept && c1 == line.slope * line.slope
    requires c2 == -2.0 * line.intercept && c3 == -2.0 * line.slope && c4 == 2.0 * (line.intercept * line.slope)
    requires xx == x * x && xy == x * y && yy == y * y
    ensures Square(Residual(line, x, y)) == yy + c0 + c1 * xx + c2 * y + c3 * xy + c4 * x
  {
  }

  lemma SquaredResidualsExpand(line: Line, xs: seq<real>, ys: seq<real>, i: int, c0: real, c1: real, c2: real,
          c3: real, c4: real)
    requires c0 == line.intercept * line.intercept && c1 == line.slope * line.slope
    requires c2 == -2.0 * line.intercept && c3 == -2.0 * line.slope && c4 == 2.0 * (line.intercept * line.slope)
    ensures SquaredResiduals(line, xs, ys)(i)
         == Products(ys, ys)(i) + c0 + c1 * Products(xs, xs)(i) + c2 * Elements(ys)(i)
            + c3 * Products(xs, ys)(i) + c4 * Elements(xs)(i)
  {
    SquaredResidualExpands(line, At(xs, i), At(ys, i), c0, c1, c2, c3, c4,
                           Products(xs, xs)(i), Products(xs, ys)(i), Products(ys, ys)(i));
  }

  /** The squared error as a quadratic in the line, over the data's moments. */
  lemma SquaredErrorExpands(line: Line, xs: seq<real>, ys: seq<real>, c0: real, c1: real, c2: real, c3: real, c4: real)
    requires c0 == line.intercept * line.intercept && c1 == line.slope * line.slope
    requires c2 == -2.0 * line.intercept && c3 == -2.0 * line.slope && c4 == 2.0 * (line.intercept * line.slope)
    requires |xs| == |ys|
    ensures SquaredError(line, xs, ys)
         == Inner(ys, ys) + c0 * |xs| as real + c1 * Inner(xs, xs) + c2 * Total(ys) + c3 * Inner(xs, ys)
         + c4 * Total(xs)
  {
    hide SumTo;
    forall i | 0 <= i < |xs|
      ensures SquaredResiduals(line, xs, ys)(i)
           == Products(ys, ys)(i) + c0 + c1 * Products(xs, xs)(i) + c2 * Elements(ys)(i)
              + c3 * Products(xs, ys)(i) + c4 * Elements(xs)(i)
    {
      SquaredResidualsExpand(line, xs, ys, i, c0, c1, c2, c3, c4);
    }
    SumCombination(SquaredResiduals(line, xs, ys), Products(ys, ys), c0, c1, Products(xs, xs), c2, Elements(ys),
                   c3, Products(xs, ys), c4, Elements(xs), |xs|);
  }

  // ----- The determinant -----

  predicate Constant(s: seq<real>) {
    forall i, j :: 0 <= i < |s| && 0 <= j < |s| ==> s[i] == s[j]
  }

  lemma SpreadAboutTheMean(n: real, sx: real, sxx: real, m: real, c0: real, sse: real, det: real)
    requires m * n == sx && c0 == m * m && sse == sxx + c0 * n - 2.0 * (m * sx)
    requires det == Scaled(n, sxx, sx, sx)
    ensures n * sse == det
  {
    assert c0 * n == m * sx;
    assert n * (m * sx) == sx * sx;
  }

  lemma SpreadIsDeterminant(xs: seq<real>, flat: Line)
    requires |xs| > 0 && flat == Line(Mean(xs), 0.0)
    ensures |xs| as real * SquaredError(flat, xs, xs) == Determinant(xs)
  {
    var n, sx, m := |xs| as real, Total(xs), Mean(xs);
    assert m * n == sx;
    SquaredErrorExpands(flat, xs, xs, m * m, 0.0, -2.0 * m, 0.0, 0.0);
    assert -2.0 * m * sx == -2.0 * (m * sx);
    SpreadAboutTheMean(n, sx, Inner(xs, xs), m, m * m, SquaredError(flat, xs, xs), Determinant(xs));
  }

  lemma FlatResidual(xs: seq<real>, m: real, i: nat)
    requires i < |xs|
    ensures SquaredResiduals(Line(m, 0.0), xs, xs)(i) == 0.0 <==> xs[i] == m
  {
    assert Residual(Line(m, 0.0), xs[i], xs[i]) == xs[i] - m;
    var r := Square(xs[i] - m);
  }

  lemma NoSpreadMeansConstant(xs: seq<real>, m: real)
    requires |xs| > 0 && m == Mean(xs)
    ensures SquaredError(Line(m, 0.0), xs, xs) == 0.0 <==> Constant(xs)
  {
    var squares := SquaredResiduals(Line(m, 0.0), xs, xs);
    forall i | 0 <= i < |xs| ensures squares(i) >= 0.0 && (squares(i) == 0.0 <==> xs[i] == m) {
      FlatResidual(xs, m, i);
    }
    SumNonNegative(squares, |xs|);
    if Constant(xs) {
      MeanOfConstant(xs, m);
    }
  }

  lemma MeanOfConstant(xs: seq<real>, m: real)
    requires |xs| > 0 && m == Mean(xs) && Constant(xs)
    ensures forall i :: 0 <= i < |xs| ==> xs[i] == m
  {
    SumConstant(Elements(xs), xs[0], |xs|);
    ConstantMean(xs[0], |xs| as real, m);
  }

  lemma ConstantMean(x: real, n: real, m: real)
    requires n > 0.0 && m == x * n / n
    ensures m == x
  {
  }

  /** n times the spread about the mean: never negative, and zero only for constant x. */
  lemma DeterminantSign(xs: seq<real>)
    ensures Determinant(xs) >= 0.0
    ensures Determinant(xs) == 0.0 <==> Constant(xs)
  {
    if |xs| > 0 {
      var flat := Line(Mean(xs), 0.0);
      SpreadIsDeterminant(xs, flat);
      SumNonNegative(SquaredResiduals(flat, xs, xs), |xs|);
      NonNegativeMultiple(|xs| as real, SquaredError(flat, xs, xs), Determinant(xs));
      NoSpreadMeansConstant(xs, Mean(xs));
    }
  }

  lemma NonNegativeMultiple(n: real, x: real, r: real)
    requires n > 0.0 && x >= 0.0 && n * x == r
    ensures r >= 0.0 && (r == 0.0 <==> x == 0.0)
  {
    if x > 0.0 {
      SameSignProduct(n, x, r);
    }
  }

  // ----- When the fit minimises the squared error -----

  ghost predicate Minimises(line: Line, xs: seq<real>, ys: seq<real>) {
    forall other: Line :: SquaredError(line, xs, ys) <= SquaredError(other, xs, ys)
  }

  /** The moments of a data set, as the fit reads them. */
  datatype Moments = Moments(n: real, sx: real, sy: real, sxx: real, sxy: real, syy: real)

  function MomentsOf(xs: seq<real>, ys: seq<real>): Moments {
    Moments(|xs| as real, Total(xs), Total(ys), Inner(xs, xs), Inner(xs, ys), Inner(ys, ys))
  }

  /** The squared error of the line a + b x on data with these moments. */
  function QuadraticError(a: real, b: real, m: Moments): real {
    m.syy + a * a * m.n + b * b * m.sxx + -2.0 * a * m.sy + -2.0 * b * m.sxy + 2.0 * (a * b) * m.sx
  }

  /** The two first-order conditions. */
  predicate Normal(line: Line, m: Moments) {
    line.intercept * m.n + line.slope * m.sx == m.sy && line.intercept * m.sx + line.slope * m.sxx == m.sxy
  }

  lemma ErrorIsQuadratic(line: Line, xs: seq<real>, ys: seq<real>, m: Moments)
    requires |xs| == |ys| && m == MomentsOf(xs, ys)
    ensures SquaredError(line, xs, ys) == QuadraticError(line.intercept, line.slope, m)
  {
    hide SumTo, Inner, Total, SquaredError;
    var a, b := line.intercept, line.slope;
    SquaredErrorExpands(line, xs, ys, a * a, b * b, -2.0 * a, -2.0 * b, 2.0 * (a * b));
  }

  /** How far another line's error lies above one that meets the first-order conditions. */
  lemma ErrorGap(best: Line, other: Line, xs: seq<real>, ys: seq<real>, gap: real, u: real, v: real, p: real)
    requires |xs| == |ys| && Normal(best, MomentsOf(xs, ys))
    requires gap == SquaredError(other, xs, ys) - SquaredError(best, xs, ys)
    requires u == other.intercept - best.intercept && v == other.slope - best.slope
    requires p == u * |xs| as real + v * Total(xs)
    ensures |xs| as real * gap == Square(p) + Square(v) * Determinant(xs)
  {
    hide *;
    var m := MomentsOf(xs, ys);
    MomentsAre(xs, ys, m);
    ErrorIsQuadratic(best, xs, ys, m);
    ErrorIsQuadratic(other, xs, ys, m);
    GapInMoments(best, other, m, gap, u, v, p);
  }

  lemma MomentsAre(xs: seq<real>, ys: seq<real>, m: Moments)
    requires m == MomentsOf(xs, ys)
    ensures m.n == |xs| as real && m.sx == Total(xs) && Scaled(m.n, m.sxx, m.sx, m.sx) == Determinant(xs)
  {
  }

  lemma GapInMoments(best: Line, other: Line, m: Moments, gap: real, u: real, v: real, p: real)
    requires Normal(best, m) && u == other.intercept - best.intercept && v == other.slope - best.slope
    requires gap == QuadraticError(other.intercept, other.slope, m) - QuadraticError(best.intercept, best.slope, m)
    requires p == u * m.n + v * m.sx
    ensures m.n * gap == Square(p) + Square(v) * Scaled(m.n, m.sxx, m.sx, m.sx)
  {
    GapQuadratic(best, other, m, gap, u, v);
    CompleteTheSquare(m.n, m.sx, m.sxx, u, v, gap, u * m.n, v * m.sx, p);
  }

  lemma GapQuadratic(best: Line, other: Line, m: Moments, gap: real, u: real, v: real)
    requires Normal(best, m) && u == other.intercept - best.intercept && v == other.slope - best.slope
    requires gap == QuadraticError(other.intercept, other.slope, m) - QuadraticError(best.intercept, best.slope, m)
    ensures gap == u * u * m.n + 2.0 * (u * v) * m.sx + v * v * m.sxx
  {
  }

  lemma CompleteTheSquare(n: real, sx: real, sxx: real, u: real, v: real, gap: real, un: real, vs: real, p: real)
    requires gap == u * u * n + 2.0 * (u * v) * sx + v * v * sxx
    requires un == u * n && vs == v * sx && p == un + vs
    ensures n * gap == Square(p) + Square(v) * Scaled(n, sxx, sx, sx)
  {
    var vv := v * v;
    assert n * gap == un * un + 2.0 * (un * vs) + vv * (n * sxx);
    assert p * p == un * un + 2.0 * (un * vs) + vs * vs;
    assert vs * vs == vv * (sx * sx);
    Distribute(Scaled(n, sxx, sx, sx), n * sxx, -(sx * sx), vv);
  }

  lemma SolveIsNormal(n: nat, m: Moments, cov: real, det: real)
    requires n > 0 && det != 0.0 && m.n == n as real
    requires cov == Scaled(m.n, m.sxy, m.sx, m.sy) && det == Scaled(m.n, m.sxx, m.sx, m.sx)
    ensures Normal(Solve(n, m.sx, m.sy, cov, det), m)
  {
    var line := Solve(n, m.sx, m.sy, cov, det);
    var a, b := line.intercept, line.slope;
    assert b * det == cov;
    assert a * m.n == m.sy - b * m.sx;
    assert m.n * (a * m.sx + b * m.sxx) == (m.sy - b * m.sx) * m.sx + b * (m.n * m.sxx);
    assert m.n * (a * m.sx + b * m.sxx) == m.n * m.sxy;
  }

  /** The flat fallback meets the first-order conditions exactly when x and y are uncorrelated. */
  lemma FlatIsNormal(n: nat, m: Moments)
    requires n > 0 && m.n == n as real
    ensures Normal(Line(m.sy / n as real, 0.0), m) <==> Scaled(m.n, m.sxy, m.sx, m.sy) == 0.0
  {
    var a := m.sy / n as real;
    assert a * m.n == m.sy;
    assert m.n * (a * m.sx) == m.sy * m.sx;
  }

  lemma ConstantIsUncorrelated(xs: seq<real>, ys: seq<real>)
    requires |xs| == |ys| && Constant(xs)
    ensures Covariance(xs, ys) == 0.0
  {
    if |xs| > 0 {
      var x, n := xs[0], |xs|;
      SumConstant(Elements(xs), x, n);
      var z := (i: int) => 0.0;
      forall i | 0 <= i < n ensures Products(xs, ys)(i) == x * Elements(ys)(i) + 0.0 * z(i) {
      }
      SumLinear(Products(xs, ys), x, Elements(ys), 0.0, z, n);
      ConstantCovariance(n as real, x, Total(ys), Inner(xs, ys), Total(xs));
    }
  }

  lemma ConstantCovariance(n: real, x: real, sy: real, sxy: real, sx: real)
    requires sxy == x * sy && sx == x * n
    ensures Scaled(n, sxy, sx, sy) == 0.0
  {
  }

  /** The tiny determinants for which the source declines to divide. */
  predicate InFallbackBand(xs: seq<real>) {
    0.0 < Determinant(xs) < FALLBACK_BAND
  }

  lemma NormalIsNoWorse(line: Line, other: Line, xs: seq<real>, ys: seq<real>)
    requires |xs| == |ys| > 0
    requires Normal(line, MomentsOf(xs, ys))
    ensures SquaredError(line, xs, ys) <= SquaredError(other, xs, ys)
  {
    hide SumTo, SquaredError, Normal;
    var gap := SquaredError(other, xs, ys) - SquaredError(line, xs, ys);
    var u, v := other.intercept - line.intercept, other.slope - line.slope;
    var p := u * |xs| as real + v * Total(xs);
    DeterminantSign(xs);
    ErrorGap(line, other, xs, ys, gap, u, v, p);
    GapSign(|xs| as real, gap, v, p, Determinant(xs));
  }

  lemma NormalMinimises(line: Line, xs: seq<real>, ys: seq<real>)
    requires |xs| == |ys| > 0
    requires Normal(line, MomentsOf(xs, ys))
    ensures Minimises(line, xs, ys)
  {
    hide SumTo, SquaredError, Normal;
    forall other: Line ensures SquaredError(line, xs, ys) <= SquaredError(other, xs, ys) {
      NormalIsNoWorse(line, other, xs, ys);
    }
  }

  lemma GapSign(n: real, gap: real, v: real, p: real, det: real)
    requires n > 0.0 && det >= 0.0 && n * gap == Square(p) + Square(v) * det
    ensures gap >= 0.0
    ensures v != 0.0 && det > 0.0 ==> gap > 0.0
  {
    var vv, q := Square(v), Square(v) * det;
    assert q >= 0.0;
    if v != 0.0 && det > 0.0 {
      SameSignProduct(vv, det, q);
    }
  }

  /**
   * The fit is a least-squares line unless the determinant is positive but inside the fallback band
   * while x and y are correlated; then the discarded closed form does strictly better.
   */
  lemma FitMinimises(xs: seq<real>, ys: seq<real>)
    requires |xs| == |ys| > 0
    ensures Minimises(Fit(xs, ys), xs, ys) <==> !InFallbackBand(xs) || Covariance(xs, ys) == 0.0
  {
    var n, sx, sy := |xs|, Total(xs), Total(ys);
    var det, cov, line := Determinant(xs), Covariance(xs, ys), Fit(xs, ys);
    DeterminantSign(xs);
    if n >= 2 && det >= FALLBACK_BAND {
      SolveIsNormal(n, MomentsOf(xs, ys), cov, det);
      NormalMinimises(line, xs, ys);
    } else {
      if det == 0.0 {
        ConstantIsUncorrelated(xs, ys);
      }
      FlatIsNormal(n, MomentsOf(xs, ys));
      if cov == 0.0 {
        NormalMinimises(line, xs, ys);
      } else {
        ClosedFormBeatsFlat(xs, ys);
      }
    }
  }

  /** Two forecasts a ten-millionth of a degree apart: the flat fit misses both truths that a line would meet. */
  lemma FallbackBandLosesTheLine(xs: seq<real>, ys: seq<real>)
    requires xs == [0.0, 0.0000001] && ys == [0.0, 1.0]
    ensures InFallbackBand(xs) && Covariance(xs, ys) != 0.0
    ensures Fit(xs, ys) == Line(0.5, 0.0) && !Minimises(Fit(xs, ys), xs, ys)
  {
    TwoMoments(xs, ys);
    FitMinimises(xs, ys);
  }

  lemma TwoMoments(xs: seq<real>, ys: seq<real>)
    requires |xs| == |ys| == 2
    ensures Total(xs) == xs[0] + xs[1] && Total(ys) == ys[0] + ys[1]
    ensures Inner(xs, ys) == xs[0] * ys[0] + xs[1] * ys[1] && Inner(xs, xs) == xs[0] * xs[0] + xs[1] * xs[1]
  {
  }

  lemma ClosedFormBeatsFlat(xs: seq<real>, ys: seq<real>)
    requires |xs| == |ys| > 0 && Determinant(xs) > 0.0 && Covariance(xs, ys) != 0.0
    ensures !Minimises(Line(Total(ys) / |ys| as real, 0.0), xs, ys)
  {
    hide SumTo, SquaredError;
    var n, sx, sy := |xs|, Total(xs), Total(ys);
    var det, cov := Determinant(xs), Covariance(xs, ys);
    var flat, best := Line(sy / n as real, 0.0), Solve(n, sx, sy, cov, det);
    SolveIsNormal(n, MomentsOf(xs, ys), cov, det);
    var gap := SquaredError(flat, xs, ys) - SquaredError(best, xs, ys);
    var u, v := flat.intercept - best.intercept, flat.slope - best.slope;
    var p := u * n as real + v * sx;
    ErrorGap(best, flat, xs, ys, gap, u, v, p);
    assert best.slope * det == cov;
    assert best.slope != 0.0;
    GapSign(n as real, gap, v, p, det);
  }

  /** Fewer than two points, or a determinant inside the band, give a flat line; else the slope is the quotient. */
  lemma SlopeIs(xs: seq<real>, ys: seq<real>, line: Line)
    requires |xs| == |ys| && line == Fit(xs, ys)
    ensures if |xs| < 2 || -0.000000000001 < Determinant(xs) < 0.000000000001 then line.slope == 0.0
            else line.slope * Determinant(xs) == Covariance(xs, ys)
    ensures xs == [] ==> line.intercept == 0.0
  {
    hide Determinant, Covariance, Total, Mean;
  }

  lemma FitPassesThroughTheMeans(xs: seq<real>, ys: seq<real>, line: Line)
    requires |xs| == |ys| > 0 && line == Fit(xs, ys)
    ensures line.intercept * |xs| as real == Total(ys) - line.slope * Total(xs)
  {
    var n, sy := |xs| as real, Total(ys);
    if line.slope == 0.0 && line.intercept == sy / n {
      assert sy / n * n == sy;
    } else {
      var rise := sy - line.slope * Total(xs);
      assert line.intercept == rise / n;
      assert rise / n * n == rise;
    }
  }

  /** In every branch, the degenerate ones included, the training residuals cancel. */
  lemma FitResidualsCancel(xs: seq<real>, ys: seq<real>, line: Line)
    requires |xs| == |ys| && line == Fit(xs, ys)
    ensures SumTo(Residuals(line, xs, ys), |xs|) == 0.0
  {
    hide *;
    if |xs| > 0 {
      ResidualSum(line, xs, ys, |xs|, line.intercept, line.slope);
      FitPassesThroughTheMeans(xs, ys, line);
      TotalIsSum(xs);
      TotalIsSum(ys);
    } else {
      EmptySum(Residuals(line, xs, ys));
    }
  }

  lemma TotalIsSum(s: seq<real>)
    ensures Total(s) == SumTo(Elements(s), |s|)
  {
  }

  lemma EmptySum(f: int -> real)
    ensures SumTo(f, 0) == 0.0
  {
  }

  // ----- Translating the data -----

  predicate Translated(s: seq<real>, t: seq<real>, c: real) {
    |s| == |t| && forall i :: 0 <= i < |s| ==> t[i] == s[i] + c
  }

  lemma TranslatedTotal(s: seq<real>, t: seq<real>, c: real)
    requires Translated(s, t, c)
    ensures Total(t) == Total(s) + c * |s| as real
  {
    var one := (i: int) => 1.0;
    SumConstant(one, 1.0, |s|);
    SumLinear(Elements(t), 1.0, Elements(s), c, one, |s|);
  }

  lemma TranslatedInner(xs: seq<real>, ys: seq<real>, xs': seq<real>, ys': seq<real>, c: real, d: real, cd: real)
    requires |xs| == |ys| && Translated(xs, xs', c) && Translated(ys, ys', d) && cd == c * d
    ensures Inner(xs', ys') == Inner(xs, ys) + cd * |xs| as real + d * Total(xs) + c * Total(ys)
  {
    var z := (i: int) => 0.0;
    forall i | 0 <= i < |xs|
      ensures Products(xs', ys')(i)
           == Products(xs, ys)(i) + cd + d * Elements(xs)(i) + c * Elements(ys)(i) + 0.0 * z(i) + 0.0 * z(i)
    {
      TranslatedProduct(At(xs, i), At(ys, i), c, d, At(xs', i), At(ys', i));
    }
    SumCombination(Products(xs', ys'), Products(xs, ys), cd, d, Elements(xs), c, Elements(ys), 0.0, z, 0.0, z, |xs|);
  }

  lemma TranslatedMoments(xs: seq<real>, ys: seq<real>, xs': seq<real>, ys': seq<real>, c: real, d: real,
                          m: Moments, m': Moments)
    requires |xs| == |ys| && Translated(xs, xs', c) && Translated(ys, ys', d)
    requires m == MomentsOf(xs, ys) && m' == MomentsOf(xs', ys')
    ensures m'.n == m.n && m'.sx == m.sx + c * m.n && m'.sy == m.sy + d * m.n
    ensures m'.sxy == m.sxy + (c * d) * m.n + d * m.sx + c * m.sy
  {
    hide SumTo, Inner, Total;
    TranslatedTotal(xs, xs', c);
    TranslatedTotal(ys, ys', d);
    TranslatedInner(xs, ys, xs', ys', c, d, c * d);
  }

  lemma TranslatedCovariance(xs: seq<real>, ys: seq<real>, xs': seq<real>, ys': seq<real>, c: real, d: real)
    requires |xs| == |ys| && Translated(xs, xs', c) && Translated(ys, ys', d)
    ensures Covariance(xs', ys') == Covariance(xs, ys)
  {
    var m, m' := MomentsOf(xs, ys), MomentsOf(xs', ys');
    hide SumTo, Inner, Total;
    TranslatedMoments(xs, ys, xs', ys', c, d, m, m');
    TranslatedScaled(m.n, m.sxy, m.sx, m.sy, c, d, c * d, m'.sxy, m'.sx, m'.sy);
  }

  lemma TranslatedProduct(x: real, y: real, c: real, d: real, x': real, y': real)
    requires x' == x + c && y' == y + d
    ensures x' * y' == x * y + c * d + d * x + c * y
  {
  }

  lemma TranslatedScaled(n: real, s: real, tx: real, ty: real, c: real, d: real, cd: real, s': real, tx': real,
          ty': real)
    requires s' == s + cd * n + d * tx + c * ty && cd == c * d && tx' == tx + c * n && ty' == ty + d * n
    ensures Scaled(n, s', tx', ty') == Scaled(n, s, tx, ty)
  {
  }

  /** Translating x by c and y by d keeps the slope and carries the line along with the data. */
  lemma FitTranslates(xs: seq<real>, ys: seq<real>, xs': seq<real>, ys': seq<real>, c: real, d: real, b: real)
    requires |xs| == |ys| > 0 && Translated(xs, xs', c) && Translated(ys, ys', d)
    requires b == Fit(xs, ys).slope
    ensures Fit(xs', ys').slope == b
    ensures Fit(xs', ys').intercept == Fit(xs, ys).intercept + d - b * c
  {
    hide SumTo, Inner, Total, Covariance;
    TranslatedCovariance(xs, ys, xs', ys', c, d);
    TranslatedCovariance(xs, xs, xs', xs', c, c);
    assert Fit(xs', ys').slope == b;
    var a, a', n := Fit(xs, ys).intercept, Fit(xs', ys').intercept, |xs| as real;
    FitPassesThroughTheMeans(xs, ys, Fit(xs, ys));
    FitPassesThroughTheMeans(xs', ys', Fit(xs', ys'));
    TranslatedTotal(xs, xs', c);
    TranslatedTotal(ys, ys', d);
    TranslatedIntercept(n, Total(xs), Total(ys), c, d, b, a, a', Total(xs'), Total(ys'));
  }

  lemma TranslatedIntercept(n: real, sx: real, sy: real, c: real, d: real, b: real, a: real, a': real, sx': real,
          sy': real)
    requires n > 0.0 && sx' == sx + c * n && sy' == sy + d * n
    requires a * n == sy - b * sx && a' * n == sy' - b * sx'
    ensures a' == a + d - b * c
  {
    var e := a' - (a + d - b * c);
    assert e * n == 0.0;
    NonZeroFactor(e, n);
  }

  lemma NonZeroFactor(e: real, n: real)
    requires n > 0.0 && e * n == 0.0
    ensures e == 0.0
  {
    assert e == e * n / n;
  }
}
