/**
 * What member offsets do to the whole forecast, variance included (forecaster/postproc_models.py): an offset on a
 * target member without a learned bias moves the debiased spread, whatever the mean does.
 */
module EmosVariance {
  import opened Wrappers
  import opened RealSums
  import opened LeastSquares
  import opened Emos
  import opened EmosOffsets

  // ----- The spread when one member moves -----

  function Spike(n: nat, j: nat, c: real): (es: seq<real>)
    ensures |es| == n && forall i :: 0 <= i < n ==> es[i] == if i == j then c else 0.0
  {
    seq(n, i => if i == j then c else 0.0)
  }

  lemma {:induction false} SpikeSum(es: seq<real>, j: nat, c: real, n: nat)
    requires n <= |es| && forall i :: 0 <= i < |es| ==> es[i] == if i == j then c else 0.0
    ensures SumTo(Elements(es), n) == if j < n then c else 0.0
  {
    if n > 0 {
      SpikeSum(es, j, c, n - 1);
    }
  }

  lemma TotalMoves(xs: seq<real>, xs': seq<real>, j: nat, o: real)
    requires j < |xs| && xs' == xs[j := xs[j] + o]
    ensures Total(xs') == Total(xs) + o
  {
    hide SumTo;
    var es := Spike(|xs|, j, o);
    SumAdd(Elements(xs'), Elements(xs), Elements(es), |xs|);
    SpikeSum(es, j, o, |xs|);
  }

  lemma SquaresMove(xs: seq<real>, xs': seq<real>, j: nat, o: real, r: real)
    requires j < |xs| && xs' == xs[j := xs[j] + o] && r == 2.0 * (o * xs[j]) + o * o
    ensures Inner(xs', xs') == Inner(xs, xs) + r
  {
    hide SumTo;
    var es := Spike(|xs|, j, r);
    forall i | 0 <= i < |xs| ensures Products(xs', xs')(i) == Products(xs, xs)(i) + Elements(es)(i) {
      if i == j {
        SquareMoves(xs[j], o, r);
      }
    }
    SumAdd(Products(xs', xs'), Products(xs, xs), Elements(es), |xs|);
    SpikeSum(es, j, r, |xs|);
  }

  lemma SquareMoves(x: real, o: real, r: real)
    requires r == 2.0 * (o * x) + o * o
    ensures (x + o) * (x + o) == x * x + r
  {
  }

  lemma ScaledMoves(n: real, sxx: real, sx: real, x: real, o: real, oo: real, ok: real)
    requires oo == o * o && ok == o * (n * x - sx)
    ensures Scaled(n, sxx + 2.0 * (o * x) + oo, sx + o, sx + o) == Scaled(n, sxx, sx, sx) + 2.0 * ok + (n - 1.0) * oo
  {
    assert n * (sxx + 2.0 * (o * x) + oo) == n * sxx + 2.0 * (o * (n * x)) + n * oo;
    assert (sx + o) * (sx + o) == sx * sx + 2.0 * (o * sx) + oo;
    assert o * (n * x - sx) == o * (n * x) - o * sx;
  }

  /** How far the determinant moves when one value does. */
  lemma DeterminantMoves(xs: seq<real>, xs': seq<real>, j: nat, o: real, oo: real, ok: real)
    requires j < |xs| && xs' == xs[j := xs[j] + o] && oo == o * o && ok == o * (|xs| as real * xs[j] - Total(xs))
    ensures Determinant(xs') == Determinant(xs) + 2.0 * ok + (|xs| as real - 1.0) * oo
  {
    hide SumTo, Total, Inner;
    TotalMoves(xs, xs', j, o);
    SquaresMove(xs, xs', j, o, 2.0 * (o * xs[j]) + oo);
    ScaledMoves(|xs| as real, Inner(xs, xs), Total(xs), xs[j], o, oo, ok);
  }

  lemma VarianceIsDeterminant(xs: seq<real>, n: real, m: real, u: real)
    requires |xs| >= 2 && n == |xs| as real && m == n - 1.0 && u == m * SampleVariance(xs)
    ensures n * u == Determinant(xs)
  {
    hide SumTo, SquaredError, Determinant;
    SpreadIsDeterminant(xs, Line(Mean(xs), 0.0));
    TimesItsDivisor(SquaredError(Line(Mean(xs), 0.0), xs, xs), m);
  }

  lemma TimesItsDivisor(x: real, n: real)
    requires n > 0.0
    ensures n * (x / n) == x
  {
  }

  /** Moving one value away from the mean by o raises n times the variance by at least o squared. */
  lemma VarianceRises(xs: seq<real>, xs': seq<real>, j: nat, o: real, oo: real, ok: real)
    requires |xs| >= 2 && j < |xs| && xs' == xs[j := xs[j] + o] && oo == o * o
    requires ok == o * (|xs| as real * xs[j] - Total(xs)) && ok >= 0.0
    ensures |xs| as real * (SampleVariance(xs') - SampleVariance(xs)) >= oo
  {
    hide *;
    DeterminantMoves(xs, xs', j, o, oo, ok);
    VarianceFollowsDeterminant(xs, xs', oo, (|xs| as real - 1.0) * oo, 2.0 * ok);
  }

  lemma VarianceFollowsDeterminant(xs: seq<real>, xs': seq<real>, oo: real, moo: real, extra: real)
    requires |xs| == |xs'| >= 2 && moo == (|xs| as real - 1.0) * oo && extra >= 0.0
    requires Determinant(xs') == Determinant(xs) + extra + moo
    ensures |xs| as real * (SampleVariance(xs') - SampleVariance(xs)) >= oo
  {
    hide *;
    var n, m := |xs| as real, |xs| as real - 1.0;
    var v, v' := SampleVariance(xs), SampleVariance(xs');
    var u, u' := m * v, m * v';
    VarianceIsDeterminant(xs, n, m, u);
    VarianceIsDeterminant(xs', n, m, u');
    DivideOut(n, m, v, v', u, u', oo, moo, Determinant(xs), Determinant(xs'), extra);
  }

  lemma DivideOut(n: real, m: real, v: real, v': real, u: real, u': real, oo: real, moo: real, det: real, det': real,
          extra: real)
    requires m > 0.0 && extra >= 0.0 && u == m * v && u' == m * v' && moo == m * oo
    requires n * u == det && n * u' == det' && det' == det + extra + moo
    ensures n * (v' - v) >= oo
  {
    var w := n * (v' - v);
    MultiplyThrough(n, m, v, v', u, u', w, m * w, det, det');
    Cancel(m, w, oo);
  }

  lemma MultiplyThrough(n: real, m: real, v: real, v': real, u: real, u': real, w: real, mw: real, det: real,
          det': real)
    requires u == m * v && u' == m * v' && w == n * (v' - v) && mw == m * w && n * u == det && n * u' == det'
    ensures mw == det' - det
  {
    assert mw == n * (m * v') - n * (m * v);
  }

  lemma Cancel(m: real, w: real, oo: real)
    requires m > 0.0 && m * w >= m * oo
    ensures w >= oo
  {
  }

  // ----- The forecast's variance -----

  /** A day's forecasts are a dictionary: no model twice. */
  predicate DistinctModels(day: Day) {
    forall i, j :: 0 <= i < j < |day| ==> day[i].model != day[j].model
  }

  lemma DebiasedMoves(day: Day, biases: map<string, real>, biases': map<string, real>, j: nat, o: real)
    requires j < |day| && DistinctModels(day) && day[j].model !in biases
    requires Absorbed(biases, biases', PerModel(map[day[j].model := o]), 0.0)
    ensures Debiased(ShiftDay(day, PerModel(map[day[j].model := o])), biases')
      == Debiased(day, biases)[j := Debiased(day, biases)[j] + o]
  {
  }

  /** An offset this far from zero passes both the variance floor and the old variance. */
  function Reach(n: real, gap: real, d: real): (r: real)
    requires d > 0.0
    ensures r >= 1.0 && r >= n * (gap + 1.0) / d
  {
    if n * (gap + 1.0) / d > 1.0 then n * (gap + 1.0) / d else 1.0
  }

  lemma FarEnough(n: real, gap: real, d: real, r: real, oo: real, rise: real)
    requires n >= 2.0 && gap >= 0.0 && d > 0.0 && r == Reach(n, gap, d) && oo == r * r && n * rise >= oo
    ensures d * rise > gap
  {
    var q := n * (gap + 1.0) / d;
    assert q * d == n * (gap + 1.0);
    AtLeastItself(r, oo);
    ProductOrder(oo, q, d);
    ProductOrder(n * rise, oo, d);
    assert n * rise * d == n * (d * rise);
    Cancel(n, d * rise, gap + 1.0);
  }

  lemma AtLeastItself(r: real, oo: real)
    requires r >= 1.0 && oo == r * r
    ensures oo >= r
  {
  }

  lemma ProductOrder(x: real, y: real, factor: real)
    requires x >= y && factor >= 0.0
    ensures x * factor >= y * factor
  {
  }

  function RawVariance(p: Params, day: Day): real {
    p.varC + p.varD * SampleVariance(Debiased(day, p.biases))
  }

  lemma ApplyVariance(p: Params, day: Day)
    requires |day| > 0
    ensures Apply(p, day).variance >= RawVariance(p, day)
  {
    hide WeightedMean, SampleVariance, Debiased;
  }

  lemma OppositeSquare(r: real, o: real, k: real)
    requires o == r || o == -r
    ensures o * o == r * r
    ensures r >= 0.0 && o == (if k >= 0.0 then r else -r) ==> o * k >= 0.0
  {
  }

  lemma RawVarianceGrows(c: real, d: real, v: real, v': real, gap: real)
    requires d * (v' - v) > gap
    ensures c + d * v' > c + d * v + gap
  {
    assert d * (v' - v) == d * v' - d * v;
  }

  /**
   * Whatever the mean does, one untrained target member with an offset large enough raises the variance, provided the
   * variance line has a slope and the day has a spread at all.
   */
  lemma UnlearnedOffsetLeaksIntoVariance(history: History, mode: WeightMode, day: Day, p: Params, j: nat)
    returns (o: real)
    requires NonEmptyDays(history) && FitEmos(history, mode) == Some(p)
    requires j < |day| && |day| >= 2 && DistinctModels(day) && day[j].model !in p.biases && p.varD != 0.0
    ensures ShiftedForecast(history, mode, PerModel(map[day[j].model := o]), 0.0, day).variance > Apply(p, day).variance
  {
    hide *;
    VarianceSlopeSign(history, mode, p);
    var xs, n := Debiased(day, p.biases), |day| as real;
    var k := n * xs[j] - Total(xs);
    ApplyVariance(p, day);
    var gap := Apply(p, day).variance - RawVariance(p, day);
    var r := Reach(n, gap, p.varD);
    o := if k >= 0.0 then r else -r;
    OppositeSquare(r, o, k);
    var off := PerModel(map[day[j].model := o]);
    FitFollowsTheTruths(history, mode, off, 0.0, p);
    var p' := FitEmos(Shift(history, off, 0.0), mode).value;
    DebiasedMoves(day, p.biases, p'.biases, j, o);
    var xs' := xs[j := xs[j] + o];
    VarianceRises(xs, xs', j, o, r * r, o * k);
    FarEnough(n, gap, p.varD, r, r * r, SampleVariance(xs') - SampleVariance(xs));
    ApplyVariance(p', ShiftDay(day, off));
    RawVarianceGrows(p.varC, p.varD, SampleVariance(xs), SampleVariance(xs'), gap);
    RawVarianceIs(p, day);
    RawVarianceIs(p', ShiftDay(day, off));
    ShiftedIs(history, mode, off, day);
  }

  lemma RawVarianceIs(p: Params, day: Day)
    ensures RawVariance(p, day) == p.varC + p.varD * SampleVariance(Debiased(day, p.biases))
  {
  }

  lemma ShiftedIs(history: History, mode: WeightMode, off: Offsets, day: Day)
    requires NonEmptyDays(history) && FitEmos(history, mode).Some? && |day| > 0
    ensures NonEmptyDays(Shift(history, off, 0.0)) && FitEmos(Shift(history, off, 0.0), mode).Some?
    ensures ShiftedForecast(history, mode, off, 0.0, day)
      == Apply(FitEmos(Shift(history, off, 0.0), mode).value, ShiftDay(day, off))
  {
    hide FitEmos, Apply;
    FitFollowsTheTruths(history, mode, off, 0.0, FitEmos(history, mode).value);
  }

  lemma VarianceSlopeSign(history: History, mode: WeightMode, p: Params)
    requires NonEmptyDays(history) && FitEmos(history, mode) == Some(p)
    ensures p.varD >= 0.0
  {
    hide *;
    FitIsCalibrated(history, mode, p);
  }

  // ----- The exact condition -----

  predicate AllLearned(day: Day, biases: map<string, real>) {
    forall i :: 0 <= i < |day| ==> day[i].model in biases
  }

  /** Neither the mean nor the variance can respond to an untrained member. */
  predicate Unresponsive(p: Params, day: Day) {
    p.muB == 0.0 && (p.varD == 0.0 || |day| < 2)
  }

  lemma UnresponsiveForecastStays(history: History, mode: WeightMode, table: map<string, real>, day: Day, p: Params)
    requires NonEmptyDays(history) && |day| > 0 && FitEmos(history, mode) == Some(p) && Unresponsive(p, day)
    ensures ShiftedForecast(history, mode, PerModel(table), 0.0, day) == Apply(p, day)
  {
    hide FitEmos, WeightedMean, Debiased;
    var off := PerModel(table);
    FitFollowsTheTruths(history, mode, off, 0.0, p);
    var p' := FitEmos(Shift(history, off, 0.0), mode).value;
    ForecastResponds(history, mode, off, 0.0, day, p, p');
    ShiftedIs(history, mode, off, day);
  }

  lemma LearnedForecastStays(history: History, mode: WeightMode, table: map<string, real>, day: Day, p: Params)
    requires NonEmptyDays(history) && |day| > 0 && FitEmos(history, mode) == Some(p) && AllLearned(day, p.biases)
    ensures ShiftedForecast(history, mode, PerModel(table), 0.0, day) == Apply(p, day)
  {
    hide FitEmos, Apply;
    var off := PerModel(table);
    FitFollowsTheTruths(history, mode, off, 0.0, p);
    CoveredForecastFollowsTheTruths(history, mode, off, 0.0, day, p, FitEmos(Shift(history, off, 0.0), mode).value);
    ShiftedIs(history, mode, off, day);
  }

  /**
   * Exactly when the forecast, mean and variance together, ignores every table of member offsets: every target model
   * was trained on, or the mean line is flat and the variance has no slope or no spread to respond to.
   */
  lemma ForecastIgnoresOffsetsExactlyWhen(history: History, mode: WeightMode, day: Day, p: Params)
    requires NonEmptyDays(history) && |day| > 0 && DistinctModels(day) && FitEmos(history, mode) == Some(p)
    ensures (forall table :: ShiftedForecast(history, mode, PerModel(table), 0.0, day) == Apply(p, day))
        <==> AllLearned(day, p.biases) || Unresponsive(p, day)
  {
    hide FitEmos, Apply, ShiftedForecast, DistinctModels;
    if AllLearned(day, p.biases) {
      forall table ensures ShiftedForecast(history, mode, PerModel(table), 0.0, day) == Apply(p, day) {
        LearnedForecastStays(history, mode, table, day, p);
      }
    } else if Unresponsive(p, day) {
      forall table ensures ShiftedForecast(history, mode, PerModel(table), 0.0, day) == Apply(p, day) {
        UnresponsiveForecastStays(history, mode, table, day, p);
      }
    } else {
      var j :| 0 <= j < |day| && day[j].model !in p.biases;
      if p.muB != 0.0 {
        UnlearnedOffsetLeaks(history, mode, day, p, j);
      } else {
        var o := UnlearnedOffsetLeaksIntoVariance(history, mode, day, p, j);
      }
    }
  }
}
