/**
 * The trailing recalibration of a served forecast (forecaster/emos_recalibration.py): a shrunken, soft-thresholded bias
 * and a clipped dispersion factor, estimated from the scored rolling-origin rows of the weeks before the serve. Square
 * roots are parameters that their squares pin down.
 */
module Recalibration {
  import opened Wrappers
  import opened RealSums
  import opened RealOrder
  import opened LeastSquares
  import opened Emos
  import opened Replay

  const TRAILING_WINDOW_DAYS := 45
  const SHRINKAGE_K := 10.0
  const SIGMA_FACTOR_FLOOR := 0.75
  const SIGMA_FACTOR_CEIL := 1.5
  const BIAS_DEADBAND_T := 1.5
  const SERVE_RECAL_BIAS := true
  const SERVE_RECAL_SIGMA := false

  // ----- The window -----

  datatype Version = V1 | V2

  datatype Rolled = Rolled(mu: real, sigma: real)

  /** The rolling-origin rows of one station and lead, one for each version and target date. */
  type Rolling = map<(Version, int), Rolled>

  datatype Scored = Scored(mu: real, sigma: real, truth: real)

  predicate HasVersion(rolling: Rolling, version: Version) {
    exists key :: key in rolling && key.0 == version
  }

  /** Versions are never mixed: the second one alone as soon as it has a row. */
  function PreferredVersion(rolling: Rolling): Option<Version> {
    if HasVersion(rolling, V2) then Some(V2) else if HasVersion(rolling, V1) then Some(V1) else None
  }

  /** The second version wins, the first serves only alone, and without rows there is none. */
  lemma SecondVersionWins(rolling: Rolling)
    ensures var preferred := PreferredVersion(rolling);
            && (preferred == Some(V2) <==> exists key :: key in rolling && key.0 == V2)
            && (preferred == Some(V1) <==>
                  (forall key :: key in rolling ==> key.0 == V1) && exists key :: key in rolling)
            && (preferred == None <==> forall key :: key !in rolling)
  {
  }

  predicate IsScored(rolling: Rolling, truth: Truth, version: Version, date: int) {
    (version, date) in rolling && date in truth
  }

  function ScoredAt(rolling: Rolling, truth: Truth, version: Version, date: int): Scored
    requires IsScored(rolling, truth, version, date)
  {
    Scored(rolling[(version, date)].mu, rolling[(version, date)].sigma, truth[date])
  }

  /** The scored rows among these dates, in their order. */
  function Series(dates: seq<int>, rolling: Rolling, truth: Truth, version: Version): seq<(int, Scored)> {
    if dates == [] then []
    else
      var last, before := dates[|dates| - 1], Series(dates[..|dates| - 1], rolling, truth, version);
      if IsScored(rolling, truth, version, last) then before + [(last, ScoredAt(rolling, truth, version, last))]
      else before
  }

  predicate InWindow(date: int, serveDate: int) {
    serveDate - TRAILING_WINDOW_DAYS <= date <= serveDate - 1
  }

  function WindowOf(series: seq<(int, Scored)>, serveDate: int): (rows: seq<Scored>) {
    if series == [] then []
    else
      var last, before := series[|series| - 1], WindowOf(series[..|series| - 1], serveDate);
      if InWindow(last.0, serveDate) then before + [last.1] else before
  }

  /** What a serve on that date may look at. */
  function Window(dates: seq<int>, rolling: Rolling, truth: Truth, serveDate: int): seq<Scored> {
    match PreferredVersion(rolling)
    case None => []
    case Some(version) => WindowOf(Series(dates, rolling, truth, version), serveDate)
  }

  /** The same rows without any list of dates: day by day, the first n of the window's days. */
  function DayRows(rolling: Rolling, truth: Truth, version: Version, serveDate: int, n: nat): seq<Scored> {
    if n == 0 then []
    else
      var date, before := serveDate - TRAILING_WINDOW_DAYS + (n - 1),
          DayRows(rolling, truth, version, serveDate, n - 1);
      if IsScored(rolling, truth, version, date) then before + [ScoredAt(rolling, truth, version, date)] else before
  }

  lemma WindowStep(dates: seq<int>, rolling: Rolling, truth: Truth, version: Version, serveDate: int)
    requires dates != []
    ensures var k := |dates| - 1;
            WindowOf(Series(dates, rolling, truth, version), serveDate)
            == WindowOf(Series(dates[..k], rolling, truth, version), serveDate)
               + if IsScored(rolling, truth, version, dates[k]) && InWindow(dates[k], serveDate)
                 then [ScoredAt(rolling, truth, version, dates[k])] else []
  {
    var k := |dates| - 1;
    var before, all := Series(dates[..k], rolling, truth, version), Series(dates, rolling, truth, version);
    if |all| > |before| {
      assert all[..|before|] == before;
    }
  }

  /** Listing the archive's dates in order and cutting at the window's ends visits the window's days one by one. */
  lemma {:induction false} WindowIsItsDays(dates: seq<int>, rolling: Rolling, truth: Truth, version: Version,
          serveDate: int, n: nat)
    requires n <= TRAILING_WINDOW_DAYS && StrictlyAscending(dates)
    requires forall d :: d in dates ==> d < serveDate - TRAILING_WINDOW_DAYS + n || d >= serveDate
    requires forall d :: IsScored(rolling, truth, version, d) && 0 <= d - (serveDate - TRAILING_WINDOW_DAYS) < n ==>
      d in dates
    ensures WindowOf(Series(dates, rolling, truth, version), serveDate)
      == DayRows(rolling, truth, version, serveDate, n)
    decreases n + |dates|
  {
    hide IsScored, Series, WindowOf;
    var k, date := |dates| - 1, serveDate - TRAILING_WINDOW_DAYS + (n - 1);
    if dates != [] {
      DropLast(dates);
      assert forall d :: d in dates[..k] ==> d in dates && d < dates[k];
      assert dates[k] in dates;
      WindowStep(dates, rolling, truth, version, serveDate);
    }
    if dates == [] && n == 0 {
      NoSeries(rolling, truth, version, serveDate);
    } else if dates != [] && (n == 0 || dates[k] > date) {
      WindowIsItsDays(dates[..k], rolling, truth, version, serveDate, n);
    } else if dates != [] && dates[k] == date {
      WindowIsItsDays(dates[..k], rolling, truth, version, serveDate, n - 1);
    } else {
      WindowIsItsDays(dates, rolling, truth, version, serveDate, n - 1);
    }
  }

  lemma NoSeries(rolling: Rolling, truth: Truth, version: Version, serveDate: int)
    ensures WindowOf(Series([], rolling, truth, version), serveDate) == []
  {
  }

  /**
   * A row of the window is what its version forecast for one of the 45 days before the serve, with that day's truth.
   */
  lemma {:induction false} DayRowsAreScored(rolling: Rolling, truth: Truth, version: Version, serveDate: int, n: nat,
          row: Scored)
    ensures row in DayRows(rolling, truth, version, serveDate, n) <==>
      exists d :: serveDate - 45 <= d < serveDate - 45 + n && IsRowOf(rolling, truth, version, d, row)
  {
    if n > 0 {
      DayRowsAreScored(rolling, truth, version, serveDate, n - 1, row);
      var d := serveDate - 45 + (n - 1);
      assert IsRowOf(rolling, truth, version, d, row) ==> serveDate - 45 <= d < serveDate - 45 + n;
    }
  }

  predicate IsRowOf(rolling: Rolling, truth: Truth, version: Version, date: int, row: Scored) {
    && (version, date) in rolling && date in truth
    && rolling[(version, date)] == Rolled(row.mu, row.sigma) && truth[date] == row.truth
  }

  /** The dates are those of the archive's rows, in order. */
  ghost predicate DatesOf(dates: seq<int>, rolling: Rolling) {
    StrictlyAscending(dates) && forall key :: key in rolling ==> key.1 in dates
  }

  /** Two archives and truths that agree on every date before the serve, and prefer the same version. */
  ghost predicate AgreeBefore(serveDate: int, rolling: Rolling, truth: Truth, rolling': Rolling, truth': Truth) {
    && PreferredVersion(rolling) == PreferredVersion(rolling')
    && (forall d :: d < serveDate ==> (d in truth <==> d in truth') && (d in truth ==> truth[d] == truth'[d]))
    && (forall version, d :: d < serveDate ==>
          && ((version, d) in rolling <==> (version, d) in rolling')
          && ((version, d) in rolling ==> rolling[(version, d)] == rolling'[(version, d)]))
  }

  lemma {:induction false} DaysAgree(rolling: Rolling, truth: Truth, rolling': Rolling, truth': Truth,
          version: Version, serveDate: int, n: nat)
    requires n <= TRAILING_WINDOW_DAYS && AgreeBefore(serveDate, rolling, truth, rolling', truth')
    ensures DayRows(rolling, truth, version, serveDate, n) == DayRows(rolling', truth', version, serveDate, n)
  {
    if n > 0 {
      DaysAgree(rolling, truth, rolling', truth', version, serveDate, n - 1);
    }
  }

  /** Nothing dated on the serve day or later, truth or forecast, can reach the window. */
  lemma NoFutureInWindow(dates: seq<int>, rolling: Rolling, truth: Truth, dates': seq<int>, rolling': Rolling,
          truth': Truth, serveDate: int)
    requires DatesOf(dates, rolling) && DatesOf(dates', rolling')
    requires AgreeBefore(serveDate, rolling, truth, rolling', truth')
    ensures Window(dates, rolling, truth, serveDate) == Window(dates', rolling', truth', serveDate)
  {
    hide AgreeBefore, WindowOf, Series, DayRows;
    var preferred := PreferredVersion(rolling);
    SamePreference(serveDate, rolling, truth, rolling', truth');
    if preferred.Some? {
      var version, n := preferred.value, TRAILING_WINDOW_DAYS;
      WindowIsItsDays(dates, rolling, truth, version, serveDate, n);
      WindowIsItsDays(dates', rolling', truth', version, serveDate, n);
      DaysAgree(rolling, truth, rolling', truth', version, serveDate, n);
    }
  }

  lemma SamePreference(serveDate: int, rolling: Rolling, truth: Truth, rolling': Rolling, truth': Truth)
    requires AgreeBefore(serveDate, rolling, truth, rolling', truth')
    ensures PreferredVersion(rolling) == PreferredVersion(rolling')
  {
  }

  // ----- The bias -----

  function Shrinkage(n: nat): (shrink: real)
    ensures 0.0 <= shrink < 1.0 && (n > 0 ==> shrink > 0.0)
  {
    var shrink := n as real / (n as real + SHRINKAGE_K);
    ProperFraction(n as real, SHRINKAGE_K, shrink);
    shrink
  }

  lemma ProperFraction(x: real, k: real, r: real)
    requires x >= 0.0 && k > 0.0 && r == x / (x + k)
    ensures 0.0 <= r < 1.0 && (x > 0.0 ==> r > 0.0)
  {
    assert r * (x + k) == x;
    if r >= 1.0 {
      ProductsOrderBy(1.0, r, x + k);
    }
  }

  lemma ProductsOrderBy(x: real, y: real, factor: real)
    requires x <= y && factor >= 0.0
    ensures x * factor <= y * factor
  {
  }

  /** A shrinkage of ten rows. */
  lemma ShrinkageIsByTen(n: nat)
    ensures Shrinkage(n) * (n as real + 10.0) == n as real
  {
    var x := n as real + 10.0;
    assert n as real / x * x == n as real;
  }

  function Errors(rows: seq<Scored>): (errors: seq<real>)
    ensures |errors| == |rows|
    ensures forall i :: 0 <= i < |rows| ==> rows[i].mu - errors[i] == rows[i].truth
  {
    seq(|rows|, i requires 0 <= i < |rows| => rows[i].mu - rows[i].truth)
  }

  /** The standard error of the mean error. */
  predicate IsStandardError(rows: seq<Scored>, stderr: real) {
    |rows| > 0 ==> IsRoot(stderr, SampleVariance(Errors(rows)) / |rows| as real)
  }

  /** Only what the mean error exceeds its deadband by is corrected, with its sign. */
  function Excess(mean: real, deadband: real): real {
    var excess := Max(0.0, Magnitude(mean) - deadband);
    if mean < 0.0 then -excess else excess
  }

  function Shrunken(shrink: real, excess: real): real {
    shrink * excess
  }

  function Bias(rows: seq<Scored>, stderr: real): real {
    if |rows| < 3 then 0.0
    else Shrunken(Shrinkage(|rows|), Excess(Mean(Errors(rows)), BIAS_DEADBAND_T * stderr))
  }

  lemma ShrunkenFacts(shrink: real, excess: real)
    requires 0.0 < shrink < 1.0
    ensures var b := Shrunken(shrink, excess);
            && (b == 0.0 <==> excess == 0.0) && (excess > 0.0 ==> 0.0 < b < excess)
                && (excess < 0.0 ==> excess < b < 0.0)
  {
  }

  /** The correction has the mean error's sign and is smaller. */
  predicate PartOf(bias: real, mean: real) {
    bias == 0.0 || (0.0 < bias < mean) || (mean < bias < 0.0)
  }

  lemma BiasIsPart(rows: seq<Scored>, stderr: real)
    requires |rows| > 0 && stderr >= 0.0
    ensures PartOf(Bias(rows, stderr), Mean(Errors(rows)))
  {
    hide Shrunken, Mean;
    if |rows| >= 3 {
      ShrunkenFacts(Shrinkage(|rows|), Excess(Mean(Errors(rows)), BIAS_DEADBAND_T * stderr));
    }
  }

  /**
   * Exactly when nothing is corrected: too short a window, or a mean error within its deadband, stated without roots.
   */
  lemma BiasIsZeroExactlyWhen(rows: seq<Scored>, stderr: real)
    requires IsStandardError(rows, stderr)
    ensures Bias(rows, stderr) == 0.0 <==> |rows| < 3 || WithinDeadband(rows)
  {
    hide Shrunken, Mean, SampleVariance, Square;
    if |rows| >= 3 {
      var errors, n := Errors(rows), |rows| as real;
      var mean, variance := Mean(errors), SampleVariance(errors);
      ShrunkenFacts(Shrinkage(|rows|), Excess(mean, BIAS_DEADBAND_T * stderr));
      SquaresOrder(Magnitude(mean), BIAS_DEADBAND_T * stderr);
      MagnitudeSquare(mean);
      DeadbandSquare(stderr, variance, n, mean, variance / n);
    }
  }

  /** Past its deadband the mean error is corrected by what exceeds one and a half standard errors, shrunken. */
  lemma BiasIsTheShrunkenExcess(rows: seq<Scored>, stderr: real)
    requires |rows| >= 3 && stderr >= 0.0
    ensures var mean, bias, shrink := Mean(Errors(rows)), Bias(rows, stderr), Shrinkage(|rows|);
            && (mean > 1.5 * stderr ==> bias == shrink * (mean - 1.5 * stderr))
            && (mean < -1.5 * stderr ==> bias == shrink * (mean + 1.5 * stderr))
  {
    hide Mean;
  }

  /** The mean error is at most one and a half standard errors. */
  predicate WithinDeadband(rows: seq<Scored>) {
    |rows| > 0 ==> |rows| as real * Square(Mean(Errors(rows))) <= 2.25 * SampleVariance(Errors(rows))
  }

  lemma DeadbandSquare(stderr: real, variance: real, n: real, mean: real, share: real)
    requires n > 0.0 && share == variance / n && Square(stderr) == share
    ensures Square(mean) <= Square(BIAS_DEADBAND_T * stderr) <==> n * Square(mean) <= 2.25 * variance
  {
    ScaledSquare(stderr);
    var x := Square(mean);
    assert n * share == variance;
    ScalingKeepsOrder(n, x, 2.25 * share);
  }

  lemma ScaledSquare(stderr: real)
    ensures Square(BIAS_DEADBAND_T * stderr) == 2.25 * Square(stderr)
  {
  }

  lemma ScalingKeepsOrder(n: real, x: real, y: real)
    requires n > 0.0
    ensures x <= y <==> n * x <= n * y
  {
  }

  /** The window's squared error once this much is taken off every forecast. */
  function WindowError(rows: seq<Scored>, bias: real): real {
    SquaredError(Line(bias, 0.0), Errors(rows), Errors(rows))
  }

  /**
   * On its own window the correction never makes the squared error larger, and makes it smaller exactly when there is
   * one.
   */
  lemma CorrectionNeverHurtsItsWindow(rows: seq<Scored>, stderr: real)
    requires |rows| > 0 && IsStandardError(rows, stderr)
    ensures WindowError(rows, Bias(rows, stderr)) <= WindowError(rows, 0.0)
    ensures WindowError(rows, Bias(rows, stderr)) < WindowError(rows, 0.0) <==> Bias(rows, stderr) != 0.0
  {
    hide *;
    var errors, bias := Errors(rows), Bias(rows, stderr);
    var mean, n := Mean(errors), |rows| as real;
    RootIsNonNegative(rows, stderr);
    BiasIsPart(rows, stderr);
    WindowErrorExpands(rows, bias, n, mean);
    WindowErrorExpands(rows, 0.0, n, mean);
    PartLowers(bias, mean, n);
  }

  lemma RootIsNonNegative(rows: seq<Scored>, stderr: real)
    requires |rows| > 0 && IsStandardError(rows, stderr)
    ensures stderr >= 0.0
  {
  }

  function Saving(bias: real, mean: real): real {
    bias * (2.0 * mean - bias)
  }

  lemma WindowErrorExpands(rows: seq<Scored>, bias: real, n: real, mean: real)
    requires |rows| > 0 && n == |rows| as real && mean == Mean(Errors(rows))
    ensures WindowError(rows, bias) == Inner(Errors(rows), Errors(rows)) - n * Saving(bias, mean)
  {
    hide SumTo, SquaredError, Inner;
    var errors := Errors(rows);
    SquaredErrorExpands(Line(bias, 0.0), errors, errors, bias * bias, 0.0, -2.0 * bias, 0.0, 0.0);
    assert Total(errors) == mean * n;
    SavingIs(bias, mean, n, bias * bias);
  }

  lemma SavingIs(bias: real, mean: real, n: real, bb: real)
    requires bb == bias * bias
    ensures bb * n + -2.0 * bias * (mean * n) == -(n * Saving(bias, mean))
  {
    var bm := bias * mean;
    assert Saving(bias, mean) == 2.0 * bm - bb;
    assert bias * (mean * n) == bm * n;
  }

  lemma PartLowers(bias: real, mean: real, n: real)
    requires n > 0.0 && PartOf(bias, mean)
    ensures n * Saving(0.0, mean) == 0.0
    ensures if bias == 0.0 then n * Saving(bias, mean) == 0.0 else n * Saving(bias, mean) > 0.0
  {
    if bias != 0.0 {
      SameSignProduct(bias, 2.0 * mean - bias, Saving(bias, mean));
      SameSignProduct(n, Saving(bias, mean), n * Saving(bias, mean));
    }
  }

  // ----- The dispersion factor -----

  /** Squared standardised residuals after a bias is taken off; rows without a positive sigma have none. */
  function ZSquares(rows: seq<Scored>, bias: real): seq<real> {
    if rows == [] then []
    else
      var last, before := rows[|rows| - 1], ZSquares(rows[..|rows| - 1], bias);
      if last.sigma > 0.0 then before + [Square((last.truth - (last.mu - bias)) / last.sigma)] else before
  }

  /** The standardised residual of one row, squared. */
  predicate IsZSquare(row: Scored, bias: real, x: real) {
    row.sigma > 0.0 && x * (row.sigma * row.sigma) == (row.mu - bias - row.truth) * (row.mu - bias - row.truth)
  }

  lemma ZSquareOf(row: Scored, bias: real)
    requires row.sigma > 0.0
    ensures IsZSquare(row, bias, Square((row.truth - (row.mu - bias)) / row.sigma))
  {
    var d := row.truth - (row.mu - bias);
    var q := d / row.sigma;
    ScaledSquares(d, q, row.sigma);
    assert row.mu - bias - row.truth == -d;
  }

  lemma ScaledSquares(d: real, q: real, s: real)
    requires s > 0.0 && q == d / s
    ensures Square(q) * (s * s) == d * d
  {
    assert q * s == d;
    assert (q * q) * (s * s) == (q * s) * (q * s);
  }

  function UsableRows(rows: seq<Scored>): seq<Scored> {
    if rows == [] then []
    else
      var before := UsableRows(rows[..|rows| - 1]);
      if rows[|rows| - 1].sigma <= 0.0 then before else before + [rows[|rows| - 1]]
  }

  lemma {:induction false} UsableRowsAre(rows: seq<Scored>, row: Scored)
    ensures row in UsableRows(rows) <==> row in rows && row.sigma > 0.0
  {
    if rows != [] {
      UsableRowsAre(rows[..|rows| - 1], row);
      assert rows == rows[..|rows| - 1] + [rows[|rows| - 1]];
    }
  }

  /** The squared residuals are those of the rows with a positive sigma, one each. */
  lemma {:induction false} ZSquaresAre(rows: seq<Scored>, bias: real)
    ensures |ZSquares(rows, bias)| == |UsableRows(rows)|
    ensures forall i :: 0 <= i < |UsableRows(rows)| ==> IsZSquare(UsableRows(rows)[i], bias, ZSquares(rows, bias)[i])
  {
    hide Square, IsZSquare;
    if rows != [] {
      var k := |rows| - 1;
      ZSquaresAre(rows[..k], bias);
      if rows[k].sigma > 0.0 {
        ZSquareOf(rows[k], bias);
      }
    }
  }

  predicate IsDispersion(rows: seq<Scored>, bias: real, root: real) {
    ZSquares(rows, bias) != [] ==> IsRoot(root, Mean(ZSquares(rows, bias)))
  }

  function Factor(rows: seq<Scored>, bias: real, root: real): real {
    if ZSquares(rows, bias) == [] then 1.0
    else Min(Max(1.0 + Shrunken(Shrinkage(|rows|), root - 1.0), SIGMA_FACTOR_FLOOR), SIGMA_FACTOR_CEIL)
  }

  /** The factor stays within its clip, and widens or narrows exactly as the window's residuals ran wide or narrow. */
  lemma FactorFollowsTheWindow(rows: seq<Scored>, bias: real, root: real)
    requires IsDispersion(rows, bias, root)
    ensures var z, factor := ZSquares(rows, bias), Factor(rows, bias, root);
            && 0.75 <= factor <= 1.5
            && (z != [] && 0.75 < factor < 1.5 ==> factor - 1.0 == Shrunken(Shrinkage(|rows|), root - 1.0))
            && (factor > 1.0 <==> z != [] && Mean(z) > 1.0)
            && (factor < 1.0 <==> z != [] && Mean(z) < 1.0)
  {
    hide Shrunken, Mean, Square;
    var z := ZSquares(rows, bias);
    if z != [] {
      ShrunkenFacts(Shrinkage(|rows|), root - 1.0);
      SquaresOrder(root, 1.0);
      SquaresOrder(1.0, root);
      OneIsItsSquare();
    }
  }

  lemma OneIsItsSquare()
    ensures Square(1.0) == 1.0
  {
  }

  // ----- The correction -----

  datatype Correction = Correction(bias: real, factor: real, rows: nat)

  function ComputeCorrection(rows: seq<Scored>, applyBias: bool, applySigma: bool, stderr: real,
          root: real): Correction {
    if rows == [] || !(applyBias || applySigma) then Correction(0.0, 1.0, 0)
    else
      var bias := if applyBias then Bias(rows, stderr) else 0.0;
      Correction(bias, if applySigma then Factor(rows, bias, root) else 1.0, |rows|)
  }

  /** A toggle that is off leaves its part alone; the factor is taken net of the bias that is applied. */
  lemma TogglesDecide(rows: seq<Scored>, applyBias: bool, applySigma: bool, stderr: real, root: real)
    ensures var c := ComputeCorrection(rows, applyBias, applySigma, stderr, root);
            && (c.bias == if applyBias then Bias(rows, stderr) else 0.0)
            && (c.factor == if applySigma then Factor(rows, c.bias, root) else 1.0)
            && (c.rows == if applyBias || applySigma then |rows| else 0)
  {
    NoRowsNoBias(stderr);
    NoRowsNoFactor(root);
  }

  lemma NoRowsNoFactor(root: real)
    ensures forall bias :: Factor([], bias, root) == 1.0
  {
  }

  function Recalibrated(forecast: Forecast, correction: Correction): Forecast {
    Forecast(forecast.mu - correction.bias, ScaledVariance(forecast.variance, Square(correction.factor)))
  }

  /** The correction a live serve applies, with the toggles as they stand. */
  function ServeCorrection(rows: seq<Scored>, stderr: real, root: real): Correction {
    ComputeCorrection(rows, SERVE_RECAL_BIAS, SERVE_RECAL_SIGMA, stderr, root)
  }

  /**
   * What recalibrating does to a serve: the variance stays, the mean loses the window's bias, and the forecast is
   * unchanged exactly when the window has fewer than three rows or its mean error is within the deadband.
   */
  lemma RecalibrationMovesOnlyTheMean(forecast: Forecast, rows: seq<Scored>, stderr: real, root: real)
    requires IsStandardError(rows, stderr)
    ensures var served := Recalibrated(forecast, ServeCorrection(rows, stderr, root));
            && served == Forecast(forecast.mu - Bias(rows, stderr), forecast.variance)
            && (served == forecast <==> |rows| < 3 || WithinDeadband(rows))
  {
    hide Bias, Square, WithinDeadband;
    BiasIsZeroExactlyWhen(rows, stderr);
    OneIsItsSquare();
    NoRowsNoBias(stderr);
  }

  lemma NoRowsNoBias(stderr: real)
    ensures Bias([], stderr) == 0.0
  {
  }
}
