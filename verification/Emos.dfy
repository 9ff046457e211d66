/**
 * EMOS: per-model bias correction, an affine mean and a spread-driven variance
 * (forecaster/postproc_models.py). A day's forecasts are a dictionary in insertion order,
 * kept as a sequence; spreads and sigmas are stated as variances.
 */
module Emos {
  import opened Wrappers
  import opened RealSums
  import opened LeastSquares

  datatype Member = Member(model: string, high: real)
  type Day = seq<Member>
  datatype Case = Case(day: Day, truth: real)
  type History = seq<Case>

  datatype WeightMode = Equal | InverseVariance

  const SIGMA_FLOOR_F := 1.5
  const MINIMUM_ERROR_VARIANCE := 0.25

  datatype Params = Params(biases: map<string, real>, weights: map<string, real>,
                           muA: real, muB: real, varC: real, varD: real)

  datatype Forecast = Forecast(mu: real, variance: real)

  function Lookup(table: map<string, real>, model: string, default: real): real {
    if model in table then table[model] else default
  }

  // ----- Per-model error statistics -----

  datatype Tally = Tally(total: real, count: nat)

  /** Which error a tally accumulates: the signed one, or the squared one after removing a bias. */
  datatype ErrorKind = Signed | SquaredAbout(bias: real)

  function MemberError(kind: ErrorKind, high: real, truth: real): real {
    match kind
    case Signed => high - truth
    case SquaredAbout(bias) => Square((high - bias) - truth)
  }

  function Add(t: Tally, error: real): Tally {
    Tally(t.total + error, t.count + 1)
  }

  function DayTally(kind: ErrorKind, day: Day, truth: real, model: string, start: Tally): Tally {
    if day == [] then start
    else
      var last, before := day[|day| - 1], DayTally(kind, day[..|day| - 1], truth, model, start);
      if last.model == model then Add(before, MemberError(kind, last.high, truth)) else before
  }

  function ErrorTally(kind: ErrorKind, history: History, model: string): Tally {
    if history == [] then Tally(0.0, 0)
    else
      var last := history[|history| - 1];
      DayTally(kind, last.day, last.truth, model, ErrorTally(kind, history[..|history| - 1], model))
  }

  function DayModels(day: Day): set<string> {
    set i | 0 <= i < |day| :: day[i].model
  }

  function Models(history: History): set<string> {
    if history == [] then {} else Models(history[..|history| - 1]) + DayModels(history[|history| - 1].day)
  }

  function Average(t: Tally): real
    requires t.count > 0
  {
    t.total / t.count as real
  }

  lemma {:induction false} DayTallyCounts(kind: ErrorKind, day: Day, truth: real, model: string, start: Tally)
    ensures DayTally(kind, day, truth, model, start).count >= start.count
    ensures DayTally(kind, day, truth, model, start).count > start.count <==> model in DayModels(day)
    ensures model !in DayModels(day) ==> DayTally(kind, day, truth, model, start) == start
  {
    if day != [] {
      var k := |day| - 1;
      DayTallyCounts(kind, day[..k], truth, model, start);
      assert DayModels(day) == DayModels(day[..k]) + {day[k].model};
    }
  }

  /** A model has scored errors exactly when it appears in the history. */
  lemma {:induction false} ErrorTallyCounts(kind: ErrorKind, history: History, model: string)
    ensures ErrorTally(kind, history, model).count > 0 <==> model in Models(history)
  {
    if history != [] {
      var k := |history| - 1;
      ErrorTallyCounts(kind, history[..k], model);
      DayTallyCounts(kind, history[k].day, history[k].truth, model, ErrorTally(kind, history[..k], model));
    }
  }

  function BiasTable(history: History): map<string, real> {
    map model | model in Models(history) ::
      (ErrorTallyCounts(Signed, history, model); Average(ErrorTally(Signed, history, model)))
  }

  function InverseVarianceWeight(history: History, biases: map<string, real>, model: string): real
    requires model in Models(history)
  {
    var kind := SquaredAbout(Lookup(biases, model, 0.0));
    ErrorTallyCounts(kind, history, model);
    var mse := Average(ErrorTally(kind, history, model));
    1.0 / (if mse >= MINIMUM_ERROR_VARIANCE then mse else MINIMUM_ERROR_VARIANCE)
  }

  function WeightTable(history: History, biases: map<string, real>, mode: WeightMode): (weights: map<string, real>)
    ensures forall m :: m in weights ==> weights[m] > 0.0
  {
    match mode
    case Equal => map[]
    case InverseVariance => map model | model in Models(history) :: InverseVarianceWeight(history, biases, model)
  }

  // ----- Day summaries -----

  function Debiased(day: Day, biases: map<string, real>): (values: seq<real>)
    ensures |values| == |day|
  {
    seq(|day|, i requires 0 <= i < |day| => day[i].high - Lookup(biases, day[i].model, 0.0))
  }

  function MemberWeights(day: Day, weights: map<string, real>): (r: seq<real>)
    ensures |r| == |day|
  {
    seq(|day|, i requires 0 <= i < |day| => Lookup(weights, day[i].model, 1.0))
  }

  function WeightedMean(values: seq<real>, weights: seq<real>): real
    requires |values| == |weights| > 0
  {
    if Total(weights) <= 0.0 then Mean(values) else Inner(weights, values) / Total(weights)
  }

  /** The squared sample standard deviation; zero for fewer than two values. */
  function SampleVariance(values: seq<real>): real {
    if |values| < 2 then 0.0
    else SquaredError(Line(Mean(values), 0.0), values, values) / (|values| - 1) as real
  }

  /** Debiased values of the members with a learned bias. */
  function LearnedValues(day: Day, biases: map<string, real>): seq<real> {
    if day == [] then []
    else
      var last, before := day[|day| - 1], LearnedValues(day[..|day| - 1], biases);
      if last.model in biases then before + [last.high - biases[last.model]] else before
  }

  function Largest(s: seq<real>): real
    requires |s| > 0
  {
    if |s| == 1 then s[0] else if s[|s| - 1] >= Largest(s[..|s| - 1]) then s[|s| - 1] else Largest(s[..|s| - 1])
  }

  function Smallest(s: seq<real>): real
    requires |s| > 0
  {
    if |s| == 1 then s[0] else if s[|s| - 1] <= Smallest(s[..|s| - 1]) then s[|s| - 1] else Smallest(s[..|s| - 1])
  }

  /** The published disagreement statistic before rounding. */
  function DebiasedRange(day: Day, biases: map<string, real>): Option<real> {
    var values := LearnedValues(day, biases);
    if |values| < 2 then None else Some(Largest(values) - Smallest(values))
  }

  // ----- The fit -----

  predicate NonEmptyDays(history: History) {
    forall i :: 0 <= i < |history| ==> |history[i].day| > 0
  }

  function CaseMean(c: Case, biases: map<string, real>, weights: map<string, real>): real
    requires |c.day| > 0
  {
    WeightedMean(Debiased(c.day, biases), MemberWeights(c.day, weights))
  }

  function Means(history: History, biases: map<string, real>, weights: map<string, real>): (r: seq<real>)
    requires NonEmptyDays(history)
    ensures |r| == |history|
  {
    seq(|history|, i requires 0 <= i < |history| => CaseMean(history[i], biases, weights))
  }

  function Truths(history: History): (r: seq<real>)
    ensures |r| == |history|
  {
    seq(|history|, i requires 0 <= i < |history| => history[i].truth)
  }

  function SpreadSquares(history: History, biases: map<string, real>): (r: seq<real>)
    ensures |r| == |history|
  {
    seq(|history|, i requires 0 <= i < |history| => SampleVariance(Debiased(history[i].day, biases)))
  }

  function ResidualSquares(line: Line, xs: seq<real>, ys: seq<real>): (r: seq<real>)
    requires |xs| == |ys|
    ensures |r| == |xs|
  {
    seq(|xs|, i requires 0 <= i < |xs| => Square(Residual(line, xs[i], ys[i])))
  }

  /** The variance line, with a negative spread slope replaced by the plain mean squared residual. */
  function VarianceLine(spreads: seq<real>, residuals: seq<real>): Line
    requires |spreads| == |residuals| > 0
  {
    var line := Fit(spreads, residuals);
    if line.slope < 0.0 then Line(Mean(residuals), 0.0) else line
  }

  function FitEmos(history: History, mode: WeightMode): Option<Params>
    requires NonEmptyDays(history)
  {
    if |history| < 2 then None
    else
      var biases := BiasTable(history);
      var weights := WeightTable(history, biases, mode);
      var means, truths := Means(history, biases, weights), Truths(history);
      var mean := Fit(means, truths);
      var variance := VarianceLine(SpreadSquares(history, biases), ResidualSquares(mean, means, truths));
      Some(Params(biases, weights, mean.intercept, mean.slope, variance.intercept, variance.slope))
  }

  function Apply(params: Params, day: Day): Forecast
    requires |day| > 0
  {
    var mean := WeightedMean(Debiased(day, params.biases), MemberWeights(day, params.weights));
    var variance := params.varC + params.varD * SampleVariance(Debiased(day, params.biases));
    var floor := SIGMA_FLOOR_F * SIGMA_FLOOR_F;
    Forecast(params.muA + params.muB * mean, if variance >= floor then variance else floor)
  }

  // ----- What the fit guarantees on its training set -----

  function FittedVariances(line: Line, spreads: seq<real>): (r: seq<real>)
    ensures |r| == |spreads|
  {
    seq(|spreads|, i requires 0 <= i < |spreads| => line.intercept + line.slope * spreads[i])
  }

  /** Clipped or not, the fitted variances average to the mean squared residual, and spread never lowers them. */
  lemma VarianceLineCalibrated(spreads: seq<real>, residuals: seq<real>, line: Line)
    requires |spreads| == |residuals| > 0 && line == VarianceLine(spreads, residuals)
    ensures line.slope >= 0.0
    ensures Mean(FittedVariances(line, spreads)) == Mean(residuals)
  {
    hide *;
    VarianceLineCases(spreads, residuals);
    if Fit(spreads, residuals).slope < 0.0 {
      FlatResidualsCancel(line, spreads, residuals);
    } else {
      FitResidualsCancel(spreads, residuals, line);
    }
    CancellingMeansEqual(line, spreads, residuals);
  }

  lemma VarianceLineCases(spreads: seq<real>, residuals: seq<real>)
    requires |spreads| == |residuals| > 0
    ensures VarianceLine(spreads, residuals)
         == if Fit(spreads, residuals).slope < 0.0 then Line(Mean(residuals), 0.0) else Fit(spreads, residuals)
  {
  }

  /** Where residuals cancel, fitted values and targets have the same mean. */
  lemma CancellingMeansEqual(line: Line, xs: seq<real>, ys: seq<real>)
    requires |xs| == |ys| > 0 && SumTo(Residuals(line, xs, ys), |xs|) == 0.0
    ensures Mean(FittedVariances(line, xs)) == Mean(ys)
  {
    hide SumTo;
    SumAdd(Elements(ys), Elements(FittedVariances(line, xs)), Residuals(line, xs, ys), |xs|);
  }

  lemma FlatResidualsCancel(line: Line, xs: seq<real>, ys: seq<real>)
    requires |xs| == |ys| > 0 && line == Line(Mean(ys), 0.0)
    ensures SumTo(Residuals(line, xs, ys), |xs|) == 0.0
  {
    hide SumTo, Residuals;
    ResidualSum(line, xs, ys, |xs|, line.intercept, 0.0);
    assert Mean(ys) * |ys| as real == Total(ys);
  }

  /** In every branch: training residuals cancel, variances are calibrated, the spread slope is non-negative. */
  lemma FitIsCalibrated(history: History, mode: WeightMode, params: Params)
    requires NonEmptyDays(history) && FitEmos(history, mode) == Some(params)
    ensures var means := Means(history, params.biases, params.weights);
            var mean := Line(params.muA, params.muB);
            && SumTo(Residuals(mean, means, Truths(history)), |history|) == 0.0
            && params.varD >= 0.0
            && Mean(FittedVariances(Line(params.varC, params.varD), SpreadSquares(history, params.biases)))
               == Mean(ResidualSquares(mean, means, Truths(history)))
  {
    var means, truths := Means(history, params.biases, params.weights), Truths(history);
    var mean := Line(params.muA, params.muB);
    FitResidualsCancel(means, truths, mean);
    VarianceLineCalibrated(SpreadSquares(history, params.biases), ResidualSquares(mean, means, truths),
                           Line(params.varC, params.varD));
  }
}
