/**
 * What the two tables of an EMOS fit mean (forecaster/postproc_models.py), told from the readings of each model rather
 * than from the accumulating passes: a bias is a mean error, a weight the inverse of a mean squared debiased error.
 */
module EmosTables {
  import opened Wrappers
  import opened RealSums
  import opened RealOrder
  import opened LeastSquares
  import opened Emos

  /** One forecast of a model, and what was then observed. */
  datatype Reading = Reading(high: real, truth: real)

  function DayReadings(day: Day, truth: real, model: string): seq<Reading> {
    if day == [] then []
    else
      var last, before := day[|day| - 1], DayReadings(day[..|day| - 1], truth, model);
      if last.model == model then before + [Reading(last.high, truth)] else before
  }

  function Readings(history: History, model: string): seq<Reading> {
    if history == [] then []
    else
      var last := history[|history| - 1];
      Readings(history[..|history| - 1], model) + DayReadings(last.day, last.truth, model)
  }

  /** A case of the history in which the model forecast this. */
  predicate IsReading(c: Case, model: string, reading: Reading) {
    reading.truth == c.truth && Member(model, reading.high) in c.day
  }

  lemma {:induction false} DayReadingsAreMembers(day: Day, truth: real, model: string, reading: Reading)
    ensures reading in DayReadings(day, truth, model) <==> IsReading(Case(day, truth), model, reading)
  {
    if day != [] {
      var k := |day| - 1;
      DayReadingsAreMembers(day[..k], truth, model, reading);
      assert day == day[..k] + [day[k]];
    }
  }

  /** The readings of a model are exactly what the cases hold of it. */
  lemma {:induction false} ReadingsAreTheCases(history: History, model: string, reading: Reading)
    ensures reading in Readings(history, model) <==> exists c :: c in history && IsReading(c, model, reading)
  {
    if history != [] {
      var k := |history| - 1;
      ReadingsAreTheCases(history[..k], model, reading);
      DayReadingsAreMembers(history[k].day, history[k].truth, model, reading);
      assert history == history[..k] + [history[k]];
    }
  }

  function ErrorOf(kind: ErrorKind, reading: Reading): real {
    match kind
    case Signed => reading.high - reading.truth
    case SquaredAbout(bias) => Square(reading.high - bias - reading.truth)
  }

  function Errors(kind: ErrorKind, readings: seq<Reading>): (errors: seq<real>)
    ensures |errors| == |readings|
    ensures forall i :: 0 <= i < |errors| ==> errors[i] == ErrorOf(kind, readings[i])
  {
    seq(|readings|, i requires 0 <= i < |readings| => ErrorOf(kind, readings[i]))
  }

  function TallyOf(errors: seq<real>): Tally {
    Tally(Total(errors), |errors|)
  }

  lemma TotalAppend(s: seq<real>, x: real)
    ensures Total(s + [x]) == Total(s) + x
  {
    SumCongruence(Elements(s + [x]), Elements(s), |s|);
  }

  lemma {:induction false} DayTallyIsOfReadings(kind: ErrorKind, day: Day, truth: real, model: string,
          earlier: seq<Reading>)
    ensures DayTally(kind, day, truth, model, TallyOf(Errors(kind, earlier)))
         == TallyOf(Errors(kind, earlier + DayReadings(day, truth, model)))
  {
    hide Total;
    if day == [] {
      assert earlier + DayReadings(day, truth, model) == earlier;
    } else {
      var k := |day| - 1;
      DayTallyIsOfReadings(kind, day[..k], truth, model, earlier);
      if day[k].model == model {
        var before, last := earlier + DayReadings(day[..k], truth, model), Reading(day[k].high, truth);
        assert earlier + DayReadings(day, truth, model) == before + [last];
        assert Errors(kind, before + [last]) == Errors(kind, before) + [ErrorOf(kind, last)];
        TotalAppend(Errors(kind, before), ErrorOf(kind, last));
        SameError(kind, day[k].high, truth);
      }
    }
  }

  lemma SameError(kind: ErrorKind, high: real, truth: real)
    ensures MemberError(kind, high, truth) == ErrorOf(kind, Reading(high, truth))
  {
  }

  lemma {:induction false} TallyIsOfReadings(kind: ErrorKind, history: History, model: string)
    ensures ErrorTally(kind, history, model) == TallyOf(Errors(kind, Readings(history, model)))
  {
    if history == [] {
      assert Errors(kind, Readings(history, model)) == [];
    } else {
      var k := |history| - 1;
      TallyIsOfReadings(kind, history[..k], model);
      DayTallyIsOfReadings(kind, history[k].day, history[k].truth, model, Readings(history[..k], model));
    }
  }

  /** A bias is learned exactly for the models that have a reading, and is the mean of their errors. */
  lemma BiasIsTheMeanError(history: History, model: string)
    ensures model in BiasTable(history) <==> Readings(history, model) != []
    ensures model in BiasTable(history) ==>
      BiasTable(history)[model] == Mean(Errors(Signed, Readings(history, model)))
  {
    hide Total, ErrorTally, Readings;
    TallyIsOfReadings(Signed, history, model);
    ErrorTallyCounts(Signed, history, model);
  }

  /** The mean squared error of a learned model once its bias is removed. */
  function NoiseOf(history: History, model: string): real
    requires Readings(history, model) != []
  {
    var readings := Readings(history, model);
    Mean(Errors(SquaredAbout(Mean(Errors(Signed, readings))), readings))
  }

  function FlooredNoise(history: History, model: string): (noise: real)
    requires Readings(history, model) != []
    ensures noise >= 0.25
  {
    Max(0.25, NoiseOf(history, model))
  }

  /** In inverse-variance mode exactly the learned models have a weight, and it undoes their floored noise. */
  lemma WeightTimesNoiseIsOne(history: History, model: string)
    ensures var weights := WeightTable(history, BiasTable(history), InverseVariance);
            && (model in weights <==> Readings(history, model) != [])
            && (model in weights ==> weights[model] * FlooredNoise(history, model) == 1.0)
  {
    hide Total, ErrorTally, Readings, BiasTable;
    BiasIsTheMeanError(history, model);
    BiasesAreOfModels(history);
    if Readings(history, model) != [] {
      var kind := SquaredAbout(BiasTable(history)[model]);
      TallyIsOfReadings(kind, history, model);
      ErrorTallyCounts(kind, history, model);
      InverseTimes(FlooredNoise(history, model), InverseVarianceWeight(history, BiasTable(history), model));
    }
  }

  lemma BiasesAreOfModels(history: History)
    ensures BiasTable(history).Keys == Models(history)
  {
  }

  lemma InverseTimes(x: real, w: real)
    requires x > 0.0 && w == 1.0 / x
    ensures w * x == 1.0
  {
  }

  /**
   * Of two learned models the noisier never weighs more, and weighs strictly less once its noise is above the floor.
   */
  lemma NoisierNeverWeighsMore(history: History, quiet: string, noisy: string)
    requires Readings(history, quiet) != [] && Readings(history, noisy) != []
    requires NoiseOf(history, quiet) <= NoiseOf(history, noisy)
    ensures var weights := WeightTable(history, BiasTable(history), InverseVariance);
            && quiet in weights && noisy in weights && weights[noisy] <= weights[quiet]
            && (NoiseOf(history, quiet) < NoiseOf(history, noisy) && NoiseOf(history, noisy) > 0.25 ==>
                  weights[noisy] < weights[quiet])
  {
    hide NoiseOf, Readings, WeightTable, BiasTable;
    WeightTimesNoiseIsOne(history, quiet);
    WeightTimesNoiseIsOne(history, noisy);
    var weights := WeightTable(history, BiasTable(history), InverseVariance);
    InverseOrder(weights[quiet], FlooredNoise(history, quiet), weights[noisy], FlooredNoise(history, noisy));
  }

  lemma InverseOrder(v: real, x: real, w: real, y: real)
    requires 0.0 < x <= y && v * x == 1.0 && w * y == 1.0
    ensures w <= v && (x < y ==> w < v)
  {
    assert v > 0.0 && w > 0.0;
    assert w * y - w * x == w * (y - x);
    assert v * x - w * x == (v - w) * x;
  }

  /** With equal weights there is no table at all: every member counts the same. */
  lemma EqualModeWeighsAlike(history: History, day: Day, i: nat)
    requires i < |day|
    ensures MemberWeights(day, WeightTable(history, BiasTable(history), Equal))[i] == 1.0
  {
  }

  // ----- Day summaries -----

  function BiasOf(biases: map<string, real>, model: string): real {
    if model in biases then biases[model] else 0.0
  }

  function WeightOf(weights: map<string, real>, model: string): real {
    if model in weights then weights[model] else 1.0
  }

  /** The members of a day, each with its weight, balance about their debiased mean. */
  lemma DebiasedMembersBalance(day: Day, biases: map<string, real>, weights: map<string, real>, mean: real)
    requires |day| > 0 && mean == WeightedMean(Debiased(day, biases), MemberWeights(day, weights))
    ensures var values, ws := Debiased(day, biases), MemberWeights(day, weights);
            && (forall i :: 0 <= i < |day| ==> values[i] == day[i].high - BiasOf(biases, day[i].model))
            && (forall i :: 0 <= i < |day| ==> ws[i] == WeightOf(weights, day[i].model))
            && (Total(ws) > 0.0 ==> mean * Total(ws) == Inner(ws, values))
            && (Total(ws) <= 0.0 ==> mean * |day| as real == Total(values))
  {
    hide Total, Inner;
    var values, ws := Debiased(day, biases), MemberWeights(day, weights);
    if Total(ws) > 0.0 {
      QuotientTimes(Inner(ws, values), Total(ws), mean);
    } else {
      QuotientTimes(Total(values), |day| as real, mean);
    }
  }

  lemma QuotientTimes(x: real, n: real, q: real)
    requires n > 0.0 && q == x / n
    ensures q * n == x
  {
  }

  /** A spread is a sample variance: the squared distances from the mean, shared among one member fewer. */
  lemma SpreadIsTheSampleVariance(values: seq<real>, f: int -> real)
    requires |values| > 0 && forall i :: 0 <= i < |values| ==> f(i) == Square(values[i] - Mean(values))
    ensures if |values| < 2 then SampleVariance(values) == 0.0
            else SampleVariance(values) * (|values| - 1) as real == SumTo(f, |values|)
  {
    hide SumTo, Mean, Square;
    if |values| >= 2 {
      var line, n := Line(Mean(values), 0.0), (|values| - 1) as real;
      SumCongruence(SquaredResiduals(line, values, values), f, |values|);
      QuotientTimes(SumTo(f, |values|), n, SampleVariance(values));
    }
  }

  lemma {:induction false} LearnedValuesAre(day: Day, biases: map<string, real>, x: real)
    ensures x in LearnedValues(day, biases) <==>
      exists m :: m in day && m.model in biases && x == m.high - biases[m.model]
  {
    if day != [] {
      var k := |day| - 1;
      LearnedValuesAre(day[..k], biases, x);
      assert day == day[..k] + [day[k]];
    }
  }

  lemma {:induction false} ExtremesAre(s: seq<real>)
    requires |s| > 0
    ensures Largest(s) in s && forall x :: x in s ==> x <= Largest(s)
    ensures Smallest(s) in s && forall x :: x in s ==> Smallest(s) <= x
  {
    if |s| > 1 {
      var k := |s| - 1;
      ExtremesAre(s[..k]);
      assert s == s[..k] + [s[k]];
    }
  }

  /** A learned member of the day. */
  predicate LearnedMember(m: Member, day: Day, biases: map<string, real>) {
    m in day && m.model in biases
  }

  /** The published range is the widest gap between two learned members once their biases are removed. */
  lemma RangeIsTheWidestGap(day: Day, biases: map<string, real>, range: real)
    requires DebiasedRange(day, biases) == Some(range)
    ensures forall m, n :: LearnedMember(m, day, biases) && LearnedMember(n, day, biases) ==>
      (m.high - biases[m.model]) - (n.high - biases[n.model]) <= range
    ensures exists m, n :: LearnedMember(m, day, biases) && LearnedMember(n, day, biases)
                           && (m.high - biases[m.model]) - (n.high - biases[n.model]) == range
  {
    var values := LearnedValues(day, biases);
    ExtremesAre(values);
    forall m | LearnedMember(m, day, biases) ensures m.high - biases[m.model] in values {
      LearnedValuesAre(day, biases, m.high - biases[m.model]);
    }
    LearnedValuesAre(day, biases, Largest(values));
    LearnedValuesAre(day, biases, Smallest(values));
    var m :| m in day && m.model in biases && Largest(values) == m.high - biases[m.model];
    var n :| n in day && n.model in biases && Smallest(values) == n.high - biases[n.model];
    assert LearnedMember(m, day, biases) && LearnedMember(n, day, biases);
  }

  function LearnedCount(day: Day, biases: map<string, real>): nat {
    if day == [] then 0 else LearnedCount(day[1..], biases) + if day[0].model in biases then 1 else 0
  }

  lemma {:induction false} LearnedCountAppends(day: Day, m: Member, biases: map<string, real>)
    ensures LearnedCount(day + [m], biases) == LearnedCount(day, biases) + if m.model in biases then 1 else 0
  {
    if day != [] {
      LearnedCountAppends(day[1..], m, biases);
      assert (day + [m])[1..] == day[1..] + [m];
    }
  }

  /** A range is published exactly from two learned members on. */
  lemma {:induction false} RangeNeedsTwo(day: Day, biases: map<string, real>)
    ensures |LearnedValues(day, biases)| == LearnedCount(day, biases)
    ensures DebiasedRange(day, biases).Some? <==> LearnedCount(day, biases) >= 2
  {
    if day != [] {
      var k := |day| - 1;
      RangeNeedsTwo(day[..k], biases);
      LearnedCountAppends(day[..k], day[k], biases);
      assert day == day[..k] + [day[k]];
    }
  }

  // ----- The fitted lines -----

  /**
   * The fitted lines are the best ones for what they are fitted to: the truths against the debiased means, and the
   * squared residuals against the spreads; the latter is flat at their mean where the best line would fall.
   */
  lemma FittedLinesMinimise(history: History, mode: WeightMode, p: Params)
    requires NonEmptyDays(history) && FitEmos(history, mode) == Some(p)
    ensures |history| >= 2 && p.biases == BiasTable(history) && p.weights == WeightTable(history, p.biases, mode)
    ensures var means, truths := Means(history, p.biases, p.weights), Truths(history);
            var spreads, residuals := SpreadSquares(history, p.biases),
                ResidualSquares(Line(p.muA, p.muB), means, truths);
            && (!InFallbackBand(means) ==> Minimises(Line(p.muA, p.muB), means, truths))
            && (p.varD != 0.0 && !InFallbackBand(spreads) ==> Minimises(Line(p.varC, p.varD), spreads, residuals))
            && (p.varD == 0.0 ==> p.varC == Mean(residuals))
  {
    hide InFallbackBand, Minimises, Means, SpreadSquares, ResidualSquares, BiasTable, WeightTable;
    var means, truths := Means(history, p.biases, p.weights), Truths(history);
    var spreads, residuals := SpreadSquares(history, p.biases), ResidualSquares(Line(p.muA, p.muB), means, truths);
    FitMinimises(means, truths);
    FitMinimises(spreads, residuals);
    VarianceLineIs(spreads, residuals, Line(p.varC, p.varD));
  }

  lemma VarianceLineIs(spreads: seq<real>, residuals: seq<real>, line: Line)
    requires |spreads| == |residuals| > 0 && line == VarianceLine(spreads, residuals)
    ensures line.slope != 0.0 ==> line == Fit(spreads, residuals)
    ensures line.slope == 0.0 ==> line.intercept == Mean(residuals)
  {
    hide *;
    VarianceLineCases(spreads, residuals);
    FlatFitIsTheMean(spreads, residuals);
  }

  lemma FlatFitIsTheMean(xs: seq<real>, ys: seq<real>)
    requires |xs| == |ys| > 0
    ensures Fit(xs, ys).slope == 0.0 ==> Fit(xs, ys).intercept == Mean(ys)
  {
    hide Total;
    var line := Fit(xs, ys);
    FitPassesThroughTheMeans(xs, ys, line);
    if line.slope == 0.0 {
      assert line.intercept * |xs| as real == Total(ys);
      QuotientIs(line.intercept, |xs| as real, Total(ys));
    }
  }

  lemma QuotientIs(q: real, n: real, x: real)
    requires n > 0.0 && q * n == x
    ensures q == x / n
  {
  }

  /** What each training case contributes: its debiased mean, its truth and the spread of its debiased members. */
  lemma CasesAreSummarised(history: History, p: Params, i: nat)
    requires NonEmptyDays(history) && i < |history|
    ensures Means(history, p.biases, p.weights)[i]
         == WeightedMean(Debiased(history[i].day, p.biases), MemberWeights(history[i].day, p.weights))
    ensures Truths(history)[i] == history[i].truth
    ensures SpreadSquares(history, p.biases)[i] == SampleVariance(Debiased(history[i].day, p.biases))
    ensures var mean := Means(history, p.biases, p.weights)[i];
            ResidualSquares(Line(p.muA, p.muB), Means(history, p.biases, p.weights), Truths(history))[i]
            == Square(history[i].truth - (p.muA + p.muB * mean))
  {
  }

  /** A forecast is read off those lines, its variance never below the square of one and a half degrees. */
  lemma ForecastIsReadOffTheLines(p: Params, day: Day)
    requires |day| > 0
    ensures var values, forecast := Debiased(day, p.biases), Apply(p, day);
            && forecast.mu == p.muA + p.muB * WeightedMean(values, MemberWeights(day, p.weights))
            && forecast.variance >= 2.25 && forecast.variance >= p.varC + p.varD * SampleVariance(values)
            && (forecast.variance == 2.25 || forecast.variance == p.varC + p.varD * SampleVariance(values))
  {
    hide WeightedMean, SampleVariance, Debiased;
    assert SIGMA_FLOOR_F * SIGMA_FLOOR_F == 2.25;
  }

  /** On the days it was trained on the forecast mean is right on average. */
  lemma TrainedForecastsAreUnbiased(history: History, mode: WeightMode, p: Params)
    requires NonEmptyDays(history) && FitEmos(history, mode) == Some(p)
    ensures Total(ForecastMeans(history, p)) == Total(Truths(history))
  {
    hide FitEmos, Apply, SumTo, Means, Truths;
    FitIsCalibrated(history, mode, p);
    var means, line := Means(history, p.biases, p.weights), Line(p.muA, p.muB);
    forall i | 0 <= i < |history|
      ensures Elements(Truths(history))(i)
           == Residuals(line, means, Truths(history))(i) + Elements(ForecastMeans(history, p))(i)
    {
      ForecastIsReadOffTheLines(p, history[i].day);
      CasesAreSummarised(history, p, i);
    }
    SumAdd(Elements(Truths(history)), Residuals(line, means, Truths(history)), Elements(ForecastMeans(history, p)),
           |history|);
  }

  function ForecastMeans(history: History, p: Params): (mus: seq<real>)
    requires NonEmptyDays(history)
    ensures |mus| == |history|
  {
    seq(|history|, i requires 0 <= i < |history| => Apply(p, history[i].day).mu)
  }
}
