/** The accumulating loops of `fit_emos` and `_weighted_debiased_mean`, proved against the functions of Emos. */
module EmosFitting {
  import opened Wrappers
  import opened RealSums
  import opened LeastSquares
  import opened Emos

  /** The two accumulation passes: signed errors for the biases, squared ones for the weights. */
  datatype Pass = BiasPass | VariancePass(biases: map<string, real>)

  function KindFor(pass: Pass, model: string): ErrorKind {
    match pass
    case BiasPass => Signed
    case VariancePass(biases) => SquaredAbout(Lookup(biases, model, 0.0))
  }

  lemma {:induction false} AbsentModelTally(kind: ErrorKind, history: History, model: string)
    requires model !in Models(history)
    ensures ErrorTally(kind, history, model) == Tally(0.0, 0)
  {
    if history != [] {
      var k := |history| - 1;
      AbsentModelTally(kind, history[..k], model);
      DayTallyCounts(kind, history[k].day, history[k].truth, model, Tally(0.0, 0));
    }
  }

  method Accumulate(history: History, pass: Pass) returns (sums: map<string, Tally>)
    ensures sums.Keys == Models(history)
    ensures forall m :: m in sums ==> sums[m] == ErrorTally(KindFor(pass, m), history, m)
  {
    sums := map[];
    for i := 0 to |history|
      invariant sums.Keys == Models(history[..i])
      invariant forall m :: m in sums ==> sums[m] == ErrorTally(KindFor(pass, m), history[..i], m)
    {
      assert history[..i + 1][..i] == history[..i];
      sums := AccumulateDay(history[..i], history[i], pass, sums);
    }
    assert history[..|history|] == history;
  }

  method AccumulateDay(past: History, today: Case, pass: Pass, before: map<string, Tally>) returns (sums: map<string,
          Tally>)
    requires before.Keys == Models(past)
    requires forall m :: m in before ==> before[m] == ErrorTally(KindFor(pass, m), past, m)
    ensures sums.Keys == before.Keys + DayModels(today.day)
    ensures forall m :: m in sums ==>
      sums[m] == DayTally(KindFor(pass, m), today.day, today.truth, m, ErrorTally(KindFor(pass, m), past, m))
  {
    hide ErrorTally, MemberError, DayTally, KindFor, DayModels, Models;
    var day := today.day;
    NothingTallied(past, pass, today.truth);
    sums := before;
    for j := 0 to |day|
      invariant sums.Keys == before.Keys + DayModels(day[..j])
      invariant forall m :: m in sums ==>
        sums[m] == DayTally(KindFor(pass, m), day[..j], today.truth, m, ErrorTally(KindFor(pass, m), past, m))
    {
      var member := day[j];
      var m := member.model;
      var kind := KindFor(pass, m);
      if m !in sums {
        NewModelTally(kind, past, day, j, today.truth);
      }
      forall other ensures DayTally(KindFor(pass, other), day[..j + 1], today.truth, other,
                                    ErrorTally(KindFor(pass, other), past, other))
          == (var tally := DayTally(KindFor(pass, other), day[..j], today.truth, other,
                                    ErrorTally(KindFor(pass, other), past, other));
              if other == m then Add(tally, MemberError(KindFor(pass, other), member.high, today.truth)) else tally)
      {
        DayTallyStep(KindFor(pass, other), day, j, today.truth, other, ErrorTally(KindFor(pass, other), past, other));
      }
      DayModelsStep(day, j);
      var acc := if m in sums then sums[m] else Tally(0.0, 0);
      sums := sums[m := Tally(acc.total + MemberError(kind, member.high, today.truth), acc.count + 1)];
    }
    assert day[..|day|] == day;
  }

  lemma NothingTallied(past: History, pass: Pass, truth: real)
    ensures forall m ::
              DayTally(KindFor(pass, m), [], truth, m, ErrorTally(KindFor(pass, m), past, m))
              == ErrorTally(KindFor(pass, m), past, m)
    ensures DayModels([]) == {}
  {
  }

  /** One more member adds its error to its own model's tally only. */
  lemma DayTallyStep(kind: ErrorKind, day: Day, j: nat, truth: real, model: string, start: Tally)
    requires j < |day|
    ensures DayTally(kind, day[..j + 1], truth, model, start)
         == (var tally := DayTally(kind, day[..j], truth, model, start);
             if day[j].model == model then Add(tally, MemberError(kind, day[j].high, truth)) else tally)
  {
    assert day[..j + 1][..j] == day[..j];
  }

  lemma DayModelsStep(day: Day, j: nat)
    requires j < |day|
    ensures DayModels(day[..j + 1]) == DayModels(day[..j]) + {day[j].model}
  {
    assert day[..j + 1][..j] == day[..j];
  }

  lemma NewModelTally(kind: ErrorKind, past: History, day: Day, j: nat, truth: real)
    requires j < |day| && day[j].model !in Models(past) && day[j].model !in DayModels(day[..j])
    ensures DayTally(kind, day[..j], truth, day[j].model, ErrorTally(kind, past, day[j].model)) == Tally(0.0, 0)
  {
    AbsentModelTally(kind, past, day[j].model);
    DayTallyCounts(kind, day[..j], truth, day[j].model, Tally(0.0, 0));
  }

  method WeightedDebiasedMean(day: Day, biases: map<string, real>, weights: map<string, real>) returns (mean: real)
    requires |day| > 0
    ensures mean == WeightedMean(Debiased(day, biases), MemberWeights(day, weights))
  {
    var values, ws := Debiased(day, biases), MemberWeights(day, weights);
    var numerator, denominator := 0.0, 0.0;
    for i := 0 to |day|
      invariant numerator == SumTo(Products(ws, values), i)
      invariant denominator == SumTo(Elements(ws), i)
    {
      var weight := Lookup(weights, day[i].model, 1.0);
      numerator := numerator + weight * (day[i].high - Lookup(biases, day[i].model, 0.0));
      denominator := denominator + weight;
    }
    if denominator <= 0.0 {
      return Mean(values);
    }
    return numerator / denominator;
  }

  method Learn(history: History, mode: WeightMode) returns (biases: map<string, real>, weights: map<string, real>)
    ensures biases == BiasTable(history)
    ensures weights == WeightTable(history, biases, mode)
  {
    hide ErrorTally;
    var sums := Accumulate(history, BiasPass);
    forall m | m in sums ensures sums[m].count > 0 {
      ErrorTallyCounts(Signed, history, m);
    }
    biases := map m | m in sums :: sums[m].total / sums[m].count as real;
    weights := map[];
    if mode == InverseVariance {
      var squares := Accumulate(history, VariancePass(biases));
      forall m | m in squares ensures squares[m].count > 0 {
        ErrorTallyCounts(KindFor(VariancePass(biases), m), history, m);
      }
      weights := map m | m in squares ::
        var mse := squares[m].total / squares[m].count as real;
        1.0 / (if mse >= MINIMUM_ERROR_VARIANCE then mse else MINIMUM_ERROR_VARIANCE);
    }
  }

  method FitVariance(history: History, biases: map<string, real>, line: Line, means: seq<real>, truths: seq<real>)
    returns (variance: Line)
    requires |means| == |truths| == |history| > 0
    ensures variance == VarianceLine(SpreadSquares(history, biases), ResidualSquares(line, means, truths))
  {
    hide Fit, SampleVariance, Mean;
    var residualSquares, spreadSquares := [], [];
    for i := 0 to |history|
      invariant |residualSquares| == |spreadSquares| == i
      invariant forall j :: 0 <= j < i ==> residualSquares[j] == ResidualSquares(line, means, truths)[j]
      invariant forall j :: 0 <= j < i ==> spreadSquares[j] == SpreadSquares(history, biases)[j]
    {
      var resid := truths[i] - (line.intercept + line.slope * means[i]);
      residualSquares := residualSquares + [Square(resid)];
      spreadSquares := spreadSquares + [SampleVariance(Debiased(history[i].day, biases))];
    }
    assert residualSquares == ResidualSquares(line, means, truths);
    assert spreadSquares == SpreadSquares(history, biases);
    variance := Fit(spreadSquares, residualSquares);
    if variance.slope < 0.0 {
      variance := Line(Mean(residualSquares), 0.0);
    }
  }

  /** The whole fit, as the source accumulates it. */
  method FitFrom(history: History, mode: WeightMode) returns (r: Option<Params>)
    requires NonEmptyDays(history)
    ensures r == FitEmos(history, mode)
  {
    hide Fit, VarianceLine, BiasTable, WeightTable;
    if |history| < 2 {
      return None;
    }
    var biases, weights := Learn(history, mode);
    var means, truths := [], Truths(history);
    for i := 0 to |history|
      invariant |means| == i && forall j :: 0 <= j < i ==> means[j] == CaseMean(history[j], biases, weights)
    {
      var mean := WeightedDebiasedMean(history[i].day, biases, weights);
      means := means + [mean];
    }
    assert means == Means(history, biases, weights);
    var line := Fit(means, truths);
    var variance := FitVariance(history, biases, line, means, truths);
    r := Some(Params(biases, weights, line.intercept, line.slope, variance.intercept, variance.slope));
  }
}
