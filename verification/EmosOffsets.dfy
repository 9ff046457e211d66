/**
 * How the EMOS forecast responds to chronic offsets: each model's values shifted by its own
 * constant, and all truths shifted by another (forecaster/postproc_models.py).
 */
module EmosOffsets {
  import opened Wrappers
  import opened RealSums
  import opened LeastSquares
  import opened Emos

  datatype Offsets = PerModel(table: map<string, real>) | Uniform(amount: real)

  function OffsetOf(off: Offsets, model: string): real {
    match off
    case PerModel(table) => Lookup(table, model, 0.0)
    case Uniform(amount) => amount
  }

  function ShiftDay(day: Day, off: Offsets): (r: Day)
    ensures |r| == |day|
    ensures forall i :: 0 <= i < |day| ==> r[i] == Member(day[i].model, day[i].high + OffsetOf(off, day[i].model))
  {
    seq(|day|, i requires 0 <= i < |day| => Member(day[i].model, day[i].high + OffsetOf(off, day[i].model)))
  }

  /** Members shifted by their offsets, truths by t. */
  function Shift(history: History, off: Offsets, t: real): (r: History)
    ensures |r| == |history|
    ensures forall i :: 0 <= i < |history| ==> r[i] == Case(ShiftDay(history[i].day, off), history[i].truth + t)
  {
    seq(|history|, i requires 0 <= i < |history| => Case(ShiftDay(history[i].day, off), history[i].truth + t))
  }

  /** The learned biases took up each model's offset relative to the truths. */
  predicate Absorbed(biases: map<string, real>, biases': map<string, real>, off: Offsets, t: real) {
    biases'.Keys == biases.Keys && forall m :: m in biases ==> biases'[m] == biases[m] + OffsetOf(off, m) - t
  }

  // ----- Biases absorb offsets -----

  /** A tally whose every error moved by e. */
  function Moved(tally: Tally, e: real): Tally {
    Tally(tally.total + tally.count as real * e, tally.count)
  }

  lemma MovedAdd(tally: Tally, error: real, e: real)
    ensures Add(Moved(tally, e), error + e) == Moved(Add(tally, error), e)
  {
    Distribute((tally.count + 1) as real, tally.count as real, 1.0, e);
  }

  lemma {:induction false} DayTallyMoves(day: Day, truth: real, model: string, start: Tally, off: Offsets, t: real,
          e: real)
    requires e == OffsetOf(off, model) - t
    ensures DayTally(Signed, ShiftDay(day, off), truth + t, model, Moved(start, e))
         == Moved(DayTally(Signed, day, truth, model, start), e)
  {
    hide Moved;
    if day != [] {
      var k := |day| - 1;
      assert ShiftDay(day, off)[..k] == ShiftDay(day[..k], off);
      DayTallyMoves(day[..k], truth, model, start, off, t, e);
      MovedAdd(DayTally(Signed, day[..k], truth, model, start), day[k].high - truth, e);
    }
  }

  lemma NothingMoves(e: real)
    ensures Moved(Tally(0.0, 0), e) == Tally(0.0, 0)
  {
  }

  lemma {:induction false} SignedTallyMoves(history: History, model: string, off: Offsets, t: real, e: real)
    requires e == OffsetOf(off, model) - t
    ensures ErrorTally(Signed, Shift(history, off, t), model) == Moved(ErrorTally(Signed, history, model), e)
  {
    hide DayTally;
    if history == [] {
      NothingMoves(e);
    } else {
      hide Moved;
      var k := |history| - 1;
      assert Shift(history, off, t)[..k] == Shift(history[..k], off, t);
      SignedTallyMoves(history[..k], model, off, t, e);
      DayTallyMoves(history[k].day, history[k].truth, model, ErrorTally(Signed, history[..k], model), off, t, e);
    }
  }

  lemma {:induction false} DayTallyKept(day: Day, truth: real, model: string, start: Tally, off: Offsets, t: real,
          b: real, b': real)
    requires b' == b + OffsetOf(off, model) - t
    ensures DayTally(SquaredAbout(b'), ShiftDay(day, off), truth + t, model, start)
         == DayTally(SquaredAbout(b), day, truth, model, start)
  {
    hide Square;
    if day != [] {
      var k := |day| - 1;
      assert ShiftDay(day, off)[..k] == ShiftDay(day[..k], off);
      DayTallyKept(day[..k], truth, model, start, off, t, b, b');
      if day[k].model == model {
        assert ((day[k].high + OffsetOf(off, model)) - b') - (truth + t) == (day[k].high - b) - truth;
      }
    }
  }

  lemma {:induction false} SquaredTallyKept(history: History, model: string, off: Offsets, t: real, b: real, b': real)
    requires b' == b + OffsetOf(off, model) - t
    ensures ErrorTally(SquaredAbout(b'), Shift(history, off, t), model) == ErrorTally(SquaredAbout(b), history, model)
  {
    hide DayTally;
    if history != [] {
      var k := |history| - 1;
      assert Shift(history, off, t)[..k] == Shift(history[..k], off, t);
      SquaredTallyKept(history[..k], model, off, t, b, b');
      DayTallyKept(history[k].day, history[k].truth, model, ErrorTally(SquaredAbout(b), history[..k], model), off, t,
                   b, b');
    }
  }

  lemma {:induction false} ShiftKeepsModels(history: History, off: Offsets, t: real)
    ensures Models(Shift(history, off, t)) == Models(history)
  {
    if history != [] {
      var k := |history| - 1;
      assert Shift(history, off, t)[..k] == Shift(history[..k], off, t);
      ShiftKeepsModels(history[..k], off, t);
      var day := history[k].day;
      assert DayModels(ShiftDay(day, off)) == DayModels(day) by {
        forall i | 0 <= i < |day| ensures ShiftDay(day, off)[i].model == day[i].model {
        }
      }
    }
  }

  lemma MovedAverage(tally: Tally, e: real)
    requires tally.count > 0
    ensures Average(Moved(tally, e)) == Average(tally) + e
  {
    var n := tally.count as real;
    assert n * e / n == e;
  }

  lemma BiasMoves(history: History, off: Offsets, t: real, m: string, e: real)
    requires m in Models(history) && m in Models(Shift(history, off, t)) && e == OffsetOf(off, m) - t
    ensures BiasTable(Shift(history, off, t))[m] == BiasTable(history)[m] + e
  {
    hide Models, ErrorTally, Average, Moved;
    ErrorTallyCounts(Signed, history, m);
    ErrorTallyCounts(Signed, Shift(history, off, t), m);
    SignedTallyMoves(history, m, off, t, e);
    MovedAverage(ErrorTally(Signed, history, m), e);
  }

  /** Each learned bias moves by exactly its model's offset relative to the truths. */
  lemma BiasesAbsorb(history: History, off: Offsets, t: real, biases: map<string, real>, biases': map<string, real>)
    requires biases == BiasTable(history) && biases' == BiasTable(Shift(history, off, t))
    ensures biases.Keys == Models(history)
    ensures Absorbed(biases, biases', off, t)
  {
    hide ErrorTally, Average;
    ShiftKeepsModels(history, off, t);
    forall m | m in biases ensures biases'[m] == biases[m] + OffsetOf(off, m) - t {
      BiasMoves(history, off, t, m, OffsetOf(off, m) - t);
    }
  }

  lemma WeightKept(history: History, off: Offsets, t: real, m: string, biases: map<string, real>,
          biases': map<string, real>)
    requires biases == BiasTable(history) && biases' == BiasTable(Shift(history, off, t))
    requires m in Models(history) && m in Models(Shift(history, off, t))
    ensures InverseVarianceWeight(Shift(history, off, t), biases', m) == InverseVarianceWeight(history, biases, m)
  {
    BiasesAbsorb(history, off, t, biases, biases');
    SquaredTallyKept(history, m, off, t, biases[m], biases'[m]);
  }

  lemma WeightsKept(history: History, off: Offsets, t: real, mode: WeightMode)
    ensures WeightTable(Shift(history, off, t), BiasTable(Shift(history, off, t)), mode)
         == WeightTable(history, BiasTable(history), mode)
  {
    ShiftKeepsModels(history, off, t);
    if mode == InverseVariance {
      var biases, biases' := BiasTable(history), BiasTable(Shift(history, off, t));
      forall m | m in Models(history)
        ensures InverseVarianceWeight(Shift(history, off, t), biases', m) == InverseVarianceWeight(history, biases, m)
      {
        WeightKept(history, off, t, m, biases, biases');
      }
    }
  }

  // ----- Day summaries under a translation -----

  /** What is left of each member's shift after bias correction: t for a learned model, its whole offset otherwise. */
  function LeftoverShift(day: Day, biases: map<string, real>, off: Offsets, t: real): (r: seq<real>)
    ensures |r| == |day|
  {
    seq(|day|, i requires 0 <= i < |day| => if day[i].model in biases then t else OffsetOf(off, day[i].model))
  }

  predicate AddedTo(xs: seq<real>, es: seq<real>, xs': seq<real>) {
    |xs| == |es| == |xs'| && forall i :: 0 <= i < |xs| ==> xs'[i] == xs[i] + es[i]
  }

  lemma DebiasedShifts(day: Day, biases: map<string, real>, biases': map<string, real>, off: Offsets, t: real)
    requires Absorbed(biases, biases', off, t)
    ensures AddedTo(Debiased(day, biases), LeftoverShift(day, biases, off, t), Debiased(ShiftDay(day, off), biases'))
  {
  }

  lemma InnerAdds(ws: seq<real>, xs: seq<real>, es: seq<real>, xs': seq<real>)
    requires AddedTo(xs, es, xs') && |ws| == |xs|
    ensures Inner(ws, xs') == Inner(ws, xs) + Inner(ws, es)
  {
    forall i | 0 <= i < |ws|
      ensures Products(ws, xs')(i) == Products(ws, xs)(i) + Products(ws, es)(i)
    {
      Distribute(xs'[i], xs[i], es[i], ws[i]);
    }
    SumAdd(Products(ws, xs'), Products(ws, xs), Products(ws, es), |ws|);
  }

  lemma {:induction false} PositiveTotal(ws: seq<real>, k: nat)
    requires k <= |ws| && forall i :: 0 <= i < |ws| ==> ws[i] > 0.0
    ensures SumTo(Elements(ws), k) >= 0.0
    ensures k > 0 ==> SumTo(Elements(ws), k) > 0.0
  {
    if k > 0 {
      PositiveTotal(ws, k - 1);
    }
  }

  lemma QuotientAdds(p: real, q: real, n: real, p': real)
    requires n > 0.0 && p' == p + q
    ensures p' / n == p / n + q / n
  {
  }

  /** With positive weights the weighted mean is additive. */
  lemma WeightedMeanAdds(xs: seq<real>, es: seq<real>, xs': seq<real>, ws: seq<real>)
    requires AddedTo(xs, es, xs') && |ws| == |xs| > 0
    requires forall i :: 0 <= i < |ws| ==> ws[i] > 0.0
    ensures WeightedMean(xs', ws) == WeightedMean(xs, ws) + WeightedMean(es, ws)
  {
    hide SumTo, Inner;
    PositiveTotal(ws, |ws|);
    assert Total(ws) > 0.0;
    InnerAdds(ws, xs, es, xs');
    QuotientAdds(Inner(ws, xs), Inner(ws, es), Total(ws), Inner(ws, xs'));
  }

  lemma WeightedMeanOfConstant(es: seq<real>, ws: seq<real>, t: real)
    requires |ws| == |es| > 0 && forall i :: 0 <= i < |ws| ==> ws[i] > 0.0
    requires forall i :: 0 <= i < |es| ==> es[i] == t
    ensures WeightedMean(es, ws) == t
  {
    PositiveTotal(ws, |ws|);
    assert Total(ws) > 0.0;
    var z := (i: int) => 0.0;
    forall i | 0 <= i < |ws| ensures Products(ws, es)(i) == t * Elements(ws)(i) + 0.0 * z(i) {
    }
    SumLinear(Products(ws, es), t, Elements(ws), 0.0, z, |ws|);
    MultipleOverItself(t, Total(ws), Inner(ws, es));
  }

  lemma MultipleOverItself(t: real, n: real, r: real)
    requires n > 0.0 && r == t * n
    ensures r / n == t
  {
  }

  lemma MeanTranslates(xs: seq<real>, xs': seq<real>, t: real)
    requires |xs| > 0 && Translated(xs, xs', t)
    ensures Mean(xs') == Mean(xs) + t
  {
    hide SumTo;
    TranslatedTotal(xs, xs', t);
    var n := |xs| as real;
    MultipleOverItself(t, n, t * n);
    QuotientAdds(Total(xs), t * n, n, Total(xs'));
  }

  /** Spread ignores a common shift. */
  lemma SampleVarianceTranslates(xs: seq<real>, xs': seq<real>, t: real)
    requires Translated(xs, xs', t)
    ensures SampleVariance(xs') == SampleVariance(xs)
  {
    if |xs| >= 2 {
      MeanTranslates(xs, xs', t);
      var line, line' := Line(Mean(xs), 0.0), Line(Mean(xs'), 0.0);
      forall i | 0 <= i < |xs|
        ensures SquaredResiduals(line', xs', xs')(i) == SquaredResiduals(line, xs, xs)(i)
      {
        assert Residual(line', xs'[i], xs'[i]) == Residual(line, xs[i], xs[i]);
      }
      SumCongruence(SquaredResiduals(line', xs', xs'), SquaredResiduals(line, xs, xs), |xs|);
    }
  }

  /** A day whose members all have learned biases moves as a block, by the truths' shift. */
  lemma LearnedDayTranslates(day: Day, biases: map<string, real>, biases': map<string, real>, off: Offsets, t: real)
    requires Absorbed(biases, biases', off, t)
    requires forall i :: 0 <= i < |day| ==> day[i].model in biases || OffsetOf(off, day[i].model) == t
    ensures Translated(Debiased(day, biases), Debiased(ShiftDay(day, off), biases'), t)
  {
    DebiasedShifts(day, biases, biases', off, t);
  }

  lemma CaseMeanTranslates(c: Case, c': Case, biases: map<string, real>, biases': map<string, real>,
                           weights: map<string, real>, off: Offsets, t: real)
    requires |c.day| > 0 && c' == Case(ShiftDay(c.day, off), c.truth + t)
    requires Absorbed(biases, biases', off, t) && DayModels(c.day) <= biases.Keys
    requires forall m :: m in weights ==> weights[m] > 0.0
    ensures CaseMean(c', biases', weights) == CaseMean(c, biases, weights) + t
    ensures SampleVariance(Debiased(c'.day, biases')) == SampleVariance(Debiased(c.day, biases))
  {
    var xs, xs' := Debiased(c.day, biases), Debiased(c'.day, biases');
    var ws := MemberWeights(c.day, weights);
    assert MemberWeights(c'.day, weights) == ws;
    forall i | 0 <= i < |c.day| ensures c.day[i].model in biases {
      assert c.day[i].model in DayModels(c.day);
    }
    LearnedDayTranslates(c.day, biases, biases', off, t);
    var es := LeftoverShift(c.day, biases, off, t);
    WeightedMeanAdds(xs, es, xs', ws);
    WeightedMeanOfConstant(es, ws, t);
    SampleVarianceTranslates(xs, xs', t);
  }

  lemma {:induction false} CaseModelsKnown(history: History, i: nat)
    requires i < |history|
    ensures DayModels(history[i].day) <= Models(history)
  {
    if i < |history| - 1 {
      CaseModelsKnown(history[..|history| - 1], i);
    }
  }

  lemma SummariesTranslate(history: History, off: Offsets, t: real, biases: map<string, real>,
                           biases': map<string, real>, weights: map<string, real>)
    requires NonEmptyDays(history)
    requires Absorbed(biases, biases', off, t) && Models(history) <= biases.Keys
    requires forall m :: m in weights ==> weights[m] > 0.0
    ensures NonEmptyDays(Shift(history, off, t))
    ensures Translated(Means(history, biases, weights), Means(Shift(history, off, t), biases', weights), t)
    ensures Translated(Truths(history), Truths(Shift(history, off, t)), t)
    ensures SpreadSquares(Shift(history, off, t), biases') == SpreadSquares(history, biases)
  {
    var history' := Shift(history, off, t);
    forall i | 0 <= i < |history|
      ensures |history'[i].day| > 0
      ensures CaseMean(history'[i], biases', weights) == CaseMean(history[i], biases, weights) + t
      ensures SpreadSquares(history', biases')[i] == SpreadSquares(history, biases)[i]
    {
      CaseModelsKnown(history, i);
      CaseMeanTranslates(history[i], history'[i], biases, biases', weights, off, t);
    }
  }

  lemma ResidualsKept(xs: seq<real>, ys: seq<real>, xs': seq<real>, ys': seq<real>, t: real, line: Line, line': Line)
    requires |xs| == |ys| && Translated(xs, xs', t) && Translated(ys, ys', t)
    requires line'.slope == line.slope && line'.intercept == line.intercept + t - line.slope * t
    ensures ResidualSquares(line', xs', ys') == ResidualSquares(line, xs, ys)
  {
    forall i | 0 <= i < |xs| ensures Residual(line', xs'[i], ys'[i]) == Residual(line, xs[i], ys[i]) {
      Distribute(xs'[i], xs[i], t, line.slope);
    }
    assert ResidualSquares(line', xs', ys') == ResidualSquares(line, xs, ys);
  }

  /** The fit on the shifted history: same weights, slope and variance line; the mean line follows the truths. */
  lemma FitFollowsTheTruths(history: History, mode: WeightMode, off: Offsets, t: real, p: Params)
    requires NonEmptyDays(history) && FitEmos(history, mode) == Some(p)
    ensures NonEmptyDays(Shift(history, off, t))
    ensures var fit := FitEmos(Shift(history, off, t), mode);
            && fit.Some?
            && fit.value == p.(biases := fit.value.biases, muA := p.muA + t - p.muB * t)
            && Absorbed(p.biases, fit.value.biases, off, t)
  {
    hide Fit, VarianceLine, Means, SpreadSquares, ResidualSquares, Truths;
    var history' := Shift(history, off, t);
    var biases' := BiasTable(history');
    BiasesAbsorb(history, off, t, p.biases, biases');
    WeightsKept(history, off, t, mode);
    SummariesTranslate(history, off, t, p.biases, biases', p.weights);
    var xs, ys := Means(history, p.biases, p.weights), Truths(history);
    var xs', ys' := Means(history', biases', p.weights), Truths(history');
    FitTranslates(xs, ys, xs', ys', t, t, p.muB);
    ResidualsKept(xs, ys, xs', ys', t, Fit(xs, ys), Fit(xs', ys'));
  }

  // ----- The forecast -----

  lemma AffineShift(a: real, b: real, t: real, mean: real, e: real, a': real, mean': real)
    requires a' == a + t - b * t && mean' == mean + e
    ensures a' + b * mean' == a + b * mean + t + b * (e - t)
  {
  }

  /**
   * The exact response to any offsets: the mean moves with the truths, plus the slope times the weighted
   * part of the target's shift that no learned bias absorbed.
   */
  lemma ForecastResponds(history: History, mode: WeightMode, off: Offsets, t: real, day: Day, p: Params, p': Params)
    requires NonEmptyDays(history) && NonEmptyDays(Shift(history, off, t)) && |day| > 0
    requires FitEmos(history, mode) == Some(p) && FitEmos(Shift(history, off, t), mode) == Some(p')
    ensures var leftover := WeightedMean(LeftoverShift(day, p.biases, off, t), MemberWeights(day, p.weights));
            Apply(p', ShiftDay(day, off)).mu == Apply(p, day).mu + t + p.muB * (leftover - t)
  {
    hide FitEmos, WeightedMean, Debiased, SampleVariance;
    FitFollowsTheTruths(history, mode, off, t, p);
    var ws := MemberWeights(day, p.weights);
    assert MemberWeights(ShiftDay(day, off), p.weights) == ws;
    PositiveWeights(history, mode, p, day);
    DebiasedShifts(day, p.biases, p'.biases, off, t);
    var xs, es, xs' := Debiased(day, p.biases), LeftoverShift(day, p.biases, off, t),
        Debiased(ShiftDay(day, off), p'.biases);
    WeightedMeanAdds(xs, es, xs', ws);
    AffineShift(p.muA, p.muB, t, WeightedMean(xs, ws), WeightedMean(es, ws), p'.muA, WeightedMean(xs', ws));
  }

  lemma PositiveWeights(history: History, mode: WeightMode, p: Params, day: Day)
    requires NonEmptyDays(history) && FitEmos(history, mode) == Some(p)
    ensures forall i :: 0 <= i < |day| ==> MemberWeights(day, p.weights)[i] > 0.0
  {
  }

  /** Every member of the day either has a learned bias or is shifted exactly as the truths are. */
  predicate Covered(day: Day, biases: map<string, real>, off: Offsets, t: real) {
    forall i :: 0 <= i < |day| ==> day[i].model in biases || OffsetOf(off, day[i].model) == t
  }

  /** A covered forecast moves by exactly the truths' shift, and its variance does not move. */
  lemma CoveredForecastFollowsTheTruths(history: History, mode: WeightMode, off: Offsets, t: real, day: Day,
          p: Params, p': Params)
    requires NonEmptyDays(history) && NonEmptyDays(Shift(history, off, t)) && |day| > 0
    requires FitEmos(history, mode) == Some(p) && FitEmos(Shift(history, off, t), mode) == Some(p')
    requires Covered(day, p.biases, off, t)
    ensures Apply(p', ShiftDay(day, off)) == Forecast(Apply(p, day).mu + t, Apply(p, day).variance)
  {
    hide FitEmos, WeightedMean, Debiased, SampleVariance;
    ForecastResponds(history, mode, off, t, day, p, p');
    PositiveWeights(history, mode, p, day);
    WeightedMeanOfConstant(LeftoverShift(day, p.biases, off, t), MemberWeights(day, p.weights), t);
    FitFollowsTheTruths(history, mode, off, t, p);
    LearnedDayTranslates(day, p.biases, p'.biases, off, t);
    SampleVarianceTranslates(Debiased(day, p.biases), Debiased(ShiftDay(day, off), p'.biases), t);
  }

  /**
   * Chronic member offsets, the same on every training day and on the target, change nothing that is fitted
   * except the biases, and leave the forecast alone for every target whose shifted models were trained on.
   */
  lemma ChronicOffsetsAbsorbed(history: History, mode: WeightMode, table: map<string, real>, day: Day, p: Params)
    requires NonEmptyDays(history) && |day| > 0 && FitEmos(history, mode) == Some(p)
    ensures var off := PerModel(table);
            && NonEmptyDays(Shift(history, off, 0.0))
            && var fit := FitEmos(Shift(history, off, 0.0), mode);
            && fit.Some?
            && fit.value == p.(biases := fit.value.biases)
            && (Covered(day, p.biases, off, 0.0) ==> Apply(fit.value, ShiftDay(day, off)) == Apply(p, day))
            && DebiasedRange(ShiftDay(day, off), fit.value.biases) == DebiasedRange(day, p.biases)
  {
    hide *;
    var off := PerModel(table);
    FitFollowsTheTruths(history, mode, off, 0.0, p);
    var p' := FitEmos(Shift(history, off, 0.0), mode).value;
    if Covered(day, p.biases, off, 0.0) {
      CoveredForecastFollowsTheTruths(history, mode, off, 0.0, day, p, p');
    }
    RangeKept(day, p.biases, p'.biases, off, 0.0);
  }

  /** The forecast for the shifted day, fitted on the shifted history. */
  ghost function ShiftedForecast(history: History, mode: WeightMode, off: Offsets, t: real, day: Day): Forecast
    requires NonEmptyDays(history) && FitEmos(history, mode).Some? && |day| > 0
  {
    FitFollowsTheTruths(history, mode, off, t, FitEmos(history, mode).value);
    Apply(FitEmos(Shift(history, off, t), mode).value, ShiftDay(day, off))
  }

  lemma {:induction false} NonNegativeProducts(ws: seq<real>, es: seq<real>, j: nat)
    requires |ws| == |es| && j < |es|
    requires forall i :: 0 <= i < |ws| ==> ws[i] > 0.0 && es[i] >= 0.0
    requires es[j] > 0.0
    ensures Inner(ws, es) > 0.0
  {
    var f := Products(ws, es);
    forall i | 0 <= i < |ws| ensures f(i) >= 0.0 {
      if es[i] > 0.0 {
        SameSignProduct(ws[i], es[i], f(i));
      }
    }
    SameSignProduct(ws[j], es[j], f(j));
    SumNonNegative(f, |ws|);
  }

  /** An offset on one unlearned member of the target leaks into the mean whenever the mean line has a slope. */
  lemma UnlearnedOffsetLeaks(history: History, mode: WeightMode, day: Day, p: Params, j: nat)
    requires NonEmptyDays(history) && FitEmos(history, mode) == Some(p)
    requires j < |day| && day[j].model !in p.biases && p.muB != 0.0
    ensures ShiftedForecast(history, mode, PerModel(map[day[j].model := 1.0]), 0.0, day).mu != Apply(p, day).mu
  {
    hide FitEmos, Apply, SumTo, Inner;
    var off := PerModel(map[day[j].model := 1.0]);
    FitFollowsTheTruths(history, mode, off, 0.0, p);
    ForecastResponds(history, mode, off, 0.0, day, p, FitEmos(Shift(history, off, 0.0), mode).value);
    var es, ws := LeftoverShift(day, p.biases, off, 0.0), MemberWeights(day, p.weights);
    PositiveWeights(history, mode, p, day);
    NonNegativeProducts(ws, es, j);
    PositiveTotal(ws, |ws|);
    PositiveQuotient(Inner(ws, es), Total(ws));
    NonZeroProduct(p.muB, WeightedMean(es, ws));
  }

  lemma PositiveQuotient(x: real, n: real)
    requires x > 0.0 && n > 0.0
    ensures x / n > 0.0
  {
  }

  lemma NonZeroProduct(b: real, e: real)
    requires b != 0.0 && e > 0.0
    ensures b * (e - 0.0) != 0.0
  {
    if b * e == 0.0 {
      NonZeroFactor(b, e);
    }
  }

  /** Exactly when the mean ignores every table of member offsets: no slope, or no unlearned target member. */
  lemma MeanIgnoresOffsetsExactlyWhen(history: History, mode: WeightMode, day: Day, p: Params)
    requires NonEmptyDays(history) && |day| > 0 && FitEmos(history, mode) == Some(p)
    ensures (forall table :: ShiftedForecast(history, mode, PerModel(table), 0.0, day).mu == Apply(p, day).mu)
        <==> p.muB == 0.0 || forall i :: 0 <= i < |day| ==> day[i].model in p.biases
  {
    hide FitEmos, Apply;
    if p.muB == 0.0 || forall i :: 0 <= i < |day| ==> day[i].model in p.biases {
      forall table ensures ShiftedForecast(history, mode, PerModel(table), 0.0, day).mu == Apply(p, day).mu {
        var off := PerModel(table);
        FitFollowsTheTruths(history, mode, off, 0.0, p);
        var p' := FitEmos(Shift(history, off, 0.0), mode).value;
        if p.muB == 0.0 {
          ForecastResponds(history, mode, off, 0.0, day, p, p');
        } else {
          CoveredForecastFollowsTheTruths(history, mode, off, 0.0, day, p, p');
        }
      }
    } else {
      var j :| 0 <= j < |day| && day[j].model !in p.biases;
      UnlearnedOffsetLeaks(history, mode, day, p, j);
    }
  }

  /** Shifting every member and every truth by t shifts the mean by t and leaves the variance alone. */
  lemma CommonShiftCarriesThrough(history: History, mode: WeightMode, t: real, day: Day, p: Params)
    requires NonEmptyDays(history) && |day| > 0 && FitEmos(history, mode) == Some(p)
    ensures var off := Uniform(t);
            && NonEmptyDays(Shift(history, off, t))
            && var fit := FitEmos(Shift(history, off, t), mode);
            && fit.Some?
            && Apply(fit.value, ShiftDay(day, off)) == Forecast(Apply(p, day).mu + t, Apply(p, day).variance)
  {
    hide Apply;
    var off := Uniform(t);
    FitFollowsTheTruths(history, mode, off, t, p);
    CoveredForecastFollowsTheTruths(history, mode, off, t, day, p, FitEmos(Shift(history, off, t), mode).value);
  }

  lemma {:induction false} LearnedValuesTranslate(day: Day, biases: map<string, real>, biases': map<string, real>,
          off: Offsets, t: real)
    requires Absorbed(biases, biases', off, t)
    ensures Translated(LearnedValues(day, biases), LearnedValues(ShiftDay(day, off), biases'), t)
  {
    if day != [] {
      var k := |day| - 1;
      assert ShiftDay(day, off)[..k] == ShiftDay(day[..k], off);
      LearnedValuesTranslate(day[..k], biases, biases', off, t);
    }
  }

  lemma {:induction false} ExtremesTranslate(s: seq<real>, s': seq<real>, t: real)
    requires |s| > 0 && Translated(s, s', t)
    ensures Largest(s') == Largest(s) + t && Smallest(s') == Smallest(s) + t
  {
    if |s| > 1 {
      ExtremesTranslate(s[..|s| - 1], s'[..|s| - 1], t);
    }
  }

  /** The published range drops unlearned members, so it never moves. */
  lemma RangeKept(day: Day, biases: map<string, real>, biases': map<string, real>, off: Offsets, t: real)
    requires Absorbed(biases, biases', off, t)
    ensures DebiasedRange(ShiftDay(day, off), biases') == DebiasedRange(day, biases)
  {
    LearnedValuesTranslate(day, biases, biases', off, t);
    var s, s' := LearnedValues(day, biases), LearnedValues(ShiftDay(day, off), biases');
    if |s| >= 2 {
      ExtremesTranslate(s, s', t);
    }
  }
}
