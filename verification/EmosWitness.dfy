/** Two small histories on which a member seen for the first time moves the EMOS forecast. */
module EmosWitness {
  import opened Wrappers
  import opened RealSums
  import opened LeastSquares
  import opened Emos
  import opened EmosOffsets
  import opened EmosVariance

  /** Two days that member A forecast exactly. */
  const EXACT: History := [Case([Member("A", 0.0)], 0.0), Case([Member("A", 1.0)], 1.0)]

  /** Four days on which A and B average out, and their disagreement tells how far the truth strays. */
  const BALANCED: History := [
    Case([Member("A", 0.0), Member("B", 0.0)], 0.0), Case([Member("A", 0.0), Member("B", 0.0)], 0.0),
    Case([Member("A", 1.0), Member("B", -1.0)], 1.0), Case([Member("A", -1.0), Member("B", 1.0)], -1.0)]

  /** Trained on A alone, one degree of offset on B moves the forecast mean. */
  lemma NewMemberMovesTheMean() returns (p: Params)
    ensures FitEmos(EXACT, Equal) == Some(p)
    ensures var day := [Member("A", 0.0), Member("B", 0.0)];
            && p.muB == 1.0 && "B" !in p.biases
            && ShiftedForecast(EXACT, Equal, PerModel(map["B" := 1.0]), 0.0, day).mu != Apply(p, day).mu
  {
    hide FitEmos, Apply;
    p := FittedExact();
    UnlearnedOffsetLeaks(EXACT, Equal, [Member("A", 0.0), Member("B", 0.0)], p, 1);
  }

  lemma ExactBiases()
    ensures BiasTable(EXACT) == map["A" := 0.0]
  {
    var first := EXACT[..1];
    assert first == [Case([Member("A", 0.0)], 0.0)] && first[..0] == [];
    OneMember(Member("A", 0.0), 0.0, Tally(0.0, 0));
    OneMember(Member("A", 1.0), 1.0, Tally(0.0, 1));
    assert ErrorTally(Signed, first, "A") == Tally(0.0, 1);
    assert ErrorTally(Signed, EXACT, "A") == Tally(0.0, 2);
    assert Models(first) == {"A"};
    assert Models(EXACT) == {"A"};
  }

  lemma OneMember(member: Member, truth: real, start: Tally)
    ensures DayTally(Signed, [member], truth, member.model, start) == Add(start, member.high - truth)
    ensures forall model :: model != member.model ==> DayTally(Signed, [member], truth, model, start) == start
    ensures DayModels([member]) == {member.model}
  {
    assert [member][..0] == [];
    assert [member][0].model in DayModels([member]);
  }

  lemma FittedExact() returns (p: Params)
    ensures FitEmos(EXACT, Equal) == Some(p)
    ensures p.biases == map["A" := 0.0] && p.muB == 1.0
  {
    p := FitEmos(EXACT, Equal).value;
    ExactBiases();
    var means, truths := Means(EXACT, p.biases, p.weights), Truths(EXACT);
    SingleMean(Debiased(EXACT[0].day, p.biases), MemberWeights(EXACT[0].day, p.weights));
    SingleMean(Debiased(EXACT[1].day, p.biases), MemberWeights(EXACT[1].day, p.weights));
    assert means == [0.0, 1.0] && truths == [0.0, 1.0];
    TwoMoments(means, truths);
  }

  lemma SingleMean(values: seq<real>, weights: seq<real>)
    requires |values| == 1 && weights == [1.0]
    ensures WeightedMean(values, weights) == values[0]
  {
  }

  /** Trained on A and B, the mean line is flat and C moves nothing but the variance. */
  lemma NewMemberMovesTheVarianceAlone() returns (p: Params, o: real)
    ensures FitEmos(BALANCED, Equal) == Some(p)
    ensures var day := [Member("A", 0.0), Member("C", 0.0)];
            && p.muB == 0.0 && p.varD == 0.5 && "C" !in p.biases
            && ShiftedForecast(BALANCED, Equal, PerModel(map["C" := o]), 0.0, day).mu == Apply(p, day).mu
            && ShiftedForecast(BALANCED, Equal, PerModel(map["C" := o]), 0.0, day).variance > Apply(p, day).variance
  {
    hide FitEmos, Apply, ShiftedForecast;
    var day := [Member("A", 0.0), Member("C", 0.0)];
    p := FittedBalanced();
    o := UnlearnedOffsetLeaksIntoVariance(BALANCED, Equal, day, p, 1);
    MeanIgnoresOffsetsExactlyWhen(BALANCED, Equal, day, p);
  }

  function Pair(x: real, y: real): Day {
    [Member("A", x), Member("B", y)]
  }

  lemma PairAdds(history: History, x: real, y: real, truth: real)
    ensures var longer := history + [Case(Pair(x, y), truth)];
            && ErrorTally(Signed, longer, "A") == Add(ErrorTally(Signed, history, "A"), x - truth)
            && ErrorTally(Signed, longer, "B") == Add(ErrorTally(Signed, history, "B"), y - truth)
            && Models(longer) == Models(history) + {"A", "B"}
  {
    var longer, day := history + [Case(Pair(x, y), truth)], Pair(x, y);
    assert longer[..|history|] == history;
    OneMember(Member("A", x), truth, ErrorTally(Signed, history, "A"));
    OneMember(Member("A", x), truth, ErrorTally(Signed, history, "B"));
    assert day[..1] == [Member("A", x)];
    var start := ErrorTally(Signed, history, "B");
    assert DayTally(Signed, day, truth, "B", start) == Add(start, y - truth);
    assert day[0].model in DayModels(day) && day[1].model in DayModels(day);
  }

  lemma BalancedBiases()
    ensures BiasTable(BALANCED) == map["A" := 0.0, "B" := 0.0]
  {
    hide ErrorTally, Models;
    var h1 := [] + [Case(Pair(0.0, 0.0), 0.0)];
    var h2 := h1 + [Case(Pair(0.0, 0.0), 0.0)];
    var h3 := h2 + [Case(Pair(1.0, -1.0), 1.0)];
    assert BALANCED == h3 + [Case(Pair(-1.0, 1.0), -1.0)];
    NothingTallied();
    PairAdds([], 0.0, 0.0, 0.0);
    PairAdds(h1, 0.0, 0.0, 0.0);
    PairAdds(h2, 1.0, -1.0, 1.0);
    PairAdds(h3, -1.0, 1.0, -1.0);
  }

  lemma NothingTallied()
    ensures forall model :: ErrorTally(Signed, [], model) == Tally(0.0, 0)
    ensures Models([]) == {}
  {
  }

  lemma PairSummary(x: real, y: real, truth: real, biases: map<string, real>)
    requires biases == map["A" := 0.0, "B" := 0.0]
    ensures CaseMean(Case(Pair(x, y), truth), biases, map[]) == (x + y) / 2.0
    ensures SampleVariance(Debiased(Pair(x, y), biases)) == (x - y) * (x - y) / 2.0
  {
    var values, weights := Debiased(Pair(x, y), biases), MemberWeights(Pair(x, y), map[]);
    assert values == [x, y] && weights == [1.0, 1.0];
    TwoMoments(weights, values);
    PairVariance(values, x, y, (x + y) / 2.0);
  }

  lemma PairVariance(values: seq<real>, x: real, y: real, m: real)
    requires values == [x, y] && m + m == x + y
    ensures SampleVariance(values) == (x - y) * (x - y) / 2.0
  {
    TwoMoments(values, values);
    assert Mean(values) == m;
    var line := Line(m, 0.0);
    assert SquaredError(line, values, values) == Square(x - m) + Square(y - m);
    assert x - m == (x - y) / 2.0 && y - m == (y - x) / 2.0;
  }

  lemma FourMoments(xs: seq<real>, ys: seq<real>)
    requires |xs| == |ys| == 4
    ensures Total(xs) == xs[0] + xs[1] + xs[2] + xs[3] && Total(ys) == ys[0] + ys[1] + ys[2] + ys[3]
    ensures Inner(xs, ys) == xs[0] * ys[0] + xs[1] * ys[1] + xs[2] * ys[2] + xs[3] * ys[3]
    ensures Inner(xs, xs) == xs[0] * xs[0] + xs[1] * xs[1] + xs[2] * xs[2] + xs[3] * xs[3]
  {
    assert forall f :: SumTo(f, 4) == f(0) + f(1) + f(2) + f(3);
  }

  lemma FittedBalanced() returns (p: Params)
    ensures FitEmos(BALANCED, Equal) == Some(p)
    ensures p.biases == map["A" := 0.0, "B" := 0.0] && p.muB == 0.0 && p.varD == 0.5
  {
    hide CaseMean, SampleVariance, BiasTable, Determinant, Covariance;
    p := FitEmos(BALANCED, Equal).value;
    BalancedBiases();
    var means, truths := Means(BALANCED, p.biases, p.weights), Truths(BALANCED);
    var spreads := SpreadSquares(BALANCED, p.biases);
    PairSummary(0.0, 0.0, 0.0, p.biases);
    PairSummary(1.0, -1.0, 1.0, p.biases);
    PairSummary(-1.0, 1.0, -1.0, p.biases);
    assert BALANCED == [Case(Pair(0.0, 0.0), 0.0), Case(Pair(0.0, 0.0), 0.0), Case(Pair(1.0, -1.0), 1.0),
                        Case(Pair(-1.0, 1.0), -1.0)];
    assert means == [0.0, 0.0, 0.0, 0.0];
    assert truths == [0.0, 0.0, 1.0, -1.0];
    assert spreads == [0.0, 0.0, 2.0, 2.0];
    FlatFit(means, truths);
    var residuals := ResidualSquares(Line(0.0, 0.0), means, truths);
    assert residuals == [0.0, 0.0, 1.0, 1.0];
    SpreadFit(spreads, residuals);
  }

  lemma FlatFit(means: seq<real>, truths: seq<real>)
    requires means == [0.0, 0.0, 0.0, 0.0] && truths == [0.0, 0.0, 1.0, -1.0]
    ensures Fit(means, truths) == Line(0.0, 0.0)
  {
    FourMoments(means, truths);
  }

  lemma SpreadFit(spreads: seq<real>, residuals: seq<real>)
    requires spreads == [0.0, 0.0, 2.0, 2.0] && residuals == [0.0, 0.0, 1.0, 1.0]
    ensures VarianceLine(spreads, residuals) == Line(0.0, 0.5)
  {
    FourMoments(spreads, residuals);
  }
}
