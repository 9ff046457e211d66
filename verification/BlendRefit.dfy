/**
 * When the refit on all scored days still finds its sources. The learner takes for granted that it does
 * (forecaster/blend_learners.py); the sample bar rises with the number of rows, so it need not.
 */
module BlendRefit {
  import opened Wrappers
  import opened BlendWeights
  import opened BlendGate
  import RealSums

  // ----- Exactly when the refit fails -----

  /** The samples a source must have, and whether it has them. */
  predicate ReachesBar(rows: seq<Row>, source: Source) {
    |Errors(rows, source)| >= MinSourceSamples(|rows|)
  }

  lemma LearnableIffTwoReach(rows: seq<Row>, base: Vector)
    ensures Learned(rows, base).Some? <==>
      exists a: Source, b: Source :: a != b && ReachesBar(rows, a) && ReachesBar(rows, b)
  {
    hide Errors, MinSourceSamples;
    assert forall source: Source :: Scored(rows, source) <==> ReachesBar(rows, source);
    if Learned(rows, base).Some? {
      assert Scored(rows, Google) || Scored(rows, Nws) || Scored(rows, OpenMeteo);
    }
  }

  /** Past the gate the base weights come back exactly when no two sources reach the bar of all the rows. */
  lemma RefitFailsExactlyWhen(rows: seq<Row>)
    requires PassesGate(rows)
    ensures AdaptiveWeights(rows) == KEEP_BASE <==>
      !exists a: Source, b: Source :: a != b && ReachesBar(rows, a) && ReachesBar(rows, b)
  {
    hide PassesGate, Learned;
    LearnableIffTwoReach(rows, BASE);
  }

  lemma {:induction false} FewerErrorsInFewerRows(rows: seq<Row>, dates: seq<int>, among: bool, source: Source)
    ensures |Errors(RowsOn(rows, dates, among), source)| <= |Errors(rows, source)|
  {
    if rows != [] {
      var k := |rows| - 1;
      FewerErrorsInFewerRows(rows[..k], dates, among, source);
      var before := RowsOn(rows[..k], dates, among);
      assert (before + [rows[k]])[..|before|] == before;
    }
  }

  /** It never fails where all the rows set no higher a bar than the training rows did. */
  lemma RefitKeepsSources(rows: seq<Row>)
    requires PassesGate(rows) && MinSourceSamples(|rows|) <= MinSourceSamples(|TrainRows(rows)|)
    ensures AdaptiveWeights(rows).adaptive
  {
    hide PassesGate, Learned, Errors, MinSourceSamples;
    TrainedIsLearned(rows);
    LearnableIffTwoReach(TrainRows(rows), BASE);
    var a: Source, b: Source :| a != b && ReachesBar(TrainRows(rows), a) && ReachesBar(TrainRows(rows), b);
    FewerErrorsInFewerRows(rows, HoldoutDates(rows), false, a);
    FewerErrorsInFewerRows(rows, HoldoutDates(rows), false, b);
    assert ReachesBar(rows, a) && ReachesBar(rows, b);
    LearnableIffTwoReach(rows, BASE);
  }

  lemma TrainedIsLearned(rows: seq<Row>)
    requires PassesGate(rows)
    ensures Learned(TrainRows(rows), BASE).Some?
  {
  }

  /** The bar is capped at fifteen, so with thirty training rows the refit is safe. */
  lemma ThirtyTrainingRowsSuffice(rows: seq<Row>)
    requires PassesGate(rows) && |TrainRows(rows)| >= 30
    ensures AdaptiveWeights(rows).adaptive
  {
    hide PassesGate, TrainRows;
    RefitKeepsSources(rows);
  }

  // ----- An input on which it fails -----

  /** Fifteen days; two sources forecast the first five and the first holdout day, and no source any other day. */
  function WitnessRow(day: nat): Row {
    if day < 5 || day == 10 then Row(day, Some(70.0), Some(70.0), Some(71.0), None, None)
    else Row(day, Some(70.0), None, None, None, None)
  }

  function Witness(n: nat): (rows: seq<Row>)
    ensures |rows| == n && forall i :: 0 <= i < n ==> rows[i] == WitnessRow(i)
  {
    seq(n, i requires 0 <= i < n => WitnessRow(i))
  }

  function Days(from: nat, to: nat): (days: seq<int>)
    requires from <= to
    ensures |days| == to - from && forall i :: 0 <= i < |days| ==> days[i] == from + i
  {
    seq(to - from, i requires 0 <= i < to - from => from + i)
  }

  lemma {:induction false} InsertLatest(dates: seq<int>, date: int)
    requires StrictlyBefore(dates, date)
    ensures InsertDate(dates, date) == dates + [date]
  {
    if dates != [] {
      InsertLatest(dates[1..], date);
      assert dates == [dates[0]] + dates[1..];
    }
  }

  predicate StrictlyBefore(dates: seq<int>, date: int) {
    (forall i, j :: 0 <= i < j < |dates| ==> dates[i] < dates[j]) && forall i :: 0 <= i < |dates| ==> dates[i] < date
  }

  lemma WitnessStep(n: nat)
    requires n > 0
    ensures Witness(n)[..n - 1] == Witness(n - 1) && Witness(n)[n - 1] == WitnessRow(n - 1)
      && WitnessRow(n - 1).date == n - 1
    ensures Witness(n) == Witness(n - 1) + [WitnessRow(n - 1)]
  {
  }

  lemma {:induction false} WitnessDates(n: nat)
    ensures Dates(Witness(n)) == Days(0, n)
  {
    if n > 0 {
      WitnessStep(n);
      WitnessDates(n - 1);
      InsertLatest(Days(0, n - 1), n - 1);
    }
  }

  lemma HeldOut(day: nat)
    ensures day in Days(10, 15) <==> 10 <= day < 15
  {
    if 10 <= day < 15 {
      assert Days(10, 15)[day - 10] == day;
    }
  }

  lemma {:induction false} WitnessTrainRows(n: nat)
    requires n <= 15
    ensures RowsOn(Witness(n), Days(10, 15), false) == Witness(if n < 10 then n else 10)
  {
    hide WitnessRow, Witness, Days;
    if n > 0 {
      WitnessStep(n);
      WitnessTrainRows(n - 1);
      HeldOut(n - 1);
    }
  }

  lemma {:induction false} WitnessHoldoutRows(n: nat)
    requires n <= 15
    ensures RowsOn(Witness(n), Days(10, 15), true) == if n < 10 then [] else Witness(n)[10..]
  {
    hide WitnessRow, Witness, Days;
    if n > 0 {
      WitnessStep(n);
      WitnessHoldoutRows(n - 1);
      HeldOut(n - 1);
    }
  }

  function SamplesAmong(n: nat): nat {
    if n <= 5 then n else if n <= 10 then 5 else 6
  }

  function Repeated(error: real, n: nat): (errors: seq<real>)
    ensures |errors| == n && forall i :: 0 <= i < n ==> errors[i] == error
  {
    seq(n, _ => error)
  }

  lemma {:induction false} WitnessErrors(n: nat)
    ensures Errors(Witness(n), Google) == Repeated(0.0, SamplesAmong(n))
    ensures Errors(Witness(n), Nws) == Repeated(1.0, SamplesAmong(n))
    ensures Errors(Witness(n), OpenMeteo) == [] && Errors(Witness(n), History) == []
  {
    hide Witness;
    if n > 0 {
      WitnessStep(n);
      WitnessErrors(n - 1);
    }
  }

  lemma MeanOfRepeated(error: real, n: nat)
    requires n > 0
    ensures RealSums.Mean(Repeated(error, n)) == error
  {
    RealSums.SumConstant(RealSums.Elements(Repeated(error, n)), error, n);
    MultipleOverItself(error, n as real, error * n as real);
  }

  lemma MultipleOverItself(x: real, n: real, r: real)
    requires n > 0.0 && r == x * n
    ensures r / n == x
  {
  }

  const TRAINED := Vector(0.74 * 2.0 / 3.0, 0.74 / 3.0, 0.18, 0.08)

  lemma WitnessScores()
    ensures InverseScores(Witness(10)) == Vector(2.0, 1.0, 0.0, 0.0)
    ensures Scored(Witness(10), Google) && Scored(Witness(10), Nws)
    ensures !Scored(Witness(10), OpenMeteo) && !Scored(Witness(10), History)
  {
    hide RealSums.Mean, Errors;
    WitnessErrors(10);
    MeanOfRepeated(0.0, 5);
    MeanOfRepeated(1.0, 5);
  }

  lemma WitnessMass()
    ensures MissingMass(Witness(10), BASE) == 0.26
  {
    hide Scored, Witness;
    WitnessScores();
  }

  lemma WitnessPart(source: Source)
    ensures At(Unnormalized(Witness(10), BASE), source) == At(TRAINED, source)
  {
    hide InverseScores, Scored, MissingMass, Normalize, Witness;
    WitnessScores();
    WitnessMass();
    NormalizedScores();
  }

  lemma NormalizedScores()
    ensures Normalize(Vector(2.0, 1.0, 0.0, 0.0)) == Vector(2.0 / 3.0, 1.0 / 3.0, 0.0, 0.0)
  {
    hide Quotient;
    Thirds();
    var v := Vector(2.0, 1.0, 0.0, 0.0);
    assert PositivePart(v) == v && Sum(v) == 3.0;
  }

  lemma Thirds()
    ensures Quotient(2.0, 3.0) == 2.0 / 3.0 && Quotient(1.0, 3.0) == 1.0 / 3.0 && Quotient(0.0, 3.0) == 0.0
  {
  }

  lemma WitnessTrains()
    ensures Learned(Witness(10), BASE) == Some(TRAINED)
  {
    hide InverseScores, Scored, Unnormalized, Normalize, Probability, Witness;
    WitnessScores();
    BaseIsProbability();
    LearnedIsProbability(Witness(10), BASE);
    WitnessPart(Google);
    WitnessPart(Nws);
    WitnessPart(OpenMeteo);
    WitnessPart(History);
  }

  const CANDIDATE := Vector(0.285 + 0.185 * 2.0 / 3.0, 0.27 + 0.185 / 3.0, 0.18, 0.08)

  lemma WitnessCandidate()
    requires |Dates(Witness(15))| == 15
    ensures Candidate(Witness(15), TRAINED) == CANDIDATE
  {
    hide Normalize, Dates;
    BaseIsProbability();
    assert LearnedShare(15) == 0.25;
    assert Mix(BASE, TRAINED, 0.25) == CANDIDATE;
    MixIsProbability(BASE, TRAINED, 0.25);
  }

  lemma UnscoredDayIsNotBlendable(day: nat, weights: Vector)
    requires !(day < 5 || day == 10)
    ensures !Blendable(WitnessRow(day), weights)
  {
  }

  /** On the witness's holdout only the first day can be judged. */
  lemma {:induction false} WitnessHoldoutErrors(n: nat, weights: Vector)
    requires 11 <= n <= 15 && weights.google > 0.0 && weights.nws > 0.0
    ensures BlendErrors(Witness(n)[10..], weights)
         == [Distance((weights.google * 70.0 + weights.nws * 71.0) / (weights.google + weights.nws), 70.0)]
  {
    var rows := Witness(n)[10..];
    assert rows[..|rows| - 1] == Witness(n - 1)[10..];
    assert rows[|rows| - 1] == WitnessRow(n - 1);
    if n == 11 {
      assert Witness(10)[10..] == [];
    } else {
      WitnessHoldoutErrors(n - 1, weights);
      UnscoredDayIsNotBlendable(n - 1, weights);
    }
  }

  lemma SingleMean(x: real)
    ensures RealSums.Mean([x]) == x
  {
    assert RealSums.SumTo(RealSums.Elements([x]), 1) == RealSums.SumTo(RealSums.Elements([x]), 0) + x;
  }

  lemma WitnessImproves()
    ensures Improves(Witness(15)[10..], CANDIDATE)
  {
    hide RealSums.Mean, BlendErrors;
    WitnessHoldoutErrors(15, BASE);
    WitnessHoldoutErrors(15, CANDIDATE);
    SingleMean(Distance((0.38 * 70.0 + 0.36 * 71.0) / (0.38 + 0.36), 70.0));
    SingleMean(Distance((CANDIDATE.google * 70.0 + CANDIDATE.nws * 71.0) / (CANDIDATE.google + CANDIDATE.nws), 70.0));
  }

  /**
   * Fifteen days on which every gate is passed and the refit finds no source at all: five samples of ten training
   * rows are enough, six of all fifteen rows are not.
   */
  lemma RefitCanLoseItsSources()
    ensures var rows := Witness(15);
            && |Dates(rows)| == 15 && PassesGate(rows)
            && Learned(rows, BASE).None? && AdaptiveWeights(rows) == KEEP_BASE
  {
    hide *;
    WitnessPasses();
    WitnessUnlearned();
    RefitFails(Witness(15));
  }

  lemma WitnessHoldoutDates()
    ensures HoldoutDates(Witness(15)) == Days(10, 15)
  {
    hide Dates, Witness;
    WitnessDates(15);
  }

  lemma WitnessPasses()
    ensures |Dates(Witness(15))| == 15 && PassesGate(Witness(15))
  {
    hide Dates, Witness, RowsOn, Learned, Candidate, Improves, HoldoutDates;
    WitnessDates(15);
    WitnessHoldoutDates();
    WitnessTrainRows(15);
    WitnessHoldoutRows(15);
    WitnessTrains();
    WitnessCandidate();
    WitnessImproves();
  }

  lemma WitnessUnlearned()
    ensures Learned(Witness(15), BASE).None?
  {
    hide Errors, Witness;
    WitnessErrors(15);
  }

  lemma RefitFails(rows: seq<Row>)
    requires Learned(rows, BASE).None?
    ensures AdaptiveWeights(rows) == KEEP_BASE
  {
  }
}
