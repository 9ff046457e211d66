/** Learned source weights and the walk-forward gate that must admit them (forecaster/blend_learners.py). */
module BlendWeights {
  import opened Wrappers
  import opened RealSums

  datatype Source = Google | Nws | OpenMeteo | History

  /** One number per source. */
  datatype Vector = Vector(google: real, nws: real, openMeteo: real, history: real)

  function At(v: Vector, source: Source): real {
    match source
    case Google => v.google
    case Nws => v.nws
    case OpenMeteo => v.openMeteo
    case History => v.history
  }

  const BASE := Vector(0.38, 0.36, 0.18, 0.08)
  const MIN_SCORED_DAYS := 15
  const MAX_LEARNED_SHARE := 0.60
  const HOLDOUT_MIN_DAYS := 5

  /** A scored day: the observed high and each source's forecast, where they are finite numbers. */
  datatype Row = Row(date: int, actual: Option<real>, google: Option<real>, nws: Option<real>, openMeteo: Option<real>,
                     history: Option<real>)

  function HighOf(row: Row, source: Source): Option<real> {
    match source
    case Google => row.google
    case Nws => row.nws
    case OpenMeteo => row.openMeteo
    case History => row.history
  }

  function Distance(x: real, y: real): (d: real)
    ensures d >= 0.0
  {
    if x >= y then x - y else y - x
  }

  // ----- Normalising -----

  function Positive(x: real): (p: real)
    ensures p >= 0.0
  {
    if x > 0.0 then x else 0.0
  }

  function Sum(v: Vector): real {
    v.google + v.nws + v.openMeteo + v.history
  }

  function PositivePart(v: Vector): Vector {
    Vector(Positive(v.google), Positive(v.nws), Positive(v.openMeteo), Positive(v.history))
  }

  function Quotient(x: real, total: real): real
    requires total > 0.0
  {
    x / total
  }

  function Divided(v: Vector, total: real): Vector
    requires total > 0.0
  {
    Vector(Quotient(v.google, total), Quotient(v.nws, total), Quotient(v.openMeteo, total), Quotient(v.history, total))
  }

  function Normalize(v: Vector): Vector {
    var total := Sum(PositivePart(v));
    if total <= 0.0 then BASE else Divided(PositivePart(v), total)
  }

  predicate NonNegative(v: Vector) {
    v.google >= 0.0 && v.nws >= 0.0 && v.openMeteo >= 0.0 && v.history >= 0.0
  }

  predicate Probability(v: Vector) {
    NonNegative(v) && Sum(v) == 1.0
  }

  lemma QuotientFacts(x: real, total: real)
    requires total > 0.0
    ensures x >= 0.0 <==> Quotient(x, total) >= 0.0
    ensures x > 0.0 <==> Quotient(x, total) > 0.0
    ensures Quotient(total, total) == 1.0
    ensures total == 1.0 ==> Quotient(x, total) == x
  {
  }

  lemma QuotientSum(a: real, b: real, c: real, d: real, total: real)
    requires total > 0.0
    ensures Quotient(a, total) + Quotient(b, total) + Quotient(c, total) + Quotient(d, total)
      == Quotient(a + b + c + d, total)
  {
  }

  /** Whatever it is given, normalising yields a probability vector; one that already is one stays as it is. */
  lemma NormalizeIsProbability(v: Vector)
    ensures Probability(Normalize(v))
    ensures Probability(v) ==> Normalize(v) == v
  {
    hide Quotient;
    var p := PositivePart(v);
    var total := Sum(p);
    if total > 0.0 {
      QuotientSum(p.google, p.nws, p.openMeteo, p.history, total);
      QuotientFacts(p.google, total);
      QuotientFacts(p.nws, total);
      QuotientFacts(p.openMeteo, total);
      QuotientFacts(p.history, total);
    }
  }

  // ----- Errors -----

  /** A source's absolute errors over the rows it can be scored on. */
  function Errors(rows: seq<Row>, source: Source): (errors: seq<real>)
    ensures |errors| <= |rows|
    ensures forall i :: 0 <= i < |errors| ==> errors[i] >= 0.0
  {
    if rows == [] then []
    else
      var before, last := Errors(rows[..|rows| - 1], source), rows[|rows| - 1];
      if last.actual.Some? && HighOf(last, source).Some?
      then before + [Distance(HighOf(last, source).value, last.actual.value)] else before
  }

  function MinSourceSamples(rowCount: nat): (n: nat)
    ensures 3 <= n <= MIN_SCORED_DAYS
    ensures 6 <= rowCount < 32 ==> 2 * n <= rowCount < 2 * n + 2
    ensures (rowCount < 6 ==> n == 3) && (rowCount >= 32 ==> n == 15)
  {
    var capped := if rowCount / 2 < MIN_SCORED_DAYS then rowCount / 2 else MIN_SCORED_DAYS;
    if capped < 3 then 3 else capped
  }

  predicate Scored(rows: seq<Row>, source: Source) {
    |Errors(rows, source)| >= MinSourceSamples(|rows|)
  }

  function Flooring(error: real): (floored: real)
    ensures floored >= 0.5
  {
    if error > 0.5 then error else 0.5
  }

  /** The error a scored source is judged by: its mean absolute error, floored at half a degree. */
  function FlooredError(rows: seq<Row>, source: Source): (error: real)
    requires Scored(rows, source)
    ensures error >= 0.5
  {
    Flooring(Mean(Errors(rows, source)))
  }

  function InverseScore(rows: seq<Row>, source: Source): (score: real)
    ensures score >= 0.0 && (Scored(rows, source) <==> score > 0.0)
  {
    if Scored(rows, source) then 1.0 / FlooredError(rows, source) else 0.0
  }

  function InverseScores(rows: seq<Row>): Vector {
    Vector(InverseScore(rows, Google), InverseScore(rows, Nws), InverseScore(rows, OpenMeteo),
           InverseScore(rows, History))
  }

  function ScoredCount(rows: seq<Row>): nat {
    (if Scored(rows, Google) then 1 else 0) + (if Scored(rows, Nws) then 1 else 0)
    + (if Scored(rows, OpenMeteo) then 1 else 0) + (if Scored(rows, History) then 1 else 0)
  }

  function MissingPart(rows: seq<Row>, base: Vector, source: Source): real {
    if Scored(rows, source) then 0.0 else At(base, source)
  }

  /** The base mass of the sources that cannot be scored. */
  function MissingMass(rows: seq<Row>, base: Vector): real {
    MissingPart(rows, base, Google) + MissingPart(rows, base, Nws)
    + MissingPart(rows, base, OpenMeteo) + MissingPart(rows, base, History)
  }

  function Scaled(x: real, mass: real): real {
    x * mass
  }

  function LearnedPart(rows: seq<Row>, base: Vector, source: Source, scores: Vector): real {
    if Scored(rows, source) then Scaled(At(scores, source), Positive(1.0 - MissingMass(rows, base)))
    else At(base, source)
  }

  function Unnormalized(rows: seq<Row>, base: Vector): Vector {
    var scores := Normalize(InverseScores(rows));
    Vector(LearnedPart(rows, base, Google, scores), LearnedPart(rows, base, Nws, scores),
           LearnedPart(rows, base, OpenMeteo, scores), LearnedPart(rows, base, History, scores))
  }

  /** Inverse-error weights, or nothing with fewer than two scored sources. */
  function Learned(rows: seq<Row>, base: Vector): Option<Vector> {
    if ScoredCount(rows) < 2 then None else Some(Normalize(Unnormalized(rows, base)))
  }

  /** Scores of unscored sources are zero, so the scored ones share everything. */
  lemma ScoresAreShared(rows: seq<Row>, source: Source)
    requires ScoredCount(rows) >= 1
    ensures Probability(Normalize(InverseScores(rows))) && Sum(PositivePart(InverseScores(rows))) > 0.0
    ensures At(Normalize(InverseScores(rows)), source)
      == Quotient(InverseScore(rows, source), Sum(PositivePart(InverseScores(rows))))
    ensures !Scored(rows, source) ==> At(Normalize(InverseScores(rows)), source) == 0.0
  {
    hide Scored, InverseScore, Quotient;
    NormalizeIsProbability(InverseScores(rows));
    QuotientFacts(InverseScore(rows, source), Sum(PositivePart(InverseScores(rows))));
    ZeroQuotient(InverseScore(rows, source), Sum(PositivePart(InverseScores(rows))));
  }

  lemma ZeroQuotient(x: real, total: real)
    requires total > 0.0
    ensures x == 0.0 ==> Quotient(x, total) == 0.0
  {
  }

  lemma MassInUnit(rows: seq<Row>, base: Vector)
    requires Probability(base)
    ensures 0.0 <= MissingMass(rows, base) <= 1.0
  {
    hide Scored;
  }

  lemma ScaledSum(a: real, b: real, c: real, d: real, mass: real)
    requires a + b + c + d == 1.0
    ensures Scaled(a, mass) + Scaled(b, mass) + Scaled(c, mass) + Scaled(d, mass) == mass
  {
    assert (a + b + c + d) * mass == a * mass + b * mass + c * mass + d * mass;
  }

  lemma ScaledFacts(x: real, mass: real)
    ensures x >= 0.0 && mass >= 0.0 ==> Scaled(x, mass) >= 0.0
    ensures x == 0.0 ==> Scaled(x, mass) == 0.0
  {
  }

  /** Each part: a share of the scored mass, or the base weight it had. */
  lemma PartOf(rows: seq<Row>, base: Vector, source: Source)
    requires Probability(base) && ScoredCount(rows) >= 2
    ensures var scores, mass := Normalize(InverseScores(rows)), 1.0 - MissingMass(rows, base);
            && At(Unnormalized(rows, base), source) == Scaled(At(scores, source), mass)
                + MissingPart(rows, base, source)
            && At(Unnormalized(rows, base), source) >= 0.0
  {
    hide Scored, Normalize, InverseScores, MissingMass, Scaled, Quotient;
    var scores, mass := Normalize(InverseScores(rows)), 1.0 - MissingMass(rows, base);
    ScoresAreShared(rows, source);
    MassInUnit(rows, base);
    ScaledFacts(At(scores, source), mass);
  }

  /** Before the last normalising the learned vector already is a probability vector. */
  lemma UnnormalizedIsProbability(rows: seq<Row>, base: Vector)
    requires Probability(base) && ScoredCount(rows) >= 2
    ensures Probability(Unnormalized(rows, base))
  {
    hide Scored, Normalize, InverseScores, Scaled, MissingPart, LearnedPart;
    var scores, mass := Normalize(InverseScores(rows)), 1.0 - MissingMass(rows, base);
    ScoresAreShared(rows, Google);
    ScaledSum(scores.google, scores.nws, scores.openMeteo, scores.history, mass);
    PartOf(rows, base, Google);
    PartOf(rows, base, Nws);
    PartOf(rows, base, OpenMeteo);
    PartOf(rows, base, History);
  }

  /** Learned weights are a probability vector, and unscored sources keep exactly their base mass. */
  lemma LearnedIsProbability(rows: seq<Row>, base: Vector)
    requires Probability(base) && Learned(rows, base).Some?
    ensures Probability(Learned(rows, base).value) && Learned(rows, base).value == Unnormalized(rows, base)
    ensures forall source :: !Scored(rows, source) ==> At(Learned(rows, base).value, source) == At(base, source)
  {
    hide Scored, ScoredCount, MissingMass, Normalize, InverseScores, Scaled;
    UnnormalizedIsProbability(rows, base);
    NormalizeIsProbability(Unnormalized(rows, base));
  }

  lemma InverseTimes(rows: seq<Row>, source: Source)
    requires Scored(rows, source)
    ensures InverseScore(rows, source) * FlooredError(rows, source) == 1.0
  {
    hide Mean;
  }

  lemma QuotientTimes(score: real, total: real, mass: real, error: real)
    requires total > 0.0 && score * error == 1.0
    ensures Scaled(Quotient(score, total), mass) * error == Quotient(mass, total)
  {
    assert score / total * mass * error == score * error / total * mass;
  }

  /** Among scored sources, weight times floored error is one constant: weights are inverse to errors. */
  lemma WeightTimesError(rows: seq<Row>, base: Vector, source: Source)
    requires Probability(base) && Learned(rows, base).Some? && Scored(rows, source)
    ensures Sum(PositivePart(InverseScores(rows))) > 0.0
    ensures At(Learned(rows, base).value, source) * FlooredError(rows, source)
         == Quotient(1.0 - MissingMass(rows, base), Sum(PositivePart(InverseScores(rows))))
  {
    hide Scored, MissingMass, FlooredError, InverseScore, InverseScores, Normalize, Quotient, Scaled, LearnedPart;
    LearnedIsProbability(rows, base);
    ScoresAreShared(rows, source);
    PartOf(rows, base, source);
    InverseTimes(rows, source);
    QuotientTimes(InverseScore(rows, source), Sum(PositivePart(InverseScores(rows))), 1.0 - MissingMass(rows, base),
                  FlooredError(rows, source));
  }

  lemma SmallerFactor(w: real, e: real, w': real, e': real, c: real)
    requires w * e == c && w' * e' == c && c >= 0.0 && 0.0 < e <= e'
    ensures w >= w' && (c > 0.0 && e < e' ==> w > w')
  {
  }

  /** A scored source with a lower error never gets less learned weight, and gets more once errors and mass are real. */
  lemma LowerErrorNeverWeighsLess(rows: seq<Row>, base: Vector, better: Source, worse: Source)
    requires Probability(base) && Learned(rows, base).Some? && Scored(rows, better) && Scored(rows, worse)
    requires Mean(Errors(rows, better)) <= Mean(Errors(rows, worse))
    ensures At(Learned(rows, base).value, better) >= At(Learned(rows, base).value, worse)
    ensures MissingMass(rows, base) < 1.0
            && Mean(Errors(rows, better)) < Mean(Errors(rows, worse)) && Mean(Errors(rows, worse)) > 0.5 ==>
              At(Learned(rows, base).value, better) > At(Learned(rows, base).value, worse)
  {
    hide *;
    EnoughScored(rows, base);
    ScoresAreShared(rows, better);
    WeightTimesError(rows, base, better);
    WeightTimesError(rows, base, worse);
    FlooredIs(rows, better);
    FlooredIs(rows, worse);
    MassInUnit(rows, base);
    var mass, total := 1.0 - MissingMass(rows, base), Sum(PositivePart(InverseScores(rows)));
    QuotientFacts(mass, total);
    ByErrors(At(Learned(rows, base).value, better), At(Learned(rows, base).value, worse),
             Mean(Errors(rows, better)), Mean(Errors(rows, worse)), Quotient(mass, total));
  }

  lemma EnoughScored(rows: seq<Row>, base: Vector)
    requires Learned(rows, base).Some?
    ensures ScoredCount(rows) >= 2
  {
  }

  lemma FlooredIs(rows: seq<Row>, source: Source)
    requires Scored(rows, source)
    ensures Errors(rows, source) != [] && FlooredError(rows, source) == Flooring(Mean(Errors(rows, source)))
  {
  }

  lemma ByErrors(w: real, w': real, e: real, e': real, c: real)
    requires w * Flooring(e) == c && w' * Flooring(e') == c && c >= 0.0 && e <= e'
    ensures w >= w' && (c > 0.0 && e < e' && e' > 0.5 ==> w > w')
  {
    SmallerFactor(w, Flooring(e), w', Flooring(e'), c);
  }
}
