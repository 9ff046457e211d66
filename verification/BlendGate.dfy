/** The walk-forward gate: learned weights go live only after beating the base blend on the most recent days. */
module BlendGate {
  import opened Wrappers
  import opened BlendWeights
  import opened RealOrder
  import RealSums

  // ----- Mixing -----

  function Mixed(b: real, l: real, share: real): real {
    b * (1.0 - share) + l * share
  }

  function Mix(base: Vector, learned: Vector, share: real): Vector {
    Vector(Mixed(base.google, learned.google, share), Mixed(base.nws, learned.nws, share),
           Mixed(base.openMeteo, learned.openMeteo, share), Mixed(base.history, learned.history, share))
  }

  lemma MixedFacts(b: real, l: real, share: real)
    requires 0.0 <= share <= 1.0
    ensures b >= 0.0 && l >= 0.0 ==> Mixed(b, l, share) >= 0.0
    ensures b == l ==> Mixed(b, l, share) == b
  {
    if b >= 0.0 && l >= 0.0 {
      NonNegativeProduct(b, 1.0 - share);
      NonNegativeProduct(l, share);
    }
  }

  lemma NonNegativeProduct(x: real, y: real)
    requires x >= 0.0 && y >= 0.0
    ensures x * y >= 0.0
  {
  }

  lemma MixedSum(a: real, b: real, c: real, d: real, w: real, x: real, y: real, z: real, share: real)
    requires a + b + c + d == 1.0 && w + x + y + z == 1.0
    ensures Mixed(a, w, share) + Mixed(b, x, share) + Mixed(c, y, share) + Mixed(d, z, share) == 1.0
  {
    assert (a + b + c + d) * (1.0 - share) == a * (1.0 - share) + b * (1.0 - share) + c * (1.0 - share)
        + d * (1.0 - share);
    assert (w + x + y + z) * share == w * share + x * share + y * share + z * share;
  }

  /** Mixing two probability vectors gives one, which normalising leaves alone; agreed weights stay. */
  lemma MixIsProbability(base: Vector, learned: Vector, share: real)
    requires Probability(base) && Probability(learned) && 0.0 <= share <= 1.0
    ensures Probability(Mix(base, learned, share)) && Normalize(Mix(base, learned, share)) == Mix(base, learned, share)
    ensures forall source :: At(learned, source) == At(base, source) ==>
      At(Mix(base, learned, share), source) == At(base, source)
  {
    hide Mixed, Normalize;
    MixedSum(base.google, base.nws, base.openMeteo, base.history, learned.google, learned.nws, learned.openMeteo,
             learned.history, share);
    MixedFacts(base.google, learned.google, share);
    MixedFacts(base.nws, learned.nws, share);
    MixedFacts(base.openMeteo, learned.openMeteo, share);
    MixedFacts(base.history, learned.history, share);
    NormalizeIsProbability(Mix(base, learned, share));
  }

  // ----- Days -----

  lemma PrependAscends(first: int, rest: seq<int>)
    requires StrictlyAscending(rest) && forall date :: date in rest ==> first < date
    ensures StrictlyAscending([first] + rest)
  {
    var all := [first] + rest;
    forall i, j | 0 <= i < j < |all| ensures all[i] < all[j] {
      assert all[j] == rest[j - 1] && rest[j - 1] in rest;
    }
  }

  function InsertDate(dates: seq<int>, date: int): (r: seq<int>)
    requires StrictlyAscending(dates)
    ensures StrictlyAscending(r) && forall d :: d in r <==> d in dates || d == date
  {
    if dates == [] || date < dates[0] then [date] + dates
    else if date == dates[0] then dates
    else
      assert dates == [dates[0]] + dates[1..];
      var rest := InsertDate(dates[1..], date);
      PrependAscends(dates[0], rest);
      [dates[0]] + rest
  }

  /** The distinct dates, in order. */
  function Dates(rows: seq<Row>): (dates: seq<int>)
    ensures StrictlyAscending(dates) && forall d :: d in dates <==> exists i :: 0 <= i < |rows| && rows[i].date == d
  {
    if rows == [] then []
    else
      assert rows == rows[..|rows| - 1] + [rows[|rows| - 1]];
      InsertDate(Dates(rows[..|rows| - 1]), rows[|rows| - 1].date)
  }

  function HoldoutCount(days: nat): nat {
    if days / 3 > HOLDOUT_MIN_DAYS then days / 3 else HOLDOUT_MIN_DAYS
  }

  function HoldoutDates(rows: seq<Row>): seq<int> {
    var dates := Dates(rows);
    var count := HoldoutCount(|dates|);
    if count >= |dates| then dates else dates[|dates| - count..]
  }

  /** The holdout is the latest third of the days, but never fewer than five. */
  lemma HoldoutIsTheLatestThird(rows: seq<Row>)
    requires |Dates(rows)| >= 15
    ensures var dates, held := Dates(rows), HoldoutDates(rows);
            && 5 <= |held| && 3 * |held| <= |dates| < 3 * |held| + 3
            && held == dates[|dates| - |held|..]
  {
  }

  /** The rows whose date is among the held-out ones, or those whose date is not. */
  function RowsOn(rows: seq<Row>, dates: seq<int>, among: bool): (kept: seq<Row>)
    ensures |kept| <= |rows|
    ensures forall row :: row in kept <==> row in rows && (row.date in dates) == among
  {
    if rows == [] then []
    else
      var before, last := RowsOn(rows[..|rows| - 1], dates, among), rows[|rows| - 1];
      if (last.date in dates) == among then before + [last] else before
  }

  function TrainRows(rows: seq<Row>): seq<Row> {
    RowsOn(rows, HoldoutDates(rows), false)
  }

  function HoldoutRows(rows: seq<Row>): seq<Row> {
    RowsOn(rows, HoldoutDates(rows), true)
  }

  /** No peeking: every training day precedes every holdout day, and between them they are all the rows. */
  lemma TrainPrecedesHoldout(rows: seq<Row>, earlier: Row, later: Row)
    requires earlier in TrainRows(rows) && later in HoldoutRows(rows)
    ensures earlier.date < later.date
  {
    var dates, held := Dates(rows), HoldoutDates(rows);
    var i :| 0 <= i < |rows| && rows[i] == earlier;
    assert earlier.date in dates && earlier.date !in held && later.date in held;
    var a :| 0 <= a < |dates| && dates[a] == earlier.date;
    var count := HoldoutCount(|dates|);
    assert count < |dates|;
    var b :| 0 <= b < |held| && held[b] == later.date;
    assert dates[|dates| - count + b] == later.date;
    assert a < |dates| - count;
  }

  lemma {:induction false} TrainAndHoldoutAreAll(rows: seq<Row>, dates: seq<int>)
    ensures multiset(RowsOn(rows, dates, false)) + multiset(RowsOn(rows, dates, true)) == multiset(rows)
  {
    if rows != [] {
      var k := |rows| - 1;
      assert rows == rows[..k] + [rows[k]];
      TrainAndHoldoutAreAll(rows[..k], dates);
    }
  }

  // ----- The blend's error -----

  const SOURCES := [Google, Nws, OpenMeteo, History]

  function WeightedTerm(row: Row, weights: Vector, source: Source): real {
    if HighOf(row, source).Some? && At(weights, source) > 0.0 then At(weights, source) * HighOf(row, source).value
    else 0.0
  }

  function UsedWeight(row: Row, weights: Vector, source: Source): real {
    if HighOf(row, source).Some? && At(weights, source) > 0.0 then At(weights, source) else 0.0
  }

  function BlendTotal(row: Row, weights: Vector): real {
    WeightedTerm(row, weights, Google) + WeightedTerm(row, weights, Nws) + WeightedTerm(row, weights, OpenMeteo)
    + WeightedTerm(row, weights, History)
  }

  function BlendWeight(row: Row, weights: Vector): real {
    UsedWeight(row, weights, Google) + UsedWeight(row, weights, Nws) + UsedWeight(row, weights, OpenMeteo)
    + UsedWeight(row, weights, History)
  }

  /** What source k adds to a sum over the usable sources, if it has a forecast and a positive weight. */
  function UsableWeights(row: Row, weights: Vector): int -> real {
    k => if 0 <= k < 4 && HighOf(row, SOURCES[k]).Some? && At(weights, SOURCES[k]) > 0.0 then At(weights, SOURCES[k])
         else 0.0
  }

  function UsableTerms(row: Row, weights: Vector): int -> real {
    k => if 0 <= k < 4 && HighOf(row, SOURCES[k]).Some? && At(weights, SOURCES[k]) > 0.0
         then At(weights, SOURCES[k]) * HighOf(row, SOURCES[k]).value else 0.0
  }

  lemma FourTerms(f: int -> real)
    ensures RealSums.SumTo(f, 4) == f(0) + f(1) + f(2) + f(3)
  {
    assert RealSums.SumTo(f, 2) == f(0) + f(1);
    assert RealSums.SumTo(f, 3) == f(0) + f(1) + f(2);
  }

  /** The blend of a row sums over every source that is usable in it. */
  lemma BlendSumsOverSources(row: Row, weights: Vector)
    ensures BlendTotal(row, weights) == RealSums.SumTo(UsableTerms(row, weights), 4)
    ensures BlendWeight(row, weights) == RealSums.SumTo(UsableWeights(row, weights), 4)
  {
    FourTerms(UsableTerms(row, weights));
    FourTerms(UsableWeights(row, weights));
  }

  predicate Blendable(row: Row, weights: Vector) {
    row.actual.Some? && BlendWeight(row, weights) > 0.0
  }

  function BlendErrors(rows: seq<Row>, weights: Vector): seq<real> {
    if rows == [] then []
    else
      var before, last := BlendErrors(rows[..|rows| - 1], weights), rows[|rows| - 1];
      if Blendable(last, weights)
      then before + [Distance(BlendTotal(last, weights) / BlendWeight(last, weights), last.actual.value)] else before
  }

  /** The errors are those of the rows that can be judged: how far the blend was from what was observed. */
  lemma {:induction false} BlendErrorsAre(rows: seq<Row>, weights: Vector, x: real)
    ensures x in BlendErrors(rows, weights) <==>
      exists row :: row in rows && Blendable(row, weights) && IsBlendError(row, weights, x)
  {
    hide BlendTotal, BlendWeight;
    if rows != [] {
      var k := |rows| - 1;
      BlendErrorsAre(rows[..k], weights, x);
      assert rows == rows[..k] + [rows[k]];
    }
  }

  predicate IsBlendError(row: Row, weights: Vector, x: real)
    requires Blendable(row, weights)
  {
    var blend := BlendTotal(row, weights) / BlendWeight(row, weights);
    x >= 0.0 && (x == blend - row.actual.value || x == row.actual.value - blend)
  }

  function BlendedMae(rows: seq<Row>, weights: Vector): Option<real> {
    var errors := BlendErrors(rows, weights);
    if errors == [] then None else Some(RealSums.Mean(errors))
  }

  // ----- The decision -----

  datatype Outcome = Outcome(adaptive: bool, weights: Vector)

  const KEEP_BASE := Outcome(false, BASE)

  function LearnedShare(days: nat): (share: real)
    requires days >= MIN_SCORED_DAYS
    ensures 0.25 <= share <= MAX_LEARNED_SHARE
  {
    var raw := 0.25 + (days - MIN_SCORED_DAYS) as real * 0.02;
    if raw < MAX_LEARNED_SHARE then raw else MAX_LEARNED_SHARE
  }

  /** The learned share starts at a quarter, grows by two points a day and stops at three fifths. */
  lemma ShareGrowsWithTheDays(days: nat)
    requires days >= 15
    ensures LearnedShare(15) == 0.25 && (days >= 33 ==> LearnedShare(days) == 0.6)
    ensures 15 < days <= 32 ==> LearnedShare(days) - LearnedShare(days - 1) == 0.02
  {
  }

  function Candidate(rows: seq<Row>, learned: Vector): Vector
    requires |Dates(rows)| >= MIN_SCORED_DAYS
  {
    Normalize(Mix(BASE, learned, LearnedShare(|Dates(rows)|)))
  }

  /** Both blends can be judged on the holdout, and the candidate is strictly better. */
  predicate Improves(holdout: seq<Row>, candidate: Vector) {
    && BlendedMae(holdout, BASE).Some? && BlendedMae(holdout, candidate).Some?
    && BlendedMae(holdout, candidate).value < BlendedMae(holdout, BASE).value
  }

  /** Enough days, learnable training weights, and a strict improvement on the holdout. */
  predicate PassesGate(rows: seq<Row>) {
    && |Dates(rows)| >= MIN_SCORED_DAYS && Learned(TrainRows(rows), BASE).Some?
    && Improves(HoldoutRows(rows), Candidate(rows, Learned(TrainRows(rows), BASE).value))
  }

  function AdaptiveWeights(rows: seq<Row>): Outcome {
    if !PassesGate(rows) then KEEP_BASE
    else
      var learned := Learned(rows, BASE);
      if learned.None? then KEEP_BASE else Outcome(true, Candidate(rows, learned.value))
  }

  lemma BaseIsProbability()
    ensures Probability(BASE)
  {
  }

  /**
   * Whatever the rows, the weights handed back are a probability vector; sources that cannot be scored keep their base
   * mass.
   */
  lemma WeightsAreProbability(rows: seq<Row>)
    ensures Probability(AdaptiveWeights(rows).weights)
    ensures forall source :: !Scored(rows, source) ==> At(AdaptiveWeights(rows).weights, source) == At(BASE, source)
  {
    hide Probability, Learned, Normalize, Mix, Scored, Dates, TrainRows, HoldoutRows, Improves;
    BaseIsProbability();
    if AdaptiveWeights(rows).adaptive {
      LearnedIsProbability(rows, BASE);
      MixIsProbability(BASE, Learned(rows, BASE).value, LearnedShare(|Dates(rows)|));
    }
  }

  /** Once adaptive, each weight has gone the learned share of the way from the base to what all rows taught. */
  lemma AdaptiveWeightsAreMixed(rows: seq<Row>, source: Source)
    requires AdaptiveWeights(rows).adaptive
    ensures PassesGate(rows) && Learned(rows, BASE).Some?
    ensures At(AdaptiveWeights(rows).weights, source)
         == Mixed(At(BASE, source), At(Learned(rows, BASE).value, source), LearnedShare(|Dates(rows)|))
  {
    hide Learned, Normalize, Mix, Mixed, Dates, TrainRows, HoldoutRows, Improves, Probability;
    BaseIsProbability();
    LearnedIsProbability(rows, BASE);
    MixIsProbability(BASE, Learned(rows, BASE).value, LearnedShare(|Dates(rows)|));
    MixAt(BASE, Learned(rows, BASE).value, LearnedShare(|Dates(rows)|), source);
  }

  lemma MixAt(base: Vector, learned: Vector, share: real, source: Source)
    ensures At(Mix(base, learned, share), source) == Mixed(At(base, source), At(learned, source), share)
  {
    hide Mixed;
  }

  /** A mixed weight lies the share of the way from one to the other. */
  lemma MixedGoesTheShare(b: real, l: real, share: real)
    ensures Mixed(b, l, share) == b + (l - b) * share
  {
  }

  // ----- The loops -----

  /** The dictionary of error lists after some rows. */
  ghost predicate Collected(errors: map<Source, seq<real>>, rows: seq<Row>) {
    forall source :: source in errors && errors[source] == Errors(rows, source)
  }

  /** What one row adds to a source's list. */
  function RowErrors(row: Row, source: Source): seq<real> {
    if row.actual.Some? && HighOf(row, source).Some? then [Distance(HighOf(row, source).value, row.actual.value)]
    else []
  }

  lemma ErrorsStep(rows: seq<Row>, row: Row, source: Source)
    ensures Errors(rows + [row], source) == Errors(rows, source) + RowErrors(row, source)
  {
    assert (rows + [row])[..|rows|] == rows;
  }

  lemma SourceIndex(source: Source) returns (k: nat)
    ensures k < |SOURCES| && SOURCES[k] == source
  {
    k := match source case Google => 0 case Nws => 1 case OpenMeteo => 2 case History => 3;
  }

  method SourceErrors(rows: seq<Row>) returns (errors: map<Source, seq<real>>)
    ensures Collected(errors, rows)
  {
    hide Errors;
    errors := map[Google := [], Nws := [], OpenMeteo := [], History := []];
    NoErrors(errors);
    assert rows[..0] == [];
    var i := 0;
    while i < |rows|
      invariant 0 <= i <= |rows|
      invariant Collected(errors, rows[..i])
    {
      assert rows[..i + 1] == rows[..i] + [rows[i]];
      var row := rows[i];
      forall source ensures Errors(rows[..i + 1], source) == Errors(rows[..i], source) + RowErrors(row, source) {
        ErrorsStep(rows[..i], row, source);
      }
      if row.actual.Some? {
        var k := 0;
        while k < |SOURCES|
          invariant 0 <= k <= |SOURCES|
          invariant forall source :: source in errors
          invariant forall j :: 0 <= j < k ==> errors[SOURCES[j]] == Errors(rows[..i + 1], SOURCES[j])
          invariant forall j :: k <= j < |SOURCES| ==> errors[SOURCES[j]] == Errors(rows[..i], SOURCES[j])
        {
          var source := SOURCES[k];
          var value := HighOf(row, source);
          if value.Some? {
            errors := errors[source := errors[source] + [Distance(value.value, row.actual.value)]];
          }
          k := k + 1;
        }
        forall source ensures errors[source] == Errors(rows[..i + 1], source) {
          var j := SourceIndex(source);
        }
      }
      i := i + 1;
    }
    assert rows[..i] == rows;
  }

  lemma NoErrors(errors: map<Source, seq<real>>)
    requires errors == map[Google := [], Nws := [], OpenMeteo := [], History := []]
    ensures Collected(errors, [])
  {
    forall source: Source ensures source in errors && errors[source] == Errors([], source) {
      var k := SourceIndex(source);
    }
  }

  function With(v: Vector, source: Source, x: real): (r: Vector)
    ensures forall other :: At(r, other) == if other == source then x else At(v, other)
  {
    match source
    case Google => v.(google := x)
    case Nws => v.(nws := x)
    case OpenMeteo => v.(openMeteo := x)
    case History => v.(history := x)
  }

  lemma SameVector(v: Vector, w: Vector)
    requires forall k :: 0 <= k < |SOURCES| ==> At(v, SOURCES[k]) == At(w, SOURCES[k])
    ensures v == w
  {
    assert At(v, SOURCES[0]) == At(w, SOURCES[0]) && At(v, SOURCES[1]) == At(w, SOURCES[1]);
    assert At(v, SOURCES[2]) == At(w, SOURCES[2]) && At(v, SOURCES[3]) == At(w, SOURCES[3]);
  }

  /** The number of scored sources, and the base mass of the others, among the first k. */
  function ScoredAmong(rows: seq<Row>, k: nat): nat
    requires k <= |SOURCES|
  {
    if k == 0 then 0 else ScoredAmong(rows, k - 1) + if Scored(rows, SOURCES[k - 1]) then 1 else 0
  }

  function MissingAmong(rows: seq<Row>, base: Vector, k: nat): real
    requires k <= |SOURCES|
  {
    if k == 0 then 0.0 else MissingAmong(rows, base, k - 1) + MissingPart(rows, base, SOURCES[k - 1])
  }

  lemma AmongAll(rows: seq<Row>, base: Vector)
    ensures ScoredAmong(rows, |SOURCES|) == ScoredCount(rows)
    ensures MissingAmong(rows, base, |SOURCES|) == MissingMass(rows, base)
  {
    hide Scored, MissingPart;
    assert ScoredAmong(rows, 1) == if Scored(rows, SOURCES[0]) then 1 else 0;
    assert ScoredAmong(rows, 2) == ScoredAmong(rows, 1) + if Scored(rows, SOURCES[1]) then 1 else 0;
    assert ScoredAmong(rows, 3) == ScoredAmong(rows, 2) + if Scored(rows, SOURCES[2]) then 1 else 0;
    assert MissingAmong(rows, base, 1) == MissingPart(rows, base, SOURCES[0]);
    assert MissingAmong(rows, base, 2) == MissingAmong(rows, base, 1) + MissingPart(rows, base, SOURCES[1]);
    assert MissingAmong(rows, base, 3) == MissingAmong(rows, base, 2) + MissingPart(rows, base, SOURCES[2]);
  }

  /** The dictionary of mean absolute errors holds exactly the sources with enough samples. */
  ghost predicate MaesOf(maes: map<Source, real>, rows: seq<Row>) {
    && (forall source :: source in maes <==> Scored(rows, source))
    && (forall source :: source in maes ==>
        |Errors(rows, source)| > 0 && maes[source] == RealSums.Mean(Errors(rows, source)))
  }

  method SourceMaes(rows: seq<Row>) returns (maes: map<Source, real>, count: nat)
    ensures MaesOf(maes, rows) && count == ScoredCount(rows)
  {
    hide Errors;
    var errors := SourceErrors(rows);
    var needed := MinSourceSamples(|rows|);
    maes, count := map[], 0;
    for k := 0 to |SOURCES|
      invariant count == ScoredAmong(rows, k)
      invariant forall j :: 0 <= j < k ==> (SOURCES[j] in maes <==> Scored(rows, SOURCES[j]))
      invariant forall j :: k <= j < |SOURCES| ==> SOURCES[j] !in maes
      invariant forall source :: source in maes ==>
        |Errors(rows, source)| > 0 && maes[source] == RealSums.Mean(Errors(rows, source))
    {
      var source := SOURCES[k];
      if |errors[source]| >= needed {
        maes, count := maes[source := RealSums.Mean(errors[source])], count + 1;
      }
    }
    AmongAll(rows, BASE);
    forall source ensures source in maes <==> Scored(rows, source) {
      var j := SourceIndex(source);
    }
  }

  lemma MaeScores(maes: map<Source, real>, rows: seq<Row>, source: Source)
    requires MaesOf(maes, rows)
    ensures source in maes <==> Scored(rows, source)
    ensures InverseScore(rows, source) == if source in maes then 1.0 / Flooring(maes[source]) else 0.0
  {
  }

  method ScoresFrom(rows: seq<Row>, maes: map<Source, real>) returns (inverse: Vector)
    requires MaesOf(maes, rows)
    ensures inverse == InverseScores(rows)
  {
    hide MaesOf, InverseScore, Scored, Errors;
    inverse := Vector(0.0, 0.0, 0.0, 0.0);
    for k := 0 to |SOURCES|
      invariant forall j :: 0 <= j < k ==> At(inverse, SOURCES[j]) == InverseScore(rows, SOURCES[j])
      invariant forall j :: k <= j < |SOURCES| ==> At(inverse, SOURCES[j]) == 0.0
    {
      MaeScores(maes, rows, SOURCES[k]);
      if SOURCES[k] in maes {
        inverse := With(inverse, SOURCES[k], 1.0 / Flooring(maes[SOURCES[k]]));
      }
    }
    SameVector(inverse, InverseScores(rows));
  }

  method MissingFrom(rows: seq<Row>, base: Vector, maes: map<Source, real>) returns (missing: real)
    requires MaesOf(maes, rows)
    ensures missing == MissingMass(rows, base)
  {
    hide MaesOf, Scored, Errors;
    missing := 0.0;
    for k := 0 to |SOURCES|
      invariant missing == MissingAmong(rows, base, k)
    {
      MaeScores(maes, rows, SOURCES[k]);
      if SOURCES[k] !in maes {
        missing := missing + At(base, SOURCES[k]);
      }
    }
    AmongAll(rows, base);
  }

  /** Scored sources share the mass that the others' base weights leave. */
  method Share(rows: seq<Row>, base: Vector, maes: map<Source, real>, scores: Vector, missing: real)
    returns (shared: Vector)
    requires MaesOf(maes, rows) && scores == Normalize(InverseScores(rows)) && missing == MissingMass(rows, base)
    ensures shared == Unnormalized(rows, base)
  {
    hide MaesOf, Scored, Scaled, Normalize, InverseScores, MissingMass, Errors;
    shared := base;
    for k := 0 to |SOURCES|
      invariant forall j :: 0 <= j < k ==> At(shared, SOURCES[j]) == LearnedPart(rows, base, SOURCES[j], scores)
      invariant forall j :: k <= j < |SOURCES| ==> At(shared, SOURCES[j]) == At(base, SOURCES[j])
    {
      MaeScores(maes, rows, SOURCES[k]);
      if SOURCES[k] in maes {
        shared := With(shared, SOURCES[k], Scaled(At(scores, SOURCES[k]), Positive(1.0 - missing)));
      }
    }
    SameVector(shared, Unnormalized(rows, base));
  }

  /** Inverse-error weights from the error lists up, or nothing with fewer than two scored sources. */
  method LearnedSourceWeights(rows: seq<Row>, base: Vector) returns (learned: Option<Vector>)
    ensures learned == Learned(rows, base)
  {
    hide MaesOf, Scored, Normalize, Unnormalized, InverseScores, MissingMass;
    var maes, count := SourceMaes(rows);
    if count < 2 {
      return None;
    }
    var inverse := ScoresFrom(rows, maes);
    var missing := MissingFrom(rows, base, maes);
    var shared := Share(rows, base, maes, Normalize(inverse), missing);
    learned := Some(Normalize(shared));
  }

  method BlendMae(rows: seq<Row>, weights: Vector) returns (mae: Option<real>)
    ensures mae == BlendedMae(rows, weights)
  {
    hide BlendTotal, BlendWeight;
    var errors: seq<real>, i := [], 0;
    while i < |rows|
      invariant 0 <= i <= |rows|
      invariant errors == BlendErrors(rows[..i], weights)
    {
      assert rows[..i + 1][..i] == rows[..i];
      var row, total, used := rows[i], 0.0, 0.0;
      if row.actual.Some? {
        for k := 0 to |SOURCES|
          invariant total == RealSums.SumTo(UsableTerms(row, weights), k)
          invariant used == RealSums.SumTo(UsableWeights(row, weights), k)
        {
          var value, weight := HighOf(row, SOURCES[k]), At(weights, SOURCES[k]);
          if value.Some? && weight > 0.0 {
            total, used := total + weight * value.value, used + weight;
          }
        }
        BlendSumsOverSources(row, weights);
        if used > 0.0 {
          errors := errors + [Distance(total / used, row.actual.value)];
        }
      }
      i := i + 1;
    }
    assert rows[..i] == rows;
    mae := if errors == [] then None else Some(RealSums.Mean(errors));
  }

  /** The whole learner: base weights, unless every gate is passed. */
  method ComputeAdaptiveBlendWeights(rows: seq<Row>) returns (outcome: Outcome)
    ensures outcome == AdaptiveWeights(rows)
    ensures Probability(outcome.weights)
    ensures outcome.weights != BASE ==> PassesGate(rows) && Learned(rows, BASE).Some?
  {
    hide Learned, Normalize, Mix, Scored, Dates, TrainRows, HoldoutRows, Probability, BlendedMae;
    WeightsAreProbability(rows);
    var days := |Dates(rows)|;
    if days < MIN_SCORED_DAYS {
      return KEEP_BASE;
    }
    var trained := LearnedSourceWeights(TrainRows(rows), BASE);
    if trained.None? {
      return KEEP_BASE;
    }
    var candidate := Candidate(rows, trained.value);
    var baseMae := BlendMae(HoldoutRows(rows), BASE);
    var candidateMae := BlendMae(HoldoutRows(rows), candidate);
    if baseMae.None? || candidateMae.None? || candidateMae.value >= baseMae.value {
      return KEEP_BASE;
    }
    assert Improves(HoldoutRows(rows), candidate);
    var learned := LearnedSourceWeights(rows, BASE);
    if learned.None? {
      return KEEP_BASE;
    }
    outcome := Outcome(true, Candidate(rows, learned.value));
  }
}
