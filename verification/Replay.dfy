/**
 * The rolling-origin EMOS replay and the live serve (forecaster/postproc_models.py,
 * forecaster/emos_forecast.py). Dates are day numbers; ISO dates sort the same way.
 */
module Replay {
  import opened Wrappers
  import opened Emos
  import opened RealSums
  import opened RealOrder
  import opened EmosFitting

  const MIN_MODELS := 3
  const EMOS_MIN_TRAIN := 60
  const SCALE_LOW := 0.75

  type Truth = map<int, real>
  type Archive = map<int, Day>

  datatype Prediction = Prediction(forecast: Forecast, range: Option<real>)

  predicate Usable(nwp: Archive, date: int) {
    date in nwp && |nwp[date]| >= MIN_MODELS
  }

  /** The training cases dated no later than the cutoff, in date order. */
  function Available(dates: seq<int>, truth: Truth, nwp: Archive, cutoff: int): (h: History)
    ensures NonEmptyDays(h)
  {
    if dates == [] then []
    else
      var last, before := dates[|dates| - 1], Available(dates[..|dates| - 1], truth, nwp, cutoff);
      if last <= cutoff && Usable(nwp, last) && last in truth then before + [Case(nwp[last], truth[last])] else before
  }

  function Predict(history: History, day: Day, minTrain: nat, mode: WeightMode): Option<Prediction>
    requires NonEmptyDays(history) && |day| > 0
  {
    if |history| < minTrain then None
    else
      match FitEmos(history, mode)
      case None => None
      case Some(p) => Some(Prediction(Apply(p, day), DebiasedRange(day, p.biases)))
  }

  function PredictionFor(date: int, dates: seq<int>, truth: Truth, nwp: Archive, minTrain: nat, mode: WeightMode,
          lag: nat): Option<Prediction> {
    if !Usable(nwp, date) then None
    else Predict(Available(dates, truth, nwp, date - (lag + 1)), nwp[date], minTrain, mode)
  }

  function PredictionsUpTo(k: nat, dates: seq<int>, truth: Truth, nwp: Archive, minTrain: nat, mode: WeightMode,
          lag: nat): map<int, Prediction>
    requires k <= |dates|
  {
    if k == 0 then map[]
    else
      var before := PredictionsUpTo(k - 1, dates, truth, nwp, minTrain, mode, lag);
      match PredictionFor(dates[k - 1], dates, truth, nwp, minTrain, mode, lag)
      case None => before
      case Some(prediction) => before[dates[k - 1] := prediction]
  }

  /** Every date's prediction from the truth available `lag` days before it. */
  function Predictions(dates: seq<int>, truth: Truth, nwp: Archive, minTrain: nat, mode: WeightMode,
          lag: nat): map<int, Prediction> {
    PredictionsUpTo(|dates|, dates, truth, nwp, minTrain, mode, lag)
  }

  lemma {:induction false} PredictionAt(date: int, k: nat, dates: seq<int>, truth: Truth, nwp: Archive,
          minTrain: nat, mode: WeightMode, lag: nat)
    requires k <= |dates|
    ensures var preds := PredictionsUpTo(k, dates, truth, nwp, minTrain, mode, lag);
            var one := PredictionFor(date, dates, truth, nwp, minTrain, mode, lag);
            && (date in preds <==> date in dates[..k] && one.Some?)
            && (date in preds ==> preds[date] == one.value)
  {
    hide PredictionFor;
    if k > 0 {
      PredictionAt(date, k - 1, dates, truth, nwp, minTrain, mode, lag);
      assert dates[..k] == dates[..k - 1] + [dates[k - 1]];
    }
  }

  // ----- The replay loop -----

  datatype Entry = Entry(date: int, day: Day, truth: real)

  /** What the loop has appended to its history after visiting these dates. */
  function Entries(dates: seq<int>, truth: Truth, nwp: Archive): seq<Entry> {
    if dates == [] then []
    else
      var last, before := dates[|dates| - 1], Entries(dates[..|dates| - 1], truth, nwp);
      if Usable(nwp, last) && last in truth then before + [Entry(last, nwp[last], truth[last])] else before
  }

  function UpTo(entries: seq<Entry>, cutoff: int): History {
    if entries == [] then []
    else
      var last, before := entries[|entries| - 1], UpTo(entries[..|entries| - 1], cutoff);
      if last.date <= cutoff then before + [Case(last.day, last.truth)] else before
  }

  lemma {:induction false} UpToEntries(dates: seq<int>, truth: Truth, nwp: Archive, cutoff: int)
    ensures UpTo(Entries(dates, truth, nwp), cutoff) == Available(dates, truth, nwp, cutoff)
  {
    if dates != [] {
      var k := |dates| - 1;
      var before := Entries(dates[..k], truth, nwp);
      UpToEntries(dates[..k], truth, nwp, cutoff);
      var all := Entries(dates, truth, nwp);
      if |all| > |before| {
        assert all[..|all| - 1] == before;
      }
    }
  }

  /** Dates after the cutoff add nothing. */
  lemma {:induction false} LaterDatesAddNothing(dates: seq<int>, k: nat, truth: Truth, nwp: Archive, cutoff: int)
    requires k <= |dates| && forall i :: k <= i < |dates| ==> dates[i] > cutoff
    ensures Available(dates, truth, nwp, cutoff) == Available(dates[..k], truth, nwp, cutoff)
  {
    if k < |dates| {
      LaterDatesAddNothing(dates[..|dates| - 1], k, truth, nwp, cutoff);
      assert dates[..|dates| - 1][..k] == dates[..k];
    } else {
      assert dates[..k] == dates;
    }
  }

  /** One step of the loop predicts exactly what the specification does. */
  method PredictOne(dates: seq<int>, k: nat, history: seq<Entry>, truth: Truth, nwp: Archive, minTrain: nat,
          mode: WeightMode, lag: nat)
    returns (r: Option<Prediction>)
    requires k < |dates| && StrictlyAscending(dates) && history == Entries(dates[..k], truth, nwp)
    ensures r == PredictionFor(dates[k], dates, truth, nwp, minTrain, mode, lag)
  {
    hide FitEmos, Apply, DebiasedRange;
    var date := dates[k];
    var cutoff := date - (lag + 1);
    var available := UpTo(history, cutoff);
    UpToEntries(dates[..k], truth, nwp, cutoff);
    LaterDatesAddNothing(dates, k, truth, nwp, cutoff);
    r := None;
    if Usable(nwp, date) && |available| >= minTrain {
      var params := FitFrom(available, mode);
      if params.Some? {
        r := Some(Prediction(Apply(params.value, nwp[date]), DebiasedRange(nwp[date], params.value.biases)));
      }
    }
  }

  /**
   * The rolling-origin loop: predict each date from the retained cases its lag allows, then retain it.
   * A negative lag is refused.
   */
  method RollingOrigin(dates: seq<int>, truth: Truth, nwp: Archive, minTrain: nat, mode: WeightMode, lag: int)
    returns (r: Option<map<int, Prediction>>)
    requires StrictlyAscending(dates)
    ensures r == if lag < 0 then None else Some(Predictions(dates, truth, nwp, minTrain, mode, lag))
  {
    hide PredictionFor;
    if lag < 0 {
      return None;
    }
    var preds: map<int, Prediction> := map[];
    var history: seq<Entry> := [];
    for k := 0 to |dates|
      invariant history == Entries(dates[..k], truth, nwp)
      invariant preds == PredictionsUpTo(k, dates, truth, nwp, minTrain, mode, lag)
    {
      var date := dates[k];
      var prediction := PredictOne(dates, k, history, truth, nwp, minTrain, mode, lag);
      if prediction.Some? {
        preds := preds[date := prediction.value];
      }
      assert dates[..k + 1][..k] == dates[..k];
      if Usable(nwp, date) && date in truth {
        history := history + [Entry(date, nwp[date], truth[date])];
      }
    }
    r := Some(preds);
  }

  // ----- No leakage -----

  /** The dates are the archive's, in order. */
  ghost predicate Indexes(dates: seq<int>, nwp: Archive) {
    StrictlyAscending(dates) && forall d :: d in dates <==> d in nwp
  }

  /** Two runs that see the same archive and truth through the cutoff. */
  ghost predicate AgreeThrough(cutoff: int, truth: Truth, nwp: Archive, truth': Truth, nwp': Archive) {
    forall d :: d <= cutoff ==>
      && (d in truth <==> d in truth') && (d in truth ==> truth[d] == truth'[d])
      && (d in nwp <==> d in nwp') && (d in nwp ==> nwp[d] == nwp'[d])
  }

  ghost predicate SameThrough(cutoff: int, s: seq<int>, t: seq<int>) {
    forall d | d <= cutoff :: d in s <==> d in t
  }

  lemma {:induction false} AvailableAgrees(dates: seq<int>, dates': seq<int>, truth: Truth, nwp: Archive,
          truth': Truth, nwp': Archive, cutoff: int)
    requires StrictlyAscending(dates) && StrictlyAscending(dates') && SameThrough(cutoff, dates, dates')
    requires AgreeThrough(cutoff, truth, nwp, truth', nwp')
    ensures Available(dates, truth, nwp, cutoff) == Available(dates', truth', nwp', cutoff)
    decreases |dates| + |dates'|
  {
    var k, k' := |dates| - 1, |dates'| - 1;
    if dates != [] && dates[k] > cutoff {
      DropLast(dates);
      AvailableAgrees(dates[..k], dates', truth, nwp, truth', nwp', cutoff);
    } else if dates' != [] && dates'[k'] > cutoff {
      DropLast(dates');
      AvailableAgrees(dates, dates'[..k'], truth, nwp, truth', nwp', cutoff);
    } else if dates != [] || dates' != [] {
      EndAlike(dates, dates', cutoff);
      AvailableAgrees(dates[..k], dates'[..k'], truth, nwp, truth', nwp', cutoff);
    }
  }

  lemma DropLast(s: seq<int>)
    requires |s| > 0
    ensures forall d :: d in s <==> d in s[..|s| - 1] || d == s[|s| - 1]
  {
    assert s == s[..|s| - 1] + [s[|s| - 1]];
  }

  /** Ascending sequences with the same elements are empty together and end alike. */
  lemma EndAlike(s: seq<int>, t: seq<int>, cutoff: int)
    requires StrictlyAscending(s) && StrictlyAscending(t) && SameThrough(cutoff, s, t)
    requires s != [] || t != []
    requires (s != [] ==> s[|s| - 1] <= cutoff) && (t != [] ==> t[|t| - 1] <= cutoff)
    ensures s != [] && t != [] && s[|s| - 1] == t[|t| - 1]
    ensures SameThrough(cutoff, s[..|s| - 1], t[..|t| - 1])
  {
    assert s != [] ==> s[|s| - 1] in s && s[|s| - 1] in t;
    assert t != [] ==> t[|t| - 1] in t && t[|t| - 1] in s;
    var s', t' := s[..|s| - 1], t[..|t| - 1];
    forall d | d <= cutoff ensures d in s' <==> d in t' {
      DropLast(s);
      DropLast(t);
      assert d in s <==> d in t;
    }
  }

  /**
   * The replayed prediction for a date is the same in any two runs that agree on truth and archive through
   * date - lag - 1 and on the date's own members: nothing later can reach it.
   */
  lemma NoLeakage(date: int, lag: nat, minTrain: nat, mode: WeightMode,
                  dates: seq<int>, truth: Truth, nwp: Archive, dates': seq<int>, truth': Truth, nwp': Archive)
    requires Indexes(dates, nwp) && Indexes(dates', nwp') && date in nwp && date in nwp'
    requires AgreeThrough(date - (lag + 1), truth, nwp, truth', nwp') && nwp[date] == nwp'[date]
    ensures var preds, preds' := Predictions(dates, truth, nwp, minTrain, mode, lag),
                                 Predictions(dates', truth', nwp', minTrain, mode, lag);
            && (date in preds <==> date in preds')
            && (date in preds ==> preds[date] == preds'[date])
  {
    hide FitEmos, Apply, DebiasedRange, Available;
    PredictionAt(date, |dates|, dates, truth, nwp, minTrain, mode, lag);
    PredictionAt(date, |dates'|, dates', truth', nwp', minTrain, mode, lag);
    assert dates[..|dates|] == dates && dates'[..|dates'|] == dates';
    AvailableAgrees(dates, dates', truth, nwp, truth', nwp', date - (lag + 1));
  }

  // ----- The live serve -----

  /** The live training list: settled dates strictly before the target with enough members. */
  function LiveTraining(dates: seq<int>, truth: Truth, nwp: Archive, target: int): (h: History)
    ensures NonEmptyDays(h)
  {
    if dates == [] then []
    else
      var d, before := dates[|dates| - 1], LiveTraining(dates[..|dates| - 1], truth, nwp, target);
      if d < target && d in truth && d in nwp && |nwp[d]| >= MIN_MODELS then before + [Case(nwp[d], truth[d])]
      else before
  }

  /** The truth a serve `lead` days ahead can see: the replay's truth through target - lead - 1. */
  ghost predicate VisibleAtServe(visible: Truth, truth: Truth, target: int, lead: nat) {
    forall d :: (d in visible <==> d in truth && d <= target - lead - 1) && (d in visible ==> visible[d] == truth[d])
  }

  lemma {:induction false} LiveTrainingIsReplayHistory(dates: seq<int>, visible: Truth, truth: Truth, nwp: Archive,
          target: int, lead: nat)
    requires VisibleAtServe(visible, truth, target, lead)
    ensures LiveTraining(dates, visible, nwp, target) == Available(dates, truth, nwp, target - (lead + 1))
  {
    if dates != [] {
      LiveTrainingIsReplayHistory(dates[..|dates| - 1], visible, truth, nwp, target, lead);
    }
  }

  /** Live members with no learned bias are dropped before the forecast. */
  function KnownMembers(day: Day, known: set<string>): (r: Day)
    ensures forall m :: m in r <==> m in day && m.model in known
    ensures (forall m :: m in day ==> m.model in known) ==> r == day
  {
    if day == [] then []
    else
      var last, before := day[|day| - 1], KnownMembers(day[..|day| - 1], known);
      assert day == day[..|day| - 1] + [last];
      if last.model in known then before + [last] else before
  }

  /** Only the same-day serve borrows a longer lead's fit, and with it a station's own scale within these bounds. */
  function HorizonScale(storedLead: nat, fitLead: nat, stationScale: real): (scale: real)
    ensures SCALE_LOW <= scale <= 1.0
    ensures fitLead <= storedLead ==> scale == 1.0
  {
    if storedLead != 0 || fitLead <= storedLead then 1.0 else Min(Max(stationScale, SCALE_LOW), 1.0)
  }

  function ScaledVariance(variance: real, square: real): real {
    variance * square
  }

  /** The spread rescaled, with the sharpness limit imposed again. */
  function Rescaled(forecast: Forecast, scale: real): Forecast {
    Forecast(forecast.mu, Max(ScaledVariance(forecast.variance, Square(scale)), SIGMA_FLOOR_F * SIGMA_FLOOR_F))
  }

  /**
   * What a serve asks for: the target, its live members, the lead of the fit, the lead on record, a station's scale.
   */
  datatype Serve = Serve(target: int, live: Day, lead: nat, storedLead: nat, stationScale: real, mode: WeightMode)

  /**
   * The scheduled serve `lag` days ahead: the archive has no lead 0, so the same-day serve borrows the fit of lead 1.
   */
  function ScheduledServe(target: int, live: Day, lag: nat, stationScale: real, mode: WeightMode): Serve {
    Serve(target, live, if lag >= 1 then lag else 1, lag, stationScale, mode)
  }

  function ServeFrom(today: int, history: History, serve: Serve): Option<Forecast>
    requires NonEmptyDays(history)
  {
    if serve.target < today || |history| < EMOS_MIN_TRAIN then None
    else
      match FitEmos(history, serve.mode)
      case None => None
      case Some(p) =>
        var members := KnownMembers(serve.live, p.biases.Keys);
        if |members| < MIN_MODELS then None
        else Some(Rescaled(Apply(p, members), HorizonScale(serve.storedLead, serve.lead, serve.stationScale)))
  }

  /** The served distribution before any trailing recalibration. */
  function ServeLive(today: int, dates: seq<int>, truth: Truth, nwp: Archive, serve: Serve): Option<Forecast> {
    ServeFrom(today, LiveTraining(dates, truth, nwp, serve.target), serve)
  }

  lemma FitLearnsEveryModel(history: History, mode: WeightMode)
    requires NonEmptyDays(history) && FitEmos(history, mode).Some?
    ensures FitEmos(history, mode).value.biases.Keys == Models(history)
  {
  }

  /** The settled days before the target on which at least three members forecast. */
  function SettledDays(dates: seq<int>, truth: Truth, nwp: Archive, target: int): set<int> {
    set d | d in dates && d < target && d in truth && d in nwp && |nwp[d]| >= 3
  }

  lemma SettledDaysGrow(dates: seq<int>, truth: Truth, nwp: Archive, target: int)
    requires StrictlyAscending(dates) && dates != []
    ensures var d, before := dates[|dates| - 1], SettledDays(dates[..|dates| - 1], truth, nwp, target);
            && d !in before
            && SettledDays(dates, truth, nwp, target)
               == if d < target && d in truth && d in nwp && |nwp[d]| >= 3 then before + {d} else before
  {
    assert dates == dates[..|dates| - 1] + [dates[|dates| - 1]];
  }

  /** Training has as many cases as there are such days. */
  lemma {:induction false} TrainingCountsTheSettledDays(dates: seq<int>, truth: Truth, nwp: Archive, target: int)
    requires StrictlyAscending(dates)
    ensures |LiveTraining(dates, truth, nwp, target)| == |SettledDays(dates, truth, nwp, target)|
  {
    if dates == [] {
      assert SettledDays(dates, truth, nwp, target) == {};
    } else {
      TrainingCountsTheSettledDays(dates[..|dates| - 1], truth, nwp, target);
      SettledDaysGrow(dates, truth, nwp, target);
      hide SettledDays;
    }
  }

  /** Training holds each such day's members and truth, and no other case. */
  lemma {:induction false} TrainingIsTheSettledDays(dates: seq<int>, truth: Truth, nwp: Archive, target: int, c: Case)
    ensures c in LiveTraining(dates, truth, nwp, target) <==>
              exists d :: d in SettledDays(dates, truth, nwp, target) && c == Case(nwp[d], truth[d])
  {
    if dates != [] {
      var k := |dates| - 1;
      TrainingIsTheSettledDays(dates[..k], truth, nwp, target, c);
      assert dates == dates[..k] + [dates[k]];
      assert forall d :: d in SettledDays(dates[..k], truth, nwp, target) ==>
          d in SettledDays(dates, truth, nwp, target);
    }
  }

  lemma {:induction false} LiveIsAvailable(dates: seq<int>, truth: Truth, nwp: Archive, target: int)
    ensures LiveTraining(dates, truth, nwp, target) == Available(dates, truth, nwp, target - 1)
  {
    if dates != [] {
      LiveIsAvailable(dates[..|dates| - 1], truth, nwp, target);
    }
  }

  /** A serve is given exactly for a day not past, with sixty settled days to train on and three known members. */
  lemma ServesExactlyWhen(today: int, dates: seq<int>, truth: Truth, nwp: Archive, serve: Serve)
    requires StrictlyAscending(dates)
    ensures var known := Models(LiveTraining(dates, truth, nwp, serve.target));
            ServeLive(today, dates, truth, nwp, serve).Some? <==>
              && today <= serve.target && |SettledDays(dates, truth, nwp, serve.target)| >= 60
              && |KnownMembers(serve.live, known)| >= 3
  {
    hide Apply, Rescaled, LiveTraining;
    TrainingCountsTheSettledDays(dates, truth, nwp, serve.target);
    var history := LiveTraining(dates, truth, nwp, serve.target);
    if |history| >= 60 {
      FitLearnsEveryModel(history, serve.mode);
    }
  }

  /** The replay predicts exactly the days of three members or more whose lag leaves enough settled days. */
  lemma PredictsExactlyWhen(date: int, dates: seq<int>, truth: Truth, nwp: Archive, minTrain: nat, mode: WeightMode,
          lag: nat)
    requires StrictlyAscending(dates)
    ensures PredictionFor(date, dates, truth, nwp, minTrain, mode, lag).Some? <==>
              && date in nwp && |nwp[date]| >= 3
              && |SettledDays(dates, truth, nwp, date - lag)| >= (if minTrain > 2 then minTrain else 2)
  {
    hide Apply, LiveTraining, Available;
    TrainingCountsTheSettledDays(dates, truth, nwp, date - lag);
    LiveIsAvailable(dates, truth, nwp, date - lag);
  }

  lemma {:induction false} TargetIsNotAvailable(dates: seq<int>, truth: Truth, nwp: Archive, target: int, day: Day,
          cutoff: int)
    requires cutoff < target
    ensures Available(dates, truth, nwp[target := day], cutoff) == Available(dates, truth, nwp, cutoff)
  {
    if dates != [] {
      TargetIsNotAvailable(dates[..|dates| - 1], truth, nwp, target, day, cutoff);
    }
  }

  /**
   * A serve at its own lead is not rescaled; a rescale never widens a forecast, nor narrows it past 0.75 or the limit.
   */
  lemma RescaleOnlyNarrows(p: Params, day: Day, scale: real)
    requires |day| > 0 && SCALE_LOW <= scale <= 1.0
    ensures var forecast := Apply(p, day);
            && Rescaled(forecast, 1.0) == forecast
            && SIGMA_FLOOR_F * SIGMA_FLOOR_F <= Rescaled(forecast, scale).variance <= forecast.variance
            && Rescaled(forecast, scale).variance >= 0.5625 * forecast.variance
            && Rescaled(forecast, scale).mu == forecast.mu
  {
    hide Apply, Square, ScaledVariance;
    var forecast, square := Apply(p, day), Square(scale);
    AppliedAboveFloor(p, day);
    ScaleSquare(scale, square);
    ScaledWithin(forecast.variance, square, 0.5625, 1.0, ScaledVariance(forecast.variance, square));
    ScaleSquare(1.0, Square(1.0));
    ScaledWithin(forecast.variance, 1.0, 1.0, 1.0, ScaledVariance(forecast.variance, 1.0));
  }

  lemma AppliedAboveFloor(p: Params, day: Day)
    requires |day| > 0
    ensures Apply(p, day).variance >= SIGMA_FLOOR_F * SIGMA_FLOOR_F == 2.25
  {
  }

  lemma ScaleSquare(scale: real, square: real)
    requires 0.75 <= scale <= 1.0 && square == Square(scale)
    ensures 0.5625 <= square <= 1.0 && (scale == 1.0 ==> square == 1.0)
  {
    ScaledWithin(scale, scale, 0.75, 1.0, ScaledVariance(scale, scale));
  }

  lemma ScaledWithin(x: real, factor: real, low: real, high: real, r: real)
    requires x >= 0.0 && low <= factor <= high && r == ScaledVariance(x, factor)
    ensures low * x <= r <= high * x
  {
  }

  /** The replay of a serve: the known live members in the target's place, then the horizon's scale. */
  function ReplayOfServe(dates: seq<int>, truth: Truth, nwp: Archive, serve: Serve, lag: nat): Option<Forecast> {
    var known := Models(Available(dates, truth, nwp, serve.target - (lag + 1)));
    var replayed := nwp[serve.target := KnownMembers(serve.live, known)];
    var preds := Predictions(dates, truth, replayed, EMOS_MIN_TRAIN, serve.mode, lag);
    if serve.target in preds
    then Some(Rescaled(preds[serve.target].forecast, HorizonScale(serve.storedLead, serve.lead, serve.stationScale)))
    else None
  }

  lemma ReplayServesItsHistory(today: int, dates: seq<int>, truth: Truth, nwp: Archive, serve: Serve, lag: nat)
    requires serve.target >= today && serve.target in dates
    ensures ServeFrom(today, Available(dates, truth, nwp, serve.target - (lag + 1)), serve)
         == ReplayOfServe(dates, truth, nwp, serve, lag)
  {
    hide Apply, Available, FitEmos, DebiasedRange, Rescaled, HorizonScale, KnownMembers, PredictionsUpTo, Models,
         NonEmptyDays;
    var target, cutoff := serve.target, serve.target - (lag + 1);
    var history := Available(dates, truth, nwp, cutoff);
    var replayed := nwp[target := KnownMembers(serve.live, Models(history))];
    TargetIsNotAvailable(dates, truth, nwp, target, replayed[target], cutoff);
    PredictionAt(target, |dates|, dates, truth, replayed, EMOS_MIN_TRAIN, serve.mode, lag);
    assert dates[..|dates|] == dates;
    if FitEmos(history, serve.mode).Some? {
      FitLearnsEveryModel(history, serve.mode);
    }
  }

  /**
   * Whatever the live members and whichever lead the fit is borrowed from, a serve made `lag` days ahead, which saw
   * exactly the truth a replay with that lag allows, yields the replay of those members that training knows, up to the
   * horizon's scale; and it yields something exactly when that replay does.
   */
  lemma ServeIsReplayOfKnownMembers(today: int, dates: seq<int>, visible: Truth, truth: Truth, nwp: Archive,
          serve: Serve, lag: nat)
    requires serve.target >= today && serve.target in dates
    requires VisibleAtServe(visible, truth, serve.target, lag)
    ensures ServeLive(today, dates, visible, nwp, serve) == ReplayOfServe(dates, truth, nwp, serve, lag)
  {
    hide ServeFrom, ReplayOfServe, Available, LiveTraining, VisibleAtServe, NonEmptyDays;
    LiveTrainingIsReplayHistory(dates, visible, truth, nwp, serve.target, lag);
    ReplayServesItsHistory(today, dates, truth, nwp, serve, lag);
  }

  /** The same against a replay over a later archive that still holds what the serve had trained on. */
  lemma ServeIsReplayOverLaterArchive(today: int, dates: seq<int>, visible: Truth, nwp: Archive,
          dates': seq<int>, truth: Truth, nwp': Archive, serve: Serve, lag: nat)
    requires Indexes(dates, nwp) && Indexes(dates', nwp') && serve.target >= today && serve.target in dates'
    requires VisibleAtServe(visible, truth, serve.target, lag)
    requires AgreeThrough(serve.target - (lag + 1), truth, nwp, truth, nwp')
    ensures ServeLive(today, dates, visible, nwp, serve) == ReplayOfServe(dates', truth, nwp', serve, lag)
  {
    hide ServeFrom, ReplayOfServe, Available, LiveTraining, VisibleAtServe, NonEmptyDays;
    LiveTrainingIsReplayHistory(dates, visible, truth, nwp, serve.target, lag);
    AvailableAgrees(dates, dates', truth, nwp, truth, nwp', serve.target - (lag + 1));
    ReplayServesItsHistory(today, dates', truth, nwp', serve, lag);
  }

  /**
   * Replay equals live: at its own lead, with the archived members served and all of them known to training, the
   * served distribution is the replayed one.
   */
  lemma ReplayEqualsLive(today: int, dates: seq<int>, visible: Truth, truth: Truth, nwp: Archive, serve: Serve)
    requires serve.target >= today && serve.target in dates
    requires VisibleAtServe(visible, truth, serve.target, serve.lead)
    requires serve.target in nwp && serve.live == nwp[serve.target] && serve.storedLead == serve.lead
    requires forall m :: m in serve.live ==>
      m.model in Models(Available(dates, truth, nwp, serve.target - (serve.lead + 1)))
    ensures var preds := Predictions(dates, truth, nwp, EMOS_MIN_TRAIN, serve.mode, serve.lead);
            ServeLive(today, dates, visible, nwp, serve)
            == if serve.target in preds then Some(preds[serve.target].forecast) else None
  {
    hide Predictions, Available, Rescaled, ServeLive, VisibleAtServe, Models, NonEmptyDays, KnownMembers;
    ServeIsReplayOfKnownMembers(today, dates, visible, truth, nwp, serve, serve.lead);
    assert nwp[serve.target := serve.live] == nwp;
    OwnLeadPredictionStays(serve.target, dates, truth, nwp, EMOS_MIN_TRAIN, serve.mode, serve.lead);
  }

  lemma OwnLeadPredictionStays(date: int, dates: seq<int>, truth: Truth, nwp: Archive, minTrain: nat, mode: WeightMode,
          lag: nat)
    ensures var preds := Predictions(dates, truth, nwp, minTrain, mode, lag);
            date in preds ==> Rescaled(preds[date].forecast, 1.0) == preds[date].forecast
  {
    hide Apply, Available, FitEmos, DebiasedRange, Rescaled, NonEmptyDays, PredictionsUpTo;
    PredictionAt(date, |dates|, dates, truth, nwp, minTrain, mode, lag);
    var one := PredictionFor(date, dates, truth, nwp, minTrain, mode, lag);
    if one.Some? {
      RescaleOnlyNarrows(FitEmos(Available(dates, truth, nwp, date - (lag + 1)), mode).value, nwp[date], 1.0);
    }
  }
}
