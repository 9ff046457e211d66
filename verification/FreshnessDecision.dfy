/**
 * The decision core of the off-box staleness monitor (scripts/publication_freshness_core.py). Instants are seconds
 * and ages minutes, both real.
 */
module FreshnessDecision {
  import opened Wrappers
  import opened RealOrder

  const CLOCK_SKEW_TOLERANCE_SECONDS := 300.0
  const FUTURE_TOLERANCE_MINUTES := 5.0
  const DEPLOYMENT_LOOKBACK_MINUTES := 20.0
  const FAILED_DEPLOY_OPEN_MINUTES := 20.0

  datatype Thresholds = Thresholds(base: real, deployMargin: real, maxDeployWindow: real, closeAtOrBelow: real)

  const DEFAULTS := Thresholds(90.0, 45.0, 480.0, 20.0)

  function SuppressionCeiling(thresholds: Thresholds): real {
    thresholds.maxDeployWindow + thresholds.deployMargin
  }

  function Gap(x: real, y: real): real {
    if x >= y then x - y else y - x
  }

  // ----- Clocks and verdicts -----

  /** One manifest read: a failure, or a document whose publish time may not parse, with the response's clock. */
  datatype Fetch =
    | ReadFailure(structural: bool)
    | Document(publishedAt: Option<real>, httpDate: Option<real>, httpAge: Option<real>, cacheHit: bool)

  datatype Verdict =
    | Unreadable
    | Broken
    | Future(age: real, publishedAt: real, referenceNow: real)
    | Fresh(age: real, publishedAt: real, referenceNow: real)
    | Stale(age: real, publishedAt: real, referenceNow: real)
    | Unhealthy(publishedAt: real, referenceNow: real)

  function OriginClock(fetch: Fetch): Option<real>
    requires fetch.Document?
  {
    if fetch.httpDate.None? then None
    else if fetch.httpAge.Some? then Some(fetch.httpDate.value + fetch.httpAge.value)
    else if fetch.cacheHit then None
    else fetch.httpDate
  }

  /**
   * A response's date is the origin's clock once its time in a cache is added; unless that is known, a hit has none.
   */
  lemma OriginClockAddsTheAge(fetch: Fetch)
    requires fetch.Document?
    ensures OriginClock(fetch).None? <==> fetch.httpDate.None? || (fetch.cacheHit && fetch.httpAge.None?)
    ensures OriginClock(fetch).Some? && fetch.httpAge.Some? ==>
      OriginClock(fetch).value - fetch.httpDate.value == fetch.httpAge.value
    ensures OriginClock(fetch).Some? && fetch.httpAge.None? ==> OriginClock(fetch) == fetch.httpDate
  {
  }

  function ReferenceNow(fetch: Fetch, runnerNow: real): real
    requires fetch.Document?
  {
    var origin := OriginClock(fetch);
    if origin.Some? && Gap(runnerNow, origin.value) > CLOCK_SKEW_TOLERANCE_SECONDS then origin.value else runnerNow
  }

  function Evaluate(fetch: Fetch, runnerNow: real, freshWithin: real): Verdict {
    if fetch.ReadFailure? then (if fetch.structural then Broken else Unreadable)
    else if fetch.publishedAt.None? then Broken
    else
      var published, now := fetch.publishedAt.value, ReferenceNow(fetch, runnerNow);
      var age := (now - published) / 60.0;
      if age < -FUTURE_TOLERANCE_MINUTES then Future(age, published, now)
      else if age <= freshWithin then Fresh(age, published, now)
      else Stale(age, published, now)
  }

  /** The runner's clock is used unless the origin's disagrees by more than five minutes. */
  lemma ReferenceIsTheRunnersUnlessSkewed(fetch: Fetch, runnerNow: real)
    requires fetch.Document?
    ensures var origin := OriginClock(fetch);
            var skewed := origin.Some? && (runnerNow > origin.value + 300.0 || runnerNow < origin.value - 300.0);
            && (skewed ==> ReferenceNow(fetch, runnerNow) == origin.value)
            && (!skewed ==> ReferenceNow(fetch, runnerNow) == runnerNow)
  {
  }

  /**
   * A verdict with an age reports the publish time and the clock that it was reckoned from, and the age falls in its
   * class.
   */
  lemma VerdictsAreReckoned(fetch: Fetch, runnerNow: real, freshWithin: real)
    ensures var verdict := Evaluate(fetch, runnerNow, freshWithin);
            && (verdict.Unreadable? <==> fetch.ReadFailure? && !fetch.structural)
            && (verdict.Broken? <==> if fetch.ReadFailure? then fetch.structural else fetch.publishedAt.None?)
            && !verdict.Unhealthy?
            && (verdict.Future? || verdict.Fresh? || verdict.Stale? ==>
                  && fetch.Document? && fetch.publishedAt == Some(verdict.publishedAt)
                  && verdict.referenceNow == ReferenceNow(fetch, runnerNow)
                  && verdict.publishedAt + 60.0 * verdict.age == verdict.referenceNow)
            && (verdict.Future? ==> verdict.age < -5.0)
            && (verdict.Fresh? ==> -5.0 <= verdict.age <= freshWithin)
            && (verdict.Stale? ==> -5.0 <= verdict.age && freshWithin < verdict.age)
  {
  }

  /** Wherever the origin's clock can be trusted, the verdict is reckoned within five minutes of it. */
  lemma ReferenceStaysNearOrigin(fetch: Fetch, runnerNow: real)
    requires fetch.Document?
    ensures var origin := OriginClock(fetch);
            origin.Some? ==> Gap(ReferenceNow(fetch, runnerNow), origin.value) <= CLOCK_SKEW_TOLERANCE_SECONDS
    ensures fetch.cacheHit && fetch.httpAge.None? ==> ReferenceNow(fetch, runnerNow) == runnerNow
  {
  }

  /**
   * However wrong the runner's clock: a snapshot the origin knows to be more than five minutes past the limit is never
   * called fresh, and one it knows to be five minutes inside the limit is never called stale.
   */
  lemma OriginBoundsFreshness(fetch: Fetch, runnerNow: real, freshWithin: real)
    requires fetch.Document? && fetch.publishedAt.Some? && OriginClock(fetch).Some?
    ensures var age := (OriginClock(fetch).value - fetch.publishedAt.value) / 60.0;
            && (age > freshWithin + 5.0 ==> !Evaluate(fetch, runnerNow, freshWithin).Fresh?)
            && (age < freshWithin - 5.0 ==> !Evaluate(fetch, runnerNow, freshWithin).Stale?)
  {
    ReferenceStaysNearOrigin(fetch, runnerNow);
  }

  /** A fresh manifest is only believed if the Strategy Lab behind it is readable and healthy. */
  datatype Strategy = Healthy | Problem | StrategyFailure(structural: bool)

  function WithStrategy(verdict: Verdict, strategy: Strategy): Verdict {
    if !verdict.Fresh? || strategy.Healthy? then verdict
    else if strategy.StrategyFailure? && !strategy.structural then Unreadable
    else Unhealthy(verdict.publishedAt, verdict.referenceNow)
  }

  /** What a fresh manifest turns into; any other verdict stays, and the times reported are the manifest's. */
  lemma StrategyOnlyDoubtsTheFresh(verdict: Verdict, strategy: Strategy)
    ensures var seen := WithStrategy(verdict, strategy);
            && (!verdict.Fresh? ==> seen == verdict)
            && (verdict.Fresh? ==>
                  && (seen.Fresh? ==> seen == verdict) && (seen.Fresh? <==> strategy.Healthy?)
                  && (seen.Unreadable? <==> strategy == StrategyFailure(false))
                  && (seen.Unhealthy? <==> strategy.Problem? || strategy == StrategyFailure(true))
                  && (seen.Unhealthy? ==>
                        seen.publishedAt == verdict.publishedAt && seen.referenceNow == verdict.referenceNow))
  {
  }

  // ----- The open threshold -----

  datatype DeploymentState = NoStatus | Failed | Finished | Running

  datatype Deployment = Deployment(createdAt: Option<real>, expectedDark: Option<real>, state: DeploymentState)

  predicate HasPublishTime(verdict: Verdict) {
    !verdict.Unreadable? && !verdict.Broken?
  }

  predicate CoversWindow(verdict: Verdict, deployment: Option<Deployment>) {
    && deployment.Some? && deployment.value.createdAt.Some? && HasPublishTime(verdict)
    && deployment.value.createdAt.value >= verdict.publishedAt - 60.0 * DEPLOYMENT_LOOKBACK_MINUTES
  }

  function OpenThreshold(verdict: Verdict, deployment: Option<Deployment>, thresholds: Thresholds): real {
    if !CoversWindow(verdict, deployment) then thresholds.base
    else if deployment.value.state.Failed? then FAILED_DEPLOY_OPEN_MINUTES
    else if deployment.value.state.Finished? then thresholds.base
    else
      var declared := deployment.value.expectedDark;
      var expected := if declared.None? || declared.value < 0.0 then thresholds.base else declared.value;
      Max(thresholds.base, Min(expected, thresholds.maxDeployWindow) + thresholds.deployMargin)
  }

  predicate FailedDeployCovers(verdict: Verdict, deployment: Option<Deployment>) {
    CoversWindow(verdict, deployment) && deployment.value.state.Failed?
  }

  /**
   * No deployment record buys silence past the larger of the base threshold and the suppression ceiling, with exactly
   * one exception: a covering failed deploy sets 20 minutes even where that is later. Nothing else lowers the bar.
   */
  lemma ThresholdIsBounded(verdict: Verdict, deployment: Option<Deployment>, thresholds: Thresholds)
    ensures var threshold := OpenThreshold(verdict, deployment, thresholds);
            var limit := Max(thresholds.base, SuppressionCeiling(thresholds));
            && (threshold > limit <==> FailedDeployCovers(verdict, deployment) && FAILED_DEPLOY_OPEN_MINUTES > limit)
            && (threshold < thresholds.base <==>
                FailedDeployCovers(verdict, deployment) && FAILED_DEPLOY_OPEN_MINUTES < thresholds.base)
  {
  }

  /** Under tighter thresholds than the defaults, a failed deploy delays the alert instead of hurrying it. */
  lemma FailedDeployCanDelayTheAlert(publishedAt: real)
    ensures var tight := Thresholds(10.0, 1.0, 2.0, 5.0);
            var verdict := Stale(15.0, publishedAt, publishedAt + 900.0);
            var failed := Some(Deployment(Some(publishedAt), None, Failed));
            && OpenThreshold(verdict, None, tight) == 10.0 && OpenThreshold(verdict, failed, tight) == 20.0
            && Max(tight.base, SuppressionCeiling(tight)) == 10.0
            && PlanAction(verdict, None, OpenThreshold(verdict, None, tight), tight.closeAtOrBelow, false, false)
                == Create
            && PlanAction(verdict, None, OpenThreshold(verdict, failed, tight), tight.closeAtOrBelow, false, false)
                == Nothing
  {
  }

  /**
   * A deployment accounts for the dark window exactly when it began no more than twenty minutes before the snapshot.
   */
  lemma CoversFromTwentyMinutesBefore(verdict: Verdict, deployment: Deployment)
    ensures CoversWindow(verdict, Some(deployment)) <==>
      && !verdict.Unreadable? && !verdict.Broken?
      && deployment.createdAt.Some? && verdict.publishedAt - deployment.createdAt.value <= 1200.0
    ensures !CoversWindow(verdict, None)
  {
  }

  /**
   * The minutes that a deployment still under way asks for: what it declares, or the base if that is missing or
   * negative.
   */
  function Declared(deployment: Deployment, thresholds: Thresholds): real {
    match deployment.expectedDark
    case Some(minutes) => if minutes >= 0.0 then minutes else thresholds.base
    case None => thresholds.base
  }

  /**
   * Under a covering deployment that has neither failed nor finished, an outage opens from the larger of the base and
   * the declared minutes plus the margin, the declared ones counted up to the longest window only. Any other record,
   * a failed one aside, leaves the base.
   */
  lemma OnlyRunningDeploysRaiseTheBar(verdict: Verdict, deployment: Option<Deployment>, thresholds: Thresholds,
          age: real)
    requires !FailedDeployCovers(verdict, deployment)
    ensures var running := CoversWindow(verdict, deployment) && !deployment.value.state.Finished?;
            age >= OpenThreshold(verdict, deployment, thresholds) <==>
              && age >= thresholds.base
              && (running ==>
                    || age - thresholds.deployMargin >= Declared(deployment.value, thresholds)
                    || age - thresholds.deployMargin >= thresholds.maxDeployWindow)
  {
  }

  // ----- Escalation buckets -----

  function EscalationBucket(age: real): Option<int> {
    var hours := age / 60.0;
    if hours >= 24.0 then Some((hours / 24.0).Floor * 24)
    else if hours >= 12.0 then Some(12)
    else if hours >= 6.0 then Some(6)
    else None
  }

  /** Buckets 6 and 12, then whole days; a bucket names the last mark passed. */
  lemma BucketIsTheLastMark(age: real)
    ensures EscalationBucket(age).None? <==> age < 360.0
    ensures var bucket := EscalationBucket(age);
            bucket.Some? ==>
              && (bucket.value == 6 || bucket.value == 12 || (bucket.value >= 24 && bucket.value % 24 == 0))
              && bucket.value as real * 60.0 <= age
              && age < (if bucket.value == 6 then 720.0 else if bucket.value == 12 then 1440.0
                        else (bucket.value + 24) as real * 60.0)
  {
    var days := (age / 60.0 / 24.0).Floor;
    assert days as real <= age / 60.0 / 24.0 < (days + 1) as real;
  }

  lemma BucketsAreMonotone(age: real, later: real)
    requires age <= later && EscalationBucket(age).Some?
    ensures EscalationBucket(later).Some? && EscalationBucket(age).value <= EscalationBucket(later).value
  {
    var a, b := age / 60.0 / 24.0, later / 60.0 / 24.0;
    assert a <= b;
    assert a.Floor <= b.Floor;
  }

  // ----- The plan -----

  datatype Action = Nothing | Create | Comment(bucket: int) | Close

  /** `posted` is None when no monitor issue is open, else the buckets stamped on it. */
  function PlanAlertOnly(posted: Option<seq<int>>, muted: bool, acknowledged: bool): Action {
    if posted.Some? || muted || acknowledged then Nothing else Create
  }

  function PlanAction(verdict: Verdict, posted: Option<seq<int>>, threshold: real, closeAtOrBelow: real, muted: bool,
          acknowledged: bool): Action {
    match verdict
    case Unreadable => Nothing
    case Broken => PlanAlertOnly(posted, muted, acknowledged)
    case Unhealthy(_, _) => PlanAlertOnly(posted, muted, acknowledged)
    case Future(age, _, _) => if -age < threshold then Nothing else PlanAlertOnly(posted, muted, acknowledged)
    case Fresh(age, _, _) => if posted.Some? && age <= closeAtOrBelow then Close else Nothing
    case Stale(age, _, _) =>
      if posted.None? then (if age < threshold || muted || acknowledged then Nothing else Create)
      else
        var bucket := EscalationBucket(age);
        if bucket.None? || bucket.value in posted.value || muted then Nothing else Comment(bucket.value)
  }

  /** What one run sees of the world. */
  datatype Observation = Observation(fetch: Fetch, runnerNow: real, strategy: Strategy, deployment: Option<Deployment>,
                                     muted: bool, acknowledged: bool)

  function VerdictOf(seen: Observation, thresholds: Thresholds): Verdict {
    WithStrategy(Evaluate(seen.fetch, seen.runnerNow, thresholds.closeAtOrBelow), seen.strategy)
  }

  function Plan(seen: Observation, posted: Option<seq<int>>, thresholds: Thresholds): Action {
    var verdict := VerdictOf(seen, thresholds);
    PlanAction(verdict, posted, OpenThreshold(verdict, seen.deployment, thresholds), thresholds.closeAtOrBelow,
               seen.muted, seen.acknowledged)
  }

  /**
   * An issue is closed exactly when one is open and the snapshot is fresh within the close age with a healthy Strategy
   * Lab. Since one number is both the freshness limit and the close age, no fresh run ever leaves an issue open.
   */
  lemma ClosesExactlyOnRecovery(seen: Observation, posted: Option<seq<int>>, thresholds: Thresholds)
    ensures Plan(seen, posted, thresholds) == Close <==>
      && posted.Some? && seen.strategy.Healthy?
      && seen.fetch.Document? && seen.fetch.publishedAt.Some?
      && var age := (ReferenceNow(seen.fetch, seen.runnerNow) - seen.fetch.publishedAt.value) / 60.0;
         -5.0 <= age <= thresholds.closeAtOrBelow
  {
  }

  /**
   * An issue is opened exactly when none is open and nobody has muted or acknowledged the outage, and the site is
   * broken, its Strategy Lab unhealthy, or its snapshot off by the threshold into the past or the future.
   */
  lemma OpensExactlyOnOutage(seen: Observation, posted: Option<seq<int>>, thresholds: Thresholds)
    ensures var verdict := VerdictOf(seen, thresholds);
            var threshold := OpenThreshold(verdict, seen.deployment, thresholds);
            Plan(seen, posted, thresholds) == Create <==>
              && posted.None? && !seen.muted && !seen.acknowledged
              && (verdict.Broken? || verdict.Unhealthy?
                  || (verdict.Stale? && verdict.age >= threshold)
                  || (verdict.Future? && verdict.age <= -threshold))
  {
  }

  /** A comment is posted exactly on an open, unmuted, stale outage whose mark has not been posted yet, and names it. */
  lemma CommentsExactlyOnNewMarks(seen: Observation, posted: Option<seq<int>>, thresholds: Thresholds, bucket: int)
    ensures var verdict := VerdictOf(seen, thresholds);
            Plan(seen, posted, thresholds) == Comment(bucket) <==>
              && posted.Some? && !seen.muted && verdict.Stale?
              && EscalationBucket(verdict.age) == Some(bucket) && bucket !in posted.value
  {
  }

  /** Unmuted and unacknowledged, an outage past every threshold opens an issue whatever any deployment record says. */
  lemma NoRecordDelaysPastTheLimit(seen: Observation, thresholds: Thresholds)
    requires !seen.muted && !seen.acknowledged
    requires var verdict := VerdictOf(seen, thresholds);
             verdict.Stale? && verdict.age >= Max(FAILED_DEPLOY_OPEN_MINUTES,
                                                  Max(thresholds.base, SuppressionCeiling(thresholds)))
    ensures Plan(seen, None, thresholds) == Create
  {
    ThresholdIsBounded(VerdictOf(seen, thresholds), seen.deployment, thresholds);
  }

  /**
   * With the default thresholds that is 525 minutes, 135 for a deploy under way that declares nothing, and 20 once a
   * covering deploy has failed; an issue is closed from 20 minutes down.
   */
  lemma DefaultLimits(verdict: Verdict, deployment: Option<Deployment>)
    ensures OpenThreshold(verdict, deployment, DEFAULTS) <= 525.0
    ensures OpenThreshold(verdict, deployment, DEFAULTS) < 90.0 <==> FailedDeployCovers(verdict, deployment)
    ensures CoversWindow(verdict, deployment)
            && deployment.value.state.Running? && deployment.value.expectedDark.None? ==>
      OpenThreshold(verdict, deployment, DEFAULTS) == 135.0
    ensures PlanAction(Fresh(20.0, 0.0, 1200.0), Some([]), 90.0, DEFAULTS.closeAtOrBelow, false, false) == Close
    ensures PlanAction(Fresh(20.5, 0.0, 1230.0), Some([]), 90.0, DEFAULTS.closeAtOrBelow, false, false) == Nothing
  {
    ThresholdIsBounded(verdict, deployment, DEFAULTS);
  }
}
