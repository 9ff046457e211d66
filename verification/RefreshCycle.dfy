/**
 * One refresh cycle over many cities (forecaster/google_multicity_refresh.py), run by a single writer: the budget
 * pre-check, per-endpoint isolation, and what the ledger's caps can still deny afterwards.
 */
module RefreshCycle {
  import opened Wrappers
  import opened UsageLedger
  import opened LedgerRuns
  import opened LedgerBreaker
  import opened LedgerStore
  import opened GoogleDispatch
  import opened GoogleFetch
  import opened GenerationStore
  import Store = RuntimeStore
  import RuntimeHighs

  // ----- The single-request endpoints -----

  function SingleRequest(city: City, endpoint: string, id: string, now: int): Request {
    Request(city.slug, city.station, Handle(id, endpoint, 1), now)
  }

  /** The store after publishing a daily table; an empty one publishes nothing. */
  function PublishedDaily(runtime: Store.State, config: StoreConfig, city: City, samples: seq<Sample>,
          now: int): Store.State {
    if samples == [] then runtime
    else Store.Apply(runtime, Store.Replace(DailyScope(city.slug, city.station), now,
                                            DailyEntries(config, city.slug, AsMapping(samples), now)))
  }

  /** The store after publishing current conditions, if a temperature came back. */
  function PublishedCurrent(runtime: Store.State, config: StoreConfig, city: City, sample: Option<Sample>,
          now: int): Store.State {
    if sample.None? then runtime
    else
      var reading := Store.Reading(sample.value.value, now + config.lifetimes.current);
      Store.Apply(runtime, Store.Replace(CurrentScope(city.slug, city.station), now,
                                         [Store.Entry(sample.value.slot, reading)]))
  }

  lemma PublishedHoldsTheDays(runtime: Store.State, config: StoreConfig, city: City, samples: seq<Sample>, now: int)
    requires Store.Inv(runtime)
    ensures var scope := Store.Scope(Store.Daily, city.slug, city.station, None);
            var after := PublishedDaily(runtime, config, city, samples, now);
            && (samples == [] || !NotOlder(runtime, scope, now) ==> after == runtime)
            && (samples != [] && NotOlder(runtime, scope, now) ==>
                  IsGeneration(after.rows, scope, now, AsMapping(samples), DailyExpiry(config, city.slug, now)))
  {
    hide IsGeneration, AsMapping, Store.Apply, Store.Inv;
    if samples != [] {
      DailyIsStored(runtime, config, city.slug, city.station, now, AsMapping(samples), now);
    }
  }

  lemma PublishedHoldsTheReading(runtime: Store.State, config: StoreConfig, city: City, sample: Option<Sample>,
          now: int)
    requires Store.Inv(runtime)
    ensures var scope := Store.Scope(Store.Current, city.slug, city.station, None);
            var after := PublishedCurrent(runtime, config, city, sample, now);
            && (sample == None || !NotOlder(runtime, scope, now) ==> after == runtime)
            && (sample.Some? && NotOlder(runtime, scope, now) ==>
                  IsGeneration(after.rows, scope, now, [sample.value], CurrentExpiry(config, now)))
  {
    hide IsGeneration, Store.Apply, Store.Inv;
    if sample.Some? {
      CurrentIsStored(runtime, config, city.slug, city.station, now, sample.value, now);
    }
  }

  method FetchCityDaily(ledger: GoogleUsageLedger, runtime: GoogleRuntimeStore, city: City, id: string,
                        response: Response<seq<Sample>>, others: Others, now: int)
    returns (result: Result<seq<Sample>, FetchError>)
    requires ledger.Valid() && runtime.Valid() && Served(city, ledger, runtime) && CanonicalUuid4(id)
    requires var handle := SingleRequest(city, "daily", id, now).handle;
             !Has(ledger.rows, handle) && OthersForeign(others, handle)
    modifies ledger, runtime
    ensures ledger.Valid() && runtime.Valid() && TableEvolves(old(ledger.rows), ledger.rows)
    ensures Closed(ledger.rows, Handle(id, "daily", 1), response)
    ensures result.Ok? ==> response == Body(Some(result.value))
    ensures others == NOBODY && !(result.Err? && result.error.Denied?) ==> AnsweredBy(result, response)
    ensures result.Err? ==> runtime.Contents() == old(runtime.Contents())
    ensures result.Ok? ==>
      runtime.Contents() == PublishedDaily(old(runtime.Contents()), runtime.config, city, result.value, now)
    ensures others == NOBODY ==>
      AloneEffect(old(ledger.rows), ledger.rows, 1, {SingleRequest(city, "daily", id, now).handle}, AnswerOf(response))
    ensures others == NOBODY ==> !(result.Err? && result.error.NotDispatched?)
    ensures result.Err? && result.error.Denied? ==>
      && ledger.rows == old(ledger.rows)
      && Refusal(ledger.config, ledger.rows, ledger.config.pacificDate(now)) == Some(result.error.reason)
  {
    hide Inv, TableEvolves, Has, Find, Settled, AloneEffect, Refusal, ReserveResult, AsMapping, Store.Apply,
         Store.Inv, AnswerOf;
    var request := SingleRequest(city, "daily", id, now);
    result := DispatchRequest(ledger, request, response, others);
    if result.Err? && result.error.Denied? {
      DenialIsRefusal(ledger.config, ledger.rows, city, request.handle, now, result.error.reason);
    }
    if result.Ok? && result.value != [] {
      var _ := runtime.ReplaceDailyGeneration(city.slug, city.station, now, AsMapping(result.value), now);
    }
  }

  /** Current conditions may parse to no temperature at all: a paid success that publishes nothing. */
  method FetchCityCurrent(ledger: GoogleUsageLedger, runtime: GoogleRuntimeStore, city: City, id: string,
                          response: Response<Option<Sample>>, others: Others, now: int)
    returns (result: Result<Option<Sample>, FetchError>)
    requires ledger.Valid() && runtime.Valid() && Served(city, ledger, runtime) && CanonicalUuid4(id)
    requires var handle := SingleRequest(city, "current", id, now).handle;
             !Has(ledger.rows, handle) && OthersForeign(others, handle)
    modifies ledger, runtime
    ensures ledger.Valid() && runtime.Valid() && TableEvolves(old(ledger.rows), ledger.rows)
    ensures Closed(ledger.rows, Handle(id, "current", 1), response)
    ensures result.Ok? ==> response == Body(Some(result.value))
    ensures others == NOBODY && !(result.Err? && result.error.Denied?) ==> AnsweredBy(result, response)
    ensures result.Err? ==> runtime.Contents() == old(runtime.Contents())
    ensures result.Ok? ==>
      runtime.Contents() == PublishedCurrent(old(runtime.Contents()), runtime.config, city, result.value, now)
    ensures others == NOBODY ==>
      AloneEffect(old(ledger.rows), ledger.rows, 1, {SingleRequest(city, "current", id, now).handle},
                  AnswerOf(response))
    ensures others == NOBODY ==> !(result.Err? && result.error.NotDispatched?)
    ensures result.Err? && result.error.Denied? ==>
      && ledger.rows == old(ledger.rows)
      && Refusal(ledger.config, ledger.rows, ledger.config.pacificDate(now)) == Some(result.error.reason)
  {
    hide Inv, TableEvolves, Has, Find, Settled, AloneEffect, Refusal, ReserveResult, Store.Apply, Store.Inv, AnswerOf;
    var request := SingleRequest(city, "current", id, now);
    result := DispatchRequest(ledger, request, response, others);
    if result.Err? && result.error.Denied? {
      DenialIsRefusal(ledger.config, ledger.rows, city, request.handle, now, result.error.reason);
    }
    if result.Ok? && result.value.Some? {
      var _ := runtime.ReplaceCurrentGeneration(city.slug, city.station, now, result.value.value, now);
    }
  }

  // ----- The budget pre-check -----

  datatype SkipReason = DailySkip | MonthlySkip | SoftCeiling | ClientErrorBreaker | MissingApiKey

  const SFO := "sfo"

  function MaxCost(city: City, ceiling: nat): nat {
    if city.slug == SFO then ceiling + 2 else ceiling + 1
  }

  function BudgetSkipReason(limits: Limits, daily: nat, monthly: nat, cost: nat, isSfo: bool): Option<SkipReason> {
    if daily + cost > limits.daily then Some(DailySkip)
    else if monthly + cost > limits.monthly then Some(MonthlySkip)
    else if !isSfo && monthly + cost > limits.softMonthly then Some(SoftCeiling)
    else None
  }

  /** Appending n rows raises no count by more than n. */
  lemma {:induction false} AppendedCounts(before: Table, after: Table, text: string)
    requires |before| <= |after| && after[..|before|] == before
    requires forall i :: 0 <= i < |after| ==> after[i].billable <= 1
    ensures BillableOn(after, text) <= BillableOn(before, text) + (|after| - |before|)
    ensures BillableIn(after, text) <= BillableIn(before, text) + (|after| - |before|)
  {
    if |after| == |before| {
      assert after == before;
    } else {
      var k := |after| - 1;
      assert after[..k][..|before|] == before;
      AppendedCounts(before, after[..k], text);
    }
  }

  /** The breaker is on, and the table's trailing run of client errors has reached it. */
  predicate BreakerTrips(config: Config, rows: Table, now: int) {
    config.limits.breaker > 0 && TrailingRun(rows, config.pacificDate(now)) >= config.limits.breaker
  }

  /** The breaker trips at some moment once the table has grown to `from` rows. */
  ghost predicate BreakerTripped(config: Config, from: nat, rows: Table, now: int) {
    exists n :: from <= n <= |rows| && BreakerTrips(config, rows[..n], now)
  }

  lemma TrippedStaysTripped(config: Config, from: nat, before: Table, after: Table, now: int)
    requires |before| <= |after| && after[..|before|] == before && BreakerTripped(config, from, before, now)
    ensures BreakerTripped(config, from, after, now)
  {
    var n :| from <= n <= |before| && BreakerTrips(config, before[..n], now);
    assert after[..n] == after[..|before|][..n] == before[..n];
  }

  lemma TripsNow(config: Config, from: nat, rows: Table, now: int)
    requires from <= |rows| && BreakerTrips(config, rows, now)
    ensures BreakerTripped(config, from, rows, now)
  {
    assert rows[..|rows|] == rows;
  }

  lemma TrippedFromEarlier(config: Config, from: nat, later: nat, rows: Table, now: int)
    requires from <= later && BreakerTripped(config, later, rows, now)
    ensures BreakerTripped(config, from, rows, now)
  {
  }

  /**
   * What a passed pre-check buys: as long as fewer than `cost` rows have been added since, no hard cap can deny the
   * next reservation, and the soft ceiling can only deny a city it was not checked for.
   */
  lemma OnlyBreakerOrCeilingDenies(config: Config, before: Table, rows: Table, now: int, cost: nat, isSfo: bool,
          reason: Error)
    requires Inv(rows) && |before| <= |rows| < |before| + cost && rows[..|before|] == before
    requires var date := config.pacificDate(now);
             BudgetSkipReason(config.limits, BillableOn(before, date), BillableIn(before, MonthOf(date)), cost, isSfo)
             == None
    requires Refusal(config, rows, config.pacificDate(now)) == Some(reason)
    ensures (reason.BreakerOpen? && BreakerTrips(config, rows, now)) || (isSfo && reason == SoftMonthlyBudget)
  {
    hide Inv, BillableOn, BillableIn, TrailingRun;
    InvBillableAtMostOne(rows);
    AppendedCounts(before, rows, config.pacificDate(now));
    AppendedCounts(before, rows, MonthOf(config.pacificDate(now)));
  }

  lemma InvBillableAtMostOne(rows: Table)
    requires Inv(rows)
    ensures forall i :: 0 <= i < |rows| ==> rows[i].billable <= 1
  {
    forall i | 0 <= i < |rows| ensures rows[i].billable <= 1 {
      assert WellFormed(rows[i]);
    }
  }

  /**
   * The exemption is real: with one event left below the ceiling, SFO passes the pre-check and its second page is
   * denied.
   */
  lemma SfoCanBeDeniedAtTheCeiling(config: Config, now: int, row: Row)
    requires config.limits == Limits(260, 8000, 1, 12)
    requires row.date == config.pacificDate(now) && row.month == MonthOf(row.date) && row.billable == 1
      && row.status == Success
    ensures BudgetSkipReason(config.limits, 0, 0, 5, true) == None
    ensures Refusal(config, [], row.date) == None
    ensures Refusal(config, [row], row.date) == Some(SoftMonthlyBudget)
  {
    assert [row][..0] == [];
  }

  // ----- One city -----

  /** What one city's requests will meet: fresh reservation ids and the responses behind them. */
  datatype Draws = Draws(hourlyIds: seq<string>, hourly: seq<Response<HourlyPage>>,
                         dailyId: string, daily: Response<seq<Sample>>,
                         currentId: string, current: Response<Option<Sample>>)

  datatype Attempt = Succeeds | BudgetExceeded(reason: Error) | Fails | Unexpected

  datatype ErrorKind = BudgetError | EndpointError(endpoint: string) | UnexpectedError

  function AttemptOf<T>(result: Result<T, FetchError>): Attempt {
    match result
    case Ok(_) => Succeeds
    case Err(Denied(reason)) =>
      if reason.DailyBudget? || reason.MonthlyBudget? || reason.SoftMonthlyBudget? || reason.BreakerOpen?
      then BudgetExceeded(reason) else Unexpected
    case Err(RequestFailed) => Fails
    case Err(_) => Unexpected
  }

  predicate AnySucceeds(endpoints: seq<(string, Attempt)>) {
    exists k :: 0 <= k < |endpoints| && endpoints[k].1.Succeeds?
  }

  /** The error that one attempt names, if it failed. */
  predicate NamesError(endpoint: (string, Attempt), error: ErrorKind) {
    && (endpoint.1.BudgetExceeded? <==> error == BudgetError)
    && (endpoint.1.Fails? <==> error == EndpointError(endpoint.0))
    && (endpoint.1.Unexpected? <==> error == UnexpectedError)
    && !endpoint.1.Succeeds?
  }

  /** The first failing endpoint names the city's error. */
  function FirstError(endpoints: seq<(string, Attempt)>): (error: Option<ErrorKind>)
    ensures error.None? <==> forall k :: 0 <= k < |endpoints| ==> endpoints[k].1.Succeeds?
    ensures error.Some? ==> exists k :: 0 <= k < |endpoints| && NamesError(endpoints[k], error.value)
                                        && forall j :: 0 <= j < k ==> endpoints[j].1.Succeeds?
  {
    if endpoints == [] then None
    else
      match endpoints[0].1
      case Succeeds => FirstError(endpoints[1..])
      case BudgetExceeded(_) => Some(BudgetError)
      case Fails => Some(EndpointError(endpoints[0].0))
      case Unexpected => Some(UnexpectedError)
  }

  datatype CityStatus =
    | Skipped(reason: SkipReason)
    | Attempted(endpoints: seq<(string, Attempt)>, available: bool, errorKind: Option<ErrorKind>)

  function DrawHandles(city: City, draws: Draws, now: int): set<Handle> {
    PageHandles(city, draws.hourlyIds, |draws.hourlyIds|, now)
    + {SingleRequest(city, "daily", draws.dailyId, now).handle,
       SingleRequest(city, "current", draws.currentId, now).handle}
  }

  ghost predicate FreshDraws(rows: Table, city: City, draws: Draws, ceiling: nat, now: int) {
    && |draws.hourlyIds| == |draws.hourly| == ceiling
    && CanonicalIds(draws.hourlyIds) && CanonicalUuid4(draws.dailyId) && CanonicalUuid4(draws.currentId)
    && (forall p, q :: 0 <= p < q < ceiling ==> draws.hourlyIds[p] != draws.hourlyIds[q])
    && (forall handle :: handle in DrawHandles(city, draws, now) ==> !Has(rows, handle))
  }

  function DrawnAnswers(draws: Draws): Answers {
    Both(Both(AllAnswers(draws.hourly), AnswerOf(draws.daily)), AnswerOf(draws.current))
  }

  function AllDrawn(draws: seq<Draws>): Answers {
    Answers(forall i :: 0 <= i < |draws| ==> DrawnAnswers(draws[i]).recordable,
            forall i :: 0 <= i < |draws| ==> DrawnAnswers(draws[i]).quiet)
  }

  lemma DrawnAmongAll(draws: seq<Draws>, i: nat)
    requires i < |draws|
    ensures Implies(AllDrawn(draws), DrawnAnswers(draws[i]))
  {
  }

  function Nobodies(n: nat): (others: seq<Others>)
    ensures |others| == n && NobodyElse(others)
  {
    seq(n, _ => NOBODY)
  }

  /** No cap denied this attempt: only a tripped breaker did, or the soft ceiling that SFO's exemption let it reach. */
  predicate SparedByCaps(attempt: Attempt, isSfo: bool, tripped: bool) {
    attempt.BudgetExceeded? ==>
      (attempt.reason.BreakerOpen? && tripped) || (isSfo && attempt.reason == SoftMonthlyBudget)
  }

  predicate AllSpared(endpoints: seq<(string, Attempt)>, isSfo: bool, tripped: bool) {
    forall k :: 0 <= k < |endpoints| ==> SparedByCaps(endpoints[k].1, isSfo, tripped)
  }

  lemma SparedWhenTripped(endpoints: seq<(string, Attempt)>, isSfo: bool, tripped: bool, later: bool)
    requires AllSpared(endpoints, isSfo, tripped) && (tripped ==> later)
    ensures AllSpared(endpoints, isSfo, later)
  {
  }

  /** With the breaker off, or no long enough run of client errors, any city but SFO meets no budget denial. */
  lemma QuietBreakerDeniesNothing(config: Config, from: nat, rows: Table, city: City, now: int,
          endpoints: seq<(string, Attempt)>)
    requires AllSpared(endpoints, city.slug == SFO, BreakerTripped(config, from, rows, now)) && city.slug != SFO
    requires config.limits.breaker == 0
             || forall n :: from <= n <= |rows| ==>
                 TrailingRun(rows[..n], config.pacificDate(now)) < config.limits.breaker
    ensures forall k :: 0 <= k < |endpoints| ==> !endpoints[k].1.BudgetExceeded?
  {
    forall n | from <= n <= |rows| ensures !BreakerTrips(config, rows[..n], now) {
    }
    forall k | 0 <= k < |endpoints| ensures !endpoints[k].1.BudgetExceeded? {
      assert SparedByCaps(endpoints[k].1, false, false);
    }
  }

  predicate PassesPreCheck(config: Config, rows: Table, city: City, ceiling: nat, now: int) {
    var date := config.pacificDate(now);
    BudgetSkipReason(config.limits, BillableOn(rows, date), BillableIn(rows, MonthOf(date)), MaxCost(city, ceiling),
                     city.slug == SFO) == None
  }

  function HourlyDrawn(draws: Draws): seq<Sample> {
    match Pagination(draws.hourly, 0, |draws.hourly|)
    case Some(samples) => samples
    case None => []
  }

  /** The store after one city: each endpoint that succeeded has published what it drew, in the order of the calls. */
  function CityPublished(runtime: Store.State, config: StoreConfig, city: City, draws: Draws,
          endpoints: seq<(string, Attempt)>, now: int): Store.State {
    var hourly :=
      if ("hourly", Succeeds) in endpoints then Published(runtime, config, city, HourlyDrawn(draws), now) else runtime;
    var daily :=
      if ("daily", Succeeds) in endpoints && draws.daily.Body? && draws.daily.parsed.Some?
      then PublishedDaily(hourly, config, city, draws.daily.parsed.value, now) else hourly;
    if ("current", Succeeds) in endpoints && draws.current.Body? && draws.current.parsed.Some?
    then PublishedCurrent(daily, config, city, draws.current.parsed.value, now) else daily
  }

  lemma HourlyReady(rows: Table, city: City, draws: Draws, ceiling: nat, now: int)
    requires FreshDraws(rows, city, draws, ceiling, now)
    ensures FreshIds(rows, city, draws.hourlyIds, Nobodies(ceiling), now, ceiling)
  {
    forall p: nat | p < ceiling ensures !Has(rows, HourlyRequest(city, draws.hourlyIds, p, now).handle) {
      assert HourlyRequest(city, draws.hourlyIds, p, now).handle in DrawHandles(city, draws, now);
    }
  }

  lemma StillFresh(before: Table, after: Table, most: nat, handles: set<Handle>, answers: Answers, handle: Handle)
    requires AloneEffect(before, after, most, handles, answers)
    requires handle.endpoint in ENDPOINTS && handle !in handles && !Has(before, handle)
    ensures !Has(after, handle)
  {
  }

  lemma CapsSpare<T>(config: Config, before: Table, rows: Table, city: City, ceiling: nat, now: int,
          result: Result<T, FetchError>)
    requires Inv(rows) && |before| <= |rows| < |before| + MaxCost(city, ceiling) && rows[..|before|] == before
    requires PassesPreCheck(config, before, city, ceiling, now)
    requires result.Err? && result.error.Denied? ==>
      Refusal(config, rows, config.pacificDate(now)) == Some(result.error.reason)
    ensures SparedByCaps(AttemptOf(result), city.slug == SFO, BreakerTripped(config, |before|, rows, now))
  {
    hide Inv, Refusal, BudgetSkipReason, BreakerTrips, BreakerTripped;
    if result.Err? && result.error.Denied? {
      OnlyBreakerOrCeilingDenies(config, before, rows, now, MaxCost(city, ceiling), city.slug == SFO,
                                 result.error.reason);
      if BreakerTrips(config, rows, now) {
        TripsNow(config, |before|, rows, now);
      }
    }
  }

  lemma SingleHandleFresh(before: Table, after: Table, city: City, draws: Draws, ceiling: nat, now: int, most: nat,
          handles: set<Handle>, answers: Answers, handle: Handle)
    requires FreshDraws(before, city, draws, ceiling, now) && AloneEffect(before, after, most, handles, answers)
    requires handle == SingleRequest(city, "daily", draws.dailyId, now).handle
      || handle == SingleRequest(city, "current", draws.currentId, now).handle
    requires handle !in handles
    ensures !Has(after, handle)
  {
    assert handle in DrawHandles(city, draws, now);
    StillFresh(before, after, most, handles, answers, handle);
  }

  lemma EndpointsDiffer(city: City, draws: Draws, now: int)
    ensures var pages := PageHandles(city, draws.hourlyIds, |draws.hourlyIds|, now);
            var daily := SingleRequest(city, "daily", draws.dailyId, now).handle;
            var current := SingleRequest(city, "current", draws.currentId, now).handle;
            daily !in pages && current !in pages && daily != current
  {
  }

  /**
   * What a city's attempts so far have done to the ledger: at most `used` settled rows under these handles, and no cap
   * denied any of them after a passed pre-check.
   */
  ghost predicate Attempts(config: Config, start: Table, rows: Table, city: City, ceiling: nat, now: int, used: nat,
          handles: set<Handle>, answers: Answers, endpoints: seq<(string, Attempt)>) {
    && Inv(rows) && TableEvolves(start, rows) && used <= MaxCost(city, ceiling)
    && AloneEffect(start, rows, used, handles, answers)
    && (PassesPreCheck(config, start, city, ceiling, now) ==>
          AllSpared(endpoints, city.slug == SFO, BreakerTripped(config, |start|, rows, now)))
  }

  lemma HourlyAttempts(config: Config, start: Table, rows: Table, city: City, ceiling: nat, now: int,
          handles: set<Handle>, answers: Answers, result: Result<seq<Sample>, FetchError>)
    requires Inv(rows) && TableEvolves(start, rows) && AloneEffect(start, rows, ceiling, handles, answers)
    requires result.Err? && result.error.Denied? ==>
      && |rows| < |start| + ceiling
      && Refusal(config, rows, config.pacificDate(now)) == Some(result.error.reason)
    ensures Attempts(config, start, rows, city, ceiling, now, ceiling, handles, answers,
                     [("hourly", AttemptOf(result))])
  {
    hide Inv, TableEvolves, PassesPreCheck, Refusal, BreakerTripped, AloneEffect, AttemptOf;
    AloneBound(start, rows, ceiling, handles, answers);
    if PassesPreCheck(config, start, city, ceiling, now) {
      if result.Err? && result.error.Denied? {
        CapsSpare(config, start, rows, city, ceiling, now, result);
      } else {
        OnlyDenialsExceed(result, city.slug == SFO, BreakerTripped(config, |start|, rows, now));
      }
    }
  }

  lemma OnlyDenialsExceed<T>(result: Result<T, FetchError>, isSfo: bool, tripped: bool)
    requires !(result.Err? && result.error.Denied?)
    ensures SparedByCaps(AttemptOf(result), isSfo, tripped)
  {
  }

  /** One more single-request endpoint: the effects add up, and a denial still comes short of the bundle. */
  lemma AttemptAdds<T>(config: Config, start: Table, before: Table, after: Table, city: City, ceiling: nat, now: int,
          used: nat, handles: set<Handle>, p: Answers, endpoints: seq<(string, Attempt)>,
          handle: Handle, q: Answers, name: string, result: Result<T, FetchError>)
    requires Attempts(config, start, before, city, ceiling, now, used, handles, p, endpoints)
    requires used < MaxCost(city, ceiling) && Inv(after) && TableEvolves(before, after)
    requires AloneEffect(before, after, 1, {handle}, q)
    requires result.Err? && result.error.Denied? ==>
      after == before && Refusal(config, after, config.pacificDate(now)) == Some(result.error.reason)
    ensures Attempts(config, start, after, city, ceiling, now, used + 1, handles + {handle}, Both(p, q),
                     endpoints + [(name, AttemptOf(result))])
  {
    hide Inv, TableEvolves, PassesPreCheck, Refusal, BreakerTripped, AloneEffect, AttemptOf;
    EvolutionComposes(start, before, after);
    AloneComposes(start, before, after, used, 1, handles, {handle}, p, q);
    AloneBound(start, before, used, handles, p);
    AloneBound(before, after, 1, {handle}, q);
    if PassesPreCheck(config, start, city, ceiling, now) {
      if BreakerTripped(config, |start|, before, now) {
        TrippedStaysTripped(config, |start|, before, after, now);
      }
      SparedWhenTripped(endpoints, city.slug == SFO, BreakerTripped(config, |start|, before, now),
                        BreakerTripped(config, |start|, after, now));
      if result.Err? && result.error.Denied? {
        CapsSpare(config, start, before, city, ceiling, now, result);
      } else {
        OnlyDenialsExceed(result, city.slug == SFO, BreakerTripped(config, |start|, after, now));
      }
    }
  }

  lemma AttemptsMean(config: Config, start: Table, rows: Table, city: City, ceiling: nat, now: int, used: nat,
          handles: set<Handle>, answers: Answers, endpoints: seq<(string, Attempt)>, all: set<Handle>, given: Answers)
    requires Attempts(config, start, rows, city, ceiling, now, used, handles, answers, endpoints)
    requires handles <= all && Implies(given, answers)
    ensures TableEvolves(start, rows) && AloneEffect(start, rows, MaxCost(city, ceiling), all, given)
    ensures PassesPreCheck(config, start, city, ceiling, now) ==>
      AllSpared(endpoints, city.slug == SFO, BreakerTripped(config, |start|, rows, now))
  {
    hide Inv, TableEvolves, AloneEffect, PassesPreCheck, AllSpared, BreakerTripped;
    AloneWidens(start, rows, used, MaxCost(city, ceiling), handles, all, answers, given);
  }

  /** A single call that the budget let through is reported as its answer has it. */
  predicate Says<T>(attempt: Attempt, response: Response<T>) {
    !attempt.BudgetExceeded? ==>
      && (attempt.Succeeds? <==> response.Body? && response.parsed.Some?)
      && (attempt.Fails? <==> !(response.Body? && response.parsed.Some?) && Recordable(response))
      && (attempt.Unexpected? <==> !Recordable(response))
  }

  /**
   * The pages that the budget let through are reported as they answered: all of them make a forecast, or one failed.
   */
  predicate HourlySays(attempt: Attempt, responses: seq<Response<HourlyPage>>) {
    !attempt.BudgetExceeded? ==>
      && (attempt.Succeeds? <==> Pagination(responses, 0, |responses|).Some?)
      && (attempt.Fails? ==> exists p :: 0 <= p < |responses| && FailedPage(responses[p], RequestFailed))
      && (attempt.Unexpected? ==> exists p :: 0 <= p < |responses| && !Recordable(responses[p]))
  }

  lemma AttemptSays<T>(config: Config, rows: Table, date: DateText, result: Result<T, FetchError>,
          response: Response<T>)
    requires result.Err? && result.error.Denied? ==> Refusal(config, rows, date) == Some(result.error.reason)
    requires !(result.Err? && result.error.Denied?) ==> AnsweredBy(result, response)
    ensures Says(AttemptOf(result), response)
  {
  }

  lemma HourlyAttemptSays(config: Config, rows: Table, date: DateText, result: Result<seq<Sample>, FetchError>,
          responses: seq<Response<HourlyPage>>)
    requires result.Err? && result.error.Denied? ==> Refusal(config, rows, date) == Some(result.error.reason)
    requires PagesAnswered(result, responses) && !(result.Err? && result.error.NotDispatched?)
    ensures HourlySays(AttemptOf(result), responses)
  {
    hide Pagination, Recordable;
  }

  /** How an attempted city is reported: endpoint by endpoint, by its first error, and available if anything came. */
  predicate Reported(city: City, draws: Draws, status: CityStatus) {
    status.Attempted? ==>
      && |status.endpoints| == (if city.slug == "sfo" then 3 else 2)
      && status.endpoints[0].0 == "hourly" && HourlySays(status.endpoints[0].1, draws.hourly)
      && status.endpoints[1].0 == "daily" && Says(status.endpoints[1].1, draws.daily)
      && (city.slug == "sfo" ==> status.endpoints[2].0 == "current" && Says(status.endpoints[2].1, draws.current))
      && status.errorKind == FirstError(status.endpoints)
      && (status.available <==> AnySucceeds(status.endpoints))
  }

  /** The handles of the two forecasts that every city fetches. */
  function ForecastHandles(city: City, draws: Draws, now: int): set<Handle> {
    PageHandles(city, draws.hourlyIds, |draws.hourlyIds|, now)
    + {SingleRequest(city, "daily", draws.dailyId, now).handle}
  }

  function ForecastAnswers(draws: Draws): Answers {
    Both(AllAnswers(draws.hourly), AnswerOf(draws.daily))
  }

  /** The first two endpoints, which every city has. */
  method RefreshForecasts(ledger: GoogleUsageLedger, runtime: GoogleRuntimeStore, city: City, draws: Draws,
                          ceiling: nat, now: int)
    returns (endpoints: seq<(string, Attempt)>)
    requires ledger.Valid() && runtime.Valid() && Served(city, ledger, runtime)
    requires FreshDraws(ledger.rows, city, draws, ceiling, now)
    modifies ledger, runtime
    ensures ledger.Valid() && runtime.Valid()
    ensures |endpoints| == 2 && endpoints[0].0 == "hourly" && endpoints[1].0 == "daily"
    ensures HourlySays(endpoints[0].1, draws.hourly) && Says(endpoints[1].1, draws.daily)
    ensures Attempts(ledger.config, old(ledger.rows), ledger.rows, city, ceiling, now, ceiling + 1,
                     ForecastHandles(city, draws, now), ForecastAnswers(draws), endpoints)
    ensures runtime.Contents() == CityPublished(old(runtime.Contents()), runtime.config, city, draws, endpoints, now)
  {
    hide Inv, TableEvolves, Has, Find, Settled, AloneEffect, Refusal, AsMapping, Store.Apply, Store.Inv, AllAnswers,
         AnswerOf, Both, FreshDraws, FreshIds, Pagination, Closed, PageHandles, SingleRequest, HourlyRequest,
         KnownCity, CanonicalIds, CanonicalUuid4, Published, PublishedDaily, CityPublished, AttemptOf, HourlyDrawn,
         Served, DailyScope, Attempts, Says, HourlySays, PagesAnswered, AnsweredBy;
    ghost var config, start, unread := ledger.config, ledger.rows, runtime.Contents();
    DrawShape(start, city, draws, ceiling, now);
    ghost var pages, p := PageHandles(city, draws.hourlyIds, ceiling, now), AllAnswers(draws.hourly);
    ghost var dailyHandle := SingleRequest(city, "daily", draws.dailyId, now).handle;
    HourlyReady(start, city, draws, ceiling, now);
    EndpointsDiffer(city, draws, now);
    var hourly := FetchCityHourly(ledger, runtime, city, ceiling, ceiling, draws.hourlyIds, draws.hourly,
                                  Nobodies(ceiling), now);
    ghost var afterHourly, stored := ledger.rows, runtime.Contents();
    HourlyAttemptSays(config, afterHourly, config.pacificDate(now), hourly, draws.hourly);
    HourlyAttempts(config, start, afterHourly, city, ceiling, now, pages, p, hourly);
    SingleHandleFresh(start, afterHourly, city, draws, ceiling, now, ceiling, pages, p, dailyHandle);
    var daily := FetchCityDaily(ledger, runtime, city, draws.dailyId, draws.daily, NOBODY, now);
    AttemptAdds(config, start, afterHourly, ledger.rows, city, ceiling, now, ceiling, pages, p,
                [("hourly", AttemptOf(hourly))], dailyHandle, AnswerOf(draws.daily), "daily", daily);
    AttemptSays(config, ledger.rows, config.pacificDate(now), daily, draws.daily);
    endpoints := [("hourly", AttemptOf(hourly)), ("daily", AttemptOf(daily))];
    assert endpoints == [("hourly", AttemptOf(hourly))] + [("daily", AttemptOf(daily))];
    HourlyPublishes(unread, stored, runtime.config, city, draws, hourly, now);
    DailyPublishes(unread, stored, runtime.Contents(), runtime.config, city, draws, hourly, daily, now);
  }

  /**
   * Every endpoint of one city in turn; a failure is recorded and never stops the next endpoint. After a passed
   * pre-check no cap denies a page or endpoint, save that SFO may meet the soft ceiling it was not checked for.
   */
  method RefreshOneCity(ledger: GoogleUsageLedger, runtime: GoogleRuntimeStore, city: City, draws: Draws, ceiling: nat,
                        includeCurrent: bool, now: int)
    returns (status: CityStatus)
    requires ledger.Valid() && runtime.Valid() && Served(city, ledger, runtime)
    requires FreshDraws(ledger.rows, city, draws, ceiling, now) && includeCurrent == (city.slug == SFO)
    modifies ledger, runtime
    ensures ledger.Valid() && runtime.Valid() && TableEvolves(old(ledger.rows), ledger.rows)
    ensures status.Attempted? && |status.endpoints| == (if includeCurrent then 3 else 2)
    ensures status.endpoints[0].0 == "hourly" && status.endpoints[1].0 == "daily"
    ensures includeCurrent ==> status.endpoints[2].0 == "current"
    ensures status.errorKind == FirstError(status.endpoints)
    ensures status.available <==> AnySucceeds(status.endpoints)
    ensures Reported(city, draws, status)
    ensures AloneEffect(old(ledger.rows), ledger.rows, MaxCost(city, ceiling), DrawHandles(city, draws, now),
                        DrawnAnswers(draws))
    ensures PassesPreCheck(ledger.config, old(ledger.rows), city, ceiling, now) ==>
      AllSpared(status.endpoints, city.slug == SFO, BreakerTripped(ledger.config, |old(ledger.rows)|, ledger.rows, now))
    ensures runtime.Contents() ==
            CityPublished(old(runtime.Contents()), runtime.config, city, draws, status.endpoints, now)
    ensures !status.available ==> runtime.Contents() == old(runtime.Contents())
  {
    hide Inv, TableEvolves, Has, Find, Settled, AloneEffect, Refusal, Store.Apply, Store.Inv, AllAnswers, AnswerOf,
         FreshDraws, PassesPreCheck, Closed, PageHandles, AllSpared, SingleRequest, FirstError, KnownCity,
         CanonicalUuid4, PublishedCurrent, CityPublished, BreakerTripped, AttemptOf, Served, AnySucceeds, Attempts,
         DailyScope, Says, HourlySays, AnsweredBy;
    ghost var config, start, unread := ledger.config, ledger.rows, runtime.Contents();
    ghost var used, handles, answers := ceiling + 1, ForecastHandles(city, draws, now), ForecastAnswers(draws);
    DrawShape(start, city, draws, ceiling, now);
    EndpointsDiffer(city, draws, now);
    var endpoints := RefreshForecasts(ledger, runtime, city, draws, ceiling, now);
    if includeCurrent {
      ghost var before, stored := ledger.rows, runtime.Contents();
      ghost var handle := SingleRequest(city, "current", draws.currentId, now).handle;
      AttemptsMean(config, start, before, city, ceiling, now, used, handles, answers, endpoints, handles, answers);
      SingleHandleFresh(start, before, city, draws, ceiling, now, MaxCost(city, ceiling), handles, answers, handle);
      var current := FetchCityCurrent(ledger, runtime, city, draws.currentId, draws.current, NOBODY, now);
      AttemptAdds(config, start, before, ledger.rows, city, ceiling, now, used, handles, answers, endpoints, handle,
                  AnswerOf(draws.current), "current", current);
      CurrentPublishes(unread, stored, runtime.Contents(), runtime.config, city, draws, endpoints, current, now);
      AttemptSays(config, ledger.rows, config.pacificDate(now), current, draws.current);
      used, handles, answers := used + 1, handles + {handle}, Both(answers, AnswerOf(draws.current));
      endpoints := endpoints + [("current", AttemptOf(current))];
    }
    AttemptsMean(config, start, ledger.rows, city, ceiling, now, used, handles, answers, endpoints,
                 DrawHandles(city, draws, now), DrawnAnswers(draws));
    UnavailablePublishesNothing(unread, runtime.config, city, draws, endpoints, now);
    status := Attempted(endpoints, AnySucceeds(endpoints), FirstError(endpoints));
  }

  lemma HourlyPublishes(before: Store.State, after: Store.State, config: StoreConfig, city: City, draws: Draws,
          hourly: Result<seq<Sample>, FetchError>, now: int)
    requires hourly.Ok? ==>
      && Pagination(draws.hourly, 0, |draws.hourly|) == Some(hourly.value)
      && after == Published(before, config, city, hourly.value, now)
    requires hourly.Err? ==> after == before
    ensures after == if hourly.Ok? then Published(before, config, city, HourlyDrawn(draws), now) else before
  {
  }

  lemma DailyPublishes(first: Store.State, before: Store.State, after: Store.State, config: StoreConfig, city: City,
          draws: Draws, hourly: Result<seq<Sample>, FetchError>, daily: Result<seq<Sample>, FetchError>, now: int)
    requires before == if hourly.Ok? then Published(first, config, city, HourlyDrawn(draws), now) else first
    requires daily.Ok? ==>
      draws.daily == Body(Some(daily.value)) && after == PublishedDaily(before, config, city, daily.value, now)
    requires daily.Err? ==> after == before
    ensures after == CityPublished(first, config, city, draws,
                                   [("hourly", AttemptOf(hourly)), ("daily", AttemptOf(daily))], now)
  {
    hide Published, PublishedDaily, PublishedCurrent, HourlyDrawn;
    var endpoints := [("hourly", AttemptOf(hourly)), ("daily", AttemptOf(daily))];
    assert endpoints[0] == ("hourly", AttemptOf(hourly)) && endpoints[1] == ("daily", AttemptOf(daily));
    assert ("hourly", Succeeds) in endpoints <==> hourly.Ok?;
    assert ("daily", Succeeds) in endpoints <==> daily.Ok?;
    assert ("current", Succeeds) !in endpoints;
  }

  lemma CurrentPublishes(first: Store.State, before: Store.State, after: Store.State, config: StoreConfig, city: City,
          draws: Draws, endpoints: seq<(string, Attempt)>, current: Result<Option<Sample>, FetchError>, now: int)
    requires before == CityPublished(first, config, city, draws, endpoints, now)
    requires forall k :: 0 <= k < |endpoints| ==> endpoints[k].0 != "current"
    requires current.Ok? ==>
      draws.current == Body(Some(current.value)) && after == PublishedCurrent(before, config, city, current.value, now)
    requires current.Err? ==> after == before
    ensures after == CityPublished(first, config, city, draws, endpoints + [("current", AttemptOf(current))], now)
  {
    hide Published, PublishedDaily, PublishedCurrent, HourlyDrawn;
    var all := endpoints + [("current", AttemptOf(current))];
    assert ("current", Succeeds) !in endpoints;
    assert ("hourly", Succeeds) in all <==> ("hourly", Succeeds) in endpoints;
    assert ("daily", Succeeds) in all <==> ("daily", Succeeds) in endpoints;
    assert ("current", Succeeds) in all <==> current.Ok?;
  }

  /** A city that came away with nothing leaves the store as it was. */
  lemma UnavailablePublishesNothing(first: Store.State, config: StoreConfig, city: City, draws: Draws,
          endpoints: seq<(string, Attempt)>, now: int)
    ensures !AnySucceeds(endpoints) ==> CityPublished(first, config, city, draws, endpoints, now) == first
  {
  }

  /** One of the city's successful endpoints writes to this scope. */
  predicate WritesTo(city: City, endpoints: seq<(string, Attempt)>, scope: Store.Scope) {
    || (scope == RuntimeHighs.HourlyScope(city.slug, city.station) && ("hourly", Succeeds) in endpoints)
    || (scope == DailyScope(city.slug, city.station) && ("daily", Succeeds) in endpoints)
    || (scope == CurrentScope(city.slug, city.station) && ("current", Succeeds) in endpoints)
  }

  lemma ReplacementSpares(state: Store.State, step: Store.Step, row: Store.Row)
    requires Store.ValidStep(step) && step.Replace? && row.scope != step.scope
    ensures row in Store.Apply(state, step).rows <==> row in state.rows
  {
  }

  lemma CityKeepsOtherRows(state: Store.State, config: StoreConfig, city: City, draws: Draws,
          endpoints: seq<(string, Attempt)>, now: int, row: Store.Row)
    requires !WritesTo(city, endpoints, row.scope)
    ensures row in CityPublished(state, config, city, draws, endpoints, now).rows <==> row in state.rows
  {
    hide Store.Apply, AsMapping, HourlyEntries, DailyEntries, HourlyDrawn;
    forall before: Store.State, step: Store.Step | Store.ValidStep(step) && step.Replace? && row.scope != step.scope
      ensures row in Store.Apply(before, step).rows <==> row in before.rows
    {
      ReplacementSpares(before, step, row);
    }
  }

  lemma DrawShape(rows: Table, city: City, draws: Draws, ceiling: nat, now: int)
    requires FreshDraws(rows, city, draws, ceiling, now)
    ensures |draws.hourlyIds| == |draws.hourly| == ceiling
    ensures CanonicalIds(draws.hourlyIds) && CanonicalUuid4(draws.dailyId) && CanonicalUuid4(draws.currentId)
  {
  }

  // ----- The cycle -----

  /** Draws for every city still to come: fresh, and no handle shared between two cities. */
  ghost predicate FreshFrom(rows: Table, cities: seq<City>, draws: seq<Draws>, from: nat, ceiling: nat, now: int)
    requires |cities| == |draws|
  {
    forall i :: from <= i < |cities| ==> FreshDraws(rows, cities[i], draws[i], ceiling, now)
  }

  ghost predicate DisjointDraws(cities: seq<City>, draws: seq<Draws>, now: int)
    requires |cities| == |draws|
  {
    forall i, j :: 0 <= i < j < |cities| ==>
      DrawHandles(cities[i], draws[i], now) !! DrawHandles(cities[j], draws[j], now)
  }

  lemma FreshAfterCity(before: Table, after: Table, cities: seq<City>, draws: seq<Draws>, i: nat, ceiling: nat,
          now: int, most: nat, answers: Answers)
    requires |cities| == |draws| && i < |cities| && DisjointDraws(cities, draws, now)
    requires FreshFrom(before, cities, draws, i, ceiling, now)
    requires AloneEffect(before, after, most, DrawHandles(cities[i], draws[i], now), answers)
    ensures FreshFrom(after, cities, draws, i + 1, ceiling, now)
  {
    hide AloneEffect, DrawHandles;
    forall j | i + 1 <= j < |cities| ensures FreshDraws(after, cities[j], draws[j], ceiling, now) {
      assert FreshDraws(before, cities[j], draws[j], ceiling, now);
      forall handle | handle in DrawHandles(cities[j], draws[j], now) ensures !Has(after, handle) {
        DrawEndpoints(cities[j], draws[j], now, handle);
        StillFresh(before, after, most, DrawHandles(cities[i], draws[i], now), answers, handle);
      }
    }
  }

  lemma DrawEndpoints(city: City, draws: Draws, now: int, handle: Handle)
    requires handle in DrawHandles(city, draws, now)
    ensures handle.endpoint in ENDPOINTS
  {
  }

  /** The most the attempted cities can have cost. */
  function BundleCosts(cities: seq<City>, statuses: seq<CityStatus>, ceiling: nat): nat
    requires |statuses| <= |cities|
  {
    if statuses == [] then 0
    else
      var k := |statuses| - 1;
      BundleCosts(cities, statuses[..k], ceiling) + if statuses[k].Attempted? then MaxCost(cities[k], ceiling) else 0
  }

  predicate StatusSpared(city: City, status: CityStatus, tripped: bool) {
    status.Attempted? ==> AllSpared(status.endpoints, city.slug == SFO, tripped)
  }

  /** The store after the cities so far: every attempted one has published what it drew. */
  function CyclePublished(runtime: Store.State, config: StoreConfig, cities: seq<City>, draws: seq<Draws>,
          statuses: seq<CityStatus>, now: int): Store.State
    requires |statuses| <= |cities| == |draws|
  {
    if statuses == [] then runtime
    else
      var k := |statuses| - 1;
      var before := CyclePublished(runtime, config, cities, draws, statuses[..k], now);
      if statuses[k].Skipped? then before
      else CityPublished(before, config, cities[k], draws[k], statuses[k].endpoints, now)
  }

  lemma CyclePublishesOneMore(runtime: Store.State, config: StoreConfig, cities: seq<City>, draws: seq<Draws>,
          statuses: seq<CityStatus>, status: CityStatus, now: int)
    requires |statuses| < |cities| == |draws|
    ensures var k := |statuses|;
            var before := CyclePublished(runtime, config, cities, draws, statuses, now);
            CyclePublished(runtime, config, cities, draws, statuses + [status], now) ==
              if status.Skipped? then before
              else CityPublished(before, config, cities[k], draws[k], status.endpoints, now)
  {
    assert (statuses + [status])[..|statuses|] == statuses;
  }

  /** What the cycle has done once the cities so far have their statuses. */
  ghost predicate Progress(config: Config, start: Table, rows: Table, cities: seq<City>, statuses: seq<CityStatus>,
          ceiling: nat, answers: Answers, now: int)
    requires |statuses| <= |cities|
  {
    && Inv(rows) && TableEvolves(start, rows)
    && |start| <= |rows| <= |start| + BundleCosts(cities, statuses, ceiling) && rows[..|start|] == start
    && (answers.recordable ==> forall i :: |start| <= i < |rows| ==> Settled(rows[i]))
    && (answers.quiet ==> forall i :: |start| <= i < |rows| ==> !ClientError(rows[i]))
    && (forall i :: 0 <= i < |statuses| ==>
          StatusSpared(cities[i], statuses[i], BreakerTripped(config, |start|, rows, now)))
  }

  lemma ProgressAtStart(config: Config, rows: Table, cities: seq<City>, ceiling: nat, answers: Answers, now: int)
    requires Inv(rows)
    ensures Progress(config, rows, rows, cities, [], ceiling, answers, now)
  {
    TableEvolvesReflexive(rows);
  }

  lemma ProgressSkips(config: Config, start: Table, rows: Table, cities: seq<City>, statuses: seq<CityStatus>,
          ceiling: nat, answers: Answers, reason: SkipReason, now: int)
    requires |statuses| < |cities| && Progress(config, start, rows, cities, statuses, ceiling, answers, now)
    ensures Progress(config, start, rows, cities, statuses + [Skipped(reason)], ceiling, answers, now)
  {
    assert (statuses + [Skipped(reason)])[..|statuses|] == statuses;
  }

  lemma ProgressAttempts(config: Config, start: Table, before: Table, after: Table, cities: seq<City>,
          statuses: seq<CityStatus>, ceiling: nat, answers: Answers, status: CityStatus, handles: set<Handle>,
          given: Answers, now: int)
    requires |statuses| < |cities| && Progress(config, start, before, cities, statuses, ceiling, answers, now)
    requires Inv(after) && TableEvolves(before, after) && status.Attempted?
    requires StatusSpared(cities[|statuses|], status, BreakerTripped(config, |before|, after, now))
    requires AloneEffect(before, after, MaxCost(cities[|statuses|], ceiling), handles, given) && Implies(answers, given)
    ensures Progress(config, start, after, cities, statuses + [status], ceiling, answers, now)
  {
    hide Inv, TableEvolves, MaxCost, AllSpared, Has, BreakerTripped;
    EvolutionComposes(start, before, after);
    StatusesStaySpared(config, start, before, after, cities, statuses, status, now);
    assert (statuses + [status])[..|statuses|] == statuses;
    assert after[..|start|] == after[..|before|][..|start|];
    forall i | |start| <= i < |before| ensures after[i] == before[i] {
      assert after[..|before|][i] == before[i];
    }
  }

  lemma StatusesStaySpared(config: Config, start: Table, before: Table, after: Table, cities: seq<City>,
          statuses: seq<CityStatus>, status: CityStatus, now: int)
    requires |statuses| < |cities| && |start| <= |before| <= |after| && after[..|before|] == before && status.Attempted?
    requires forall i :: 0 <= i < |statuses| ==>
      StatusSpared(cities[i], statuses[i], BreakerTripped(config, |start|, before, now))
    requires StatusSpared(cities[|statuses|], status, BreakerTripped(config, |before|, after, now))
    ensures forall i :: 0 <= i <= |statuses| ==>
      StatusSpared(cities[i], (statuses + [status])[i], BreakerTripped(config, |start|, after, now))
  {
    hide AllSpared, BreakerTripped;
    var early, late := BreakerTripped(config, |start|, before, now), BreakerTripped(config, |start|, after, now);
    if early {
      TrippedStaysTripped(config, |start|, before, after, now);
    }
    if BreakerTripped(config, |before|, after, now) {
      TrippedFromEarlier(config, |start|, |before|, after, now);
    }
    SparedWhenTripped(status.endpoints, cities[|statuses|].slug == SFO, BreakerTripped(config, |before|, after, now),
                      late);
    forall i | 0 <= i < |statuses| ensures StatusSpared(cities[i], statuses[i], late) {
      if statuses[i].Attempted? {
        SparedWhenTripped(statuses[i].endpoints, cities[i].slug == SFO, early, late);
      }
    }
  }

  /** If no answer drawn is a client error, a breaker closed at the start stays closed throughout. */
  lemma QuietAnswersNeverTrip(config: Config, start: Table, rows: Table, now: int)
    requires |start| <= |rows| && rows[..|start|] == start && !BreakerTrips(config, start, now)
    requires forall i :: |start| <= i < |rows| ==> !ClientError(rows[i])
    ensures !BreakerTripped(config, |start|, rows, now)
  {
    hide TrailingRun;
    forall n | |start| <= n <= |rows| ensures !BreakerTrips(config, rows[..n], now) {
      assert rows[..n][..|start|] == rows[..|start|];
      OtherOutcomesNeverLengthenTheRun(start, rows[..n], config.pacificDate(now));
    }
  }

  predicate DeniedBudget(status: CityStatus) {
    status.Attempted? && exists k :: 0 <= k < |status.endpoints| && status.endpoints[k].1.BudgetExceeded?
  }

  /** So a cycle that draws no client error denies budget to no city but SFO. */
  lemma QuietCycleDeniesNothing(config: Config, start: Table, rows: Table, cities: seq<City>, statuses: seq<CityStatus>,
          ceiling: nat, answers: Answers, now: int)
    requires |statuses| <= |cities| && Progress(config, start, rows, cities, statuses, ceiling, answers, now)
    requires answers.quiet && !BreakerTrips(config, start, now)
    ensures forall i :: 0 <= i < |statuses| && cities[i].slug != SFO ==> !DeniedBudget(statuses[i])
  {
    hide Inv, TableEvolves, Settled, ClientError, BreakerTrips, BreakerTripped;
    QuietAnswersNeverTrip(config, start, rows, now);
    forall i | 0 <= i < |statuses| && cities[i].slug != SFO ensures !DeniedBudget(statuses[i]) {
      assert StatusSpared(cities[i], statuses[i], false);
    }
  }

  /**
   * Whatever fails or is skipped costs no data: a scope that nothing succeeded for keeps exactly its unexpired rows.
   */
  lemma {:induction false} CycleKeepsOtherRows(state: Store.State, config: StoreConfig, cities: seq<City>,
          draws: seq<Draws>, statuses: seq<CityStatus>, now: int, row: Store.Row)
    requires |statuses| <= |cities| == |draws|
    requires forall i :: 0 <= i < |statuses| && statuses[i].Attempted? ==>
      !WritesTo(cities[i], statuses[i].endpoints, row.scope)
    ensures row in CyclePublished(Store.Apply(state, Store.Purge(now)), config, cities, draws, statuses, now).rows <==>
            row in state.rows && row.payload.expiresAt > now
  {
    hide CityPublished, WritesTo;
    if statuses != [] {
      var k := |statuses| - 1;
      CycleKeepsOtherRows(state, config, cities, draws, statuses[..k], now, row);
      if statuses[k].Attempted? {
        var purged := Store.Apply(state, Store.Purge(now));
        CityKeepsOtherRows(CyclePublished(purged, config, cities, draws, statuses[..k], now), config, cities[k],
                           draws[k], statuses[k].endpoints, now, row);
      }
    }
  }

  // ----- Who is attempted -----

  /**
   * A city's status, judged by the ledger as it was when its turn came: it is attempted exactly when the breaker was
   * closed at the start, there is a key, and its bundle (the hourly pages, the daily call, and for SFO the current
   * conditions) fits under both caps and, unless it is SFO, the soft ceiling. Otherwise it is skipped for the first of
   * these that fails.
   */
  predicate Judged(config: Config, start: Table, rows: Table, city: City, hasKey: bool, ceiling: nat, now: int,
          status: CityStatus) {
    var limits, date := config.limits, config.pacificDate(now);
    var open := limits.breaker > 0 && TrailingRun(start, date) >= limits.breaker;
    var cost := ceiling + 1 + if city.slug == "sfo" then 1 else 0;
    var daily, monthly := BillableOn(rows, date) + cost, BillableIn(rows, MonthOf(date)) + cost;
    && (status == Skipped(ClientErrorBreaker) <==> open)
    && (status == Skipped(MissingApiKey) <==> !open && !hasKey)
    && (status == Skipped(DailySkip) <==> !open && hasKey && daily > limits.daily)
    && (status == Skipped(MonthlySkip) <==> !open && hasKey && daily <= limits.daily && monthly > limits.monthly)
    && (status == Skipped(SoftCeiling) <==>
          && !open && hasKey && daily <= limits.daily && monthly <= limits.monthly
          && city.slug != "sfo" && monthly > limits.softMonthly)
    && (status.Attempted? <==>
          && !open && hasKey && daily <= limits.daily && monthly <= limits.monthly
          && (city.slug == "sfo" || monthly <= limits.softMonthly))
  }

  /** The ledger's length when the next turn came, or at the end. */
  function NextTurn(turns: seq<nat>, rows: Table, i: nat): nat
    requires i < |turns|
  {
    if i + 1 < |turns| then turns[i + 1] else |rows|
  }

  /** How long the ledger was at each turn: a skipped city adds nothing to it, an attempted one at most its bundle. */
  ghost predicate Turns(config: Config, start: Table, rows: Table, cities: seq<City>, statuses: seq<CityStatus>,
          turns: seq<nat>, hasKey: bool, ceiling: nat, now: int)
    requires |statuses| <= |cities|
  {
    && |turns| == |statuses| && (if turns == [] then |rows| == |start| else turns[0] == |start|)
    && forall i :: 0 <= i < |turns| ==>
         && turns[i] <= NextTurn(turns, rows, i) <= |rows|
         && NextTurn(turns, rows, i) <= turns[i] + (if statuses[i].Attempted? then MaxCost(cities[i], ceiling) else 0)
         && Judged(config, start, rows[..turns[i]], cities[i], hasKey, ceiling, now, statuses[i])
  }

  lemma OneMoreTurn(config: Config, start: Table, before: Table, after: Table, cities: seq<City>,
          statuses: seq<CityStatus>, turns: seq<nat>, hasKey: bool, ceiling: nat, now: int, status: CityStatus)
    requires |statuses| < |cities| && Turns(config, start, before, cities, statuses, turns, hasKey, ceiling, now)
    requires |before| <= |after| && after[..|before|] == before
    requires |after| <= |before| + if status.Attempted? then MaxCost(cities[|statuses|], ceiling) else 0
    requires Judged(config, start, before, cities[|statuses|], hasKey, ceiling, now, status)
    ensures Turns(config, start, after, cities, statuses + [status], turns + [|before|], hasKey, ceiling, now)
  {
    hide Judged, MaxCost;
    var k, more := |turns|, turns + [|before|];
    forall i | 0 <= i < k ensures NextTurn(more, after, i) == NextTurn(turns, before, i) {
    }
    forall i | 0 <= i < k ensures after[..turns[i]] == before[..turns[i]] {
      assert turns[i] <= |before|;
      assert after[..|before|][..turns[i]] == after[..turns[i]];
    }
    assert after[..more[k]] == before;
  }

  lemma SkipsAreReported(city: City, draws: Draws, reason: SkipReason)
    ensures Reported(city, draws, Skipped(reason))
  {
  }

  lemma SkipsAreJudged(config: Config, start: Table, rows: Table, city: City, hasKey: bool, ceiling: nat, now: int,
          status: CityStatus)
    requires BreakerTrips(config, start, now) || !hasKey
    requires status == Skipped(if BreakerTrips(config, start, now) then ClientErrorBreaker else MissingApiKey)
    ensures Judged(config, start, rows, city, hasKey, ceiling, now, status)
  {
    hide TrailingRun, BillableOn, BillableIn;
  }

  lemma PreCheckJudges(config: Config, start: Table, rows: Table, city: City, ceiling: nat, now: int,
          status: CityStatus)
    requires !BreakerTrips(config, start, now)
    requires var date := config.pacificDate(now);
             var skip := BudgetSkipReason(config.limits, BillableOn(rows, date), BillableIn(rows, MonthOf(date)),
                                          MaxCost(city, ceiling), city.slug == SFO);
             if skip.Some? then status == Skipped(skip.value) else status.Attempted?
    ensures Judged(config, start, rows, city, true, ceiling, now, status)
  {
    hide TrailingRun, BillableOn, BillableIn;
  }

  /**
   * One budget-safe cycle. Every city ends skipped or attempted; the ledger grows by no more than the attempted
   * bundles; no cap denies a city that passed its pre-check (SFO may meet the soft ceiling); and if every response is
   * recordable, no row of the cycle is left open.
   */
  method RefreshAllCities(ledger: GoogleUsageLedger, runtime: GoogleRuntimeStore, cities: seq<City>, draws: seq<Draws>,
                          hasKey: bool, ceiling: nat, now: int)
    returns (statuses: seq<CityStatus>, daily: nat, monthly: nat, ghost turns: seq<nat>)
    requires ledger.Valid() && runtime.Valid() && |cities| == |draws|
    requires forall i :: 0 <= i < |cities| ==> Served(cities[i], ledger, runtime)
    requires FreshFrom(ledger.rows, cities, draws, 0, ceiling, now) && DisjointDraws(cities, draws, now)
    modifies ledger, runtime
    ensures ledger.Valid() && runtime.Valid() && |statuses| == |cities|
    ensures Progress(ledger.config, old(ledger.rows), ledger.rows, cities, statuses, ceiling,
                     AllDrawn(draws), now)
    ensures forall i :: 0 <= i < |statuses| ==> Reported(cities[i], draws[i], statuses[i])
    ensures Turns(ledger.config, old(ledger.rows), ledger.rows, cities, statuses, turns, hasKey, ceiling, now)
    ensures AllDrawn(draws).quiet ==>
      forall i :: 0 <= i < |statuses| && cities[i].slug != SFO ==> !DeniedBudget(statuses[i])
    ensures runtime.Contents() ==
            CyclePublished(Store.Apply(old(runtime.Contents()), Store.Purge(now)), runtime.config, cities, draws,
                           statuses, now)
    ensures BreakerTrips(ledger.config, old(ledger.rows), now) ==>
      ledger.rows == old(ledger.rows) && forall i :: 0 <= i < |statuses| ==> statuses[i] == Skipped(ClientErrorBreaker)
    ensures !hasKey ==> ledger.rows == old(ledger.rows) && forall i :: 0 <= i < |statuses| ==> statuses[i].Skipped?
    ensures daily == BillableOn(ledger.rows, ledger.config.pacificDate(now))
    ensures monthly == BillableIn(ledger.rows, MonthOf(ledger.config.pacificDate(now)))
  {
    hide Inv, Progress, FreshFrom, DisjointDraws, AloneEffect, FreshDraws, DrawHandles, Served, Store.Inv,
         Store.Apply, TableEvolves, TrailingRun, BillableOn, BillableIn, AllSpared, MaxCost, FirstError,
         BreakerTripped, CityPublished, AllDrawn, CyclePublished, Turns, Judged, BudgetSkipReason, Reported;
    ghost var config, start := ledger.config, ledger.rows;
    ghost var answers := AllDrawn(draws);
    var _ := runtime.PurgeExpired(now);
    ghost var purged := runtime.Contents();
    NothingPublishedYet(purged, runtime.config, cities, draws, now);
    var limits, date := ledger.config.limits, ledger.config.pacificDate(now);
    var consecutive := ledger.PublicConsecutiveClientErrors(now);
    var breakerOpen := limits.breaker > 0 && consecutive >= limits.breaker;
    statuses, turns := [], [];
    NoTurnsYet(config, start, cities, hasKey, ceiling, now);
    ProgressAtStart(config, start, cities, ceiling, answers, now);
    var i := 0;
    while i < |cities|
      invariant 0 <= i <= |cities| && |statuses| == i
      invariant ledger.Valid() && runtime.Valid()
      invariant FreshFrom(ledger.rows, cities, draws, i, ceiling, now)
      invariant Progress(config, start, ledger.rows, cities, statuses, ceiling, answers, now)
      invariant runtime.Contents() == CyclePublished(purged, runtime.config, cities, draws, statuses, now)
      invariant forall k :: 0 <= k < i ==> Reported(cities[k], draws[k], statuses[k])
      invariant Turns(config, start, ledger.rows, cities, statuses, turns, hasKey, ceiling, now)
      invariant breakerOpen || !hasKey ==> ledger.rows == start && forall k :: 0 <= k < i ==> statuses[k].Skipped?
      invariant breakerOpen ==> forall k :: 0 <= k < i ==> statuses[k] == Skipped(ClientErrorBreaker)
    {
      var city := cities[i];
      ghost var before := ledger.rows;
      if breakerOpen || !hasKey {
        var reason := if breakerOpen then ClientErrorBreaker else MissingApiKey;
        ProgressSkips(config, start, ledger.rows, cities, statuses, ceiling, answers, reason, now);
        CyclePublishesOneMore(purged, runtime.config, cities, draws, statuses, Skipped(reason), now);
        FreshNarrows(ledger.rows, cities, draws, i, ceiling, now);
        SkipsAreReported(city, draws[i], reason);
        SkipsAreJudged(config, start, before, city, hasKey, ceiling, now, Skipped(reason));
        OneMoreTurn(config, start, before, before, cities, statuses, turns, hasKey, ceiling, now, Skipped(reason));
        statuses := statuses + [Skipped(reason)];
      } else {
        var dailyEvents, monthlyEvents := ledger.Usage(now);
        var skip := BudgetSkipReason(limits, dailyEvents, monthlyEvents, MaxCost(city, ceiling), city.slug == SFO);
        if skip.Some? {
          ProgressSkips(config, start, ledger.rows, cities, statuses, ceiling, answers, skip.value, now);
          CyclePublishesOneMore(purged, runtime.config, cities, draws, statuses, Skipped(skip.value), now);
          FreshNarrows(ledger.rows, cities, draws, i, ceiling, now);
          SkipsAreReported(city, draws[i], skip.value);
          PreCheckJudges(config, start, before, city, ceiling, now, Skipped(skip.value));
          OneMoreTurn(config, start, before, before, cities, statuses, turns, hasKey, ceiling, now,
                      Skipped(skip.value));
          statuses := statuses + [Skipped(skip.value)];
        } else {
          FreshNarrows(ledger.rows, cities, draws, i, ceiling, now);
          var status := RefreshOneCity(ledger, runtime, city, draws[i], ceiling, city.slug == SFO, now);
          FreshAfterCity(before, ledger.rows, cities, draws, i, ceiling, now, MaxCost(city, ceiling),
                         DrawnAnswers(draws[i]));
          DrawnAmongAll(draws, i);
          ProgressAttempts(config, start, before, ledger.rows, cities, statuses, ceiling, answers, status,
                           DrawHandles(city, draws[i], now), DrawnAnswers(draws[i]), now);
          CyclePublishesOneMore(purged, runtime.config, cities, draws, statuses, status, now);
          AloneBound(before, ledger.rows, MaxCost(city, ceiling), DrawHandles(city, draws[i], now),
                     DrawnAnswers(draws[i]));
          PreCheckJudges(config, start, before, city, ceiling, now, status);
          OneMoreTurn(config, start, before, ledger.rows, cities, statuses, turns, hasKey, ceiling, now, status);
          statuses := statuses + [status];
        }
      }
      turns := turns + [|before|];
      i := i + 1;
    }
    if answers.quiet && !breakerOpen {
      QuietCycleDeniesNothing(config, start, ledger.rows, cities, statuses, ceiling, answers, now);
    }
    daily, monthly := ledger.Usage(now);
  }

  lemma NoTurnsYet(config: Config, start: Table, cities: seq<City>, hasKey: bool, ceiling: nat, now: int)
    ensures Turns(config, start, start, cities, [], [], hasKey, ceiling, now)
  {
  }

  lemma NothingPublishedYet(runtime: Store.State, config: StoreConfig, cities: seq<City>, draws: seq<Draws>, now: int)
    requires |cities| == |draws|
    ensures CyclePublished(runtime, config, cities, draws, [], now) == runtime
  {
  }

  lemma FreshNarrows(rows: Table, cities: seq<City>, draws: seq<Draws>, i: nat, ceiling: nat, now: int)
    requires |cities| == |draws| && i < |cities| && FreshFrom(rows, cities, draws, i, ceiling, now)
    ensures FreshFrom(rows, cities, draws, i + 1, ceiling, now) && FreshDraws(rows, cities[i], draws[i], ceiling, now)
  {
  }
}
