/**
 * The endpoint fetchers (forecaster/google_api.py): strict hourly pagination, and the daily and current calls, each
 * accounted for page by page and published only when everything it dispatched succeeded.
 */
module GoogleFetch {
  import opened Wrappers
  import opened UsageLedger
  import opened LedgerRuns
  import opened LedgerStore
  import opened GoogleDispatch
  import opened GenerationStore
  import Store = RuntimeStore
  import RuntimeHighs

  datatype City = City(slug: string, station: string)

  /** A parsed page and its continuation token; an absent or empty token ends the pagination. */
  datatype HourlyPage = HourlyPage(samples: seq<Sample>, nextToken: string)

  predicate Served(city: City, ledger: GoogleUsageLedger, runtime: GoogleRuntimeStore) {
    && KnownCity(ledger.config, city)
    && Canonical(runtime.config, city.slug, city.station)
  }

  // ----- From collected readings to a mapping -----

  function PutSample(mapping: seq<Sample>, sample: Sample): (r: seq<Sample>)
    requires DistinctSamples(mapping)
    ensures DistinctSamples(r)
    ensures forall other :: other in r <==> other == sample || (other in mapping && other.slot != sample.slot)
    ensures r != []
  {
    if mapping == [] then [sample]
    else
      assert mapping == [mapping[0]] + mapping[1..];
      if mapping[0].slot == sample.slot then [sample] + mapping[1..]
      else [mapping[0]] + PutSample(mapping[1..], sample)
  }

  /** Keyed by instant: a later reading of the same instant wins. */
  function AsMapping(samples: seq<Sample>): (mapping: seq<Sample>)
    ensures DistinctSamples(mapping)
    ensures mapping == [] <==> samples == []
  {
    if samples == [] then [] else PutSample(AsMapping(samples[..|samples| - 1]), samples[|samples| - 1])
  }

  predicate LastReading(samples: seq<Sample>, i: int)
    requires 0 <= i < |samples|
  {
    forall j :: i < j < |samples| ==> samples[j].slot != samples[i].slot
  }

  lemma LastReadingStep(samples: seq<Sample>, k: nat, i: nat)
    requires i < k && k + 1 == |samples|
    ensures LastReading(samples, i) <==> LastReading(samples[..k], i) && samples[i].slot != samples[k].slot
  {
    if LastReading(samples, i) {
      forall j | i < j < k ensures samples[..k][j].slot != samples[..k][i].slot {
        assert samples[j].slot != samples[i].slot;
      }
    }
    if LastReading(samples[..k], i) {
      assert forall j :: i < j < k ==> samples[..k][j] == samples[j];
    }
  }

  lemma {:induction false} MappingKeepsLastReadings(samples: seq<Sample>, sample: Sample)
    ensures sample in AsMapping(samples) <==>
      exists i :: 0 <= i < |samples| && samples[i] == sample && LastReading(samples, i)
  {
    hide LastReading, PutSample;
    if samples != [] {
      var k := |samples| - 1;
      MappingKeepsLastReadings(samples[..k], sample);
      forall i | 0 <= i < k ensures LastReading(samples, i) <==>
        LastReading(samples[..k], i) && samples[i].slot != samples[k].slot {
        LastReadingStep(samples, k, i);
      }
      NewestIsLast(samples, k);
      assert forall i :: 0 <= i < k ==> samples[..k][i] == samples[i];
    }
  }

  lemma NewestIsLast(samples: seq<Sample>, k: nat)
    requires k + 1 == |samples|
    ensures LastReading(samples, k)
  {
  }

  // ----- Pagination -----

  function PageLimit(maxPages: int, ceiling: nat): (limit: nat)
    ensures limit <= ceiling && (maxPages <= 0 ==> limit == 0)
    ensures 0 <= maxPages <= ceiling ==> limit == maxPages
    ensures maxPages > ceiling ==> limit == ceiling
  {
    var effective := if maxPages < ceiling then maxPages else ceiling;
    if effective <= 0 then 0 else effective
  }

  /** What the pages from one on yield together: nothing at all if any dispatched page fails. */
  function Pagination(responses: seq<Response<HourlyPage>>, page: nat, limit: nat): Option<seq<Sample>>
    requires page <= limit <= |responses|
    decreases limit - page
  {
    if page == limit then Some([])
    else if !(responses[page].Body? && responses[page].parsed.Some?) then None
    else
      var parsed := responses[page].parsed.value;
      if parsed.nextToken == "" then Some(parsed.samples)
      else
        var rest := Pagination(responses, page + 1, limit);
        if rest.None? then None else Some(parsed.samples + rest.value)
  }

  function HourlyRequest(city: City, ids: seq<string>, page: nat, now: int): Request
    requires page < |ids|
  {
    Request(city.slug, city.station, Handle(ids[page], "hourly", page + 1), now)
  }

  /** Fresh reservation ids: distinct, in the ledger nowhere, and known to no other process. */
  ghost predicate FreshIds(rows: Table, city: City, ids: seq<string>, others: seq<Others>, now: int, limit: nat)
    requires limit <= |ids| && limit <= |others|
  {
    && (forall p: nat :: p < limit ==> !Has(rows, HourlyRequest(city, ids, p, now).handle))
    && (forall p: nat, q: nat :: p < limit && q < limit ==>
        OthersForeign(others[p], HourlyRequest(city, ids, q, now).handle))
    && (forall p: nat, q: nat :: p < q < limit ==>
        HourlyRequest(city, ids, p, now).handle != HourlyRequest(city, ids, q, now).handle)
  }

  /** A page's row is absent, settled, or in flight for the one reason that its answer's status cannot be recorded. */
  predicate Closed<T>(rows: Table, handle: Handle, response: Response<T>) {
    Has(rows, handle) ==> Settled(RowOf(rows, handle)) || !Recordable(response)
  }

  predicate NobodyElse(others: seq<Others>) {
    forall p :: 0 <= p < |others| ==> others[p] == NOBODY
  }

  predicate CanonicalIds(ids: seq<string>) {
    forall p :: 0 <= p < |ids| ==> CanonicalUuid4(ids[p])
  }

  predicate AllRecordable(responses: seq<Response<HourlyPage>>) {
    forall p :: 0 <= p < |responses| ==> Recordable(responses[p])
  }

  predicate AllQuiet(responses: seq<Response<HourlyPage>>) {
    forall p :: 0 <= p < |responses| ==> Quiet(responses[p])
  }

  function AllAnswers(responses: seq<Response<HourlyPage>>): Answers {
    Answers(AllRecordable(responses), AllQuiet(responses))
  }

  predicate KnownCity(config: Config, city: City) {
    city.slug in config.stations && config.stations[city.slug] == city.station
  }

  /** A well-formed, fresh reservation is only ever denied by a cap or by the breaker. */
  lemma DenialIsRefusal(config: Config, rows: Table, city: City, handle: Handle, now: int, reason: Error)
    requires ReserveResult(config, rows, handle, city.slug, city.station, now) == Err(reason) && !Has(rows, handle)
    requires KnownCity(config, city) && handle.endpoint in ENDPOINTS && handle.page >= 0
      && CanonicalUuid4(handle.reservationId)
    ensures Refusal(config, rows, config.pacificDate(now)) == Some(reason)
  {
  }

  /** The handles of the first pages. */
  function PageHandles(city: City, ids: seq<string>, pages: nat, now: int): set<Handle>
    requires pages <= |ids|
  {
    set p: nat | p < pages :: HourlyRequest(city, ids, p, now).handle
  }

  lemma SettledStays(before: Table, after: Table, handle: Handle)
    requires TableEvolves(before, after) && Inv(after) && Has(before, handle) && Settled(RowOf(before, handle))
    ensures Has(after, handle) && RowOf(after, handle) == RowOf(before, handle)
  {
    RowStays(before, after, handle);
    assert Evolves(before[Find(before, handle)], after[Find(before, handle)]);
  }

  /** Every page before `page` succeeded for good. */
  ghost predicate PagesDone(rows: Table, city: City, ids: seq<string>, page: nat, now: int)
    requires page <= |ids|
  {
    forall p: nat :: p < page ==>
      && Has(rows, HourlyRequest(city, ids, p, now).handle)
      && Succeeded(RowOf(rows, HourlyRequest(city, ids, p, now).handle))
  }

  ghost predicate PagesAbsent(rows: Table, city: City, ids: seq<string>, from: nat, limit: nat, now: int)
    requires limit <= |ids|
  {
    forall p: nat :: from <= p < limit ==> !Has(rows, HourlyRequest(city, ids, p, now).handle)
  }

  lemma PagesAfterRequest(before: Table, after: Table, city: City, ids: seq<string>, others: seq<Others>,
          start: Table, page: nat, limit: nat, now: int)
    requires page < limit <= |ids| && limit <= |others|
    requires Inv(after) && TableEvolves(before, after)
    requires FreshIds(start, city, ids, others, now, limit)
    requires PagesDone(before, city, ids, page, now) && PagesAbsent(before, city, ids, page, limit, now)
    requires forall handle :: handle != HourlyRequest(city, ids, page, now).handle ==>
      Untouched(before, after, others[page], handle)
    ensures PagesDone(after, city, ids, page, now) && PagesAbsent(after, city, ids, page + 1, limit, now)
  {
    hide Inv, TableEvolves, Has, Find, Settled, Succeeded, Foreign;
    forall p: nat | p < page
      ensures Has(after, HourlyRequest(city, ids, p, now).handle)
        && Succeeded(RowOf(after, HourlyRequest(city, ids, p, now).handle))
    {
      PhasesExclude(RowOf(before, HourlyRequest(city, ids, p, now).handle));
      SettledStays(before, after, HourlyRequest(city, ids, p, now).handle);
    }
    forall p: nat | page + 1 <= p < limit ensures !Has(after, HourlyRequest(city, ids, p, now).handle) {
      assert HourlyRequest(city, ids, page, now).handle != HourlyRequest(city, ids, p, now).handle;
      assert Untouched(before, after, others[page], HourlyRequest(city, ids, p, now).handle);
      assert OthersForeign(others[page], HourlyRequest(city, ids, p, now).handle);
    }
  }

  lemma DonePagesAreClosed(rows: Table, city: City, ids: seq<string>, responses: seq<Response<HourlyPage>>,
          page: nat, now: int)
    requires page <= |ids| && page <= |responses| && PagesDone(rows, city, ids, page, now)
    ensures forall p: nat :: p < page ==> Closed(rows, HourlyRequest(city, ids, p, now).handle, responses[p])
  {
    hide Has, Find, Settled, Succeeded;
    forall p: nat | p < page ensures Closed(rows, HourlyRequest(city, ids, p, now).handle, responses[p]) {
      PhasesExclude(RowOf(rows, HourlyRequest(city, ids, p, now).handle));
    }
  }

  /** The store after publishing what was collected. */
  function Published(runtime: Store.State, config: StoreConfig, city: City, collected: seq<Sample>,
          now: int): Store.State {
    if collected == [] then runtime
    else Store.Apply(runtime, Store.Replace(RuntimeHighs.HourlyScope(city.slug, city.station), now,
                                            HourlyEntries(config, AsMapping(collected), now)))
  }

  /** Collected hours become the scope's whole generation; nothing collected changes nothing. */
  lemma PublishedHoldsTheHours(runtime: Store.State, config: StoreConfig, city: City, collected: seq<Sample>, now: int)
    requires Store.Inv(runtime)
    ensures var scope := Store.Scope(Store.Hourly, city.slug, city.station, None);
            var after := Published(runtime, config, city, collected, now);
            && (collected == [] || !NotOlder(runtime, scope, now) ==> after == runtime)
            && (collected != [] && NotOlder(runtime, scope, now) ==>
                  IsGeneration(after.rows, scope, now, AsMapping(collected), HourlyExpiry(config, now)))
  {
    hide IsGeneration, AsMapping, Store.Apply, Store.Inv;
    if collected != [] {
      HourlyIsStored(runtime, config, city.slug, city.station, now, AsMapping(collected), now);
    }
  }

  /** What has been collected and what the remaining pages yield make up the whole pagination. */
  predicate Accounts(responses: seq<Response<HourlyPage>>, page: nat, limit: nat, collected: seq<Sample>)
    requires page <= limit <= |responses|
  {
    var rest := Pagination(responses, page, limit);
    Pagination(responses, 0, limit) == if rest.None? then None else Some(collected + rest.value)
  }

  lemma AccountsAtStart(responses: seq<Response<HourlyPage>>, limit: nat)
    requires limit <= |responses|
    ensures Accounts(responses, 0, limit, [])
  {
    var all := Pagination(responses, 0, limit);
    assert all.Some? ==> [] + all.value == all.value;
  }

  lemma AccountsForPage(responses: seq<Response<HourlyPage>>, page: nat, limit: nat, collected: seq<Sample>)
    requires page < limit <= |responses| && Accounts(responses, page, limit, collected)
    ensures Classify(responses[page]).success <==> responses[page].Body? && responses[page].parsed.Some?
    ensures !Classify(responses[page]).success ==> Pagination(responses, 0, limit) == None
    ensures responses[page].Body? && responses[page].parsed.Some? ==>
      var parsed := responses[page].parsed.value;
      if parsed.nextToken == "" then Pagination(responses, 0, limit) == Some(collected + parsed.samples)
      else Accounts(responses, page + 1, limit, collected + parsed.samples)
  {
    if responses[page].Body? && responses[page].parsed.Some? && page + 1 <= limit {
      var rest := Pagination(responses, page + 1, limit);
      assert rest.Some? ==>
          collected + (responses[page].parsed.value.samples + rest.value) == collected
          + responses[page].parsed.value.samples + rest.value;
    }
  }

  lemma AccountsAtEnd(responses: seq<Response<HourlyPage>>, limit: nat, collected: seq<Sample>)
    requires limit <= |responses| && Accounts(responses, limit, limit, collected)
    ensures Pagination(responses, 0, limit) == Some(collected)
  {
    assert collected + [] == collected;
  }

  /**
   * Undisturbed and not denied, the pagination succeeds exactly when its answers denote one. Otherwise some page it got
   * to failed, and the outcome of that page could not be recorded exactly when its status is out of range.
   */
  ghost predicate PagesAnswered(result: Result<seq<Sample>, FetchError>, responses: seq<Response<HourlyPage>>) {
    !(result.Err? && result.error.Denied?) ==>
      && (result.Ok? <==> Pagination(responses, 0, |responses|).Some?)
      && (result.Err? ==> exists p :: 0 <= p < |responses| && FailedPage(responses[p], result.error))
  }

  predicate FailedPage(response: Response<HourlyPage>, error: FetchError) {
    && !(response.Body? && response.parsed.Some?)
    && (error.RequestFailed? <==> Recordable(response))
    && (error.OutcomeRejected? <==> !Recordable(response))
  }

  lemma PageAnswers(result: Result<HourlyPage, FetchError>, response: Response<HourlyPage>)
    requires AnsweredBy(result, response) && result.Err?
    ensures FailedPage(response, result.error)
  {
  }

  /** The page loop: reserve, dispatch and collect page after page until the token ends or anything fails. */
  method FetchPages(ledger: GoogleUsageLedger, city: City, ids: seq<string>, responses: seq<Response<HourlyPage>>,
                    others: seq<Others>, now: int)
    returns (result: Result<seq<Sample>, FetchError>)
    requires ledger.Valid() && |ids| == |responses| == |others| && KnownCity(ledger.config, city) && CanonicalIds(ids)
    requires FreshIds(ledger.rows, city, ids, others, now, |ids|)
    modifies ledger
    ensures ledger.Valid() && TableEvolves(old(ledger.rows), ledger.rows)
    ensures result.Ok? ==> Pagination(responses, 0, |responses|) == Some(result.value)
    ensures result == Err(RequestFailed) ==> Pagination(responses, 0, |responses|) == None
    ensures forall p: nat :: p < |ids| ==> Closed(ledger.rows, HourlyRequest(city, ids, p, now).handle, responses[p])
    ensures result.Err? && result.error.NotDispatched? ==> !NobodyElse(others)
    ensures NobodyElse(others) ==> PagesAnswered(result, responses)
    ensures NobodyElse(others) ==>
      AloneEffect(old(ledger.rows), ledger.rows, |ids|, PageHandles(city, ids, |ids|, now), AllAnswers(responses))
    ensures NobodyElse(others) && result.Err? && result.error.Denied? ==>
      && |ledger.rows| < |old(ledger.rows)| + |ids|
      && Refusal(ledger.config, ledger.rows, ledger.config.pacificDate(now)) == Some(result.error.reason)
  {
    hide Inv, TableEvolves, Has, Find, Settled, Succeeded, Failed, Refunded, Foreign, ReserveResult, Untouched,
         FreshIds, PagesDone, PagesAbsent, Pagination, Accounts, Classify, AloneEffect, PageHandles, Refusal;
    ghost var start, limit, finished := ledger.rows, |ids|, false;
    var collected: seq<Sample> := [];
    var page := 0;
    TableEvolvesReflexive(start);
    NoPagesYet(start, city, ids, others, limit, now);
    AccountsAtStart(responses, limit);
    AloneIdle(start, 0, PageHandles(city, ids, 0, now), AllAnswers(responses));
    while page < |ids|
      invariant 0 <= page <= |ids| && !finished
      invariant ledger.Valid() && TableEvolves(start, ledger.rows)
      invariant PagesDone(ledger.rows, city, ids, page, now) && PagesAbsent(ledger.rows, city, ids, page, limit, now)
      invariant Accounts(responses, page, limit, collected)
      invariant NobodyElse(others) ==>
        AloneEffect(start, ledger.rows, page, PageHandles(city, ids, page, now), AllAnswers(responses))
    {
      ghost var before := ledger.rows;
      if NobodyElse(others) {
        AloneBound(start, before, page, PageHandles(city, ids, page, now), AllAnswers(responses));
      }
      ReadyForPage(ledger.rows, start, city, ids, others, page, limit, now);
      AccountsForPage(responses, page, limit, collected);
      var answered := DispatchRequest(ledger, HourlyRequest(city, ids, page, now), responses[page], others[page]);
      EvolutionComposes(start, before, ledger.rows);
      if NobodyElse(others) {
        AloneOnePageMore(start, before, ledger.rows, city, ids, responses, page, now);
      }
      PagesAfterRequest(before, ledger.rows, city, ids, others, start, page, limit, now);
      if answered.Err? {
        DonePagesAreClosed(ledger.rows, city, ids, responses, page, now);
        AbsentPagesAreClosed(ledger.rows, city, ids, responses, page + 1, limit, now);
        if answered.error.Denied? {
          DenialIsRefusal(ledger.config, ledger.rows, city, HourlyRequest(city, ids, page, now).handle, now,
                          answered.error.reason);
        }
        AloneAllPages(start, ledger.rows, city, ids, responses, page + 1, now);
        if NobodyElse(others) && !answered.error.Denied? {
          NobodySweeps(others[page], now);
          PageAnswers(answered, responses[page]);
        }
        return Err(answered.error);
      }
      var parsed := answered.value;
      OnePageMore(ledger.rows, city, ids, page, now);
      collected := collected + parsed.samples;
      page := page + 1;
      if parsed.nextToken == "" {
        finished := true;
        break;
      }
    }
    DonePagesAreClosed(ledger.rows, city, ids, responses, page, now);
    AbsentPagesAreClosed(ledger.rows, city, ids, responses, page, limit, now);
    if !finished {
      AccountsAtEnd(responses, limit, collected);
    }
    AloneAllPages(start, ledger.rows, city, ids, responses, page, now);
    result := Ok(collected);
  }

  lemma AloneOnePageMore(start: Table, before: Table, after: Table, city: City, ids: seq<string>,
          responses: seq<Response<HourlyPage>>, page: nat, now: int)
    requires page < |ids| == |responses|
    requires AloneEffect(start, before, page, PageHandles(city, ids, page, now), AllAnswers(responses))
    requires AloneEffect(before, after, 1, {HourlyRequest(city, ids, page, now).handle}, AnswerOf(responses[page]))
    ensures AloneEffect(start, after, page + 1, PageHandles(city, ids, page + 1, now), AllAnswers(responses))
  {
    hide AloneEffect, HourlyRequest, Recordable, Quiet;
    var first, second := PageHandles(city, ids, page, now), {HourlyRequest(city, ids, page, now).handle};
    AloneComposes(start, before, after, page, 1, first, second, AllAnswers(responses), AnswerOf(responses[page]));
    AloneWidens(start, after, page + 1, page + 1, first + second, PageHandles(city, ids, page + 1, now),
                Both(AllAnswers(responses), AnswerOf(responses[page])), AllAnswers(responses));
  }

  lemma AloneAllPages(start: Table, after: Table, city: City, ids: seq<string>, responses: seq<Response<HourlyPage>>,
          pages: nat, now: int)
    requires pages <= |ids|
    ensures AloneEffect(start, after, pages, PageHandles(city, ids, pages, now), AllAnswers(responses)) ==>
      AloneEffect(start, after, |ids|, PageHandles(city, ids, |ids|, now), AllAnswers(responses))
  {
    hide AloneEffect, HourlyRequest;
    if AloneEffect(start, after, pages, PageHandles(city, ids, pages, now), AllAnswers(responses)) {
      AloneWidens(start, after, pages, |ids|, PageHandles(city, ids, pages, now), PageHandles(city, ids, |ids|, now),
                  AllAnswers(responses), AllAnswers(responses));
    }
  }

  /**
   * Fetch and publish one city's hourly forecast. At most `ceiling` pages are ever reserved; the generation is
   * published whole, or not at all.
   */
  method FetchCityHourly(ledger: GoogleUsageLedger, runtime: GoogleRuntimeStore, city: City, maxPages: int,
          ceiling: nat, ids: seq<string>, responses: seq<Response<HourlyPage>>, others: seq<Others>, now: int)
    returns (result: Result<seq<Sample>, FetchError>)
    requires ledger.Valid() && runtime.Valid() && Served(city, ledger, runtime)
    requires |ids| == |responses| == |others| == PageLimit(maxPages, ceiling) && CanonicalIds(ids)
    requires FreshIds(ledger.rows, city, ids, others, now, |ids|)
    modifies ledger, runtime
    ensures ledger.Valid() && runtime.Valid() && TableEvolves(old(ledger.rows), ledger.rows)
    ensures result.Ok? ==>
      && Pagination(responses, 0, |responses|) == Some(result.value)
      && runtime.Contents() == Published(old(runtime.Contents()), runtime.config, city, result.value, now)
    ensures result.Err? ==> runtime.Contents() == old(runtime.Contents())
    ensures result == Err(RequestFailed) ==> Pagination(responses, 0, |responses|) == None
    ensures forall p: nat :: p < |ids| ==> Closed(ledger.rows, HourlyRequest(city, ids, p, now).handle, responses[p])
    ensures result.Err? && result.error.NotDispatched? ==> !NobodyElse(others)
    ensures NobodyElse(others) ==> PagesAnswered(result, responses)
    ensures NobodyElse(others) ==>
      AloneEffect(old(ledger.rows), ledger.rows, |ids|, PageHandles(city, ids, |ids|, now), AllAnswers(responses))
    ensures NobodyElse(others) && result.Err? && result.error.Denied? ==>
      && |ledger.rows| < |old(ledger.rows)| + |ids|
      && Refusal(ledger.config, ledger.rows, ledger.config.pacificDate(now)) == Some(result.error.reason)
  {
    hide Inv, Has, Find, FreshIds, Store.Apply, Store.Inv, AsMapping, Pagination, Closed, AloneEffect, PageHandles,
         Refusal;
    result := FetchPages(ledger, city, ids, responses, others, now);
    if result.Ok? && result.value != [] {
      var _ := runtime.ReplaceHourlyGeneration(city.slug, city.station, now, AsMapping(result.value), now);
    }
  }

  lemma NoPagesYet(rows: Table, city: City, ids: seq<string>, others: seq<Others>, limit: nat, now: int)
    requires limit <= |ids| && limit <= |others| && FreshIds(rows, city, ids, others, now, limit)
    ensures PagesDone(rows, city, ids, 0, now) && PagesAbsent(rows, city, ids, 0, limit, now)
  {
  }

  lemma ReadyForPage(rows: Table, start: Table, city: City, ids: seq<string>, others: seq<Others>, page: nat,
          limit: nat, now: int)
    requires page < limit <= |ids| && limit <= |others| && FreshIds(start, city, ids, others, now, limit)
    requires PagesAbsent(rows, city, ids, page, limit, now)
    ensures !Has(rows, HourlyRequest(city, ids, page, now).handle)
    ensures OthersForeign(others[page], HourlyRequest(city, ids, page, now).handle)
  {
  }

  lemma AbsentPagesAreClosed(rows: Table, city: City, ids: seq<string>, responses: seq<Response<HourlyPage>>,
          from: nat, limit: nat, now: int)
    requires limit <= |ids| && limit <= |responses| && PagesAbsent(rows, city, ids, from, limit, now)
    ensures forall p: nat :: from <= p < limit ==> Closed(rows, HourlyRequest(city, ids, p, now).handle, responses[p])
  {
  }

  lemma OnePageMore(rows: Table, city: City, ids: seq<string>, page: nat, now: int)
    requires page < |ids| && PagesDone(rows, city, ids, page, now)
    requires Has(rows, HourlyRequest(city, ids, page, now).handle)
    requires Succeeded(RowOf(rows, HourlyRequest(city, ids, page, now).handle))
    ensures PagesDone(rows, city, ids, page + 1, now)
  {
  }
}
