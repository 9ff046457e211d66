# WeatherEdge decision core, modelled in Dafny

This project models the parts of WeatherEdge that keep state across processes or turn a history into a number, and
proves what they promise over every run and every input. `dafny verify dfyconfig.toml` checks all of it.

- **Paid-event ledger.** `UsageLedger.dfy` gives each transaction as a pure step on the table, so that a sequence of
  steps is an interleaving of any number of processes. `LedgerRuns.dfy` proves the row lifecycle, `LedgerBudgets.dfy`
  the caps and the legacy seeds, `LedgerSteps.dfy` what each transaction records, `LedgerBreaker.dfy` the
  consecutive-4xx breaker, and `LedgerStore.dfy` is the object whose methods are those steps.
- **Refresh protocol.** `GoogleDispatch.dfy` is one paid request with other processes in between, `GoogleFetch.dfy`
  the paginated and published fetch, `RefreshCycle.dfy` one cycle over many cities under its budget pre-check.
- **Generation store.** `RuntimeStore.dfy` proves that generations never go backwards, `RuntimeHighs.dfy` that derived
  station-day highs speak for the hourly rows, `GenerationStore.dfy` is the object with its loops.
- **EMOS.** `LeastSquares.dfy` and `Emos.dfy` define the fit, `EmosFitting.dfy` its loops, `EmosTables.dfy` what its
  tables and lines mean, `EmosOffsets.dfy` and `EmosVariance.dfy` how a forecast responds to member offsets, with two
  histories in `EmosWitness.dfy`, `Replay.dfy` the rolling-origin replay and how it equals the live serve,
  `Recalibration.dfy` the trailing correction of a serve, `SettlementCalendar.dfy` and `Settlement.dfy` the settlement
  truth that feeds all of them, and `ServedForecast.dfy` the way from that table to the delivered forecast.
- **Statistics.** `DieboldMariano.dfy` proves the sign of the Newey-West variance, `Bootstrap.dfy` and
  `CalendarBlocks.dfy` the block bootstraps, `CapitalFrontier.dfy` the relational monotonicity of the capital study
  and `CapitalGates.dfy` its demands, over `RealSums.dfy`, `RealOrder.dfy` and `CubeRoot.dfy`.
- **Staleness monitor.** `FreshnessDecision.dfy` is the decision core, `IssueTracker.dfy` its issue across polls.
- **Apple cache.** `AppleParser.dfy` parses one response, `AppleCache.dfy` is the expiring read-modify-write cache.
- **Blend weights and daily maxima.** `BlendWeights.dfy`, `BlendGate.dfy`, `BlendRefit.dfy`, `DailyMax.dfy`, over
  `HourSets.dfy`. `Wrappers.dfy` holds what all of them share.

Temperatures, money and probabilities are `real`; instants and days are integers in the ledger, the stores and the
calendar, and `real` seconds in the monitor. The random generator is an arbitrary sequence of in-range choices, the
transport an arbitrary response, and the clock, the Pacific billing date of an instant and a city's civil date are
parameters.

Where the code departs from what its own text promises, the code is kept and the exact boundary is proved:

- Member offsets are absorbed for every model seen in training only. A target model unseen in training gets bias 0, so
  its offset reaches the forecast unless the mean line is flat and the variance has no slope or no spread to respond to
  (`EmosVariance.ForecastIgnoresOffsetsExactlyWhen`, `EmosWitness.NewMemberMovesTheMean`).
- The line fit minimises squared error except when the determinant is nonzero but inside the fallback band and the
  covariance is not zero (`LeastSquares.FitMinimises`, `LeastSquares.FallbackBandLosesTheLine`).
- An admitted request that nobody swept settles exactly when its response is recordable: a status outside 100 to 599
  raises while recording its outcome and leaves the row in flight (`GoogleDispatch.DispatchRequest`,
  `GoogleDispatch.StatusSixHundredStaysInFlight`). Only 600 and above arrive in practice: Python's HTTP client rejects
  a status line below 100, which is then no HTTP answer at all.
- A failed deploy fixes the open threshold at 20 minutes, which exceeds the suppression ceiling if that is configured
  lower (`FreshnessDecision.ThresholdIsBounded`, `FreshnessDecision.FailedDeployCanDelayTheAlert`).
- The comment that a refit cannot lose sources is not so: it loses them exactly when fewer than two reach the bar for
  all rows, which thirty training rows exclude (`BlendRefit.RefitFailsExactlyWhen`, `BlendRefit.RefitCanLoseItsSources`);
  the result is then the base weights.

One documented behaviour that is easy to overlook: SFO passes the pre-check without regard to the soft ceiling and can
then be denied by it on a later page (`RefreshCycle.SfoCanBeDeniedAtTheCeiling`).

## Model

| member | source | states |
|---|---|---|
| LedgerRuns.StepKeepsInv | forecaster/google_weather_store.py:1289-1693 | One transaction of any kind keeps every row in one of the five lifecycle phases with matching timestamps and billable flag, keeps handles unique, and changes rows only as the lifecycle allows: identity fixed, a dispatched row stays billed, a settled row stays as it is. |
| LedgerRuns.RunKeepsInv | forecaster/google_weather_store.py:1289-1693 | The same over any interleaving of any number of transactions, starting from any well-formed table. |
| LedgerSteps.ReservationRecords | forecaster/google_weather_store.py:1347-1372 | An admitted reservation appends one row: the caller's handle, city and station, its Pacific date and month, reserved and billed once, nothing else set. |
| LedgerSteps.ReservationsAreAnswered | forecaster/google_weather_store.py:1289-1346 | A reservation is refused as invalid, or by the daily cap, the monthly cap, the soft ceiling or the breaker, each exactly when it is the first of these to fail. |
| LedgerSteps.RetriesAreIdempotent | forecaster/google_weather_store.py:1312-1330 | Whatever transactions follow an admission, asking for the same reservation again answers with it and bills nothing, and asking for its id under another city or station conflicts. |
| LedgerSteps.DispatchRecords | forecaster/google_weather_store.py:1483-1533 | Dispatching consumes and stamps exactly an undispatched reservation. |
| LedgerSteps.CompletionRecords | forecaster/google_weather_store.py:1535-1600 | Completing records time, status class, error and status of exactly a row in flight, for a valid outcome only. |
| LedgerSteps.RepeatedCompletions | forecaster/google_weather_store.py:1578-1594 | A completion is taken as a repeat exactly when the row carries its very outcome. |
| LedgerSteps.CancellationRecords | forecaster/google_weather_store.py:1434-1453 | Cancelling refunds and closes exactly an undispatched reservation. |
| LedgerSteps.SweepRecords | forecaster/google_weather_store.py:1455-1481 | A sweep does so to exactly the undispatched reservations made before its cutoff. |
| LedgerSteps.SeedRecords | forecaster/google_weather_store.py:1618-1693 | A seed adds one page at a time, a billed success of the month's first day under its synthetic id, unless that id is there. |
| LedgerSteps.UuidsCarryTheirMarks | forecaster/google_weather_store.py:1300-1311 | Reservation ids are canonical version-4 identifiers without dashes. |
| LedgerBudgets.StepCharges | forecaster/google_weather_store.py:1310-1367 | Apart from seeding, only an admitted reservation raises a billed count, and by exactly one row of its own day and month. |
| LedgerBudgets.BudgetsHold | forecaster/google_weather_store.py:1331-1338 | After any unseeded run from the empty ledger, billed rows are within the daily cap on every date and within the smaller of monthly cap and soft ceiling in every month. |
| LedgerBudgets.BilledEventsWithinCaps | forecaster/google_weather_store.py:1422-1432 | The same bound for the sums that the count query returns. |
| LedgerBudgets.RealEventsWithinCaps | forecaster/google_weather_store.py:1331-1338 | With legacy seeds anywhere in the run, real events still respect every cap. |
| LedgerBudgets.SeedsLeaveTheMaximum | forecaster/google_weather_store.py:1664-1687 | However seeds and other transactions interleave, a month holds exactly the largest count any seed of it asked for, pages 0 to that count less one. |
| LedgerBudgets.MonthSplits | forecaster/google_weather_store.py:1640-1652 | What a month bills is its real events plus its seeds. |
| LedgerBudgets.PaidRequestsWithinCap | forecaster/google_weather_store.py:1483-1533 | A dispatched row is never refunded, so the paid requests of a date stay within the daily cap. |
| LedgerBudgets.UsageAgreesWithReserve | forecaster/google_weather_store.py:1695-1716 | Restricting the day to its own month, as the usage query does, loses no row that a reservation would count, seeds included. |
| LedgerBreaker.QueryIsOrdered | forecaster/google_weather_store.py:1393-1405 | The breaker query lists every terminal row of the date exactly once, later reservations first and ties by later id. |
| LedgerBreaker.TrailingRunCountsMembers | forecaster/google_weather_store.py:1375-1411 | The query's leading client errors are exactly the terminal rows that, with every newer terminal row, ended in a 4xx: a definition that mentions no order of listing. |
| LedgerBreaker.LimitedRunIsCappedRun | forecaster/google_weather_store.py:1393-1411 | The limited query answers the smaller of the limit and the true trailing run. |
| LedgerBreaker.OtherOutcomesNeverLengthenTheRun | forecaster/google_weather_store.py:1393-1411 | Rows that did not fail with a client error never lengthen the run, whatever their reservation times. |
| LedgerBreaker.FailingDayIsBounded | forecaster/google_weather_store.py:1339-1346 | On a date where every outcome is a 4xx and at most k events are ever open at once, at most threshold + k - 1 events are ever billed. |
| LedgerStore.GoogleUsageLedger.constructor | forecaster/google_weather_store.py:1231-1255 | A new ledger is empty and well formed. |
| LedgerStore.GoogleUsageLedger.ConsecutiveClientErrors | forecaster/google_weather_store.py:1375-1411 | The counting loop returns the smaller of the limit and the size of the independently defined trailing run. |
| LedgerStore.GoogleUsageLedger.PublicConsecutiveClientErrors | forecaster/google_weather_store.py:1413-1420 | With the breaker on, the public count reaches the threshold exactly when the true trailing run does. |
| LedgerStore.GoogleUsageLedger.ReserveEvent | forecaster/google_weather_store.py:1289-1372 | An existing identical reservation is returned unchanged, a conflicting one refused; otherwise the caps and the breaker decide in order, a refusal changes nothing, and an admission appends exactly one undispatched row. |
| LedgerStore.GoogleUsageLedger.MarkDispatched | forecaster/google_weather_store.py:1483-1533 | Succeeds exactly on an undispatched reservation, leaving it in flight with its dispatch time; unknown and undispatchable handles are told apart and change nothing. |
| LedgerStore.GoogleUsageLedger.CompleteEvent | forecaster/google_weather_store.py:1535-1600 | Completes an in-flight row with the outcome; repeating the same outcome is a no-op that succeeds, any other state conflicts, an invalid status class is rejected first. |
| LedgerStore.GoogleUsageLedger.CancelBeforeDispatch | forecaster/google_weather_store.py:1434-1453 | Cancels exactly an undispatched reservation and reports whether it did. |
| LedgerStore.GoogleUsageLedger.CancelStaleUndispatched | forecaster/google_weather_store.py:1455-1481 | Cancels every undispatched row reserved before the cutoff, nothing else, and returns how many there were. |
| LedgerStore.GoogleUsageLedger.SeedLegacyMonthCarryover | forecaster/google_weather_store.py:1618-1693 | Inserts the missing pages below the count, keeps all earlier rows in place, and returns the number inserted. |
| LedgerStore.GoogleUsageLedger.Usage | forecaster/google_weather_store.py:1695-1716 | One pass over the month's live rows yields exactly the daily and monthly counts a reservation is judged by. |
| GoogleDispatch.RecordableIffValid | forecaster/google_api.py:711-735 | The ledger accepts the classification of a response unless it is an HTTP status below 100 or above 599. |
| GoogleDispatch.ForeignRunSpares | forecaster/google_weather_store.py:1455-1481 | Whatever other processes do, a row under a handle they do not hold is untouched, except that it ends cancelled exactly when it still awaited dispatch and some sweep's cutoff lay after its reservation. |
| GoogleDispatch.DispatchRequest | forecaster/google_api.py:690-748 | With arbitrary transactions of other processes between its own, a denied request leaves no row; an admitted one's row ends cancelled exactly when a sweep reaches it before dispatch, else completed exactly when the response is recordable, else in flight; what the caller is told matches the row, and alone it settles exactly when the response is recordable. |
| GoogleDispatch.StatusSixHundredStaysInFlight | forecaster/google_api.py:719-747 | The first request of an empty ledger, admitted and answered with status 600: its completion is refused, it stays billed and in flight, outside the breaker's run, and no sweep reaches it. |
| GoogleDispatch.OnlyClientErrorsFeedTheBreaker | forecaster/google_api.py:711-747 | A request adds to the breaker's run exactly when it was answered with an HTTP status from 400 to 499. |
| GoogleFetch.MappingKeepsLastReadings | forecaster/google_api.py:915-915 | Keying collected hours by instant keeps exactly the last reading of each instant. |
| GoogleFetch.DenialIsRefusal | forecaster/google_weather_store.py:1289-1346 | A well-formed reservation for a configured city under a fresh id is only ever denied by a cap or the breaker. |
| GoogleFetch.FetchPages | forecaster/google_api.py:875-913 | The page loop returns exactly what the pagination denotes, fails as a whole if any page fails, and leaves every page's row absent, settled or unrecordable. Alone it appends at most one row per page and, unless denied, succeeds exactly when its answers denote a forecast. |
| GoogleFetch.FetchCityHourly | forecaster/google_api.py:841-924 | Success publishes the whole generation; any failure publishes nothing; at most the page ceiling is reserved; alone, a denial comes before the last page and names a cap or the breaker. |
| GoogleFetch.PublishedHoldsTheHours | forecaster/google_api.py:914-924 | Collected hours become the whole of the scope's generation, one row per instant with the hourly lifetime, unless it is older than the watermark; no hours change nothing. |
| RefreshCycle.FetchCityDaily | forecaster/google_api.py:927-976 | One request; publishes the daily generation exactly when it succeeded with rows. |
| RefreshCycle.FetchCityCurrent | forecaster/google_api.py:979-1027 | One request; a response without a temperature is a paid success that publishes nothing. |
| RefreshCycle.PublishedHoldsTheDays | forecaster/google_api.py:966-976 | Published days become the whole of the daily generation, each with the lifetime of today or of future days; no days change nothing. |
| RefreshCycle.PublishedHoldsTheReading | forecaster/google_api.py:1012-1027 | A published reading is the whole of the current generation; no reading changes nothing. |
| RefreshCycle.FirstError | forecaster/google_multicity_refresh.py:296-306 | The city's error is that of its first endpoint that did not succeed, and none exactly when all did. |
| RefreshCycle.OnlyBreakerOrCeilingDenies | forecaster/google_multicity_refresh.py:199-230 | After a passed pre-check, while fewer rows than the bundle's cost have been added, no hard cap can deny: a denial means that the breaker is on and the ledger's trailing run has reached it, or the soft ceiling for SFO. |
| RefreshCycle.QuietBreakerDeniesNothing | forecaster/google_multicity_refresh.py:199-230 | So with the breaker off, or no long enough run of client errors at any moment, a city other than SFO that passed the pre-check is never denied budget. |
| RefreshCycle.QuietCycleDeniesNothing | forecaster/google_multicity_refresh.py:324-400 | In terms of the inputs: if the breaker is closed at the start and no answer drawn has a status from 400 to 499, it stays closed and no city but SFO is denied budget. |
| RefreshCycle.SfoCanBeDeniedAtTheCeiling | forecaster/google_multicity_refresh.py:206-221 | SFO's exemption is real: it passes the pre-check below the ceiling and its second page is then denied by it. |
| RefreshCycle.RefreshForecasts | forecaster/google_multicity_refresh.py:233-290 | The two endpoints that every city has: both attempted, at most their cost appended, denials explained, and the store holding what the successful ones drew. |
| RefreshCycle.RefreshOneCity | forecaster/google_multicity_refresh.py:233-307 | Every endpoint is attempted whatever the others did and reported as its answer has it; alone, at most the bundle's cost is appended; after a passed pre-check a denial means a breaker that had tripped on the ledger by then, or the ceiling for SFO; the store ends with exactly what the successful endpoints drew, published in turn. |
| RefreshCycle.RefreshAllCities | forecaster/google_multicity_refresh.py:310-408 | A city is attempted exactly when the breaker was closed at the start, there is a key, and the billed counts at its turn plus its bundle stay within the daily and monthly caps and, unless it is SFO, the soft ceiling; else it is skipped for the first of these that fails. The ledger grows at each turn by at most the attempted bundle; every endpoint is reported as its answer has it; a denial means a breaker that tripped during the cycle (SFO also the ceiling), hence none but SFO if no answer is a client error; with recordable responses no row of the cycle stays open; the store ends purged and then published city by city; the final counts are the ledger's. |
| RefreshCycle.CycleKeepsOtherRows | forecaster/google_multicity_refresh.py:343-400 | Skipped cities and failed endpoints cost no data: a scope that no endpoint succeeded for keeps exactly its unexpired rows through the cycle. |
| RuntimeStore.RefusedIffOlder | forecaster/google_weather_store.py:674-697 | A write is refused exactly when it is older than its scope's watermark, whether or not a row of the scope survives. |
| RuntimeStore.StepKeepsInv | forecaster/google_weather_store.py:653-725 | Every write, rolled-back write and purge keeps all rows of a scope on exactly its watermark's issue and primary keys unique, and no watermark ever falls or disappears. |
| RuntimeStore.RunKeepsInv | forecaster/google_weather_store.py:653-725 | The same over every sequence of them. |
| RuntimeStore.ReadsSeeTheWatermark | forecaster/google_weather_store.py:789-830 | A read returns every unexpired row of its scope, and all of them are of the watermark's issue. |
| RuntimeStore.LaterReadsAreNoOlder | forecaster/google_weather_store.py:789-830 | Whatever happens between two reads of a scope, the later one never returns an older issue. |
| RuntimeStore.OlderIssuesStayRefused | forecaster/google_weather_store.py:687-697 | Once an issue was accepted, an older one is refused for good, purges notwithstanding. |
| RuntimeStore.ReplacementIsWhatIsRead | forecaster/google_weather_store.py:698-719 | An accepted replacement is exactly what its scope's reads return, and no other scope changes. |
| RuntimeStore.PurgeIsInvisible | forecaster/google_weather_store.py:1201-1225 | A purge changes no read at or after its instant. |
| RuntimeStore.WritesTouchOneScope | forecaster/google_weather_store.py:653-725 | An accepted write raises its own scope's watermark to its issue and touches no other scope's watermark or rows; a refused one changes nothing. |
| RuntimeHighs.StoredHoursNeverClash | forecaster/google_runtime_blend.py:159-174 | Rows read from a reachable store never disagree on the issue or collide on an hour, so the grouping's fail-closed branches are unreachable. |
| RuntimeHighs.CompleteIffEveryHour | forecaster/google_weather_store.py:1094-1097 | Distinct exact hours of one station day are at most 24, and 24 of them are every hour of it. |
| RuntimeHighs.SummaryIgnoresOrder | forecaster/google_weather_store.py:1094-1099 | Maximum, coverage and earliest expiry depend on which hours are summarised, not on their order. |
| RuntimeHighs.DerivationsReachTheStore | forecaster/google_runtime_blend.py:193-225 | A begun derivation takes down its day's summary and the issue of what it read; once finished its high is stored under that issue, unless its scope has a later one by then. |
| RuntimeHighs.DerivationNeverOvertakes | forecaster/google_runtime_blend.py:193-225 | With derivations split into their read and their write and anything interleaved, no high's watermark passes its station's hourly watermark. |
| RuntimeHighs.History | forecaster/google_runtime_blend.py:180-225 | Every history of such events from the empty store keeps that relation. |
| RuntimeHighs.DerivedHighIsAccepted | forecaster/google_runtime_blend.py:210-219 | So a derivation that is not interrupted is never refused as stale. |
| RuntimeHighs.StoredHighsSummariseTheirDay | forecaster/google_weather_store.py:1048-1126 | In every history, each stored or pending high was derived by one of its events: its issue, maximum, coverage and earliest expiry are those of exactly the active hours that its city's own store held of its target day, on the city's own clock, when that event read them. |
| RuntimeHighs.StoredHighSpeaksForItsHours | forecaster/google_weather_store.py:1094-1126 | So a stored high is the value of some hour the store held and of none exceeded, expires no later than any, shares their issue, and is complete exactly when every hour of the day was held. |
| RuntimeHighs.ChallengerIsBounded | forecaster/google_runtime_blend.py:60-140 | A challenger exists exactly for a complete high; it keeps sigma, is blocked exactly at a gap of 7, and otherwise moves the mean by 15% of the gap, less than 1.05, so the cap never acts. |
| GenerationStore.GroupStationDayHours | forecaster/google_runtime_blend.py:143-177 | Fails closed exactly on an anomaly or an empty day; otherwise returns the day's exact hours, all and only those, in hour order and of one issue. |
| GenerationStore.GoogleRuntimeStore.constructor | forecaster/google_weather_store.py:569-588 | A new store is empty and its invariant holds. |
| GenerationStore.GoogleRuntimeStore.ReplaceGeneration | forecaster/google_weather_store.py:653-725 | Accepts exactly what is not older than the watermark; a refused write changes nothing. |
| GenerationStore.HourlyIsStored | forecaster/google_weather_store.py:727-767 | Hourly rows of a generation that is not older than the watermark become the whole scope, one row per instant, all with the hourly lifetime. |
| GenerationStore.DailyIsStored | forecaster/google_weather_store.py:852-900 | So do daily rows; days up to the civil today of the city get the lifetime of today, later ones that of future days. |
| GenerationStore.CurrentIsStored | forecaster/google_weather_store.py:966-1003 | So does a single reading, with the lifetime of current conditions. |
| GenerationStore.GoogleRuntimeStore.ReplaceHourlyGeneration | forecaster/google_weather_store.py:727-767 | A mismatched city or station is rejected; otherwise the hourly generation is replaced whole, with one expiry. |
| GenerationStore.GoogleRuntimeStore.ReplaceDailyGeneration | forecaster/google_weather_store.py:852-900 | The same for daily rows; days up to the city's civil today get the lifetime of today, later ones that of future days. |
| GenerationStore.GoogleRuntimeStore.ReplaceCurrentGeneration | forecaster/google_weather_store.py:966-1003 | The same for the single current-conditions row. |
| GenerationStore.GoogleRuntimeStore.Summarise | forecaster/google_weather_store.py:1062-1099 | The validating loop succeeds exactly on matching, exact, distinct hours and then returns their maximum, coverage and earliest expiry. |
| GenerationStore.GoogleRuntimeStore.WriteRuntimeHigh | forecaster/google_weather_store.py:1048-1126 | Writes the summary of valid constituents unless older than the watermark; invalid ones change nothing. |
| GenerationStore.GoogleRuntimeStore.PurgeExpired | forecaster/google_weather_store.py:1201-1225 | Deletes exactly the expired rows, keeps every watermark, and counts what it deleted. |
| GenerationStore.GoogleRuntimeStore.ActiveRuntimeHigh | forecaster/google_weather_store.py:1128-1174 | Returns an unexpired high of the scope exactly when one is stored. |
| GenerationStore.GoogleRuntimeStore.DeriveStationDayHigh | forecaster/google_runtime_blend.py:180-225 | Reads, groups, lets anything else happen, then writes the summary of exactly the hours it read; uninterrupted in a derivation-only store it answers with that summary. |
| LeastSquares.SlopeIs | forecaster/postproc_models.py:59-78 | Fewer than two points, or a determinant strictly inside 1e-12 of zero, give a flat line; otherwise the slope times the determinant is the covariance. |
| LeastSquares.FitMinimises | forecaster/postproc_models.py:59-78 | The closed-form line minimises squared error over all lines exactly when the determinant is outside the fallback band, or the covariance is zero: the fallback with a slope to find is the only failure. |
| LeastSquares.FallbackBandLosesTheLine | forecaster/postproc_models.py:71-78 | Two forecasts a ten-millionth apart with truths a degree apart: the fit is the flat line and does not minimise. |
| LeastSquares.DeterminantSign | forecaster/postproc_models.py:59-78 | The determinant is never negative and is zero exactly when all abscissae are equal. |
| LeastSquares.FitResidualsCancel | forecaster/postproc_models.py:59-78 | In every branch, degenerate ones included, training residuals sum to zero. |
| LeastSquares.FitTranslates | forecaster/postproc_models.py:59-78 | Translating abscissae and ordinates keeps the slope and moves the intercept accordingly. |
| Emos.VarianceLineCalibrated | forecaster/postproc_models.py:215-226 | Clipped or not, the fitted variances average to the mean squared residual and the spread coefficient is not negative. |
| Emos.FitIsCalibrated | forecaster/postproc_models.py:211-228 | For every fitted history: mean residuals cancel, mean fitted variance equals mean squared residual, spread slope non-negative. |
| EmosTables.ReadingsAreTheCases | forecaster/postproc_models.py:190-209 | The readings of a model are exactly its forecasts in the history, each with what was then observed. |
| EmosTables.BiasIsTheMeanError | forecaster/postproc_models.py:190-200 | A model has a bias exactly when it has a reading, and the bias is the mean of its errors. |
| EmosTables.WeightTimesNoiseIsOne | forecaster/postproc_models.py:202-209 | In inverse-variance mode exactly the learned models have a weight, and weight times the larger of 0.25 and the mean squared debiased error is one. |
| EmosTables.NoisierNeverWeighsMore | forecaster/postproc_models.py:202-209 | Of two learned models the one with the larger error never weighs more, and weighs strictly less once that error is above 0.25. |
| EmosTables.EqualModeWeighsAlike | forecaster/postproc_models.py:152-163 | With equal weights every member counts the same. |
| EmosTables.DebiasedMembersBalance | forecaster/postproc_models.py:152-163 | The weighted mean is where the weighted debiased members balance, unknown models with bias 0 and weight 1. |
| EmosTables.SpreadIsTheSampleVariance | forecaster/postproc_models.py:81-82 | The squared spread is the sample variance of the debiased members, and zero below two. |
| EmosTables.RangeIsTheWidestGap | forecaster/postproc_models.py:99-124 | The published range is the widest gap between two learned members once their biases are removed. |
| EmosTables.RangeNeedsTwo | forecaster/postproc_models.py:99-124 | It is published exactly from two learned members on. |
| EmosTables.FittedLinesMinimise | forecaster/postproc_models.py:211-228 | Outside the fallback band the mean line is the best for the truths and the variance line, where not flat, the best for the squared residuals; flat, it is their mean. |
| EmosTables.ForecastIsReadOffTheLines | forecaster/postproc_models.py:231-237 | A forecast is read off both lines, its variance never below the square of 1.5. |
| EmosTables.TrainedForecastsAreUnbiased | forecaster/postproc_models.py:211-237 | Over the days it was trained on, the forecast means and the truths have the same total. |
| EmosFitting.Accumulate | forecaster/postproc_models.py:190-209 | Both dictionary passes compute exactly each seen model's error tally, and only of seen models. |
| EmosFitting.WeightedDebiasedMean | forecaster/postproc_models.py:152-163 | The loop computes the weighted mean of debiased members with the default weight for unknown models. |
| EmosFitting.Learn | forecaster/postproc_models.py:190-209 | Both accumulation passes yield the bias and weight tables the definition gives, for either weight mode. |
| EmosFitting.FitFrom | forecaster/postproc_models.py:211-228 | The loops assemble exactly the parameters the definition gives. |
| EmosOffsets.ForecastResponds | forecaster/postproc_models.py:85-96 | The exact response to any member offsets: the mean moves with the truths plus the slope times the weighted part no learned bias absorbed. |
| EmosOffsets.ChronicOffsetsAbsorbed | forecaster/postproc_models.py:85-124 | A constant offset per model on every training day and the target leaves weights, all four coefficients and the unrounded range unchanged, and mean and variance too whenever every shifted target model was trained on. |
| EmosOffsets.CoveredForecastFollowsTheTruths | forecaster/postproc_models.py:152-237 | When every target member is learned or shifted with the truths, the mean moves by exactly the truths' shift and the variance stays. |
| EmosOffsets.CommonShiftCarriesThrough | forecaster/postproc_models.py:152-237 | Shifting all members and truths by t shifts the mean by exactly t and leaves the variance unchanged. |
| EmosOffsets.MeanIgnoresOffsetsExactlyWhen | forecaster/postproc_models.py:231-236 | The mean ignores every table of offsets exactly when it has no slope or every target model was trained on. |
| EmosOffsets.UnlearnedOffsetLeaks | forecaster/postproc_models.py:231-236 | Otherwise a unit offset on one untrained target model changes the mean. |
| EmosVariance.ForecastIgnoresOffsetsExactlyWhen | forecaster/postproc_models.py:231-237 | Mean and variance together ignore every table of offsets exactly when every target model was trained on, or the mean line is flat and the variance has no slope or the day fewer than two members. |
| EmosVariance.UnlearnedOffsetLeaksIntoVariance | forecaster/postproc_models.py:231-237 | Whenever the variance has a slope, some offset on one untrained member of a day of two or more raises the variance, floor or no floor. |
| EmosVariance.VarianceRises | forecaster/postproc_models.py:81-82 | Moving one value away from the others raises the sample variance by at least the square of the move over the number of values. |
| EmosWitness.NewMemberMovesTheMean | forecaster/postproc_models.py:182-237 | On a two-day history of one model, one degree of offset on a second model moves the fitted mean. |
| EmosWitness.NewMemberMovesTheVarianceAlone | forecaster/postproc_models.py:182-237 | On a four-day history with a flat mean line, an offset on a new model leaves the mean and raises the variance. |
| EmosOffsets.RangeKept | forecaster/postproc_models.py:99-124 | The unrounded debiased range ignores offsets that the biases absorbed. |
| Replay.NoLeakage | forecaster/postproc_models.py:289-311 | The prediction for a day is unchanged by any edit to truth after day - lead - 1, and to member forecasts on other days after it. |
| Replay.RollingOrigin | forecaster/postproc_models.py:264-311 | The rolling loop with its growing history returns exactly the per-day definition of the replay. |
| Replay.PredictsExactlyWhen | forecaster/postproc_models.py:288-306 | The replay predicts exactly the days of three members or more before which, at the lag, lie enough settled days. |
| Replay.TrainingIsTheSettledDays | forecaster/emos_forecast.py:462-467 | A case is in the training list exactly when it holds the members and the truth of a settled day before the target with three members or more. |
| Replay.ServesExactlyWhen | forecaster/emos_forecast.py:454-485 | A serve is given exactly for a day that is not past, with sixty such days to train on and three members that training knows. |
| Replay.LiveTrainingIsReplayHistory | forecaster/emos_forecast.py:456-467 | When the serve sees the replay's truth through target - lead - 1, its training list is the replay's available history. |
| Replay.ServeIsReplayOfKnownMembers | forecaster/emos_forecast.py:437-493 | Whatever the live members and whichever lead the fit is borrowed from, a serve made some days ahead that saw the truth of a replay with that lag yields, before recalibration, the replay of those members that training knows, rescaled for its horizon, and yields something exactly when that replay does. |
| Replay.ServeIsReplayOverLaterArchive | forecaster/emos_forecast.py:437-493 | The same against a replay over a later archive that still holds the days the serve trained on. |
| Replay.ReplayEqualsLive | forecaster/emos_forecast.py:437-493 | At its own lead and with every archived member known to training, the served distribution before the trailing recalibration is the replayed one, and they exist together. |
| Replay.RescaleOnlyNarrows | forecaster/emos_forecast.py:184-203 | The horizon rescale is the identity at the fit's own lead, never widens, never narrows below 0.75 of sigma or the sharpness limit, and leaves the mean. |
| SettlementCalendar.DateIffInWindow | forecaster/settlement_calendar.py:16-46 | An instant has a climate date exactly when it lies in that date's UTC window. |
| SettlementCalendar.InstantFromParts | forecaster/settlement_calendar.py:16-27 | A climate date and a time of day determine the instant. |
| Settlement.LastFinalWriteWins | forecaster/city_truth.py:111-141 | After any writes the stored row is the last final one to its key, if there was one. |
| Settlement.OtherwiseLastPreliminary | forecaster/city_truth.py:111-141 | With no final write it is the last preliminary one, and absent exactly with no write. |
| Settlement.WritesHaveTheOutcome | forecaster/city_truth.py:111-141 | A batch of readings leaves each day its last settling one, else what was final before, else the last one as preliminary. |
| Settlement.SettlingReadingIsLoaded | forecaster/city_truth.py:289-302 | Whatever settles a day last is the truth then loaded of it. |
| Settlement.FinalityNeverReverts | forecaster/city_truth.py:126-139 | A final row is only ever replaced by a final row. |
| Settlement.WritersRespectTheClimateDay | forecaster/city_truth.py:144-231 | Neither writer marks a day final before it ended on that station's clock. |
| Settlement.TruthStopsBeforeToday | forecaster/city_truth.py:289-302 | Truth loaded on a station's day holds only earlier dates, after any run of the writers. |
| Settlement.ServeTrainsOnTheReplayHistory | forecaster/emos_forecast.py:456-467 | From table to training set: a serve trains on exactly the history a later replay reconstructs, unless a settlement before the serve day was afterwards finalised or corrected. |
| ServedForecast.DeliveredForecastIsReplayed | forecaster/emos_forecast.py:437-507 | From table to forecast, recalibration included: a scheduled serve at any lag, the same-day one too, delivers exactly what a replay delivers from the later table and archives, unless a settlement, member forecast or rolling-origin row of a day before the serve was changed. |
| ServedForecast.WindowIsReplayable | forecaster/emos_recalibration.py:138-157 | The window a serve corrects itself by is the window a later replay finds. |
| ServedForecast.OnlySameDayIsRescaled | forecaster/emos_forecast.py:192-203 | Of the scheduled serves only the same-day one is rescaled, and exactly where its station's scale is below one. |
| Recalibration.WindowIsItsDays | forecaster/emos_recalibration.py:138-157 | Sorting the scored rows and cutting them at the window's ends visits exactly the 45 days before the serve, day by day. |
| Recalibration.DayRowsAreScored | forecaster/emos_recalibration.py:138-157 | A row of the window is what its version forecast for one of the 45 days before the serve, with that day's truth. |
| Recalibration.SecondVersionWins | forecaster/emos_recalibration.py:105-116 | The second archive version is used as soon as it has a row, the first only alone. |
| Recalibration.NoFutureInWindow | forecaster/emos_recalibration.py:138-157 | Two archives and truths that agree before the serve day and prefer the same version have the same window: nothing of that day or later reaches it. |
| Recalibration.BiasIsZeroExactlyWhen | forecaster/emos_recalibration.py:196-202 | Nothing is corrected exactly with fewer than three rows, or when the squared mean error times their number is at most 2.25 sample variances. |
| Recalibration.BiasIsPart | forecaster/emos_recalibration.py:196-202 | A correction has the mean error's sign and is strictly smaller. |
| Recalibration.BiasIsTheShrunkenExcess | forecaster/emos_recalibration.py:196-202 | Past the deadband it is what exceeds one and a half standard errors, shrunken. |
| Recalibration.ShrinkageIsByTen | forecaster/emos_recalibration.py:194-194 | The shrinkage times ten more than the rows is the rows. |
| Recalibration.CorrectionNeverHurtsItsWindow | forecaster/emos_recalibration.py:196-202 | On its own window it never raises the squared error, and lowers it exactly when it is not zero. |
| Recalibration.FactorFollowsTheWindow | forecaster/emos_recalibration.py:204-215 | The dispersion factor stays within 0.75 and 1.5 and is above or below one exactly as the mean squared standardised residual is. |
| Recalibration.ZSquaresAre | forecaster/emos_recalibration.py:206-211 | The squared standardised residuals are those of the rows with a positive sigma, one each, net of the bias. |
| Recalibration.TogglesDecide | forecaster/emos_recalibration.py:191-217 | A toggle that is off leaves its part of the correction alone, and the factor is taken net of the bias applied. |
| Recalibration.RecalibrationMovesOnlyTheMean | forecaster/emos_forecast.py:495-507 | With the toggles as they stand a serve keeps its variance and loses the bias from its mean, and is unchanged exactly when nothing is corrected. |
| Settlement.SettlementStore.Upsert | forecaster/city_truth.py:111-141 | One write under the conflict rule. |
| Settlement.SettlementStore.RefreshStation | forecaster/city_truth.py:188-199 | A day holds, as final, its last report that is not preliminary and came after the day ended on the station's clock; without one, a final row stays and any other becomes the last report, preliminary; nothing else changes. |
| Settlement.SettlementStore.BackfillYear | forecaster/city_truth.py:262-281 | The same for an archive's usable rows: one settles never if its text reads as preliminary, with a marker if that confirms it and the day has ended, without one from two days later on; and counts them. |
| Settlement.SettlementStore.Backfill | forecaster/city_truth.py:234-286 | The same for the rows of all years that could be fetched, in order; the outcome is unknown exactly when there were years and every one failed. |
| Settlement.SelectReports | forecaster/clisfo.py:54-70 | Each date gets the newest final version, else the newest preliminary, and only reported dates appear. |
| DieboldMariano.LongRunVarianceIsSumOfSquares | forecaster/forecast_backtest.py:487-493 | Scaled by n and lag + 1, the Bartlett-weighted long-run variance is the sum of squared zero-padded window sums. |
| DieboldMariano.LongRunVarianceSign | forecaster/forecast_backtest.py:487-493 | It is never negative, at any lag, and zero exactly when every deviation is zero. |
| DieboldMariano.OnlyConstantSeriesHaveNoVariance | forecaster/forecast_backtest.py:485-495 | The not-positive exit is taken exactly for a constant series. |
| DieboldMariano.LaggedSum | forecaster/forecast_backtest.py:490-493 | The autocovariance loop computes the lagged product sum. |
| DieboldMariano.Test | forecaster/forecast_backtest.py:473-498 | The statistic is undefined exactly for fewer than three deltas or a constant series, and otherwise is the mean over the root of the variance that the loops accumulate at the reported lag, which is positive, below the number of deltas and nearest to its cube root. |
| DieboldMariano.StatisticPassesExactlyWhen | forecaster/forecast_backtest.py:496-496 | The statistic has the mean's sign, and passes a critical value exactly when the squared mean passes that value squared times the variance. |
| CubeRoot.RoundedCubeRoot | forecaster/forecast_backtest.py:487-509 | The result is the whole number strictly nearest to the cube root: rounding never meets a tie. |
| Bootstrap.PercentileRises | forecaster/forecast_backtest.py:458-470 | The interpolated percentile never falls as the percent rises. |
| Bootstrap.PercentileMonotone | forecaster/forecast_backtest.py:458-470 | It never falls when every value rises. |
| Bootstrap.PercentileInterpolates | forecaster/forecast_backtest.py:458-470 | A percentile lies at its rank among the ordered values, as far between two neighbours as the rank is. |
| Bootstrap.IntervalInRange | forecaster/forecast_backtest.py:501-523 | The interval is ordered and lies inside the range of the deltas. |
| Bootstrap.LowerDeltasLowerInterval | forecaster/forecast_backtest.py:501-523 | For the same draws, lowering any delta lowers both ends: a candidate that ships keeps shipping when its losses improve. |
| Bootstrap.Resample | forecaster/forecast_backtest.py:516-521 | The block loop yields, at each position, its own block's reading at its own offset, with no wrap. |
| Bootstrap.BlockLength | forecaster/forecast_backtest.py:509-509 | Blocks are as long as the cube root of the series, rounded, at least one and never longer than it. |
| Bootstrap.MovingBlockBootstrap | forecaster/forecast_backtest.py:501-523 | The outer loop returns the interval of those replicates' means, at that block length. |
| CalendarBlocks.SupportedBlocks | scripts/evaluate_v7_ml.py:268-284 | An interval is possible exactly with fourteen dates of which none lies outside every block of seven consecutive observed days, and the blocks are then exactly those. |
| CalendarBlocks.FullSupportIs | scripts/evaluate_v7_ml.py:262-284 | An interval needs fourteen dates, each among seven consecutive observed days. |
| CalendarBlocks.IntervalInRange | scripts/evaluate_v7_ml.py:285-293 | The interval is ordered and lies inside the range of the observed differences. |
| CalendarBlocks.IntervalRanksTheMeans | scripts/evaluate_v7_ml.py:292-293 | A fortieth of the replicates' means lies at or under its lower end, and as many at or over its upper one. |
| CalendarBlocks.LowerDifferencesLowerInterval | scripts/evaluate_v7_ml.py:285-293 | For the same draws, lowering any day's difference lowers both ends. |
| CalendarBlocks.Resample | scripts/evaluate_v7_ml.py:287-291 | The drawing loop yields, at each position, the difference of its own block's day. |
| CalendarBlocks.CalendarBlockInterval | scripts/evaluate_v7_ml.py:262-295 | The whole function: no interval exactly when some date cannot be resampled, else that of the replicates' means. |
| CapitalFrontier.MoreCapitalIsSafer | scripts/evaluate_v7_ml.py:577-592 | On any trajectory a larger start never draws down further, and breaches only if the smaller one does. |
| CapitalFrontier.RowsImproveWithCapital | scripts/evaluate_v7_ml.py:573-596 | Along increasing capital neither breach probability nor the sorted 95th-percentile drawdown rises, and feasibility is kept. |
| CapitalFrontier.FeasibleRowsAreASuffix | scripts/evaluate_v7_ml.py:569-596 | On an ascending grid the feasible rows form a suffix. |
| CapitalFrontier.FirstFeasibleBoundsTheRange | scripts/evaluate_v7_ml.py:597-600 | The reported range is exactly the feasible capitals of the grid, with no gap. |
| CapitalFrontier.StartingBoundFundsEveryDay | scripts/evaluate_v7_ml.py:566-572 | Every grid capital can fund any one observed day from a standing start. |
| CapitalFrontier.DrawdownIsTheWorstDrop | scripts/evaluate_v7_ml.py:577-592 | The drawdown is the largest of zero, every day's drop from the running peak with realized losses and open cost taken first, and every day's closing drop; told by wealth and peak of prefixes. |
| CapitalFrontier.BreachIsABrokenBudget | scripts/evaluate_v7_ml.py:581-583 | A budget is breached exactly when some day found no wealth, or an open cost above a twentieth or a realized loss above a hundredth of the wealth before it. |
| CapitalFrontier.WealthMovesByProfits | scripts/evaluate_v7_ml.py:588-588 | Wealth starts at the capital and moves by each day's profit. |
| CapitalFrontier.Simulate | scripts/evaluate_v7_ml.py:577-592 | The inner loop's drawdown and breach flag are those, whatever the walk. |
| CapitalFrontier.Evaluate | scripts/evaluate_v7_ml.py:573-596 | The trajectory loop computes one grid row. |
| CapitalFrontier.RowCountsBreaches | scripts/evaluate_v7_ml.py:593-596 | A row's probability is the share of trajectories with a broken budget or a drop over a tenth; it is feasible exactly at a twentieth or less. |
| CapitalFrontier.RowRanksDrawdowns | scripts/evaluate_v7_ml.py:594-595 | Its drawdown is the worst drop that all but a twentieth of the trajectories stay within. |
| CapitalFrontier.LowerBoundIsTheFortieth | scripts/evaluate_v7_ml.py:561-562 | The profit bound leaves a fortieth of the resampled mean daily profits at or under it. |
| CapitalFrontier.MeanIsTheDailyGain | scripts/evaluate_v7_ml.py:561-561 | A trajectory's mean is the wealth it adds to any start, spread over its days. |
| CapitalFrontier.GridIsTheNextDollar | scripts/evaluate_v7_ml.py:573-575 | A grid capital is the first whole dollar at or above its multiple of the starting bound. |
| CapitalFrontier.StartingBoundIsNeeded | scripts/evaluate_v7_ml.py:566-568 | The starting bound is a dollar or just what some observed day needs. |
| CapitalFrontier.Resample | scripts/evaluate_v7_ml.py:551-560 | Blocks are drawn until long enough and cut to the observed length. |
| CapitalFrontier.Conduct | scripts/evaluate_v7_ml.py:549-605 | The study ends insufficient, unverified, without a positive lower bound, without feasible capital, or with the exact feasible range, each under exactly its own condition. |
| CapitalGates.StudyFills | scripts/evaluate_v7_ml.py:515-548 | The whole function: it is blocked exactly by the first of its demands on the fills that fails, stated without any order, and otherwise concludes the study of their days in date order. |
| CapitalGates.ConsecutiveIffGapless | scripts/evaluate_v7_ml.py:530-534 | The test on the sorted dates asks for exactly that every day between two reported days is reported. |
| CapitalGates.BlocksSayWhy | scripts/evaluate_v7_ml.py:515-548 | Each status is given exactly when its own demand fails and all earlier ones hold. |
| CapitalGates.DemandsOnFills | scripts/evaluate_v7_ml.py:535-548 | What those demands are, fill by fill: ended days, an account and a 64-digit fingerprint, one of each, and attested, covered fills. |
| CapitalGates.OrderDoesNotMatter | scripts/evaluate_v7_ml.py:528-548 | Neither what blocks a study nor the days it studies depends on the order of the fills. |
| FreshnessDecision.ReferenceStaysNearOrigin | scripts/publication_freshness_core.py:354-410 | The clock used is within 300 seconds of the origin's whenever that can be trusted, and a cache hit without an age is not trusted. |
| FreshnessDecision.OriginBoundsFreshness | scripts/publication_freshness_core.py:370-429 | However wrong the runner's clock, five minutes past the limit by the origin is never fresh and five inside is never stale. |
| FreshnessDecision.OriginClockAddsTheAge | scripts/publication_freshness_core.py:354-367 | The origin's clock is the response's date plus its time in a cache, and unknown for a cache hit without one. |
| FreshnessDecision.ReferenceIsTheRunnersUnlessSkewed | scripts/publication_freshness_core.py:398-405 | The runner's clock is used unless the origin's disagrees by more than five minutes. |
| FreshnessDecision.VerdictsAreReckoned | scripts/publication_freshness_core.py:370-429 | Every verdict in terms of the read: its class, its age in minutes, and the times it was reckoned from. |
| FreshnessDecision.StrategyOnlyDoubtsTheFresh | scripts/check_publication_freshness.py:160-230 | Only a fresh manifest is doubted: unhealthy on a problem or a structural failure, unreadable on any other failure to read. |
| FreshnessDecision.CoversFromTwentyMinutesBefore | scripts/publication_freshness_core.py:432-441 | A deployment covers the window exactly from twenty minutes before the snapshot on. |
| FreshnessDecision.OnlyRunningDeploysRaiseTheBar | scripts/publication_freshness_core.py:473-503 | A covering deploy that has neither failed nor finished asks for its declared minutes, up to the longest window, plus the margin; any other leaves the base. |
| FreshnessDecision.ThresholdIsBounded | scripts/publication_freshness_core.py:473-503 | The threshold passes the larger of base and suppression ceiling only for a covering failed deploy whose fixed 20 minutes exceed both, and falls below base only for one whose 20 minutes are less. |
| FreshnessDecision.FailedDeployCanDelayTheAlert | scripts/publication_freshness_core.py:484-488 | With a base of 10 minutes and a ceiling of 3, a failed deploy raises the threshold from 10 to 20 and silences an alert at 15. |
| FreshnessDecision.DefaultLimits | scripts/publication_freshness_core.py:91-130 | With the defaults that is 525 minutes at most, and below 90 exactly after a covering failed deploy. |
| FreshnessDecision.BucketIsTheLastMark | scripts/publication_freshness_core.py:509-518 | The bucket is the last of 6 h, 12 h and whole days that the age has passed, and absent exactly under 6 h. |
| FreshnessDecision.BucketsAreMonotone | scripts/publication_freshness_core.py:509-518 | A later age never has an earlier bucket. |
| FreshnessDecision.ClosesExactlyOnRecovery | scripts/publication_freshness_core.py:598-605 | An open issue is closed exactly on a healthy snapshot within the close age, so no fresh run leaves one open. |
| FreshnessDecision.OpensExactlyOnOutage | scripts/publication_freshness_core.py:553-614 | An issue is opened exactly when none is open, nobody muted or acknowledged, and the site is broken, unhealthy, or off by the threshold into the past or the future. |
| FreshnessDecision.CommentsExactlyOnNewMarks | scripts/publication_freshness_core.py:607-623 | A comment is posted exactly on an open, unmuted, stale outage whose mark has not been posted, and names it. |
| FreshnessDecision.NoRecordDelaysPastTheLimit | scripts/publication_freshness_core.py:607-614 | Past every limit, an unmuted and unacknowledged outage opens an issue whatever any deployment record says. |
| IssueTracker.EveryRunKeepsInv | scripts/publication_freshness_core.py:553-623 | With one runner at most one monitor issue is ever open, no escalation repeats on an issue, and where its stale ages never fell its stamps, the opening one included, strictly increase. |
| IssueTracker.EscalationsArePosted | scripts/publication_freshness_core.py:616-623 | A delivered, unmuted stale run on an open issue leaves its bucket stamped. |
| IssueTracker.PollsChangeOneIssue | scripts/check_publication_freshness.py:160-300 | A run opens one issue with its opening mark, adds one mark to the open one, closes it, or changes nothing but what was seen. |
| IssueTracker.HandsCloseTheOpenIssue | scripts/publication_freshness_github.py:210-246 | A human closing the monitor's issue closes the newest open one. |
| IssueTracker.Monitor.RunOnce | scripts/check_publication_freshness.py:160-300 | One run: plans on what it saw and writes; an issue appears only by a delivered create and disappears only by a delivered close. |
| IssueTracker.OpenIndex | scripts/publication_freshness_github.py:210-246 | The issue adopted is the newest open one, and none exactly when none is open. |
| AppleParser.GroupByDay | forecaster/apple_weatherkit.py:285-299 | Grouping fails exactly on an unusable temperature at an exact hour or a repeated hour; otherwise the dictionary holds exactly what the rows report. |
| AppleParser.ReportsAreExactHours | forecaster/apple_weatherkit.py:289-297 | A row reports an hour of a day exactly if it starts that many hours after the day's midnight on the fixed clock. |
| AppleParser.DailyCountsUntilItExpires | forecaster/apple_weatherkit.py:262-277 | The diagnostic daily product counts exactly while it has not expired. |
| AppleParser.ExpiryIsTheEarliest | forecaster/apple_weatherkit.py:262-280 | A snapshot expires with the first product that it draws on. |
| AppleParser.ParseStationHighs | forecaster/apple_weatherkit.py:240-320 | Succeeds exactly on an unexpired, clean response with at least one exact hour; one snapshot per reported day in date order, with that day's maximum and number of reported hours, complete exactly with all 24, the usable diagnostic high of the day, the response's read time, and an expiry after its fetch. |
| HourSets.TwentyFourIsEveryHour | forecaster/apple_weatherkit.py:315-315 | Having 24 hours and having hours 0 to 23 are the same test. |
| AppleCache.EveryRunStaysReadable | forecaster/apple_weatherkit.py:550-652 | From an absent file, whatever refreshes, reads and purges wrote, the strict reader accepts. |
| AppleCache.PurgeDropsExactlyTheExpired | forecaster/apple_weatherkit.py:610-620 | A purge leaves nothing at or past its expiry and drops nothing else. |
| AppleCache.ReplacementIsLocal | forecaster/apple_weatherkit.py:577-593 | Replacing a city keeps every other city's unexpired rows, installs exactly its complete unexpired snapshots, and leaves nothing expired. |
| AppleCache.ReaderDemands | forecaster/apple_weatherkit.py:440-548 | The reader accepts exactly configured cities with complete days that outlive their fetch, no day of a city twice. |
| AppleCache.UnreadableFilesStay | forecaster/apple_weatherkit.py:577-636 | An unreadable file is only ever discarded, by the operations that may. |
| AppleCache.OperationsHold | forecaster/apple_weatherkit.py:577-636 | What a readable file holds after each operation, row by row. |
| AppleCache.AppleRuntimeCache.constructor | forecaster/apple_weatherkit.py:412-414 | A cache starts absent. |
| AppleCache.AppleRuntimeCache.ReplaceCity | forecaster/apple_weatherkit.py:577-593 | Raises exactly on an unreadable file, which it then leaves alone. |
| AppleCache.AppleRuntimeCache.PurgeExpired | forecaster/apple_weatherkit.py:610-626 | The same, and counts what it removed. |
| AppleCache.AppleRuntimeCache.ActiveHighs | forecaster/apple_weatherkit.py:595-608 | Returns exactly the city's unexpired rows after purging everything expired. |
| AppleCache.AppleRuntimeCache.PurgeOrDiscardUnverifiable | forecaster/apple_weatherkit.py:628-636 | Discards exactly an unreadable file; whatever it held, nothing expired remains and the reader accepts what is left. |
| AppleCache.AppleRuntimeCache.RefreshAppleWeather | forecaster/apple_weatherkit.py:655-699 | From any content, a refresh ends readable; cities succeed and fail independently and are listed in order. |
| AppleCache.ChosenAreTheirCities | forecaster/apple_weatherkit.py:655-699 | A city is listed as refreshed exactly when its request brought a complete day unexpired on acceptance, and every city is listed once. |
| AppleCache.RefreshedCitiesHoldTheirDays | forecaster/apple_weatherkit.py:655-699 | A refreshed city ends with exactly the complete days of its request that outlive this and every later acceptance. |
| AppleCache.OtherCitiesKeepTheirDays | forecaster/apple_weatherkit.py:655-699 | Any other city keeps exactly its days that outlive every acceptance. |
| BlendWeights.NormalizeIsProbability | forecaster/blend_learners.py:34-41 | Normalising anything yields a probability vector and leaves one that already is one alone. |
| BlendWeights.MinSourceSamples | forecaster/blend_learners.py:173-174 | A source needs samples on half the rows, at least three and at most fifteen. |
| BlendWeights.LearnedIsProbability | forecaster/blend_learners.py:184-193 | Learned weights are a probability vector and unscored sources keep exactly their base mass. |
| BlendWeights.WeightTimesError | forecaster/blend_learners.py:184-193 | Among scored sources weight times floored error is one constant. |
| BlendWeights.LowerErrorNeverWeighsLess | forecaster/blend_learners.py:174-193 | A scored source with a lower error never gets less learned weight, and strictly more once the larger error is above the floor and there is mass to share. |
| BlendGate.MixIsProbability | forecaster/blend_learners.py:97-102 | Mixing base and learned weights stays a probability vector and moves no weight they agree on. |
| BlendGate.TrainPrecedesHoldout | forecaster/blend_learners.py:74-78 | Every training date precedes every holdout date. |
| BlendGate.TrainAndHoldoutAreAll | forecaster/blend_learners.py:76-78 | Training and holdout rows together are all the rows. |
| BlendGate.HoldoutIsTheLatestThird | forecaster/blend_learners.py:74-76 | The holdout is the latest third of the days, never fewer than five. |
| BlendGate.WeightsAreProbability | forecaster/blend_learners.py:44-157 | The result is always a probability vector and sources that cannot be scored keep their base mass. |
| BlendGate.AdaptiveWeightsAreMixed | forecaster/blend_learners.py:129-141 | Once adaptive, each weight mixes its base with what all rows taught by the learned share. |
| BlendGate.MixedGoesTheShare | forecaster/blend_learners.py:97-102 | A mixed weight lies that share of the way from one to the other. |
| BlendGate.ShareGrowsWithTheDays | forecaster/blend_learners.py:80-83 | The learned share starts at a quarter, grows by two points a day and stops at three fifths. |
| BlendRefit.RefitFailsExactlyWhen | forecaster/blend_learners.py:129-134 | Past the holdout gate the result is the base exactly when fewer than two sources have as many errors as the bar for all rows asks. |
| BlendRefit.RefitKeepsSources | forecaster/blend_learners.py:129-134 | It is not when the bar for all rows is no higher than the bar for the training rows. |
| BlendRefit.ThirtyTrainingRowsSuffice | forecaster/blend_learners.py:129-134 | In particular, with thirty training rows the comment there holds. |
| BlendRefit.RefitCanLoseItsSources | forecaster/blend_learners.py:129-134 | Below that it can fail: fifteen scored days whose ten training days have two learned sources and pass the holdout strictly, and whose refit has none. |
| BlendGate.SourceErrors | forecaster/blend_learners.py:163-171 | The nested loops collect exactly each source's absolute errors. |
| BlendGate.SourceMaes | forecaster/blend_learners.py:173-182 | The dictionary of mean absolute errors holds exactly the sources with enough samples, and their number decides. |
| BlendGate.LearnedSourceWeights | forecaster/blend_learners.py:160-193 | From the error lists up, loop by loop: the defined weights, or nothing with fewer than two scored sources. |
| BlendGate.BlendMae | forecaster/blend_learners.py:196-217 | The loop computes the mean absolute error of the blend over the rows it can be judged on. |
| BlendGate.BlendSumsOverSources | forecaster/blend_learners.py:199-213 | A row's blend sums over every source with a forecast and a positive weight. |
| BlendGate.BlendErrorsAre | forecaster/blend_learners.py:199-215 | The errors are how far the blend was from the truth on each row that can be judged. |
| BlendGate.ComputeAdaptiveBlendWeights | forecaster/blend_learners.py:44-157 | The whole learner returns a probability vector, different from the base only after fifteen scored days and a strict holdout improvement of the weights learned from the training days. |
| DailyMax.ReconstructDailyMax | forecaster/nwp_archive.py:247-277 | A date appears exactly when all its rows are finite whole-hour values and each of 24 hours occurs exactly once; its value is their maximum. |
| DailyMax.PermutingChangesNothing | forecaster/nwp_archive.py:247-277 | Any permutation of the rows gives the same result. |
| DailyMax.DateChunks | forecaster/nwp_archive.py:330-338 | The windows are consecutive, no longer than the span, and cover exactly the requested dates. |

## Left out

- HTTP, TLS, JWT signing, redirects, URLs, JSON and GitHub REST calls: a request is an arbitrary outcome, a write is delivered or not.
- SQLite, file locks, permissions, symlink and identity checks, schema creation and migration: each transaction is one atomic step; a failed one is a step that changes nothing.
- Text: report parsing, ISO dates, attribution and issue prose. Records are parsed; fixed-width ISO texts sort as the integers used here. A seed's month is taken already stripped of blanks.
- Floating point: rounding to two decimals, `isfinite` filters and overflow. A value that is not a finite number is a missing one.
- Square roots, the Gaussian CDF, CRPS and p-values: spreads and sigmas are stated on variances, a root is a parameter that its square pins down, and a rounded cube root is the exact one.
- LSTM, boosting, plots, the React interface, health checks, cleanup and export scripts, the legacy JSON usage counters, the seeding, purging and paired-evidence wrappers.
- DieboldMariano.Test: the p-value is not modelled; the statistic's root is left to `DieboldMariano.StatisticPassesExactlyWhen`.
- Bootstrap.MovingBlockBootstrap: alpha is taken between 0 and 1, as its callers give it; the generator's sequence is arbitrary.
- CapitalGates.StudyFills: the end of a day in the study's time zone is a parameter, a repeated day is an outcome where the source raises, and an account key of blanks counts as absent.
- Replay.ServeIsReplayOfKnownMembers: stops before the trailing recalibration, which `ServedForecast.DeliveredForecastIsReplayed` adds.
- ServedForecast.DeliveredForecastIsReplayed: the rolling-origin rows of the window are taken as stored; the standard error is a parameter pinned down by its square.
- Replay.ReplayEqualsLive: stops before the trailing recalibration, which moves the mean unless `Recalibration.BiasIsZeroExactlyWhen` holds; a serve drops members that training does not know while the replay gives them bias 0, so with such a member the two differ as `Replay.ServeIsReplayOfKnownMembers` says.
- GoogleDispatch.DispatchRequest: the reservation id is a parameter that is not in the ledger yet, standing for a freshly drawn UUID.
- RefreshCycle.RefreshAllCities: cities come in processing order and no other writer acts; the ordering by exposure and close time, the baseline archiver and the legacy status document are not modelled.
- RuntimeHighs.History: other processes write no high except by derivation, as in the repository.
- GenerationStore.GoogleRuntimeStore.WriteRuntimeHigh: constituents are the store's own hourly rows, so the type checks on foreign objects do not arise.
- IssueTracker.EveryRunKeepsInv: only the monitor opens issues; a human reopening a closed monitor issue is not an event, and could leave two open.
- IssueTracker.Monitor.RunOnce: one runner; whether a human's recent close counts as an acknowledgement is an observation, and the page limits of the issue search are not modelled.
- AppleCache.AppleRuntimeCache.RefreshAppleWeather: each city's request is its parsed snapshots or a failure; the temporary files of a rewrite are not modelled.
- DailyMax.ReconstructDailyMax: times and temperatures come paired; arrays of different lengths, for which the source returns nothing, are not modelled.
- GoogleFetch.FetchCityHourly: the page ceiling is a parameter; the source's configuration keeps it at three or less.
- The active daily and current reads differ from the modelled hourly read in their ordering only.
- The source-MOS and rolling de-bias learners and the pinball and Gaussian scores: close relatives of what is proved here.
- `next_expiry`, the endpoint response wrapper and the city priority sort: easy members.
