/** What each ledger transaction records and answers, field by field (forecaster/google_weather_store.py). */
module LedgerSteps {
  import opened Wrappers
  import opened UsageLedger
  import opened LedgerRuns

  /** Only the row at i differs. */
  predicate OnlyAt(before: Table, after: Table, i: nat) {
    |before| == |after| && forall j :: 0 <= j < |before| && j != i ==> after[j] == before[j]
  }

  /** A run is its transactions one after the other. */
  lemma RunsGoStepByStep(config: Config, rows: Table, steps: seq<Step>, step: Step)
    ensures Run(config, rows, []) == rows
    ensures Run(config, rows, steps + [step]) == Apply(config, Run(config, rows, steps), step)
  {
    assert (steps + [step])[..|steps|] == steps;
  }

  /**
   * An admitted reservation is recorded under its caller's city and station, billed on its Pacific date, and nothing
   * else.
   */
  lemma ReservationRecords(config: Config, rows: Table, handle: Handle, city: string, station: string, now: int)
    requires ReserveResult(config, rows, handle, city, station, now).Ok? && !Has(rows, handle)
    ensures var date, after := config.pacificDate(now), Apply(config, rows, Reserve(handle, city, station, now));
            && |after| == |rows| + 1 && after[..|rows|] == rows
            && after[|rows|] == Row(handle, date[..7], date, city, station, now, None, None, Reserved, 1, None, None)
  {
  }

  /** How a reservation is answered: what is wrong with it, what it already is, or the first limit that is reached. */
  lemma ReservationsAreAnswered(config: Config, rows: Table, handle: Handle, city: string, station: string, now: int)
    ensures var result, date := ReserveResult(config, rows, handle, city, station, now), config.pacificDate(now);
            var valid := && city in config.stations && config.stations[city] == station
                         && handle.endpoint in {"hourly", "daily", "current"} && handle.page >= 0
                         && CanonicalUuid4(handle.reservationId);
            var known := exists i :: 0 <= i < |rows| && rows[i].handle == handle;
            var daily, monthly, limits := BillableOn(rows, date), BillableIn(rows, date[..7]), config.limits;
            && (result == Err(InvalidArgument) <==> !valid)
            && (result == Err(DailyBudget) <==> valid && !known && daily >= limits.daily)
            && (result == Err(MonthlyBudget) <==>
                  valid && !known && daily < limits.daily && monthly >= limits.monthly)
            && (result == Err(SoftMonthlyBudget) <==>
                  valid && !known && daily < limits.daily && limits.softMonthly <= monthly < limits.monthly)
            && (result.Err? && result.error.BreakerOpen? <==>
                  && valid && !known && daily < limits.daily && monthly < limits.monthly && monthly < limits.softMonthly
                  && limits.breaker > 0 && TrailingRun(rows, date) >= limits.breaker)
            && (result.Ok? ==> result.value == handle)
  {
    hide TrailingRun, BillableOn, BillableIn, CanonicalUuid4;
  }

  lemma KnownReservation(config: Config, rows: Table, i: nat, city: string, station: string, now: int)
    requires Inv(rows) && i < |rows| && ValidReservation(config, rows[i].handle, city, station)
    ensures ReserveResult(config, rows, rows[i].handle, city, station, now)
         == if rows[i].city == city && rows[i].station == station then Ok(rows[i].handle) else Err(LifecycleConflict)
    ensures Apply(config, rows, Reserve(rows[i].handle, city, station, now)) == rows
  {
    FindIsUnique(rows, rows[i].handle, i);
  }

  /**
   * However many transactions follow a reservation, asking for the same one again answers with it and bills nothing,
   * and asking for its id under another city or station conflicts.
   */
  lemma RetriesAreIdempotent(config: Config, rows: Table, handle: Handle, city: string, station: string, now: int,
          steps: seq<Step>, again: string, where: string, later: int)
    requires Inv(rows) && !Has(rows, handle) && ReserveResult(config, rows, handle, city, station, now).Ok?
    requires again in config.stations && config.stations[again] == where
    ensures var after := Run(config, Apply(config, rows, Reserve(handle, city, station, now)), steps);
            && Apply(config, after, Reserve(handle, again, where, later)) == after
            && ReserveResult(config, after, handle, again, where, later)
               == if again == city && where == station then Ok(handle) else Err(LifecycleConflict)
  {
    hide Inv, TableEvolves, Refusal, CanonicalUuid4;
    var reserve := Reserve(handle, city, station, now);
    var first := Apply(config, rows, reserve);
    StepKeepsInv(config, rows, reserve);
    RunKeepsInv(config, first, steps);
    var after := Run(config, first, steps);
    ReservationRecords(config, rows, handle, city, station, now);
    RowIdentityStays(first, after, |rows|);
    KnownReservation(config, after, |rows|, again, where, later);
  }

  lemma RowIdentityStays(before: Table, after: Table, i: nat)
    requires TableEvolves(before, after) && i < |before|
    ensures i < |after| && after[i].handle == before[i].handle
    ensures after[i].city == before[i].city && after[i].station == before[i].station
  {
    assert Evolves(before[i], after[i]);
  }

  /** Dispatching consumes a reservation and stamps it; anything else stays as it is. */
  lemma DispatchRecords(config: Config, rows: Table, i: nat, now: int)
    requires Inv(rows) && i < |rows|
    ensures var after := Apply(config, rows, Dispatch(rows[i].handle, now));
            OnlyAt(rows, after, i)
            && after[i] == if rows[i].status == Reserved && rows[i].dispatchedAt == None
                           then rows[i].(status := Consumed, dispatchedAt := Some(now)) else rows[i]
  {
    FindIsUnique(rows, rows[i].handle, i);
  }

  /** Completing records the outcome of a dispatched row once; a failure stays consumed, a success becomes one. */
  lemma CompletionRecords(config: Config, rows: Table, i: nat, outcome: Outcome, now: int)
    requires Inv(rows) && i < |rows|
    ensures var after := Apply(config, rows, Complete(rows[i].handle, outcome, now));
            var valid := && (outcome.responseClass == None || 1 <= outcome.responseClass.value <= 5)
                         && (outcome.success <==> outcome.errorKind == None);
            var open := rows[i].status == Consumed && rows[i].dispatchedAt != None && rows[i].completedAt == None;
            OnlyAt(rows, after, i)
            && (!(valid && open) ==> after[i] == rows[i])
            && (valid && open ==>
                  after[i] == rows[i].(status := after[i].status, completedAt := Some(now),
                                       responseClass := outcome.responseClass, errorKind := outcome.errorKind)
                  && (outcome.success ==> after[i].status == Success)
                  && (!outcome.success ==> after[i].status == Consumed))
  {
    FindIsUnique(rows, rows[i].handle, i);
  }

  /** A completion is repeated, not refused, exactly when the row already carries its very outcome. */
  lemma RepeatedCompletions(row: Row, outcome: Outcome)
    requires WellFormed(row) && !IsSeed(row)
    ensures AlreadyCompleted(row, outcome) <==>
      && row.completedAt.Some? && row.errorKind == outcome.errorKind && row.responseClass == outcome.responseClass
      && (outcome.success ==> row.status == Success) && (!outcome.success ==> row.status == Consumed)
  {
  }

  /** Cancelling refunds a reservation that has not gone out. */
  lemma CancellationRecords(config: Config, rows: Table, i: nat, now: int)
    requires Inv(rows) && i < |rows|
    ensures var after := Apply(config, rows, Cancel(rows[i].handle, now));
            OnlyAt(rows, after, i)
            && after[i] == if rows[i].status == Reserved && rows[i].dispatchedAt == None
                           then rows[i].(status := Cancelled, billable := 0, completedAt := Some(now)) else rows[i]
  {
    FindIsUnique(rows, rows[i].handle, i);
  }

  /** A sweep does that to every reservation made before its cutoff. */
  lemma SweepRecords(config: Config, rows: Table, i: nat, before: int, now: int)
    requires i < |rows|
    ensures var after := Apply(config, rows, CancelStale(before, now));
            |after| == |rows|
            && after[i] == if rows[i].status == Reserved && rows[i].dispatchedAt == None && rows[i].reservedAt < before
                           then rows[i].(status := Cancelled, billable := 0, completedAt := Some(now)) else rows[i]
  {
  }

  /** A handle that no row carries is left alone. */
  lemma UnknownHandlesChangeNothing(config: Config, rows: Table, handle: Handle, outcome: Outcome, now: int)
    requires forall i :: 0 <= i < |rows| ==> rows[i].handle != handle
    ensures Apply(config, rows, Dispatch(handle, now)) == rows
    ensures Apply(config, rows, Complete(handle, outcome, now)) == rows
    ensures Apply(config, rows, Cancel(handle, now)) == rows
  {
  }

  /**
   * A seed is a billed success of the month's first day under a synthetic id; a negative count or no month seeds
   * nothing.
   */
  lemma SeedRecords(config: Config, rows: Table, month: string, count: int, now: int, page: nat)
    ensures count < 0 || month == "" ==> Apply(config, rows, Seed(month, count, now)) == rows
    ensures SeedRow(month, page, now)
         == Row(Handle("legacy-cutover-seed-" + month, "legacy_seed", page), month, month + "-01", "legacy_cutover",
                "legacy_cutover", now, Some(now), Some(now), Success, 1, None, None)
    ensures month != "" ==> Apply(config, rows, Seed(month, 0, now)) == rows
    ensures month != "" ==>
      var before := Apply(config, rows, Seed(month, page, now));
      Apply(config, rows, Seed(month, page + 1, now))
      == if exists i :: 0 <= i < |before| && before[i].handle == SeedHandle(month, page) then before
         else before + [SeedRow(month, page, now)]
  {
  }

  /**
   * A version-4 identifier is thirty-two lower-case hexadecimal digits with its version and variant in their places.
   */
  lemma UuidsCarryTheirMarks(id: string)
    ensures CanonicalUuid4(id) <==>
      && |id| == 32 && id[12] == '4' && (id[16] == '8' || id[16] == '9' || id[16] == 'a' || id[16] == 'b')
      && forall i :: 0 <= i < 32 ==> '0' <= id[i] <= '9' || 'a' <= id[i] <= 'f'
  {
    if |id| == 32 {
      forall i | 0 <= i < 32 ensures id[i] in HEX_DIGITS <==> '0' <= id[i] <= '9' || 'a' <= id[i] <= 'f' {
      }
    }
  }
}
