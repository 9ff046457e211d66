/** The ledger object: each method is one transaction on the table, proved to be exactly one step of the pure model. */
module LedgerStore {
  import opened Wrappers
  import opened UsageLedger
  import opened LedgerRuns
  import opened LedgerBudgets
  import opened LedgerBreaker

  /** A row's date fixes its month, on real rows and on seeds alike. */
  lemma DateFixesMonth(rows: Table, i: nat, date: DateText)
    requires Inv(rows) && i < |rows| && rows[i].date == date
    ensures rows[i].month == MonthOf(date)
  {
    assert WellFormed(rows[i]);
    if IsSeed(rows[i]) {
      assert (rows[i].month + "-01")[..7] == rows[i].month;
    }
  }

  function StaleCount(rows: Table, before: int): nat {
    if rows == [] then 0
    else
      var last := rows[|rows| - 1];
      StaleCount(rows[..|rows| - 1], before) + if Undispatched(last) && last.reservedAt < before then 1 else 0
  }

  class GoogleUsageLedger {
    const config: Config
    var rows: Table

    ghost predicate Valid()
      reads this
    {
      Inv(rows)
    }

    constructor (config: Config)
      ensures this.config == config && rows == [] && Valid()
    {
      this.config := config;
      rows := [];
      new;
      EmptyIsInv();
    }

    /** Any other processes' transactions, in any order. */
    method Interfere(steps: seq<Step>)
      requires Valid()
      modifies this
      ensures Valid() && rows == Run(config, old(rows), steps)
    {
      RunKeepsInv(config, rows, steps);
      rows := Run(config, rows, steps);
    }

    method ConsecutiveClientErrors(date: string, limit: nat) returns (run: nat)
      ensures run == Min(limit, |RunMembers(rows, date)|)
    {
      LimitedRunIsCappedRun(rows, date, limit);
      var ids := NewestFirst(rows, date, |rows|);
      var listed := ids[..Min(limit, |ids|)];
      run := 0;
      while run < |listed|
        invariant run <= |listed|
        invariant LeadingErrors(rows, listed) == run + LeadingErrors(rows, listed[run..])
      {
        if !ClientError(rows[listed[run]]) {
          break;
        }
        assert listed[run..][1..] == listed[run + 1..];
        run := run + 1;
      }
    }

    /** The public read: the breaker's limit, or the daily budget when the breaker is off. */
    method PublicConsecutiveClientErrors(now: int) returns (run: nat)
      ensures run == Min(if config.limits.breaker == 0 then config.limits.daily else config.limits.breaker,
                         |RunMembers(rows, config.pacificDate(now))|)
      ensures config.limits.breaker > 0 ==>
        (run >= config.limits.breaker <==> TrailingRun(rows, config.pacificDate(now)) >= config.limits.breaker)
    {
      TrailingRunCountsMembers(rows, config.pacificDate(now));
      run := ConsecutiveClientErrors(config.pacificDate(now),
                                     if config.limits.breaker == 0 then config.limits.daily else config.limits.breaker);
    }

    method ReserveEvent(handle: Handle, city: string, station: string, now: int) returns (result: Result<Handle, Error>)
      requires Valid()
      modifies this
      ensures Valid() && rows == Apply(config, old(rows), Reserve(handle, city, station, now))
      ensures result == ReserveResult(config, old(rows), handle, city, station, now)
      ensures result.Err? ==> rows == old(rows)
      ensures result.Ok? && !Has(old(rows), handle) ==>
        && |rows| == |old(rows)| + 1 && rows[..|rows| - 1] == old(rows)
        && rows[|rows| - 1].handle == handle && rows[|rows| - 1].reservedAt == now && AwaitingDispatch(rows[|rows| - 1])
    {
      StepKeepsInv(config, rows, Reserve(handle, city, station, now));
      if !ValidReservation(config, handle, city, station) {
        return Err(InvalidArgument);
      }
      var i := Find(rows, handle);
      if i < |rows| {
        if rows[i].city == city && rows[i].station == station {
          return Ok(handle);
        }
        return Err(LifecycleConflict);
      }
      var limits, date := config.limits, config.pacificDate(now);
      var daily, monthly := BillableOn(rows, date), BillableIn(rows, MonthOf(date));
      if daily >= limits.daily {
        return Err(DailyBudget);
      }
      if monthly >= limits.monthly {
        return Err(MonthlyBudget);
      }
      if monthly >= limits.softMonthly {
        return Err(SoftMonthlyBudget);
      }
      if limits.breaker > 0 {
        var consecutive := ConsecutiveClientErrors(date, limits.breaker);
        TrailingRunCountsMembers(rows, date);
        if consecutive >= limits.breaker {
          return Err(BreakerOpen(consecutive));
        }
      }
      rows := rows + [NewRow(config, handle, city, station, now)];
      result := Ok(handle);
    }

    method MarkDispatched(handle: Handle, now: int) returns (result: Result<Row, Error>)
      requires Valid()
      modifies this
      ensures Valid() && rows == Apply(config, old(rows), Dispatch(handle, now))
      ensures result.Ok? <==> Has(old(rows), handle) && Undispatched(old(rows)[Find(old(rows), handle)])
      ensures result.Ok? ==> result.value in rows && result.value.handle == handle
                             && AwaitingOutcome(result.value) && result.value.dispatchedAt == Some(now)
      ensures result.Err? ==> rows == old(rows)
                              && result.error == (if Has(rows, handle) then LifecycleConflict else UnknownEvent)
    {
      StepKeepsInv(config, rows, Dispatch(handle, now));
      var i := Find(rows, handle);
      if i == |rows| {
        return Err(UnknownEvent);
      }
      if !Undispatched(rows[i]) {
        return Err(LifecycleConflict);
      }
      assert WellFormed(rows[i]);
      rows := rows[i := rows[i].(status := Consumed, dispatchedAt := Some(now))];
      result := Ok(rows[i]);
    }

    method CompleteEvent(handle: Handle, outcome: Outcome, now: int) returns (result: Result<Row, Error>)
      requires Valid()
      modifies this
      ensures Valid() && rows == Apply(config, old(rows), Complete(handle, outcome, now))
      ensures !ValidOutcome(outcome) ==> result == Err(InvalidArgument)
      ensures ValidOutcome(outcome) ==> (result == Err(UnknownEvent) <==> !Has(old(rows), handle))
      ensures result.Err? ==> rows == old(rows)
      ensures result.Ok? ==>
        result.value in rows && result.value.handle == handle && AlreadyCompleted(result.value, outcome)
      ensures ValidOutcome(outcome) && Has(old(rows), handle) ==>
        var before := old(rows)[Find(old(rows), handle)];
        && (result.Ok? <==> InFlight(before) || AlreadyCompleted(before, outcome))
        && (AlreadyCompleted(before, outcome) ==> rows == old(rows))
    {
      StepKeepsInv(config, rows, Complete(handle, outcome, now));
      if !ValidOutcome(outcome) {
        return Err(InvalidArgument);
      }
      var i := Find(rows, handle);
      if i == |rows| {
        return Err(UnknownEvent);
      }
      if InFlight(rows[i]) {
        rows := rows[i := Completing(rows[i], outcome, now)];
      } else if !AlreadyCompleted(rows[i], outcome) {
        return Err(LifecycleConflict);
      }
      result := Ok(rows[i]);
    }

    method CancelBeforeDispatch(handle: Handle, now: int) returns (cancelled: bool)
      requires Valid()
      modifies this
      ensures Valid() && rows == Apply(config, old(rows), Cancel(handle, now))
      ensures cancelled <==> Has(old(rows), handle) && Undispatched(old(rows)[Find(old(rows), handle)])
      ensures !cancelled ==> rows == old(rows)
    {
      StepKeepsInv(config, rows, Cancel(handle, now));
      var i := Find(rows, handle);
      cancelled := i < |rows| && Undispatched(rows[i]);
      if cancelled {
        rows := rows[i := Cancelling(rows[i], now)];
      }
    }

    method CancelStaleUndispatched(before: int, now: int) returns (count: nat)
      requires Valid()
      modifies this
      ensures Valid() && rows == Apply(config, old(rows), CancelStale(before, now))
      ensures count == StaleCount(old(rows), before)
    {
      hide Inv, TableEvolves, Undispatched, Cancelling, Run;
      StepKeepsInv(config, rows, CancelStale(before, now));
      ghost var was, target := rows, CancelAllStale(rows, before, now);
      count := 0;
      var i := 0;
      while i < |rows|
        invariant 0 <= i <= |rows| == |was|
        invariant count == StaleCount(was[..i], before)
        invariant forall j :: 0 <= j < i ==> rows[j] == target[j]
        invariant forall j :: i <= j < |rows| ==> rows[j] == was[j]
      {
        assert was[..i + 1][..i] == was[..i];
        if Undispatched(rows[i]) && rows[i].reservedAt < before {
          rows := rows[i := Cancelling(rows[i], now)];
          count := count + 1;
        }
        i := i + 1;
      }
      assert was[..i] == was;
      assert rows == target;
    }

    method SeedLegacyMonthCarryover(month: string, count: int, now: int) returns (result: Result<nat, Error>)
      requires Valid()
      modifies this
      ensures Valid() && rows == Apply(config, old(rows), Seed(month, count, now))
      ensures result.Ok? <==> count >= 0 && month != ""
      ensures result.Ok? ==> result.value == |rows| - |old(rows)| && rows[..|old(rows)|] == old(rows)
    {
      hide Inv, TableEvolves, SeedRow, Find;
      StepKeepsInv(config, rows, Seed(month, count, now));
      if count < 0 || month == "" {
        return Err(InvalidArgument);
      }
      var inserted, page := 0, 0;
      while page < count
        invariant 0 <= page <= count
        invariant rows == Seeded(old(rows), month, page, now)
        invariant inserted == |rows| - |old(rows)|
      {
        if !Has(rows, SeedHandle(month, page)) {
          rows := rows + [SeedRow(month, page, now)];
          inserted := inserted + 1;
        }
        page := page + 1;
      }
      SeededAppends(old(rows), month, count, now);
      result := Ok(inserted);
    }

    /** One pass over the month's live rows gives the very counts a reservation is judged by. */
    method Usage(now: int) returns (daily: nat, monthly: nat)
      requires Valid()
      ensures daily == BillableOn(rows, config.pacificDate(now))
      ensures monthly == BillableIn(rows, MonthOf(config.pacificDate(now)))
    {
      var date := config.pacificDate(now);
      var month := MonthOf(date);
      daily, monthly := 0, 0;
      var i := 0;
      while i < |rows|
        invariant 0 <= i <= |rows|
        invariant daily == BillableOn(rows[..i], date) && monthly == BillableIn(rows[..i], month)
      {
        assert rows[..i + 1][..i] == rows[..i];
        if rows[i].month == month && Live(rows[i]) {
          monthly := monthly + rows[i].billable;
          if rows[i].date == date {
            daily := daily + rows[i].billable;
          }
        }
        if rows[i].date == date {
          DateFixesMonth(rows, i, date);
        }
        i := i + 1;
      }
      assert rows[..i] == rows;
    }
  }
}
