/** What every run of ledger transactions keeps, whatever the interleaving. */
module LedgerRuns {
  import opened Wrappers
  import opened UsageLedger

  // ----- Lifecycle -----

  predicate AwaitingDispatch(row: Row) {
    Undispatched(row) && row.completedAt.None? && row.billable == 1 && row.responseClass.None? && row.errorKind.None?
  }

  predicate AwaitingOutcome(row: Row) {
    InFlight(row) && row.billable == 1 && row.responseClass.None? && row.errorKind.None?
  }

  predicate Failed(row: Row) {
    row.status == Consumed && row.dispatchedAt.Some? && row.completedAt.Some? && row.billable == 1
    && row.errorKind.Some?
  }

  predicate Succeeded(row: Row) {
    row.status == Success && row.dispatchedAt.Some? && row.completedAt.Some? && row.billable == 1 && row.errorKind.None?
  }

  predicate Refunded(row: Row) {
    row.status == Cancelled && row.dispatchedAt.None? && row.completedAt.Some? && row.billable == 0
    && row.responseClass.None? && row.errorKind.None?
  }

  predicate Open(row: Row) {
    AwaitingDispatch(row) || AwaitingOutcome(row)
  }

  predicate Settled(row: Row) {
    Failed(row) || Succeeded(row) || Refunded(row)
  }

  predicate IsSeed(row: Row) {
    row.handle.endpoint == "legacy_seed"
  }

  /** A row's dates are consistent, and only seeds use the seed endpoint. */
  predicate Dated(row: Row) {
    if IsSeed(row) then
      row == SeedRow(row.month, row.handle.page, row.reservedAt)
    else
      row.handle.endpoint in ENDPOINTS && |row.date| == 10 && row.month == row.date[..7]
  }

  predicate WellFormed(row: Row) {
    (Open(row) || Settled(row)) && Dated(row)
  }

  predicate Distinct(rows: Table) {
    forall i, j :: 0 <= i < j < |rows| ==> rows[i].handle != rows[j].handle
  }

  predicate Inv(rows: Table) {
    Distinct(rows) && forall i :: 0 <= i < |rows| ==> WellFormed(rows[i])
  }

  /** How a row may change: its identity is fixed, a dispatched row stays billed, a settled row stays as it is. */
  predicate Evolves(before: Row, after: Row) {
    && after.handle == before.handle && after.month == before.month && after.date == before.date
    && after.city == before.city && after.station == before.station && after.reservedAt == before.reservedAt
    && (before.dispatchedAt.Some? ==> after.dispatchedAt == before.dispatchedAt && after.billable == 1)
    && (Settled(before) ==> after == before)
    && after.billable <= before.billable
    && (Live(after) ==> Live(before))
  }

  predicate TableEvolves(before: Table, after: Table) {
    |before| <= |after| && forall i :: 0 <= i < |before| ==> Evolves(before[i], after[i])
  }

  lemma FindIsUnique(rows: Table, handle: Handle, i: nat)
    requires Distinct(rows) && i < |rows| && rows[i].handle == handle
    ensures Find(rows, handle) == i
  {
    assert Find(rows, handle) <= i;
  }

  lemma AppendKeepsInv(rows: Table, row: Row)
    requires Inv(rows) && WellFormed(row) && !Has(rows, row.handle)
    ensures Inv(rows + [row]) && TableEvolves(rows, rows + [row])
  {
  }

  lemma {:induction false} SeedingKeepsInv(rows: Table, month: string, count: nat, now: int)
    requires Inv(rows)
    ensures Inv(Seeded(rows, month, count, now)) && TableEvolves(rows, Seeded(rows, month, count, now))
  {
    if count > 0 {
      SeedingKeepsInv(rows, month, count - 1, now);
      var before := Seeded(rows, month, count - 1, now);
      if !Has(before, SeedHandle(month, count - 1)) {
        AppendKeepsInv(before, SeedRow(month, count - 1, now));
      }
    }
  }

  lemma ReplaceKeepsInv(rows: Table, i: nat, row: Row)
    requires Inv(rows) && i < |rows| && WellFormed(row) && Evolves(rows[i], row)
    ensures Inv(rows[i := row]) && TableEvolves(rows, rows[i := row])
  {
  }

  lemma CancelStaleKeepsInv(rows: Table, before: int, now: int)
    requires Inv(rows)
    ensures Inv(CancelAllStale(rows, before, now)) && TableEvolves(rows, CancelAllStale(rows, before, now))
  {
  }

  lemma StepKeepsInv(config: Config, rows: Table, step: Step)
    requires Inv(rows)
    ensures Inv(Apply(config, rows, step)) && TableEvolves(rows, Apply(config, rows, step))
  {
    hide Inv, TableEvolves, WellFormed, Evolves;
    TableEvolvesReflexive(rows);
    match step
    case Reserve(handle, city, station, now) =>
      if ReserveResult(config, rows, handle, city, station, now).Ok? && !Has(rows, handle) {
        NewRowWellFormed(config, handle, city, station, now);
        AppendKeepsInv(rows, NewRow(config, handle, city, station, now));
      }
    case Dispatch(handle, now) =>
      var i := Find(rows, handle);
      if i < |rows| && Undispatched(rows[i]) {
        TransitionWellFormed(rows, i, now, Outcome(true, None, None));
        ReplaceKeepsInv(rows, i, rows[i].(status := Consumed, dispatchedAt := Some(now)));
      }
    case Complete(handle, outcome, now) =>
      var i := Find(rows, handle);
      if ValidOutcome(outcome) && i < |rows| && InFlight(rows[i]) {
        TransitionWellFormed(rows, i, now, outcome);
        ReplaceKeepsInv(rows, i, Completing(rows[i], outcome, now));
      }
    case Cancel(handle, now) =>
      var i := Find(rows, handle);
      if i < |rows| && Undispatched(rows[i]) {
        TransitionWellFormed(rows, i, now, Outcome(true, None, None));
        ReplaceKeepsInv(rows, i, Cancelling(rows[i], now));
      }
    case CancelStale(before, now) => CancelStaleKeepsInv(rows, before, now);
    case Seed(month, count, now) =>
      if count >= 0 && month != "" {
        SeedingKeepsInv(rows, month, count, now);
      }
  }

  lemma TableEvolvesReflexive(rows: Table)
    requires Inv(rows)
    ensures TableEvolves(rows, rows)
  {
  }

  lemma NewRowWellFormed(config: Config, handle: Handle, city: string, station: string, now: int)
    requires ValidReservation(config, handle, city, station)
    ensures WellFormed(NewRow(config, handle, city, station, now))
  {
  }

  lemma TransitionWellFormed(rows: Table, i: nat, now: int, outcome: Outcome)
    requires Inv(rows) && i < |rows| && ValidOutcome(outcome)
    ensures Undispatched(rows[i]) ==>
      && WellFormed(rows[i].(status := Consumed, dispatchedAt := Some(now)))
      && Evolves(rows[i], rows[i].(status := Consumed, dispatchedAt := Some(now)))
      && WellFormed(Cancelling(rows[i], now)) && Evolves(rows[i], Cancelling(rows[i], now))
    ensures InFlight(rows[i]) ==>
      WellFormed(Completing(rows[i], outcome, now)) && Evolves(rows[i], Completing(rows[i], outcome, now))
  {
  }

  /** Every reachable table is well formed. */
  lemma {:induction false} RunKeepsInv(config: Config, rows: Table, steps: seq<Step>)
    requires Inv(rows)
    ensures Inv(Run(config, rows, steps)) && TableEvolves(rows, Run(config, rows, steps))
  {
    hide Inv, TableEvolves, Apply;
    if steps == [] {
      TableEvolvesReflexive(rows);
    } else {
      var middle := Run(config, rows, steps[..|steps| - 1]);
      RunKeepsInv(config, rows, steps[..|steps| - 1]);
      StepKeepsInv(config, middle, steps[|steps| - 1]);
      EvolutionComposes(rows, middle, Run(config, rows, steps));
    }
  }

  lemma EvolutionComposes(a: Table, b: Table, c: Table)
    requires TableEvolves(a, b) && TableEvolves(b, c)
    ensures TableEvolves(a, c)
  {
  }
}
