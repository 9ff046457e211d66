/**
 * The paid-event ledger (forecaster/google_weather_store.py, GoogleUsageLedger): billing rows move through
 * reserve, dispatch, complete and cancel transactions under daily, monthly and soft caps and a breaker on
 * consecutive client errors.
 *
 * Each class method is one atomic transaction. Its effect is a pure step on the table, so a run of steps in any
 * order is any interleaving of any number of processes. Timestamps are ISO texts of fixed width in the source and
 * integers here; billing dates and months stay texts, because the seed builds a date by appending to a month.
 */
module UsageLedger {
  import opened Wrappers

  datatype Status = Reserved | Consumed | Success | Cancelled

  datatype ErrorKind = Timeout | Transport | Http | Parse | Unknown

  datatype Handle = Handle(reservationId: string, endpoint: string, page: int)

  /** A ten-character ISO date; its first seven characters are its month. */
  type DateText = s: string | |s| == 10 witness "2026-01-01"

  datatype Row = Row(handle: Handle, month: string, date: string, city: string, station: string,
                     reservedAt: int, dispatchedAt: Option<int>, completedAt: Option<int>,
                     status: Status, billable: nat, responseClass: Option<int>, errorKind: Option<ErrorKind>)

  /** Rows in insertion order, which is the order of their integer ids. */
  type Table = seq<Row>

  datatype Limits = Limits(daily: nat, monthly: nat, softMonthly: nat, breaker: nat)

  /** The station of every configured city, and the Pacific billing date of every instant. */
  datatype Config = Config(limits: Limits, stations: map<string, string>, pacificDate: int -> DateText)

  datatype Error =
    | InvalidArgument
    | UnknownEvent
    | LifecycleConflict
    | DailyBudget
    | MonthlyBudget
    | SoftMonthlyBudget
    | BreakerOpen(consecutive: nat)

  const ENDPOINTS := {"hourly", "daily", "current"}

  function MonthOf(date: DateText): string {
    date[..7]
  }

  // ----- Counts -----

  predicate Live(row: Row) {
    row.status != Cancelled
  }

  function BillableOn(rows: Table, date: string): nat {
    if rows == [] then 0
    else
      var last := rows[|rows| - 1];
      BillableOn(rows[..|rows| - 1], date) + if last.date == date && Live(last) then last.billable else 0
  }

  function BillableIn(rows: Table, month: string): nat {
    if rows == [] then 0
    else
      var last := rows[|rows| - 1];
      BillableIn(rows[..|rows| - 1], month) + if last.month == month && Live(last) then last.billable else 0
  }

  // ----- The breaker's query -----

  /** A row with a recorded outcome; an in-flight row shares its status but has no completion time. */
  predicate Terminal(row: Row) {
    (row.status == Consumed || row.status == Success) && row.completedAt.Some?
  }

  predicate ClientError(row: Row) {
    row.status == Consumed && row.responseClass == Some(4)
  }

  predicate TerminalOn(row: Row, date: string) {
    row.date == date && Terminal(row)
  }

  /** Every listed id is one of the first n. */
  predicate Below(ids: seq<nat>, n: nat) {
    forall j :: 0 <= j < |ids| ==> ids[j] < n
  }

  function InsertNewest(rows: Table, i: nat, newestFirst: seq<nat>): (ids: seq<nat>)
    requires i < |rows| && Below(newestFirst, i)
    ensures Below(ids, i + 1) && |ids| == |newestFirst| + 1
  {
    if newestFirst == [] || rows[newestFirst[0]].reservedAt <= rows[i].reservedAt then [i] + newestFirst
    else [newestFirst[0]] + InsertNewest(rows, i, newestFirst[1..])
  }

  /** The ids of one date's terminal rows among the first n, newest reservation first, ties by latest id first. */
  function NewestFirst(rows: Table, date: string, n: nat): (ids: seq<nat>)
    requires n <= |rows|
    ensures Below(ids, n)
  {
    if n == 0 then []
    else
      var before := NewestFirst(rows, date, n - 1);
      if TerminalOn(rows[n - 1], date) then InsertNewest(rows, n - 1, before) else before
  }

  function LeadingErrors(rows: Table, ids: seq<nat>): (n: nat)
    requires Below(ids, |rows|)
    ensures n <= |ids|
    ensures forall j :: 0 <= j < n ==> ClientError(rows[ids[j]])
    ensures n < |ids| ==> !ClientError(rows[ids[n]])
  {
    if ids == [] || !ClientError(rows[ids[0]]) then 0 else 1 + LeadingErrors(rows, ids[1..])
  }

  /** The true trailing run of client errors on a date. */
  function TrailingRun(rows: Table, date: string): nat {
    LeadingErrors(rows, NewestFirst(rows, date, |rows|))
  }

  function Min(x: nat, y: nat): nat {
    if x <= y then x else y
  }

  // ----- Steps -----

  datatype Outcome = Outcome(success: bool, responseClass: Option<int>, errorKind: Option<ErrorKind>)

  datatype Step =
    | Reserve(handle: Handle, city: string, station: string, now: int)
    | Dispatch(handle: Handle, now: int)
    | Complete(handle: Handle, outcome: Outcome, now: int)
    | Cancel(handle: Handle, now: int)
    | CancelStale(before: int, now: int)
    | Seed(month: string, count: int, now: int)

  function Find(rows: Table, handle: Handle): (i: nat)
    ensures i <= |rows|
    ensures i < |rows| ==> rows[i].handle == handle
    ensures forall j :: 0 <= j < i ==> rows[j].handle != handle
  {
    if rows == [] || rows[0].handle == handle then 0 else 1 + Find(rows[1..], handle)
  }

  predicate Has(rows: Table, handle: Handle) {
    Find(rows, handle) < |rows|
  }

  /** Thirty-two lower-case hexadecimal digits carrying the version-4 and variant marks. */
  predicate CanonicalUuid4(id: string) {
    |id| == 32 && (forall i :: 0 <= i < 32 ==> id[i] in HEX_DIGITS)
    && id[12] == '4' && id[16] in {'8', '9', 'a', 'b'}
  }

  predicate ValidReservation(config: Config, handle: Handle, city: string, station: string) {
    && city in config.stations && config.stations[city] == station
    && handle.endpoint in ENDPOINTS && handle.page >= 0 && CanonicalUuid4(handle.reservationId)
  }

  /** Why a new reservation would be refused, in the order the source checks. */
  function Refusal(config: Config, rows: Table, date: DateText): Option<Error> {
    var limits := config.limits;
    if BillableOn(rows, date) >= limits.daily then Some(DailyBudget)
    else if BillableIn(rows, MonthOf(date)) >= limits.monthly then Some(MonthlyBudget)
    else if BillableIn(rows, MonthOf(date)) >= limits.softMonthly then Some(SoftMonthlyBudget)
    else if limits.breaker > 0 && TrailingRun(rows, date) >= limits.breaker then Some(BreakerOpen(limits.breaker))
    else None
  }

  function ReserveResult(config: Config, rows: Table, handle: Handle, city: string, station: string,
          now: int): Result<Handle, Error> {
    if !ValidReservation(config, handle, city, station) then Err(InvalidArgument)
    else if Has(rows, handle) then
      var existing := rows[Find(rows, handle)];
      if existing.city == city && existing.station == station then Ok(handle) else Err(LifecycleConflict)
    else
      match Refusal(config, rows, config.pacificDate(now))
      case Some(error) => Err(error)
      case None => Ok(handle)
  }

  function NewRow(config: Config, handle: Handle, city: string, station: string, now: int): Row {
    var date := config.pacificDate(now);
    Row(handle, MonthOf(date), date, city, station, now, None, None, Reserved, 1, None, None)
  }

  predicate Undispatched(row: Row) {
    row.status == Reserved && row.dispatchedAt.None?
  }

  predicate InFlight(row: Row) {
    row.status == Consumed && row.dispatchedAt.Some? && row.completedAt.None?
  }

  function Cancelling(row: Row, now: int): Row {
    row.(status := Cancelled, billable := 0, completedAt := Some(now))
  }

  predicate ValidOutcome(outcome: Outcome) {
    && (outcome.responseClass.Some? ==> 1 <= outcome.responseClass.value <= 5)
    && (outcome.success <==> outcome.errorKind.None?)
  }

  function Completing(row: Row, outcome: Outcome, now: int): Row {
    row.(status := if outcome.success then Success else Consumed, completedAt := Some(now),
         responseClass := outcome.responseClass, errorKind := outcome.errorKind)
  }

  /** The row already carries exactly this outcome. */
  predicate AlreadyCompleted(row: Row, outcome: Outcome) {
    && row.status == (if outcome.success then Success else Consumed)
    && row.completedAt.Some? && row.responseClass == outcome.responseClass && row.errorKind == outcome.errorKind
  }

  function CancelAllStale(rows: Table, before: int, now: int): (r: Table)
    ensures |r| == |rows|
    ensures forall i :: 0 <= i < |rows| ==>
      r[i] == if Undispatched(rows[i]) && rows[i].reservedAt < before then Cancelling(rows[i], now) else rows[i]
  {
    seq(|rows|, i requires 0 <= i < |rows| =>
      if Undispatched(rows[i]) && rows[i].reservedAt < before then Cancelling(rows[i], now) else rows[i])
  }

  function SeedHandle(month: string, page: int): Handle {
    Handle("legacy-cutover-seed-" + month, "legacy_seed", page)
  }

  function SeedRow(month: string, page: int, now: int): Row {
    Row(SeedHandle(month, page), month, month + "-01", "legacy_cutover", "legacy_cutover",
        now, Some(now), Some(now), Success, 1, None, None)
  }

  /** Insert-or-ignore of the first `count` synthetic rows. */
  function Seeded(rows: Table, month: string, count: nat, now: int): Table {
    if count == 0 then rows
    else
      var before := Seeded(rows, month, count - 1, now);
      if Has(before, SeedHandle(month, count - 1)) then before else before + [SeedRow(month, count - 1, now)]
  }

  /** The effect of one transaction; a refused one leaves the table alone. */
  function Apply(config: Config, rows: Table, step: Step): Table {
    match step
    case Reserve(handle, city, station, now) =>
      if ReserveResult(config, rows, handle, city, station, now).Ok? && !Has(rows, handle)
      then rows + [NewRow(config, handle, city, station, now)] else rows
    case Dispatch(handle, now) =>
      var i := Find(rows, handle);
      if i < |rows| && Undispatched(rows[i])
      then rows[i := rows[i].(status := Consumed, dispatchedAt := Some(now))] else rows
    case Complete(handle, outcome, now) =>
      var i := Find(rows, handle);
      if ValidOutcome(outcome) && i < |rows| && InFlight(rows[i])
      then rows[i := Completing(rows[i], outcome, now)] else rows
    case Cancel(handle, now) =>
      var i := Find(rows, handle);
      if i < |rows| && Undispatched(rows[i]) then rows[i := Cancelling(rows[i], now)] else rows
    case CancelStale(before, now) => CancelAllStale(rows, before, now)
    case Seed(month, count, now) => if count < 0 || month == "" then rows else Seeded(rows, month, count, now)
  }

  function Run(config: Config, rows: Table, steps: seq<Step>): Table {
    if steps == [] then rows else Apply(config, Run(config, rows, steps[..|steps| - 1]), steps[|steps| - 1])
  }
}
