/** Budget safety, legacy seeding and the usage report, over every run of the ledger. */
module LedgerBudgets {
  import opened UsageLedger
  import opened LedgerRuns

  // ----- Counting rows -----

  /**
   * What is being counted: billed events of a day or month, all of them or only real ones; paid requests; and so on.
   */
  datatype Tally =
    | OnDate(date: string)
    | InMonth(month: string)
    | RealOnDate(date: string)
    | RealInMonth(month: string)
    | SeedsInMonth(month: string)
    | PaidOnDate(date: string)
    | OpenOnDate(date: string)
    | TerminalOnDate(date: string)
    | UsageOnDate(date: string, month: string)

  predicate Counted(tally: Tally, row: Row) {
    match tally
    case OnDate(date) => row.date == date && Live(row) && row.billable > 0
    case InMonth(month) => row.month == month && Live(row) && row.billable > 0
    case RealOnDate(date) => row.date == date && Live(row) && row.billable > 0 && !IsSeed(row)
    case RealInMonth(month) => row.month == month && Live(row) && row.billable > 0 && !IsSeed(row)
    case SeedsInMonth(month) => row.month == month && IsSeed(row)
    case PaidOnDate(date) => row.date == date && row.dispatchedAt.Some?
    case OpenOnDate(date) => row.date == date && Open(row)
    case TerminalOnDate(date) => TerminalOn(row, date)
    case UsageOnDate(date, month) => row.month == month && row.date == date && Live(row) && row.billable > 0
  }

  function Count(tally: Tally, rows: Table): nat {
    if rows == [] then 0
    else Count(tally, rows[..|rows| - 1]) + if Counted(tally, rows[|rows| - 1]) then 1 else 0
  }

  lemma {:induction false} CountAppend(tally: Tally, rows: Table, more: Table)
    ensures Count(tally, rows + more) == Count(tally, rows) + Count(tally, more)
  {
    if more == [] {
      assert rows + more == rows;
    } else {
      var k := |more| - 1;
      assert (rows + more)[..|rows + more| - 1] == rows + more[..k];
      CountAppend(tally, rows, more[..k]);
    }
  }

  lemma CountOne(tally: Tally, row: Row)
    ensures Count(tally, [row]) == if Counted(tally, row) then 1 else 0
  {
    assert [row][..0] == [];
  }

  /** Row for row, whatever `fewer` counts `more` counts too. */
  lemma {:induction false} CountAtMost(fewer: Tally, rows: Table, more: Tally, rows': Table)
    requires |rows| == |rows'|
    requires forall i :: 0 <= i < |rows| && Counted(fewer, rows[i]) ==> Counted(more, rows'[i])
    ensures Count(fewer, rows) <= Count(more, rows')
  {
    if rows != [] {
      var k := |rows| - 1;
      CountAtMost(fewer, rows[..k], more, rows'[..k]);
    }
  }

  /** On well-formed rows the source's sums are these counts. */
  lemma {:induction false} SumsAreCounts(rows: Table, text: string)
    requires forall i :: 0 <= i < |rows| ==> rows[i].billable <= 1
    ensures BillableOn(rows, text) == Count(OnDate(text), rows)
    ensures BillableIn(rows, text) == Count(InMonth(text), rows)
  {
    if rows != [] {
      SumsAreCounts(rows[..|rows| - 1], text);
    }
  }

  lemma InvBills(rows: Table, text: string)
    requires Inv(rows)
    ensures BillableOn(rows, text) == Count(OnDate(text), rows)
    ensures BillableIn(rows, text) == Count(InMonth(text), rows)
  {
    SumsAreCounts(rows, text);
  }

  // ----- Only an admitted reservation raises a billed count -----

  predicate Billing(tally: Tally) {
    tally.OnDate? || tally.InMonth? || tally.RealOnDate? || tally.RealInMonth?
  }

  predicate Admits(config: Config, rows: Table, step: Step) {
    step.Reserve? && ReserveResult(config, rows, step.handle, step.city, step.station, step.now).Ok?
    && !Has(rows, step.handle)
  }

  lemma EvolvedPrefixCountsNoMore(tally: Tally, rows: Table, rows': Table)
    requires Billing(tally) && |rows| == |rows'| && TableEvolves(rows, rows')
    ensures Count(tally, rows') <= Count(tally, rows)
  {
    forall i | 0 <= i < |rows'| && Counted(tally, rows'[i]) ensures Counted(tally, rows[i]) {
      assert Evolves(rows[i], rows'[i]);
    }
    CountAtMost(tally, rows', tally, rows);
  }

  /** Reserving adds one row and charges one event; every other step but seeding charges nothing. */
  lemma StepCharges(config: Config, rows: Table, step: Step, tally: Tally)
    requires Inv(rows) && Billing(tally) && !step.Seed?
    ensures !Admits(config, rows, step) ==> Count(tally, Apply(config, rows, step)) <= Count(tally, rows)
    ensures Admits(config, rows, step) ==>
      var row := NewRow(config, step.handle, step.city, step.station, step.now);
      Count(tally, Apply(config, rows, step)) == Count(tally, rows) + if Counted(tally, row) then 1 else 0
  {
    hide Inv, TableEvolves, Counted;
    StepKeepsInv(config, rows, step);
    if Admits(config, rows, step) {
      var row := NewRow(config, step.handle, step.city, step.station, step.now);
      CountAppend(tally, rows, [row]);
      CountOne(tally, row);
    } else {
      EvolvedPrefixCountsNoMore(tally, rows, Apply(config, rows, step));
    }
  }

  lemma AdmittedBelowCaps(config: Config, rows: Table, step: Step)
    requires Admits(config, rows, step)
    ensures var date := config.pacificDate(step.now);
            && BillableOn(rows, date) < config.limits.daily
            && BillableIn(rows, MonthOf(date)) < config.limits.monthly
            && BillableIn(rows, MonthOf(date)) < config.limits.softMonthly
            && (config.limits.breaker > 0 ==> TrailingRun(rows, date) < config.limits.breaker)
  {
  }

  /** The cap a billed count must respect. */
  function Cap(limits: Limits, tally: Tally): nat {
    if tally.OnDate? || tally.RealOnDate? then limits.daily else Min(limits.monthly, limits.softMonthly)
  }

  predicate Unseeded(steps: seq<Step>) {
    forall i :: 0 <= i < |steps| ==> !steps[i].Seed?
  }

  lemma {:induction false} RealIsBilled(rows: Table, tally: Tally, all: Tally)
    requires Billing(tally) && (tally == all || (tally.RealOnDate? && all == OnDate(tally.date))
                                || (tally.RealInMonth? && all == InMonth(tally.month)))
    ensures Count(tally, rows) <= Count(all, rows)
  {
    CountAtMost(tally, rows, all, rows);
  }

  lemma AdmissionRespectsCap(config: Config, rows: Table, step: Step, tally: Tally)
    requires Inv(rows) && Admits(config, rows, step) && Billing(tally)
    requires Counted(tally, NewRow(config, step.handle, step.city, step.station, step.now))
    ensures Count(tally, rows) < Cap(config.limits, tally)
  {
    hide Inv, Apply;
    AdmittedBelowCaps(config, rows, step);
    var date := config.pacificDate(step.now);
    InvBills(rows, date);
    InvBills(rows, MonthOf(date));
    var all := if tally.OnDate? || tally.RealOnDate? then OnDate(date) else InMonth(MonthOf(date));
    RealIsBilled(rows, tally, all);
  }

  /**
   * Budget safety. After any unseeded run from the empty ledger, billed events stay within the daily cap on every
   * date and within the smaller of the monthly cap and the soft ceiling in every month.
   */
  lemma {:induction false} BudgetsHold(config: Config, steps: seq<Step>, tally: Tally)
    requires Billing(tally) && Unseeded(steps)
    ensures Count(tally, Run(config, [], steps)) <= Cap(config.limits, tally)
  {
    hide Counted, Cap, Apply;
    if steps != [] {
      var k := |steps| - 1;
      var rows := Run(config, [], steps[..k]);
      BudgetsHold(config, steps[..k], tally);
      RunKeepsInv(config, [], steps[..k]);
      StepCharges(config, rows, steps[k], tally);
      if Admits(config, rows, steps[k]) {
        var row := NewRow(config, steps[k].handle, steps[k].city, steps[k].station, steps[k].now);
        if Counted(tally, row) {
          AdmissionRespectsCap(config, rows, steps[k], tally);
        }
      }
    }
  }

  /** In the source's own sums. */
  lemma BilledEventsWithinCaps(config: Config, steps: seq<Step>, date: string, month: string)
    requires Unseeded(steps)
    ensures BillableOn(Run(config, [], steps), date) <= config.limits.daily
    ensures BillableIn(Run(config, [], steps), month) <= Min(config.limits.monthly, config.limits.softMonthly)
  {
    RunKeepsInv(config, [], steps);
    InvBills(Run(config, [], steps), date);
    InvBills(Run(config, [], steps), month);
    BudgetsHold(config, steps, OnDate(date));
    BudgetsHold(config, steps, InMonth(month));
  }

  // ----- Legacy seeding -----

  lemma {:induction false} SeededAppends(rows: Table, month: string, count: nat, now: int)
    ensures var after := Seeded(rows, month, count, now);
            && |rows| <= |after| && after[..|rows|] == rows
            && forall i :: |rows| <= i < |after| ==> after[i] == SeedRow(month, after[i].handle.page, now)
  {
    if count > 0 {
      SeededAppends(rows, month, count - 1, now);
    }
  }

  /** Seeding adds no real row. */
  lemma SeedingAddsNothingReal(rows: Table, month: string, count: nat, now: int, tally: Tally)
    requires tally.RealOnDate? || tally.RealInMonth?
    ensures Count(tally, Seeded(rows, month, count, now)) == Count(tally, rows)
  {
    var after := Seeded(rows, month, count, now);
    SeededAppends(rows, month, count, now);
    assert after == rows + after[|rows|..];
    CountAppend(tally, rows, after[|rows|..]);
    CountNone(tally, after[|rows|..]);
  }

  lemma {:induction false} CountNone(tally: Tally, rows: Table)
    requires forall i :: 0 <= i < |rows| ==> !Counted(tally, rows[i])
    ensures Count(tally, rows) == 0
  {
    if rows != [] {
      CountNone(tally, rows[..|rows| - 1]);
    }
  }

  /** With seeding in the run, real events still respect every cap. */
  lemma {:induction false} RealEventsWithinCaps(config: Config, steps: seq<Step>, tally: Tally)
    requires tally.RealOnDate? || tally.RealInMonth?
    ensures Count(tally, Run(config, [], steps)) <= Cap(config.limits, tally)
  {
    hide Counted, Cap, Apply, Seeded;
    if steps != [] {
      var k := |steps| - 1;
      var rows, step := Run(config, [], steps[..k]), steps[k];
      RealEventsWithinCaps(config, steps[..k], tally);
      RunKeepsInv(config, [], steps[..k]);
      if step.Seed? {
        SeedStepAddsNothingReal(config, rows, step, tally);
      } else {
        StepCharges(config, rows, step, tally);
        if Admits(config, rows, step) {
          if Counted(tally, NewRow(config, step.handle, step.city, step.station, step.now)) {
            AdmissionRespectsCap(config, rows, step, tally);
          }
        }
      }
    }
  }

  lemma SeedStepAddsNothingReal(config: Config, rows: Table, step: Step, tally: Tally)
    requires step.Seed? && (tally.RealOnDate? || tally.RealInMonth?)
    ensures Count(tally, Apply(config, rows, step)) == Count(tally, rows)
  {
    if step.count >= 0 && step.month != "" {
      SeedingAddsNothingReal(rows, step.month, step.count, step.now, tally);
    }
  }

  /** The largest count any seed of this month asked for. */
  function MaxSeed(steps: seq<Step>, month: string): nat {
    if steps == [] then 0
    else
      var before, last := MaxSeed(steps[..|steps| - 1], month), steps[|steps| - 1];
      if last.Seed? && last.month == month && month != "" && last.count > before then last.count else before
  }

  /** The month's seeds are exactly pages 0 to k-1. */
  ghost predicate SeedsAre(rows: Table, month: string, k: nat) {
    Count(SeedsInMonth(month), rows) == k && forall page :: Has(rows, SeedHandle(month, page)) <==> 0 <= page < k
  }

  lemma SeedHandlesDiffer(month: string, page: int, month': string, page': int)
    requires SeedHandle(month, page) == SeedHandle(month', page')
    ensures month == month' && page == page'
  {
    var prefix := "legacy-cutover-seed-";
    assert (prefix + month)[|prefix|..] == month && (prefix + month')[|prefix|..] == month';
  }

  lemma HasAppend(rows: Table, row: Row, handle: Handle)
    ensures Has(rows + [row], handle) <==> Has(rows, handle) || row.handle == handle
  {
    if Has(rows, handle) {
      assert (rows + [row])[Find(rows, handle)].handle == handle;
    }
    if row.handle == handle {
      assert (rows + [row])[|rows|].handle == handle;
    }
  }

  lemma OneMoreSeed(rows: Table, month: string, page: nat, now: int, other: string, k: nat)
    requires SeedsAre(rows, other, k) && (other == month ==> k == page)
    ensures SeedsAre(rows + [SeedRow(month, page, now)], other, if other == month then k + 1 else k)
  {
    var row := SeedRow(month, page, now);
    CountAppend(SeedsInMonth(other), rows, [row]);
    CountOne(SeedsInMonth(other), row);
    var k' := if other == month then k + 1 else k;
    forall p ensures Has(rows + [row], SeedHandle(other, p)) <==> 0 <= p < k' {
      HasAppend(rows, row, SeedHandle(other, p));
      if SeedHandle(other, p) == row.handle {
        SeedHandlesDiffer(other, p, month, page);
      }
    }
  }

  /** Insert-or-ignore of the next page: it is there exactly when the seeds already reach past it. */
  lemma NextSeed(before: Table, month: string, page: nat, now: int, other: string, k: nat)
    requires SeedsAre(before, other, k) && (other == month ==> page <= k)
    ensures var after := if Has(before, SeedHandle(month, page)) then before else before + [SeedRow(month, page, now)];
            SeedsAre(after, other, if other == month && page + 1 > k then page + 1 else k)
  {
    hide Count;
    if Has(before, SeedHandle(month, page)) {
      assert other == month ==> Has(before, SeedHandle(other, page));
    } else {
      assert other == month ==> !Has(before, SeedHandle(other, page));
      OneMoreSeed(before, month, page, now, other, k);
    }
  }

  lemma {:induction false} SeedingReachesCount(rows: Table, month: string, count: nat, now: int, other: string, k: nat)
    requires SeedsAre(rows, other, k)
    ensures SeedsAre(Seeded(rows, month, count, now), other, if other == month && count > k then count else k)
  {
    hide SeedsAre;
    if count > 0 {
      SeedingReachesCount(rows, month, count - 1, now, other, k);
      var k' := if other == month && count - 1 > k then count - 1 else k;
      NextSeed(Seeded(rows, month, count - 1, now), month, count - 1, now, other, k');
    }
  }

  lemma HasKept(rows: Table, rows': Table, handle: Handle)
    requires |rows| == |rows'| && forall i :: 0 <= i < |rows| ==> rows'[i].handle == rows[i].handle
    ensures Has(rows', handle) <==> Has(rows, handle)
  {
    if Has(rows, handle) {
      assert rows'[Find(rows, handle)].handle == handle;
    }
    if Has(rows', handle) {
      assert rows[Find(rows', handle)].handle == handle;
    }
  }

  lemma OtherStepsKeepSeeds(config: Config, rows: Table, step: Step, month: string, k: nat)
    requires Inv(rows) && !step.Seed? && SeedsAre(rows, month, k)
    ensures SeedsAre(Apply(config, rows, step), month, k)
  {
    hide Apply, Inv;
    var after := Apply(config, rows, step);
    StepKeepsInv(config, rows, step);
    if Admits(config, rows, step) {
      var row := NewRow(config, step.handle, step.city, step.station, step.now);
      AdmittedAppends(config, rows, step, row);
      CountAppend(SeedsInMonth(month), rows, [row]);
      CountOne(SeedsInMonth(month), row);
      forall page ensures Has(after, SeedHandle(month, page)) <==> 0 <= page < k {
        HasAppend(rows, row, SeedHandle(month, page));
      }
    } else {
      UnadmittedKeepsLength(config, rows, step);
      CountAtMost(SeedsInMonth(month), rows, SeedsInMonth(month), after);
      CountAtMost(SeedsInMonth(month), after, SeedsInMonth(month), rows);
      forall page ensures Has(after, SeedHandle(month, page)) <==> 0 <= page < k {
        HasKept(rows, after, SeedHandle(month, page));
      }
    }
  }

  lemma AdmittedAppends(config: Config, rows: Table, step: Step, row: Row)
    requires Admits(config, rows, step) && row == NewRow(config, step.handle, step.city, step.station, step.now)
    ensures Apply(config, rows, step) == rows + [row] && !IsSeed(row)
  {
  }

  lemma UnadmittedKeepsLength(config: Config, rows: Table, step: Step)
    requires !Admits(config, rows, step) && !step.Seed?
    ensures |Apply(config, rows, step)| == |rows|
  {
  }

  /** Repeated seeds leave exactly the largest requested count, numbered from zero, however they interleave. */
  lemma {:induction false} SeedsLeaveTheMaximum(config: Config, steps: seq<Step>, month: string)
    ensures SeedsAre(Run(config, [], steps), month, MaxSeed(steps, month))
  {
    hide SeedsAre, Seeded;
    if steps == [] {
      NoSeeds(month);
    } else {
      var k := |steps| - 1;
      var rows, step := Run(config, [], steps[..k]), steps[k];
      SeedsLeaveTheMaximum(config, steps[..k], month);
      RunKeepsInv(config, [], steps[..k]);
      if step.Seed? {
        if step.count >= 0 && step.month != "" {
          SeedingReachesCount(rows, step.month, step.count, step.now, month, MaxSeed(steps[..k], month));
        }
      } else {
        OtherStepsKeepSeeds(config, rows, step, month, MaxSeed(steps[..k], month));
      }
    }
  }

  lemma NoSeeds(month: string)
    ensures SeedsAre([], month, 0)
  {
  }

  /** A month's billed total is its real events plus its seeds. */
  lemma {:induction false} MonthSplits(rows: Table, month: string)
    requires forall i :: 0 <= i < |rows| ==> WellFormed(rows[i])
    ensures Count(InMonth(month), rows) == Count(RealInMonth(month), rows) + Count(SeedsInMonth(month), rows)
  {
    if rows != [] {
      MonthSplits(rows[..|rows| - 1], month);
    }
  }

  // ----- Paid requests and the usage report -----

  /** A dispatched row is always billed, so paid requests never exceed the daily cap. */
  lemma PaidRequestsWithinCap(config: Config, steps: seq<Step>, date: string)
    requires Unseeded(steps)
    ensures Count(PaidOnDate(date), Run(config, [], steps)) <= config.limits.daily
  {
    var rows := Run(config, [], steps);
    RunKeepsInv(config, [], steps);
    BudgetsHold(config, steps, OnDate(date));
    CountAtMost(PaidOnDate(date), rows, OnDate(date), rows);
  }

  /** `usage` restricts the day to its own month; that never loses a row, seeded or not. */
  lemma UsageAgreesWithReserve(config: Config, steps: seq<Step>, date: DateText)
    ensures Count(UsageOnDate(date, MonthOf(date)), Run(config, [], steps)) == BillableOn(Run(config, [], steps), date)
  {
    var rows := Run(config, [], steps);
    RunKeepsInv(config, [], steps);
    InvBills(rows, date);
    forall i | 0 <= i < |rows| && Counted(OnDate(date), rows[i])
      ensures Counted(UsageOnDate(date, MonthOf(date)), rows[i]) {
      assert WellFormed(rows[i]);
      if IsSeed(rows[i]) {
        assert date == rows[i].month + "-01";
      }
    }
    CountAtMost(OnDate(date), rows, UsageOnDate(date, MonthOf(date)), rows);
    CountAtMost(UsageOnDate(date, MonthOf(date)), rows, OnDate(date), rows);
  }
}
