/**
 * The breaker on consecutive client errors: what its ordered query really counts, and how many events it lets a
 * failing day bill.
 */
module LedgerBreaker {
  import opened UsageLedger
  import opened LedgerRuns
  import opened LedgerBudgets

  // ----- The ordered query -----

  /** Row i comes before row j in the query's order: later reservation, ties by later id. */
  predicate Newer(rows: Table, i: nat, j: nat)
    requires i < |rows| && j < |rows|
  {
    rows[i].reservedAt > rows[j].reservedAt || (rows[i].reservedAt == rows[j].reservedAt && i > j)
  }

  predicate Ordered(rows: Table, ids: seq<nat>)
    requires Below(ids, |rows|)
  {
    forall a, b :: 0 <= a < b < |ids| ==> Newer(rows, ids[a], ids[b])
  }

  lemma {:induction false} InsertOrders(rows: Table, i: nat, ids: seq<nat>)
    requires i < |rows| && Below(ids, i) && Ordered(rows, ids)
    ensures Ordered(rows, InsertNewest(rows, i, ids))
    ensures forall k :: k in InsertNewest(rows, i, ids) <==> k == i || k in ids
  {
    if ids == [] || rows[ids[0]].reservedAt <= rows[i].reservedAt {
      if ids != [] {
        assert forall a :: 0 < a < |ids| ==> Newer(rows, ids[0], ids[a]);
      }
    } else {
      InsertOrders(rows, i, ids[1..]);
      assert ids == [ids[0]] + ids[1..];
      var rest := InsertNewest(rows, i, ids[1..]);
      forall b | 0 <= b < |rest| ensures Newer(rows, ids[0], rest[b]) {
        assert rest[b] in rest;
        if rest[b] != i {
          var a :| 0 <= a < |ids[1..]| && ids[1..][a] == rest[b];
          assert Newer(rows, ids[0], ids[a + 1]);
        }
      }
    }
  }

  /** The query lists each terminal row of the date exactly once, newest first. */
  lemma {:induction false} QueryIsOrdered(rows: Table, date: string, n: nat)
    requires n <= |rows|
    ensures Ordered(rows, NewestFirst(rows, date, n))
    ensures forall i: nat :: i in NewestFirst(rows, date, n) <==> i < n && TerminalOn(rows[i], date)
    ensures |NewestFirst(rows, date, n)| == Count(TerminalOnDate(date), rows[..n])
  {
    if n > 0 {
      QueryIsOrdered(rows, date, n - 1);
      assert rows[..n][..n - 1] == rows[..n - 1];
      if TerminalOn(rows[n - 1], date) {
        InsertOrders(rows, n - 1, NewestFirst(rows, date, n - 1));
      }
    }
  }

  // ----- The trailing run, defined without the query -----

  /** A terminal row of the date such that it and every terminal row newer than it failed with a client error. */
  ghost predicate InRun(rows: Table, date: string, i: nat)
    requires i < |rows|
  {
    && TerminalOn(rows[i], date) && ClientError(rows[i])
    && forall j: nat :: j < |rows| && TerminalOn(rows[j], date) && Newer(rows, j, i) ==> ClientError(rows[j])
  }

  ghost function RunMembers(rows: Table, date: string): set<nat> {
    set i: nat | i < |rows| && InRun(rows, date, i)
  }

  function Members(ids: seq<nat>): (members: set<nat>)
    ensures forall i :: i in members <==> i in ids
  {
    if ids == [] then {} else
      assert ids == [ids[0]] + ids[1..];
      {ids[0]} + Members(ids[1..])
  }

  lemma {:induction false} DistinctMembers(ids: seq<nat>)
    requires forall a, b :: 0 <= a < b < |ids| ==> ids[a] != ids[b]
    ensures |Members(ids)| == |ids|
  {
    if ids != [] {
      var rest := ids[1..];
      forall a, b | 0 <= a < b < |rest| ensures rest[a] != rest[b] {
        assert ids[a + 1] != ids[b + 1];
      }
      DistinctMembers(rest);
      assert ids[0] !in rest;
    }
  }

  lemma LeadingIdsAreInRun(rows: Table, date: string, a: nat)
    requires a < TrailingRun(rows, date)
    ensures InRun(rows, date, NewestFirst(rows, date, |rows|)[a])
  {
    hide NewestFirst;
    QueryIsOrdered(rows, date, |rows|);
    var ids := NewestFirst(rows, date, |rows|);
    var i := ids[a];
    assert i in ids;
    forall j: nat | j < |rows| && TerminalOn(rows[j], date) && Newer(rows, j, i) ensures ClientError(rows[j]) {
      assert j in ids;
      var b :| 0 <= b < |ids| && ids[b] == j;
      assert a < b ==> Newer(rows, i, j);
    }
  }

  lemma RunIdsLead(rows: Table, date: string, i: nat) returns (a: nat)
    requires i < |rows| && InRun(rows, date, i)
    ensures a < TrailingRun(rows, date) && NewestFirst(rows, date, |rows|)[a] == i
  {
    hide NewestFirst;
    QueryIsOrdered(rows, date, |rows|);
    var ids := NewestFirst(rows, date, |rows|);
    assert i in ids;
    a :| 0 <= a < |ids| && ids[a] == i;
    var n := TrailingRun(rows, date);
    if n < a {
      assert false;
    }
  }

  /** The unlimited query's answer is the size of that set. */
  lemma TrailingRunCountsMembers(rows: Table, date: string)
    ensures TrailingRun(rows, date) == |RunMembers(rows, date)|
  {
    hide NewestFirst, InRun;
    QueryIsOrdered(rows, date, |rows|);
    var n := TrailingRun(rows, date);
    var leading := NewestFirst(rows, date, |rows|)[..n];
    forall a, b | 0 <= a < b < n ensures leading[a] != leading[b] {
      assert Newer(rows, leading[a], leading[b]);
    }
    DistinctMembers(leading);
    forall i: nat ensures i in Members(leading) <==> i in RunMembers(rows, date) {
      if i in leading {
        var a: nat :| a < n && leading[a] == i;
        LeadingIdsAreInRun(rows, date, a);
      }
      if i in RunMembers(rows, date) {
        var a := RunIdsLead(rows, date, i);
        assert leading[a] == i;
      }
    }
    assert Members(leading) == RunMembers(rows, date);
  }

  lemma SubsetIsNoLarger(a: set<nat>, b: set<nat>)
    requires a <= b
    ensures |a| <= |b|
  {
    assert b == a + (b - a);
  }

  /** Rows that did not fail with a client error cannot lengthen the run, whatever their reservation times. */
  lemma OtherOutcomesNeverLengthenTheRun(before: Table, after: Table, date: string)
    requires |before| <= |after| && after[..|before|] == before
    requires forall i :: |before| <= i < |after| ==> !ClientError(after[i])
    ensures TrailingRun(after, date) <= TrailingRun(before, date)
  {
    assert forall i :: 0 <= i < |before| ==> after[i] == before[i];
    forall i | i in RunMembers(after, date) ensures i in RunMembers(before, date) {
      assert i < |before|;
      forall j: nat | j < |before| && TerminalOn(before[j], date) && Newer(before, j, i)
        ensures ClientError(before[j]) {
        assert Newer(after, j, i);
      }
    }
    SubsetIsNoLarger(RunMembers(after, date), RunMembers(before, date));
    TrailingRunCountsMembers(before, date);
    TrailingRunCountsMembers(after, date);
  }

  /** The run among the first `limit` rows of the query. */
  function LimitedRun(rows: Table, date: string, limit: nat): nat {
    var ids := NewestFirst(rows, date, |rows|);
    LeadingErrors(rows, ids[..Min(limit, |ids|)])
  }

  lemma {:induction false} LeadingErrorsOfPrefix(rows: Table, ids: seq<nat>, m: nat)
    requires Below(ids, |rows|) && m <= |ids|
    ensures LeadingErrors(rows, ids[..m]) == Min(m, LeadingErrors(rows, ids))
  {
    if m > 0 && ClientError(rows[ids[0]]) {
      assert ids[..m][1..] == ids[1..][..m - 1];
      LeadingErrorsOfPrefix(rows, ids[1..], m - 1);
    }
  }

  /** Limiting the query costs nothing: it answers the smaller of the limit and the true run. */
  lemma LimitedRunIsCappedRun(rows: Table, date: string, limit: nat)
    ensures LimitedRun(rows, date, limit) == Min(limit, |RunMembers(rows, date)|)
  {
    TrailingRunCountsMembers(rows, date);
    var ids := NewestFirst(rows, date, |rows|);
    LeadingErrorsOfPrefix(rows, ids, Min(limit, |ids|));
  }

  // ----- How many events a failing day bills -----

  predicate AllFailing(rows: Table, date: string) {
    forall i :: 0 <= i < |rows| && TerminalOn(rows[i], date) ==> ClientError(rows[i])
  }

  lemma {:induction false} FailingDayRun(rows: Table, date: string)
    requires AllFailing(rows, date)
    ensures TrailingRun(rows, date) == Count(TerminalOnDate(date), rows)
  {
    QueryIsOrdered(rows, date, |rows|);
    assert rows[..|rows|] == rows;
  }

  /** A billed event is either open or terminal. */
  lemma {:induction false} BilledSplits(rows: Table, date: string)
    requires forall i :: 0 <= i < |rows| ==> WellFormed(rows[i])
    ensures Count(OnDate(date), rows) == Count(OpenOnDate(date), rows) + Count(TerminalOnDate(date), rows)
  {
    if rows != [] {
      BilledSplits(rows[..|rows| - 1], date);
    }
  }

  /** At every moment of the run, at most k of the date's events are open and every outcome so far is a client error. */
  ghost predicate FailingThroughout(config: Config, steps: seq<Step>, date: string, k: nat) {
    forall n: nat :: n <= |steps| ==> FailingState(Run(config, [], steps[..n]), date, k)
  }

  predicate FailingState(rows: Table, date: string, k: nat) {
    Count(OpenOnDate(date), rows) <= k && AllFailing(rows, date)
  }

  lemma FailingPrefix(config: Config, steps: seq<Step>, date: string, k: nat)
    requires FailingThroughout(config, steps, date, k) && steps != []
    ensures FailingThroughout(config, steps[..|steps| - 1], date, k)
    ensures FailingState(Run(config, [], steps[..|steps| - 1]), date, k)
    ensures FailingState(Run(config, [], steps), date, k)
  {
    hide FailingState, Run;
    var before := steps[..|steps| - 1];
    assert steps[..|steps|] == steps;
    forall n: nat | n <= |before| ensures FailingState(Run(config, [], before[..n]), date, k) {
      assert before[..n] == steps[..n];
    }
  }

  /** A seed of a failing day would be a success on it, so no seed changes that day's count. */
  lemma SeedAvoidsFailingDay(config: Config, rows: Table, step: Step, date: string, k: nat)
    requires step.Seed? && FailingState(Apply(config, rows, step), date, k)
    ensures Count(OnDate(date), Apply(config, rows, step)) == Count(OnDate(date), rows)
  {
    if step.count >= 0 && step.month != "" {
      var after := Seeded(rows, step.month, step.count, step.now);
      SeededAppends(rows, step.month, step.count, step.now);
      var more := after[|rows|..];
      assert after == rows + more;
      CountAppend(OnDate(date), rows, more);
      forall i | 0 <= i < |more| ensures !Counted(OnDate(date), more[i]) {
        assert more[i] == after[|rows| + i];
      }
      CountNone(OnDate(date), more);
    }
  }

  /** The moment of admission: fewer than `breaker` outcomes, and at most k open events once admitted. */
  lemma AdmissionOnFailingDay(config: Config, rows: Table, step: Step, date: string, k: nat)
    requires Inv(rows) && Admits(config, rows, step) && config.limits.breaker > 0
    requires config.pacificDate(step.now) == date
    requires FailingState(rows, date, k) && FailingState(Apply(config, rows, step), date, k)
    ensures Count(OnDate(date), Apply(config, rows, step)) <= config.limits.breaker + k - 1
  {
    hide Inv, Apply, Counted, WellFormed;
    var row := NewRow(config, step.handle, step.city, step.station, step.now);
    var after := Apply(config, rows, step);
    AdmittedAppends(config, rows, step, row);
    AdmittedBelowCaps(config, rows, step);
    FailingDayRun(rows, date);
    StepKeepsInv(config, rows, step);
    InvIsWellFormed(after);
    BilledSplits(after, date);
    CountAppend(TerminalOnDate(date), rows, [row]);
    CountOne(TerminalOnDate(date), row);
    NewRowIsOpen(config, step, row, date);
  }

  lemma InvIsWellFormed(rows: Table)
    requires Inv(rows)
    ensures forall i :: 0 <= i < |rows| ==> WellFormed(rows[i])
  {
  }

  lemma EmptyIsInv()
    ensures Inv([])
  {
  }

  lemma NewRowIsOpen(config: Config, step: Step, row: Row, date: string)
    requires step.Reserve? && row == NewRow(config, step.handle, step.city, step.station, step.now)
    ensures !Counted(TerminalOnDate(date), row)
    ensures Counted(OnDate(date), row) <==> config.pacificDate(step.now) == date
  {
  }

  /**
   * The breaker bound. With threshold b > 0, on a date where every outcome is a client error and at most k events
   * are ever open at once, at most b + k - 1 events are ever billed.
   */
  lemma {:induction false} FailingDayIsBounded(config: Config, steps: seq<Step>, date: string, k: nat)
    requires config.limits.breaker > 0 && k > 0
    requires FailingThroughout(config, steps, date, k)
    ensures Count(OnDate(date), Run(config, [], steps)) <= config.limits.breaker + k - 1
  {
    hide Inv, Apply, Counted, FailingThroughout, FailingState, NewRow;
    if steps != [] {
      var n := |steps| - 1;
      var rows, step := Run(config, [], steps[..n]), steps[n];
      FailingPrefix(config, steps, date, k);
      FailingDayIsBounded(config, steps[..n], date, k);
      EmptyIsInv();
      RunKeepsInv(config, [], steps[..n]);
      if step.Seed? {
        SeedAvoidsFailingDay(config, rows, step, date, k);
      } else {
        StepCharges(config, rows, step, OnDate(date));
        if Admits(config, rows, step) {
          NewRowIsOpen(config, step, NewRow(config, step.handle, step.city, step.station, step.now), date);
          if config.pacificDate(step.now) == date {
            AdmissionOnFailingDay(config, rows, step, date, k);
          }
        }
      }
    }
  }
}
