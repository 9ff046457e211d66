/**
 * What a capital study demands of its fills (scripts/evaluate_v7_ml.py): enough of them, one account and policy, and
 * an unbroken run of finished days. The clock of a day's end in the study's time zone is a parameter.
 */
module CapitalGates {
  import opened Wrappers
  import opened CapitalFrontier

  /** One completed day; `attested` says that it is prospective, net verified and inclusive of fees and slippage. */
  datatype Fill = Fill(date: int, account: Option<string>, fingerprint: string, attested: bool, day: Day)

  datatype Block =
    | InsufficientFillDays
    | MissingClockOrZone
    | DuplicateDay
    | MissingDays
    | UnfinishedDay
    | MissingLineage
    | MixedLineage
    | UnverifiedFills

  // ----- Date order -----

  function Place(fill: Fill, rows: seq<Fill>): (r: seq<Fill>)
    ensures |r| == |rows| + 1
    ensures forall other :: other in r <==> other == fill || other in rows
  {
    if rows == [] then [fill]
    else
      assert rows == [rows[0]] + rows[1..];
      if fill.date <= rows[0].date then [fill] + rows else [rows[0]] + Place(fill, rows[1..])
  }

  function ByDate(fills: seq<Fill>): (rows: seq<Fill>)
    ensures |rows| == |fills|
    ensures forall fill :: fill in rows <==> fill in fills
  {
    if fills == [] then []
    else
      assert fills == [fills[0]] + fills[1..];
      Place(fills[0], ByDate(fills[1..]))
  }

  predicate InOrder(rows: seq<Fill>) {
    forall i, j :: 0 <= i < j < |rows| ==> rows[i].date <= rows[j].date
  }

  lemma {:induction false} PlaceKeepsOrder(fill: Fill, rows: seq<Fill>)
    requires InOrder(rows)
    ensures InOrder(Place(fill, rows))
  {
    if rows != [] && fill.date > rows[0].date {
      PlaceKeepsOrder(fill, rows[1..]);
      var rest := Place(fill, rows[1..]);
      forall j | 0 <= j < |rest| ensures rows[0].date <= rest[j].date {
        assert rest[j] in rest;
        if rest[j] != fill {
          var k :| 0 <= k < |rows[1..]| && rows[1..][k] == rest[j];
          assert rows[k + 1] == rest[j];
        }
      }
    }
  }

  lemma {:induction false} ByDateIsInOrder(fills: seq<Fill>)
    ensures InOrder(ByDate(fills))
  {
    if fills != [] {
      ByDateIsInOrder(fills[1..]);
      PlaceKeepsOrder(fills[0], ByDate(fills[1..]));
    }
  }

  // ----- Days without repetition or gap -----

  function Dates(fills: seq<Fill>): set<int> {
    set fill | fill in fills :: fill.date
  }

  predicate DistinctDates(fills: seq<Fill>) {
    |Dates(fills)| == |fills|
  }

  lemma {:induction false} DatesAtMostFills(fills: seq<Fill>)
    ensures |Dates(fills)| <= |fills|
  {
    if fills != [] {
      DatesAtMostFills(fills[1..]);
      assert fills == [fills[0]] + fills[1..];
      assert Dates(fills) == {fills[0].date} + Dates(fills[1..]);
    }
  }

  lemma RepeatedDateCountsOnce(fills: seq<Fill>, i: nat, j: nat)
    requires i < j < |fills| && fills[i].date == fills[j].date
    ensures |Dates(fills)| < |fills|
  {
    var others := fills[..j] + fills[j + 1..];
    assert others[i] == fills[i];
    forall fill | fill in fills ensures fill.date in Dates(others) {
      var k :| 0 <= k < |fills| && fills[k] == fill;
      assert k < j ==> others[k] == fill;
      assert k > j ==> others[k - 1] == fill;
    }
    DatesAtMostFills(others);
    assert Dates(fills) == Dates(others);
  }

  lemma DistinctDatesDiffer(fills: seq<Fill>, i: nat, j: nat)
    requires DistinctDates(fills) && i < j < |fills|
    ensures fills[i].date != fills[j].date
  {
    if fills[i].date == fills[j].date {
      RepeatedDateCountsOnce(fills, i, j);
    }
  }

  /** Every day between two reported ones is reported. */
  predicate Gapless(fills: seq<Fill>) {
    forall f, g :: f in fills && g in fills ==> forall d: int :: f.date <= d <= g.date ==> d in Dates(fills)
  }

  predicate Consecutive(rows: seq<Fill>) {
    forall i :: 0 <= i < |rows| ==> rows[i].date == rows[0].date + i
  }

  lemma {:induction false} NoGapBefore(rows: seq<Fill>, i: nat)
    requires InOrder(rows) && DistinctDates(rows) && Gapless(rows) && i < |rows|
    ensures rows[i].date == rows[0].date + i
  {
    if i > 0 {
      NoGapBefore(rows, i - 1);
      DistinctDatesDiffer(rows, i - 1, i);
      var next := rows[i - 1].date + 1;
      assert rows[i - 1] in rows && rows[i] in rows;
      assert next in Dates(rows);
      var k :| 0 <= k < |rows| && rows[k].date == next;
      assert k >= i;
    }
  }

  /** The test on sorted dates asks for exactly an unbroken run, however the fills came. */
  lemma ConsecutiveIffGapless(rows: seq<Fill>)
    requires InOrder(rows) && DistinctDates(rows)
    ensures Consecutive(rows) <==> Gapless(rows)
  {
    if Consecutive(rows) {
      forall f, g, d: int | f in rows && g in rows && f.date <= d <= g.date ensures d in Dates(rows) {
        var i :| 0 <= i < |rows| && rows[i] == f;
        var j :| 0 <= j < |rows| && rows[j] == g;
        assert rows[d - rows[0].date] in rows;
      }
    }
    if Gapless(rows) {
      forall i | 0 <= i < |rows| ensures rows[i].date == rows[0].date + i {
        NoGapBefore(rows, i);
      }
    }
  }

  lemma {:induction false} SamePlace(rows: seq<Fill>, rows': seq<Fill>, i: nat)
    requires InOrder(rows) && InOrder(rows') && DistinctDates(rows) && DistinctDates(rows')
    requires forall fill :: fill in rows <==> fill in rows'
    requires i < |rows| == |rows'|
    ensures rows[i] == rows'[i]
  {
    forall k: nat | k < i ensures rows[k] == rows'[k] {
      SamePlace(rows, rows', k);
    }
    assert rows[i] in rows' && rows'[i] in rows;
    var a :| 0 <= a < |rows'| && rows'[a] == rows[i];
    var b :| 0 <= b < |rows| && rows[b] == rows'[i];
    if a < i {
      DistinctDatesDiffer(rows, a, i);
    }
    if b < i {
      DistinctDatesDiffer(rows', b, i);
    }
    if a > i {
      DistinctDatesDiffer(rows', i, a);
    }
  }

  // ----- The gates -----

  predicate Fingerprint(text: string) {
    |text| == 64 && forall i :: 0 <= i < |text| ==> text[i] in HEX_DIGITS
  }

  predicate AllEnded(fills: seq<Fill>, dayEnd: int -> int, captured: int) {
    forall fill :: fill in fills ==> dayEnd(fill.date) <= captured
  }

  predicate HasLineage(fills: seq<Fill>) {
    forall fill :: fill in fills ==> fill.account.Some? && Fingerprint(fill.fingerprint)
  }

  predicate OneLineage(fills: seq<Fill>) {
    forall f, g :: f in fills && g in fills ==> f.account == g.account && f.fingerprint == g.fingerprint
  }

  predicate AllVerified(fills: seq<Fill>) {
    forall fill :: fill in fills ==> fill.attested && Verified(fill.day)
  }

  /** The first demand the fills fail, whatever order they came in. */
  ghost function Blocked(fills: seq<Fill>, identityVerified: bool, captured: Option<int>,
          dayEnd: Option<int -> int>): Option<Block> {
    if !identityVerified || |fills| < MINIMUM_DAYS then Some(InsufficientFillDays)
    else if captured.None? || dayEnd.None? then Some(MissingClockOrZone)
    else if !DistinctDates(fills) then Some(DuplicateDay)
    else if !Gapless(fills) then Some(MissingDays)
    else if !AllEnded(fills, dayEnd.value, captured.value) then Some(UnfinishedDay)
    else if !HasLineage(fills) then Some(MissingLineage)
    else if !OneLineage(fills) then Some(MixedLineage)
    else if !AllVerified(fills) then Some(UnverifiedFills)
    else None
  }

  /** Each block, and the demand that raises it once all earlier ones are met. */
  lemma BlocksSayWhy(fills: seq<Fill>, identityVerified: bool, captured: Option<int>, dayEnd: Option<int -> int>)
    ensures var block := Blocked(fills, identityVerified, captured, dayEnd);
            var enough, clocked := identityVerified && |fills| >= 30, captured.Some? && dayEnd.Some?;
            var ended := clocked && AllEnded(fills, dayEnd.value, captured.value);
            && (block == Some(InsufficientFillDays) <==> !enough)
            && (block == Some(MissingClockOrZone) <==> enough && !clocked)
            && (block == Some(DuplicateDay) <==> enough && clocked && !DistinctDates(fills))
            && (block == Some(MissingDays) <==> enough && clocked && DistinctDates(fills) && !Gapless(fills))
            && (block == Some(UnfinishedDay) <==>
                  enough && clocked && DistinctDates(fills) && Gapless(fills) && !ended)
            && (block == Some(MissingLineage) <==>
                  enough && DistinctDates(fills) && Gapless(fills) && ended && !HasLineage(fills))
            && (block == Some(MixedLineage) <==>
                  && enough && DistinctDates(fills) && Gapless(fills) && ended && HasLineage(fills)
                  && !OneLineage(fills))
            && (block == Some(UnverifiedFills) <==>
                  && enough && DistinctDates(fills) && Gapless(fills) && ended && HasLineage(fills)
                  && OneLineage(fills) && !AllVerified(fills))
  {
    hide DistinctDates, Gapless, AllEnded, HasLineage, OneLineage, AllVerified;
  }

  /** What those demands are, fill by fill. */
  lemma DemandsOnFills(fills: seq<Fill>, dayEnd: int -> int, captured: int)
    ensures AllEnded(fills, dayEnd, captured) <==> !exists fill :: fill in fills && captured < dayEnd(fill.date)
    ensures HasLineage(fills) <==>
      !exists fill :: fill in fills && (fill.account == None || !IsDigest(fill.fingerprint))
    ensures OneLineage(fills) <==>
      !exists f, g :: f in fills && g in fills && (f.account != g.account || f.fingerprint != g.fingerprint)
    ensures AllVerified(fills) <==>
      !exists fill :: fill in fills
                      && (!fill.attested || fill.day.peakOpenCost < 0.0 || fill.day.realizedLoss < 0.0
                          || fill.day.realizedLoss + fill.day.netPnl < 0.0)
  {
    hide IsDigest, Fingerprint;
    forall fill: Fill ensures Fingerprint(fill.fingerprint) <==> IsDigest(fill.fingerprint) {
      DigestsAreFingerprints(fill.fingerprint);
    }
  }

  /** Sixty-four lower-case hexadecimal digits. */
  predicate IsDigest(text: string) {
    |text| == 64 && forall i :: 0 <= i < 64 ==> '0' <= text[i] <= '9' || 'a' <= text[i] <= 'f'
  }

  lemma DigestsAreFingerprints(text: string)
    ensures Fingerprint(text) <==> IsDigest(text)
  {
    if |text| == 64 {
      forall i | 0 <= i < 64 ensures text[i] in HEX_DIGITS <==> '0' <= text[i] <= '9' || 'a' <= text[i] <= 'f' {
      }
    }
  }

  /** The set of dates is as large as the list exactly when no two fills share a date. */
  lemma DistinctDatesAre(fills: seq<Fill>)
    ensures DistinctDates(fills) <==> forall i, j :: 0 <= i < j < |fills| ==> fills[i].date != fills[j].date
  {
    if DistinctDates(fills) {
      forall i, j | 0 <= i < j < |fills| ensures fills[i].date != fills[j].date {
        DistinctDatesDiffer(fills, i, j);
      }
    }
    if forall i, j :: 0 <= i < j < |fills| ==> fills[i].date != fills[j].date {
      DifferentDatesCount(fills);
    }
  }

  lemma {:induction false} DifferentDatesCount(fills: seq<Fill>)
    requires forall i, j :: 0 <= i < j < |fills| ==> fills[i].date != fills[j].date
    ensures |Dates(fills)| == |fills|
  {
    if fills != [] {
      var rest := fills[1..];
      assert fills == [fills[0]] + rest;
      forall i, j | 0 <= i < j < |rest| ensures rest[i].date != rest[j].date {
        assert fills[i + 1].date != fills[j + 1].date;
      }
      DifferentDatesCount(rest);
      forall fill | fill in rest ensures fill.date != fills[0].date {
        var i :| 0 <= i < |rest| && rest[i] == fill;
        assert fills[i + 1] == fill;
      }
      assert Dates(fills) == {fills[0].date} + Dates(rest);
    }
  }

  lemma OneOrder(fills: seq<Fill>, fills': seq<Fill>)
    requires |fills| == |fills'| && forall fill :: fill in fills <==> fill in fills'
    requires DistinctDates(fills)
    ensures ByDate(fills) == ByDate(fills')
  {
    hide InOrder;
    var rows, rows' := ByDate(fills), ByDate(fills');
    ByDateIsInOrder(fills);
    ByDateIsInOrder(fills');
    SameDates(rows, fills);
    SameDates(rows', fills');
    SameDates(fills, fills');
    forall i | 0 <= i < |rows| ensures rows[i] == rows'[i] {
      SamePlace(rows, rows', i);
    }
  }

  lemma SameDates(fills: seq<Fill>, fills': seq<Fill>)
    requires forall fill :: fill in fills <==> fill in fills'
    ensures Dates(fills) == Dates(fills')
  {
  }

  /** A study does not depend on the order its fills came in: neither what blocks it nor the days it studies. */
  lemma OrderDoesNotMatter(fills: seq<Fill>, fills': seq<Fill>, identityVerified: bool, captured: Option<int>,
          dayEnd: Option<int -> int>)
    requires |fills| == |fills'| && forall fill :: fill in fills <==> fill in fills'
    ensures Blocked(fills, identityVerified, captured, dayEnd) == Blocked(fills', identityVerified, captured, dayEnd)
    ensures DistinctDates(fills) ==> ByDate(fills) == ByDate(fills')
  {
    hide Gapless, ByDate, Dates, Fingerprint, Verified;
    SameDates(fills, fills');
    SameGaps(fills, fills');
    SameDemands(fills, fills');
    hide OneLineage, HasLineage, AllVerified;
    if DistinctDates(fills) {
      OneOrder(fills, fills');
    }
  }

  lemma SameDemands(fills: seq<Fill>, fills': seq<Fill>)
    requires forall fill :: fill in fills <==> fill in fills'
    ensures OneLineage(fills) <==> OneLineage(fills')
    ensures HasLineage(fills) <==> HasLineage(fills')
    ensures AllVerified(fills) <==> AllVerified(fills')
  {
  }

  function DaysOf(rows: seq<Fill>): (days: seq<Day>)
    ensures |days| == |rows|
  {
    seq(|rows|, i requires 0 <= i < |rows| => rows[i].day)
  }

  /**
   * The whole function: blocked exactly by the first demand the fills fail, and otherwise the study of their days in
   * order.
   */
  method StudyFills(fills: seq<Fill>, identityVerified: bool, captured: Option<int>, dayEnd: Option<int -> int>,
                    draws: seq<seq<nat>>)
    returns (result: Result<Study, Block>)
    requires |draws| > 0 && (|fills| >= MINIMUM_DAYS ==> ValidDraws(DaysOf(ByDate(fills)), draws))
    ensures result.Err? <==> Blocked(fills, identityVerified, captured, dayEnd).Some?
    ensures result.Err? ==> Blocked(fills, identityVerified, captured, dayEnd) == Some(result.error)
    ensures result.Ok? ==>
      && Concludes(DaysOf(ByDate(fills)), draws, result.value)
      && !result.value.InsufficientDays? && !result.value.Unverified?
  {
    hide Gapless, ByDate, ValidDraws, Concludes;
    if !identityVerified || |fills| < MINIMUM_DAYS {
      return Err(InsufficientFillDays);
    }
    if captured.None? || dayEnd.None? {
      return Err(MissingClockOrZone);
    }
    var rows := ByDate(fills);
    assert Dates(rows) == Dates(fills);
    if |Dates(rows)| != |rows| {
      return Err(DuplicateDay);
    }
    ByDateIsInOrder(fills);
    ConsecutiveIffGapless(rows);
    SameGaps(rows, fills);
    if !Consecutive(rows) {
      return Err(MissingDays);
    }
    if exists fill :: fill in rows && dayEnd.value(fill.date) > captured.value {
      return Err(UnfinishedDay);
    }
    if !HasLineage(rows) {
      return Err(MissingLineage);
    }
    if !OneLineage(rows) {
      return Err(MixedLineage);
    }
    if exists fill :: fill in rows && !(fill.attested && Verified(fill.day)) {
      return Err(UnverifiedFills);
    }
    var study := Conduct(DaysOf(rows), draws);
    DaysAreVerified(rows);
    ConcludesVerified(DaysOf(rows), draws, study);
    result := Ok(study);
  }

  lemma SameGaps(rows: seq<Fill>, fills: seq<Fill>)
    requires forall fill :: fill in rows <==> fill in fills
    ensures Gapless(rows) <==> Gapless(fills)
  {
    assert Dates(rows) == Dates(fills);
  }

  lemma DaysAreVerified(rows: seq<Fill>)
    requires AllVerified(rows)
    ensures forall day :: day in DaysOf(rows) ==> Verified(day)
  {
    forall day | day in DaysOf(rows) ensures Verified(day) {
      var i :| 0 <= i < |rows| && DaysOf(rows)[i] == day;
      assert rows[i] in rows;
    }
  }

  lemma ConcludesVerified(days: seq<Day>, draws: seq<seq<nat>>, study: Study)
    requires |draws| > 0 && |days| >= MINIMUM_DAYS && ValidDraws(days, draws) && Concludes(days, draws, study)
    requires forall day :: day in days ==> Verified(day)
    ensures !study.InsufficientDays? && !study.Unverified?
  {
  }
}
