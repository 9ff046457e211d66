/** Daily maxima from a fixed-lead hourly series, and the request windows that fetch it (forecaster/nwp_archive.py). */
module DailyMax {
  import opened Wrappers
  import opened HourSets

  /** A parsed local time stamp; `exact` means no minutes, seconds or microseconds. */
  datatype Stamp = Stamp(date: int, hour: nat, exact: bool)

  /** An unparsable stamp, and a value that is not a finite number, are None. */
  datatype Row = Row(stamp: Option<Stamp>, value: Option<real>)

  /** Hours of a parsed time are 0 to 23. */
  predicate Parsed(rows: seq<Row>) {
    forall k :: 0 <= k < |rows| && rows[k].stamp.Some? ==> rows[k].stamp.value.hour < 24
  }

  predicate OfDay(row: Row, date: int) {
    row.stamp.Some? && row.stamp.value.date == date
  }

  predicate Usable(row: Row) {
    row.stamp.Some? && row.stamp.value.exact && row.value.Some?
  }

  predicate OfHour(row: Row, date: int, hour: nat) {
    OfDay(row, date) && row.stamp.value.hour == hour
  }

  function Reports(rows: seq<Row>, date: int, hour: nat): nat {
    if rows == [] then 0
    else Reports(rows[..|rows| - 1], date, hour) + if OfHour(rows[|rows| - 1], date, hour) then 1 else 0
  }

  predicate AllUsable(rows: seq<Row>, date: int) {
    forall k :: 0 <= k < |rows| && OfDay(rows[k], date) ==> Usable(rows[k])
  }

  /** Every row of the day is a finite value on the whole hour, and each of its 24 hours is reported exactly once. */
  predicate CompleteDay(rows: seq<Row>, date: int) {
    AllUsable(rows, date) && forall hour: nat :: hour < 24 ==> Reports(rows, date, hour) == 1
  }

  ghost predicate IsDayMax(rows: seq<Row>, date: int, high: real) {
    && (exists k :: 0 <= k < |rows| && OfDay(rows[k], date) && rows[k].value == Some(high))
    && (forall k :: 0 <= k < |rows| && OfDay(rows[k], date) && rows[k].value.Some? ==> rows[k].value.value <= high)
  }

  /** What the reconstruction promises of its result. */
  ghost predicate Reconstructs(rows: seq<Row>, highs: map<int, real>) {
    && (forall date :: date in highs <==> CompleteDay(rows, date))
    && (forall date :: date in highs ==> IsDayMax(rows, date, highs[date]))
  }

  // ----- Order does not matter -----

  lemma {:induction false} ReportsAppend(rows: seq<Row>, more: seq<Row>, date: int, hour: nat)
    ensures Reports(rows + more, date, hour) == Reports(rows, date, hour) + Reports(more, date, hour)
  {
    hide OfHour;
    if more == [] {
      assert rows + more == rows;
    } else {
      var k := |more| - 1;
      assert (rows + more)[..|rows + more| - 1] == rows + more[..k];
      ReportsAppend(rows, more[..k], date, hour);
    }
  }

  lemma ReportsOne(row: Row, date: int, hour: nat)
    ensures Reports([row], date, hour) == if OfHour(row, date, hour) then 1 else 0
  {
    assert [row][..0] == [];
  }

  lemma ReportsWithout(rows: seq<Row>, i: nat, date: int, hour: nat)
    requires i < |rows|
    ensures Reports(rows, date, hour) ==
      Reports(rows[..i] + rows[i + 1..], date, hour) + if OfHour(rows[i], date, hour) then 1 else 0
  {
    hide Reports;
    assert rows == rows[..i] + [rows[i]] + rows[i + 1..];
    ReportsAppend(rows[..i] + [rows[i]], rows[i + 1..], date, hour);
    ReportsAppend(rows[..i], [rows[i]], date, hour);
    ReportsAppend(rows[..i], rows[i + 1..], date, hour);
    ReportsOne(rows[i], date, hour);
  }

  /** Drop one occurrence of a row from a permutation. */
  lemma Dropped(a: seq<Row>, b: seq<Row>) returns (i: nat)
    requires multiset(a) == multiset(b) && a != []
    ensures i < |b| && b[i] == a[|a| - 1]
    ensures multiset(a[..|a| - 1]) == multiset(b[..i] + b[i + 1..])
  {
    var k, last := |a| - 1, a[|a| - 1];
    assert a == a[..k] + [last];
    assert last in multiset(a);
    assert last in b;
    i :| 0 <= i < |b| && b[i] == last;
    assert b == b[..i] + [last] + b[i + 1..];
    assert multiset(a[..k]) == multiset(a) - multiset{last};
    assert multiset(b[..i] + b[i + 1..]) == multiset(b) - multiset{last};
  }

  lemma {:induction false} ReportsIgnoreOrder(a: seq<Row>, b: seq<Row>, date: int, hour: nat)
    requires multiset(a) == multiset(b)
    ensures Reports(a, date, hour) == Reports(b, date, hour)
    decreases |a|
  {
    hide OfHour;
    if a == [] {
      assert |multiset(b)| == 0;
    } else {
      var i := Dropped(a, b);
      var rest := b[..i] + b[i + 1..];
      ReportsIgnoreOrder(a[..|a| - 1], rest, date, hour);
      ReportsWithout(b, i, date, hour);
    }
  }

  lemma SameRows(a: seq<Row>, b: seq<Row>)
    requires multiset(a) == multiset(b)
    ensures forall row :: row in a <==> row in b
  {
    forall row ensures row in a <==> row in b {
      assert row in multiset(a) <==> row in multiset(b);
    }
  }

  lemma AllUsableIgnoresOrder(a: seq<Row>, b: seq<Row>, date: int)
    requires forall row :: row in a ==> row in b
    requires AllUsable(b, date)
    ensures AllUsable(a, date)
  {
    forall k | 0 <= k < |a| && OfDay(a[k], date) ensures Usable(a[k]) {
      assert a[k] in b;
    }
  }

  lemma CompletenessIgnoresOrder(a: seq<Row>, b: seq<Row>, date: int)
    requires multiset(a) == multiset(b)
    ensures CompleteDay(a, date) <==> CompleteDay(b, date)
  {
    SameRows(a, b);
    forall hour: nat ensures Reports(a, date, hour) == Reports(b, date, hour) {
      ReportsIgnoreOrder(a, b, date, hour);
    }
    if AllUsable(a, date) {
      AllUsableIgnoresOrder(b, a, date);
    }
    if AllUsable(b, date) {
      AllUsableIgnoresOrder(a, b, date);
    }
  }

  lemma MaxAtMost(a: seq<Row>, b: seq<Row>, date: int, x: real, y: real)
    requires forall row :: row in a ==> row in b
    requires IsDayMax(a, date, x) && IsDayMax(b, date, y)
    ensures x <= y
  {
    var k :| 0 <= k < |a| && OfDay(a[k], date) && a[k].value == Some(x);
    assert a[k] in b;
  }

  /** Permuting the rows changes nothing: the promise fixes the result, and fixes it the same for every order. */
  lemma PermutingChangesNothing(a: seq<Row>, b: seq<Row>, x: map<int, real>, y: map<int, real>)
    requires multiset(a) == multiset(b) && Reconstructs(a, x) && Reconstructs(b, y)
    ensures x == y
  {
    hide CompleteDay, IsDayMax;
    SameRows(a, b);
    forall date ensures date in x <==> date in y {
      CompletenessIgnoresOrder(a, b, date);
    }
    forall date | date in x ensures x[date] == y[date] {
      MaxAtMost(a, b, date, x[date], y[date]);
      MaxAtMost(b, a, date, y[date], x[date]);
    }
  }

  // ----- The loop -----

  predicate Twice(rows: seq<Row>, date: int) {
    exists hour: nat :: hour < 24 && Reports(rows, date, hour) > 1
  }

  /** The day can no longer be complete. */
  predicate Spoiled(rows: seq<Row>, date: int) {
    !AllUsable(rows, date) || Twice(rows, date)
  }

  predicate Filled(rows: seq<Row>, date: int, hours: DayHours) {
    && (forall hour :: hour in hours ==> hour < 24)
    && (forall hour: nat :: hour < 24 ==> Reports(rows, date, hour) == if hour in hours then 1 else 0)
    && (forall k :: 0 <= k < |rows| && OfDay(rows[k], date) ==>
          rows[k].stamp.value.hour in hours && rows[k].value == Some(hours[rows[k].stamp.value.hour]))
    && (forall hour :: hour in hours ==> HasReading(rows, date, hours[hour]))
  }

  predicate HasReading(rows: seq<Row>, date: int, value: real) {
    exists k :: 0 <= k < |rows| && OfDay(rows[k], date) && rows[k].value == Some(value)
  }

  predicate Mentioned(rows: seq<Row>, date: int) {
    exists k :: 0 <= k < |rows| && OfDay(rows[k], date)
  }

  /** The dictionaries after some rows: what they hold of one day. */
  predicate Tracks(rows: seq<Row>, date: int, byDate: map<int, DayHours>, invalid: set<int>) {
    && (date in byDate <==> Mentioned(rows, date))
    && (date in invalid ==> date in byDate && Spoiled(rows, date))
    && (date in byDate ==> forall hour :: hour in byDate[date] ==> hour < 24 && Reports(rows, date, hour) >= 1)
    && (date in byDate && date !in invalid ==> AllUsable(rows, date) && Filled(rows, date, byDate[date]))
  }

  ghost predicate TracksAll(rows: seq<Row>, byDate: map<int, DayHours>, invalid: set<int>) {
    forall date :: Tracks(rows, date, byDate, invalid)
  }

  lemma AppendCounts(rows: seq<Row>, row: Row, date: int)
    ensures forall hour: nat ::
              Reports(rows + [row], date, hour) == Reports(rows, date, hour) + if OfHour(row, date, hour) then 1 else 0
    ensures AllUsable(rows + [row], date) <==> AllUsable(rows, date) && (OfDay(row, date) ==> Usable(row))
    ensures Mentioned(rows + [row], date) <==> Mentioned(rows, date) || OfDay(row, date)
  {
    var more := rows + [row];
    assert more[..|more| - 1] == rows;
    assert more[|rows|] == row;
    assert forall k :: 0 <= k < |rows| ==> more[k] == rows[k];
  }

  lemma UnmentionedIsUncounted(rows: seq<Row>, date: int, hour: nat)
    requires !Mentioned(rows, date)
    ensures Reports(rows, date, hour) == 0
  {
    if rows != [] {
      var k := |rows| - 1;
      assert !OfDay(rows[k], date);
      assert !Mentioned(rows[..k], date) by {
        forall j | 0 <= j < k ensures !OfDay(rows[..k][j], date) {
          assert rows[..k][j] == rows[j];
        }
      }
      UnmentionedIsUncounted(rows[..k], date, hour);
    }
  }

  /** A row of another day, or of no day, changes nothing about this one. */
  lemma OtherDaysStay(rows: seq<Row>, row: Row, date: int, byDate: map<int, DayHours>, invalid: set<int>,
          byDate': map<int, DayHours>, invalid': set<int>)
    requires Tracks(rows, date, byDate, invalid) && !OfDay(row, date)
    requires (date in byDate' <==> date in byDate) && (date in byDate ==> byDate'[date] == byDate[date])
    requires date in invalid' <==> date in invalid
    ensures Tracks(rows + [row], date, byDate', invalid')
  {
    AppendCounts(rows, row, date);
    if date in byDate && date !in invalid {
      FilledStays(rows, row, date, byDate[date]);
    }
  }

  lemma FilledStays(rows: seq<Row>, row: Row, date: int, hours: DayHours)
    requires Filled(rows, date, hours) && !OfDay(row, date)
    ensures Filled(rows + [row], date, hours)
  {
    hide Reports;
    AppendCounts(rows, row, date);
    ReadingsStay(rows, row, date);
  }

  lemma ReadingsStay(rows: seq<Row>, row: Row, date: int)
    ensures forall value :: HasReading(rows, date, value) ==> HasReading(rows + [row], date, value)
  {
    forall value | HasReading(rows, date, value) ensures HasReading(rows + [row], date, value) {
      var k :| 0 <= k < |rows| && OfDay(rows[k], date) && rows[k].value == Some(value);
      assert (rows + [row])[k] == rows[k];
    }
  }

  /** The condition that spoils the row's own day. */
  predicate Rejects(row: Row, hours: DayHours)
    requires row.stamp.Some?
  {
    !row.stamp.value.exact || row.stamp.value.hour in hours || row.value.None?
  }

  lemma RejectionSpoils(rows: seq<Row>, row: Row, byDate: map<int, DayHours>, invalid: set<int>, hours: DayHours)
    requires row.stamp.Some? && Tracks(rows, row.stamp.value.date, byDate, invalid)
    requires hours == if row.stamp.value.date in byDate then byDate[row.stamp.value.date] else map[]
    requires Rejects(row, hours)
    ensures Tracks(rows + [row], row.stamp.value.date, byDate[row.stamp.value.date := hours],
                   invalid + {row.stamp.value.date})
  {
    var date, hour := row.stamp.value.date, row.stamp.value.hour;
    AppendCounts(rows, row, date);
    hide Reports;
    if Usable(row) {
      assert Reports(rows + [row], date, hour) > 1;
    }
  }

  lemma ReadingAdds(rows: seq<Row>, row: Row, byDate: map<int, DayHours>, invalid: set<int>, hours: DayHours)
    requires row.stamp.Some? && row.stamp.value.hour < 24 && Tracks(rows, row.stamp.value.date, byDate, invalid)
    requires hours == if row.stamp.value.date in byDate then byDate[row.stamp.value.date] else map[]
    requires !Rejects(row, hours)
    ensures Tracks(rows + [row], row.stamp.value.date,
                   byDate[row.stamp.value.date := hours[row.stamp.value.hour := row.value.value]], invalid)
  {
    var date, hour, value := row.stamp.value.date, row.stamp.value.hour, row.value.value;
    AppendCounts(rows, row, date);
    if date in invalid {
      SpoiledStays(rows, row, date);
    } else {
      if date !in byDate {
        forall h: nat ensures Reports(rows, date, h) == 0 {
          UnmentionedIsUncounted(rows, date, h);
        }
      }
      FilledAdds(rows, row, hours);
    }
  }

  lemma SpoiledStays(rows: seq<Row>, row: Row, date: int)
    requires Spoiled(rows, date)
    ensures Spoiled(rows + [row], date)
  {
    AppendCounts(rows, row, date);
    if Twice(rows, date) {
      var hour: nat :| hour < 24 && Reports(rows, date, hour) > 1;
      assert Reports(rows + [row], date, hour) > 1;
    }
  }

  lemma FilledAdds(rows: seq<Row>, row: Row, hours: DayHours)
    requires row.stamp.Some? && row.stamp.value.hour < 24 && Filled(rows, row.stamp.value.date, hours)
      && !Rejects(row, hours)
    ensures Filled(rows + [row], row.stamp.value.date, hours[row.stamp.value.hour := row.value.value])
  {
    hide Reports;
    var date := row.stamp.value.date;
    AppendCounts(rows, row, date);
    ReadingsStay(rows, row, date);
    assert (rows + [row])[|rows|] == row;
    assert HasReading(rows + [row], date, row.value.value);
  }

  lemma TrackedDayIsComplete(rows: seq<Row>, date: int, byDate: map<int, DayHours>, invalid: set<int>)
    requires Tracks(rows, date, byDate, invalid)
    ensures CompleteDay(rows, date) <==> date in byDate && date !in invalid && |byDate[date]| == 24
  {
    hide Reports;
    if date !in byDate {
      UnmentionedIsUncounted(rows, date, 0);
    } else {
      TwentyFourIsEveryHour(byDate[date]);
    }
  }

  lemma FilledMax(rows: seq<Row>, date: int, hours: DayHours, high: real)
    requires Filled(rows, date, hours) && IsMax(hours, high)
    ensures IsDayMax(rows, date, high)
  {
    hide Reports;
    var hour :| hour in hours && hours[hour] == high;
    assert HasReading(rows, date, high);
  }

  /** The maxima of the days that nothing spoiled and that have all 24 hours. */
  method CompleteMaxes(ghost rows: seq<Row>, byDate: map<int, DayHours>, invalid: set<int>) returns (highs: map<int,
          real>)
    requires TracksAll(rows, byDate, invalid)
    ensures Reconstructs(rows, highs)
  {
    hide Tracks, CompleteDay, IsDayMax, Filled, Reports, Spoiled, Twice;
    highs := map[];
    var remaining := byDate.Keys;
    while remaining != {}
      invariant remaining <= byDate.Keys
      invariant forall date :: date in highs ==> date in byDate && date !in remaining
      invariant forall date :: date in byDate && date !in remaining ==> (date in highs <==> CompleteDay(rows, date))
      invariant forall date :: date in highs ==> IsDayMax(rows, date, highs[date])
      decreases |remaining|
    {
      if forall date :: date !in remaining {
        assert false;
      }
      var date :| date in remaining;
      assert Tracks(rows, date, byDate, invalid);
      TrackedDayIsComplete(rows, date, byDate, invalid);
      if date !in invalid && |byDate[date]| == 24 {
        TrackedHours(rows, date, byDate, invalid);
        var high := MaxOf(byDate[date]);
        FilledMax(rows, date, byDate[date], high);
        highs := highs[date := high];
      }
      remaining := remaining - {date};
    }
    forall date | date !in byDate ensures !CompleteDay(rows, date) {
      assert Tracks(rows, date, byDate, invalid);
      TrackedDayIsComplete(rows, date, byDate, invalid);
    }
  }

  method ReconstructDailyMax(rows: seq<Row>) returns (highs: map<int, real>)
    requires Parsed(rows)
    ensures Reconstructs(rows, highs)
  {
    hide Tracks, CompleteDay, IsDayMax, Filled, Reports, Spoiled, Twice;
    var byDate: map<int, DayHours>, invalid: set<int> := map[], {};
    NothingTracked();
    var i := 0;
    while i < |rows|
      invariant 0 <= i <= |rows|
      invariant TracksAll(rows[..i], byDate, invalid)
    {
      assert rows[..i + 1] == rows[..i] + [rows[i]];
      byDate, invalid := TrackRow(rows[..i], rows[i], byDate, invalid);
      i := i + 1;
    }
    assert rows[..i] == rows;
    highs := CompleteMaxes(rows, byDate, invalid);
  }

  lemma TrackedHours(rows: seq<Row>, date: int, byDate: map<int, DayHours>, invalid: set<int>)
    requires Tracks(rows, date, byDate, invalid) && date in byDate && date !in invalid
    ensures Filled(rows, date, byDate[date]) && forall hour :: hour in byDate[date] ==> hour < 24
  {
  }

  lemma NothingTracked()
    ensures TracksAll([], map[], {})
  {
  }

  /** One turn of the loop. */
  method TrackRow(ghost seen: seq<Row>, row: Row, byDate: map<int, DayHours>, invalid: set<int>)
    returns (byDate': map<int, DayHours>, invalid': set<int>)
    requires TracksAll(seen, byDate, invalid) && (row.stamp.Some? ==> row.stamp.value.hour < 24)
    ensures TracksAll(seen + [row], byDate', invalid')
  {
    hide Tracks;
    byDate', invalid' := byDate, invalid;
    if row.stamp.Some? {
      var date, hour := row.stamp.value.date, row.stamp.value.hour;
      var hours: DayHours := if date in byDate then byDate[date] else map[];
      assert Tracks(seen, date, byDate, invalid);
      if Rejects(row, hours) {
        byDate', invalid' := byDate[date := hours], invalid + {date};
        RejectionSpoils(seen, row, byDate, invalid, hours);
      } else {
        byDate' := byDate[date := hours[hour := row.value.value]];
        ReadingAdds(seen, row, byDate, invalid, hours);
      }
    }
    forall other ensures Tracks(seen + [row], other, byDate', invalid') {
      assert Tracks(seen, other, byDate, invalid);
      if !OfDay(row, other) {
        OtherDaysStay(seen, row, other, byDate, invalid, byDate', invalid');
      }
    }
  }

  // ----- Request windows -----

  /** Consecutive windows of at most `span` days that cover start to end exactly. */
  predicate Tiles(chunks: seq<(int, int)>, start: int, end: int, span: int) {
    && (forall i :: 0 <= i < |chunks| ==> chunks[i].0 <= chunks[i].1 && chunks[i].1 - chunks[i].0 < span)
    && (forall i :: 0 < i < |chunks| ==> chunks[i].0 == chunks[i - 1].1 + 1)
    && (if chunks == [] then start == end + 1 else chunks[0].0 == start && chunks[|chunks| - 1].1 == end)
  }

  method DateChunks(start: int, end: int, span: int) returns (chunks: Option<seq<(int, int)>>)
    requires span >= 1
    ensures chunks.None? <==> start > end
    ensures chunks.Some? ==> Tiles(chunks.value, start, end, span)
    ensures chunks.Some? ==> forall day :: start <= day <= end <==> Covered(chunks.value, day)
  {
    if start > end {
      return None;
    }
    var tiles: seq<(int, int)>, cursor := [], start;
    while cursor <= end
      invariant start <= cursor <= end + 1
      invariant Tiles(tiles, start, cursor - 1, span)
      invariant forall day :: start <= day < cursor <==> Covered(tiles, day)
      decreases end + 1 - cursor
    {
      var chunkEnd := if cursor + span - 1 < end then cursor + span - 1 else end;
      CoverOneMore(tiles, cursor, chunkEnd);
      tiles := tiles + [(cursor, chunkEnd)];
      cursor := chunkEnd + 1;
    }
    chunks := Some(tiles);
  }

  predicate Covered(tiles: seq<(int, int)>, day: int) {
    exists i :: 0 <= i < |tiles| && tiles[i].0 <= day <= tiles[i].1
  }

  lemma CoverOneMore(tiles: seq<(int, int)>, from: int, to: int)
    ensures forall day :: Covered(tiles + [(from, to)], day) <==> Covered(tiles, day) || from <= day <= to
  {
    var more := tiles + [(from, to)];
    forall day ensures Covered(more, day) <==> Covered(tiles, day) || from <= day <= to {
      if i :| 0 <= i < |tiles| && tiles[i].0 <= day <= tiles[i].1 {
        assert more[i] == tiles[i];
      }
      if from <= day <= to {
        assert more[|tiles|].0 <= day <= more[|tiles|].1;
      }
    }
  }
}
