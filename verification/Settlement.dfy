/**
 * Settlement truth (forecaster/city_truth.py, forecaster/clisfo.py): a table of climate-report
 * maxima that two writers update, and from which training truth is loaded.
 */
module Settlement {
  import opened Wrappers
  import opened SettlementCalendar
  import Replay

  const IEM_UNCONFIRMED_STABILITY_DAYS := 2

  type Key = (string, int)

  datatype Row = Row(high: int, fetchedAt: int, source: string, isFinal: bool)

  datatype Write = Write(station: string, date: int, row: Row)

  type Table = map<Key, Row>

  /** The conflict rule: a preliminary write never replaces a final row. */
  function Upserted(rows: Table, w: Write): Table {
    var key := (w.station, w.date);
    if key in rows && rows[key].isFinal && !w.row.isFinal then rows else rows[key := w.row]
  }

  function AfterWrites(rows: Table, writes: seq<Write>): Table {
    if writes == [] then rows else Upserted(AfterWrites(rows, writes[..|writes| - 1]), writes[|writes| - 1])
  }

  // ----- The table is a fold over its writes -----

  predicate To(w: Write, key: Key) {
    (w.station, w.date) == key
  }

  /** Write i is the last one to the key among those that satisfy the finality filter. */
  predicate LastTo(writes: seq<Write>, key: Key, i: nat, finalOnly: bool) {
    && i < |writes| && To(writes[i], key) && (finalOnly ==> writes[i].row.isFinal)
    && forall j :: i < j < |writes| && To(writes[j], key) ==> finalOnly && !writes[j].row.isFinal
  }

  predicate NoFinalTo(writes: seq<Write>, key: Key) {
    forall j :: 0 <= j < |writes| && To(writes[j], key) ==> !writes[j].row.isFinal
  }

  predicate NoneTo(writes: seq<Write>, key: Key) {
    forall j :: 0 <= j < |writes| ==> !To(writes[j], key)
  }

  lemma {:induction false} StoredRowsWereWritten(writes: seq<Write>, key: Key)
    ensures key in AfterWrites(map[], writes) <==> !NoneTo(writes, key)
    ensures NoFinalTo(writes, key) && key in AfterWrites(map[], writes) ==> !AfterWrites(map[], writes)[key].isFinal
  {
    if writes != [] {
      var k := |writes| - 1;
      StoredRowsWereWritten(writes[..k], key);
      if To(writes[k], key) {
        assert !NoneTo(writes, key);
      } else if !NoneTo(writes[..k], key) {
        var j :| 0 <= j < k && To(writes[..k][j], key);
        assert To(writes[j], key);
      }
    }
  }

  /** With no final write, the last preliminary one is; with no write at all, the key is absent. */
  lemma {:induction false} OtherwiseLastPreliminary(writes: seq<Write>, key: Key, i: nat)
    requires NoFinalTo(writes, key)
    ensures LastTo(writes, key, i, false) ==>
      key in AfterWrites(map[], writes) && AfterWrites(map[], writes)[key] == writes[i].row
    ensures NoneTo(writes, key) <==> key !in AfterWrites(map[], writes)
  {
    StoredRowsWereWritten(writes, key);
    if LastTo(writes, key, i, false) {
      var k := |writes| - 1;
      if i < k {
        OtherwiseLastPreliminary(writes[..k], key, i);
      } else {
        StoredRowsWereWritten(writes[..k], key);
      }
    }
  }

  /** A final row is only ever replaced by another final row. */
  lemma {:induction false} FinalityNeverReverts(rows: Table, writes: seq<Write>, key: Key)
    requires key in rows && rows[key].isFinal
    ensures var after := AfterWrites(rows, writes); key in after && after[key].isFinal
  {
    if writes != [] {
      FinalityNeverReverts(rows, writes[..|writes| - 1], key);
    }
  }

  // ----- What a batch of readings leaves behind -----

  /** One reading of a day's high, and whether it settles the day. */
  datatype Said = Said(date: int, high: int, settles: bool)

  predicate LastSaid(said: seq<Said>, i: nat) {
    i < |said| && forall j :: i < j < |said| ==> said[j].date != said[i].date
  }

  predicate LastSettling(said: seq<Said>, i: nat) {
    && i < |said| && said[i].settles
    && forall j :: i < j < |said| && said[j].settles ==> said[j].date != said[i].date
  }

  predicate NothingSettles(said: seq<Said>, date: int) {
    forall j :: 0 <= j < |said| && said[j].settles ==> said[j].date != date
  }

  predicate NothingSaid(said: seq<Said>, date: int) {
    forall j :: 0 <= j < |said| ==> said[j].date != date
  }

  predicate Settled(rows: Table, key: Key) {
    key in rows && rows[key].isFinal
  }

  predicate SameAt(before: Table, after: Table, key: Key) {
    (key in before <==> key in after) && (key in before ==> after[key] == before[key])
  }

  /**
   * After a batch of readings of one station: a day holds its last settling reading as final; without one, a day that
   * was final stays as it was and any other holds its last reading as preliminary; and nothing else changes.
   */
  ghost predicate Outcome(before: Table, after: Table, station: string, source: string, observedAt: int,
          said: seq<Said>) {
    && (forall i: nat :: LastSettling(said, i) ==>
          && (station, said[i].date) in after
          && after[(station, said[i].date)] == Row(said[i].high, observedAt, source, true))
    && (forall i: nat :: LastSaid(said, i) && NothingSettles(said, said[i].date)
                         && !Settled(before, (station, said[i].date)) ==>
          && (station, said[i].date) in after
          && after[(station, said[i].date)] == Row(said[i].high, observedAt, source, false))
    && (forall date :: NothingSettles(said, date) && Settled(before, (station, date)) ==>
          SameAt(before, after, (station, date)))
    && (forall key: Key :: key.0 != station || NothingSaid(said, key.1) ==> SameAt(before, after, key))
  }

  /** The writes that a batch of readings becomes. */
  predicate WritesOf(writes: seq<Write>, station: string, source: string, observedAt: int, said: seq<Said>) {
    && |writes| == |said|
    && forall i :: 0 <= i < |writes| ==>
         writes[i] == Write(station, said[i].date, Row(said[i].high, observedAt, source, said[i].settles))
  }

  lemma {:induction false} UnwrittenStays(rows: Table, writes: seq<Write>, key: Key)
    requires NoneTo(writes, key)
    ensures SameAt(rows, AfterWrites(rows, writes), key)
  {
    if writes != [] {
      UnwrittenStays(rows, writes[..|writes| - 1], key);
    }
  }

  lemma {:induction false} LastFinalStays(rows: Table, writes: seq<Write>, key: Key, i: nat)
    requires LastTo(writes, key, i, true)
    ensures key in AfterWrites(rows, writes) && AfterWrites(rows, writes)[key] == writes[i].row
  {
    var k := |writes| - 1;
    if i < k {
      LastFinalStays(rows, writes[..k], key, i);
    }
  }

  lemma {:induction false} SettledStays(rows: Table, writes: seq<Write>, key: Key)
    requires NoFinalTo(writes, key) && Settled(rows, key)
    ensures SameAt(rows, AfterWrites(rows, writes), key)
  {
    if writes != [] {
      SettledStays(rows, writes[..|writes| - 1], key);
    }
  }

  lemma {:induction false} UnsettledStays(rows: Table, writes: seq<Write>, key: Key)
    requires NoFinalTo(writes, key) && !Settled(rows, key)
    ensures !Settled(AfterWrites(rows, writes), key)
  {
    if writes != [] {
      UnsettledStays(rows, writes[..|writes| - 1], key);
    }
  }

  lemma {:induction false} LastPreliminaryStays(rows: Table, writes: seq<Write>, key: Key, i: nat)
    requires NoFinalTo(writes, key) && !Settled(rows, key) && LastTo(writes, key, i, false)
    ensures key in AfterWrites(rows, writes) && AfterWrites(rows, writes)[key] == writes[i].row
  {
    var k := |writes| - 1;
    if i < k {
      LastPreliminaryStays(rows, writes[..k], key, i);
    } else {
      UnsettledStays(rows, writes[..k], key);
    }
  }

  /** The last final write to a key is what the table holds. */
  lemma LastFinalWriteWins(writes: seq<Write>, key: Key, i: nat)
    requires LastTo(writes, key, i, true)
    ensures key in AfterWrites(map[], writes) && AfterWrites(map[], writes)[key] == writes[i].row
  {
    LastFinalStays(map[], writes, key, i);
  }

  /** A batch written row by row has that outcome. */
  lemma WritesHaveTheOutcome(rows: Table, writes: seq<Write>, station: string, source: string, observedAt: int,
          said: seq<Said>)
    requires WritesOf(writes, station, source, observedAt, said)
    ensures Outcome(rows, AfterWrites(rows, writes), station, source, observedAt, said)
  {
    hide AfterWrites;
    var after := AfterWrites(rows, writes);
    forall i: nat | LastSettling(said, i)
      ensures (station, said[i].date) in after
      ensures after[(station, said[i].date)] == Row(said[i].high, observedAt, source, true)
    {
      LastFinalStays(rows, writes, (station, said[i].date), i);
    }
    forall i: nat | LastSaid(said, i) && NothingSettles(said, said[i].date)
                    && !Settled(rows, (station, said[i].date))
      ensures (station, said[i].date) in after
      ensures after[(station, said[i].date)] == Row(said[i].high, observedAt, source, false)
    {
      LastPreliminaryStays(rows, writes, (station, said[i].date), i);
    }
    forall date | NothingSettles(said, date) && Settled(rows, (station, date))
      ensures SameAt(rows, after, (station, date))
    {
      SettledStays(rows, writes, (station, date));
    }
    forall key: Key | key.0 != station || NothingSaid(said, key.1) ensures SameAt(rows, after, key) {
      UnwrittenStays(rows, writes, key);
    }
  }

  /** Whatever settles a day last is the truth that is then loaded of it. */
  lemma SettlingReadingIsLoaded(before: Table, after: Table, station: string, source: string, observedAt: int,
          said: seq<Said>, i: nat)
    requires Outcome(before, after, station, source, observedAt, said) && LastSettling(said, i)
    ensures said[i].date in LoadTruth(after, station)
    ensures LoadTruth(after, station)[said[i].date] == said[i].high as real
  {
    LoadedTruth(after, station, said[i].date);
  }

  // ----- Finality and the climate day -----

  /** Each station's fixed standard offset, in hours. */
  type Offsets = map<string, int>

  predicate DayEnded(offset: int, reportDate: int, observedAt: int) {
    reportDate < LocalStandardDate(observedAt, offset)
  }

  datatype Report = Report(date: int, high: int, isPreliminary: bool)

  /** An archive row: its optional parsed fields, whether its text reads as preliminary, and any finality marker. */
  datatype IemRow = IemRow(high: Option<int>, date: Option<int>, preliminaryText: bool, marker: Option<bool>)

  predicate IemIsFinal(row: IemRow, offset: int, reportDate: int, observedAt: int) {
    if row.preliminaryText then false
    else if row.marker.Some? then row.marker.value && DayEnded(offset, reportDate, observedAt)
    else reportDate <= LocalStandardDate(observedAt, offset) - IEM_UNCONFIRMED_STABILITY_DAYS
  }

  function LiveWrite(station: string, offset: int, report: Report, observedAt: int): Write {
    Write(station, report.date,
          Row(report.high, observedAt, "nws_cli", !report.isPreliminary && DayEnded(offset, report.date, observedAt)))
  }

  /** Rows without a usable high or date are skipped. */
  function IemWrite(station: string, offset: int, row: IemRow, observedAt: int): Option<Write> {
    if row.high.None? || row.date.None? then None
    else Some(Write(station, row.date.value,
                    Row(row.high.value, observedAt, "iem_cli", IemIsFinal(row, offset, row.date.value, observedAt))))
  }

  predicate EndedIfFinal(w: Write, offsets: Offsets) {
    w.station in offsets && (w.row.isFinal ==> DayEnded(offsets[w.station], w.date, w.row.fetchedAt))
  }

  /** Neither writer marks a climate day final before it has ended on that station's clock. */
  lemma WritersRespectTheClimateDay(station: string, offsets: Offsets, report: Report, row: IemRow, observedAt: int)
    requires station in offsets
    ensures EndedIfFinal(LiveWrite(station, offsets[station], report, observedAt), offsets)
    ensures var w := IemWrite(station, offsets[station], row, observedAt);
            w.Some? ==> EndedIfFinal(w.value, offsets)
  {
  }

  function LoadTruth(rows: Table, station: string): map<int, real> {
    map key | key in rows && key.0 == station && rows[key].isFinal :: key.1 := rows[key].high as real
  }

  lemma LoadedTruth(rows: Table, station: string, date: int)
    ensures date in LoadTruth(rows, station) <==> (station, date) in rows && rows[(station, date)].isFinal
    ensures date in LoadTruth(rows, station) ==> LoadTruth(rows, station)[date] == rows[(station, date)].high as real
  {
    if (station, date) in rows && rows[(station, date)].isFinal {
      assert (station, date).1 == date;
    }
  }

  lemma {:induction false} FinalRowsComeFromEndedDays(writes: seq<Write>, offsets: Offsets, key: Key, now: int)
    requires forall w :: w in writes ==> EndedIfFinal(w, offsets) && w.row.fetchedAt <= now
    requires key in AfterWrites(map[], writes) && AfterWrites(map[], writes)[key].isFinal
    ensures key.0 in offsets && DayEnded(offsets[key.0], key.1, now)
  {
    var k := |writes| - 1;
    var last := writes[k];
    if To(last, key) && last.row.isFinal {
      DatesAreMonotone(last.row.fetchedAt, now, offsets[key.0]);
    } else {
      FinalRowsComeFromEndedDays(writes[..k], offsets, key, now);
    }
  }

  /** Truth loaded on a station's day S holds only dates before S, after any run of the writers. */
  lemma TruthStopsBeforeToday(writes: seq<Write>, offsets: Offsets, station: string, now: int)
    requires station in offsets
    requires forall w :: w in writes ==> EndedIfFinal(w, offsets) && w.row.fetchedAt <= now
    ensures forall d :: d in LoadTruth(AfterWrites(map[], writes), station) ==>
      d < LocalStandardDate(now, offsets[station])
  {
    var rows := AfterWrites(map[], writes);
    forall d | d in LoadTruth(rows, station) ensures d < LocalStandardDate(now, offsets[station]) {
      LoadedTruth(rows, station, d);
      FinalRowsComeFromEndedDays(writes, offsets, (station, d), now);
    }
  }

  /** A later write leaves what the serve saw alone: it is another station's, a later day's, or not final news. */
  predicate KeepsTruthBefore(w: Write, station: string, day: int, seen: map<int, real>) {
    w.station == station && w.date < day && w.row.isFinal ==>
      w.date in seen && seen[w.date] == w.row.high as real
  }

  lemma {:induction false} LaterWritesKeepTruth(rows: Table, later: seq<Write>, station: string, day: int,
          seen: map<int, real>, d: int)
    requires seen == LoadTruth(rows, station) && d < day
    requires forall w :: w in later ==> KeepsTruthBefore(w, station, day, seen)
    ensures var after := LoadTruth(AfterWrites(rows, later), station);
            (d in after <==> d in seen) && (d in after ==> after[d] == seen[d])
  {
    LoadedTruth(rows, station, d);
    LoadedTruth(AfterWrites(rows, later), station, d);
    if later != [] {
      var k := |later| - 1;
      LaterWritesKeepTruth(rows, later[..k], station, day, seen, d);
      LoadedTruth(AfterWrites(rows, later[..k]), station, d);
      assert later[k] in later;
    }
  }

  /** A serve on that station day, from everything the two writers had stored by `now`. */
  ghost predicate ServedAt(writes: seq<Write>, offsets: Offsets, station: string, now: int, day: int) {
    && station in offsets && LocalStandardDate(now, offsets[station]) == day
    && forall w :: w in writes ==> EndedIfFinal(w, offsets) && w.row.fetchedAt <= now
  }

  /** Nothing written afterwards finalises or corrects a settlement of a day before the serve. */
  ghost predicate TruthKept(writes: seq<Write>, later: seq<Write>, station: string, day: int) {
    var seen := LoadTruth(AfterWrites(map[], writes), station);
    forall w :: w in later ==> KeepsTruthBefore(w, station, day, seen)
  }

  /** Then what the serve saw is what the later table allows a replay with the serve's lag. */
  lemma TruthSeenIsTruthKept(writes: seq<Write>, later: seq<Write>, offsets: Offsets, station: string, now: int,
          target: int, lag: nat)
    requires ServedAt(writes, offsets, station, now, target - lag) && TruthKept(writes, later, station, target - lag)
    ensures var rows := AfterWrites(map[], writes);
            Replay.VisibleAtServe(LoadTruth(rows, station), LoadTruth(AfterWrites(rows, later), station), target, lag)
  {
    var rows := AfterWrites(map[], writes);
    var seen, after := LoadTruth(rows, station), LoadTruth(AfterWrites(rows, later), station);
    TruthStopsBeforeToday(writes, offsets, station, now);
    forall d | d < target - lag ensures (d in after <==> d in seen) && (d in after ==> after[d] == seen[d]) {
      LaterWritesKeepTruth(rows, later, station, target - lag, seen, d);
    }
  }

  /**
   * From the table to the training set: a serve made `lag` station days before its target trains on exactly the
   * history a later replay reconstructs, unless a settlement for a day before the serve was afterwards finalised or
   * corrected.
   */
  lemma ServeTrainsOnTheReplayHistory(writes: seq<Write>, later: seq<Write>, offsets: Offsets, station: string,
          now: int, target: int, lag: nat, dates: seq<int>, nwp: Replay.Archive)
    requires ServedAt(writes, offsets, station, now, target - lag) && TruthKept(writes, later, station, target - lag)
    ensures var rows := AfterWrites(map[], writes);
            Replay.LiveTraining(dates, LoadTruth(rows, station), nwp, target)
            == Replay.Available(dates, LoadTruth(AfterWrites(rows, later), station), nwp, target - (lag + 1))
  {
    var rows := AfterWrites(map[], writes);
    var seen, after := LoadTruth(rows, station), LoadTruth(AfterWrites(rows, later), station);
    TruthSeenIsTruthKept(writes, later, offsets, station, now, target, lag);
    Replay.LiveTrainingIsReplayHistory(dates, seen, after, nwp, target, lag);
  }

  // ----- The writers -----

  /** A live report settles its day if it is not preliminary and the day has ended on the station's clock. */
  function LiveSaid(offset: int, reports: seq<Report>, observedAt: int): (said: seq<Said>)
    ensures |said| == |reports|
    ensures forall i :: 0 <= i < |said| ==>
      && said[i].date == reports[i].date && said[i].high == reports[i].high
      && (said[i].settles <==>
            !reports[i].isPreliminary && reports[i].date < LocalStandardDate(observedAt, offset))
  {
    seq(|reports|, i requires 0 <= i < |reports| =>
      Said(reports[i].date, reports[i].high,
           !reports[i].isPreliminary && reports[i].date < LocalStandardDate(observedAt, offset)))
  }

  predicate Usable(row: IemRow) {
    row.high.Some? && row.date.Some?
  }

  /**
   * An archive row settles its day never if its text reads as preliminary; with a marker, if that confirms it and the
   * day has ended; and without one, two days after it.
   */
  predicate ArchiveSettles(row: IemRow, offset: int, observedAt: int)
    requires Usable(row)
  {
    var today := LocalStandardDate(observedAt, offset);
    && !row.preliminaryText
    && (row.marker == Some(true) ==> row.date.value < today)
    && (row.marker == None ==> row.date.value + 2 <= today)
    && row.marker != Some(false)
  }

  /** What the usable rows of an archive say, in their order. */
  function ArchiveSaid(offset: int, archive: seq<IemRow>, observedAt: int): (said: seq<Said>) {
    if archive == [] then []
    else
      var last, before := archive[|archive| - 1], ArchiveSaid(offset, archive[..|archive| - 1], observedAt);
      if !Usable(last) then before
      else before + [Said(last.date.value, last.high.value, ArchiveSettles(last, offset, observedAt))]
  }

  /** What the years that could be fetched say. */
  function YearsSaid(offset: int, years: seq<Option<seq<IemRow>>>, observedAt: int): seq<Said> {
    if years == [] then []
    else
      var last, before := years[|years| - 1], YearsSaid(offset, years[..|years| - 1], observedAt);
      if last.None? then before else before + ArchiveSaid(offset, last.value, observedAt)
  }

  lemma LiveWritesSay(station: string, offset: int, reports: seq<Report>, observedAt: int)
    ensures WritesOf(LiveWrites(station, offset, reports, observedAt), station, "nws_cli", observedAt,
                     LiveSaid(offset, reports, observedAt))
  {
  }

  lemma {:induction false} ArchiveWritesSay(station: string, offset: int, archive: seq<IemRow>, observedAt: int)
    ensures WritesOf(IemWrites(station, offset, archive, observedAt), station, "iem_cli", observedAt,
                     ArchiveSaid(offset, archive, observedAt))
  {
    if archive != [] {
      ArchiveWritesSay(station, offset, archive[..|archive| - 1], observedAt);
    }
  }

  lemma {:induction false} YearWritesSay(station: string, offset: int, years: seq<Option<seq<IemRow>>>,
          observedAt: int)
    ensures WritesOf(YearWrites(station, offset, years, observedAt), station, "iem_cli", observedAt,
                     YearsSaid(offset, years, observedAt))
  {
    hide IemWrites, ArchiveSaid;
    if years != [] {
      var k := |years| - 1;
      YearWritesSay(station, offset, years[..k], observedAt);
      if years[k].Some? {
        ArchiveWritesSay(station, offset, years[k].value, observedAt);
      }
    }
  }

  class SettlementStore {
    var rows: Table

    constructor ()
      ensures rows == map[]
    {
      rows := map[];
    }

    method Upsert(w: Write)
      modifies this
      ensures rows == Upserted(old(rows), w)
    {
      var key := (w.station, w.date);
      if key !in rows || !rows[key].isFinal || w.row.isFinal {
        rows := rows[key := w.row];
      }
    }

    /** One station's share of the live refresh. */
    method RefreshStation(station: string, offset: int, reports: seq<Report>, observedAt: int)
      modifies this
      ensures rows == AfterWrites(old(rows), LiveWrites(station, offset, reports, observedAt))
      ensures Outcome(old(rows), rows, station, "nws_cli", observedAt, LiveSaid(offset, reports, observedAt))
    {
      hide Outcome, WritesOf;
      LiveWritesSay(station, offset, reports, observedAt);
      WritesHaveTheOutcome(rows, LiveWrites(station, offset, reports, observedAt), station, "nws_cli", observedAt,
                           LiveSaid(offset, reports, observedAt));
      for i := 0 to |reports|
        invariant rows == AfterWrites(old(rows), LiveWrites(station, offset, reports[..i], observedAt))
      {
        Upsert(LiveWrite(station, offset, reports[i], observedAt));
        assert LiveWrites(station, offset, reports[..i + 1], observedAt)[..i]
            == LiveWrites(station, offset, reports[..i], observedAt);
      }
      assert reports[..|reports|] == reports;
    }

    /** One year of the archive backfill; returns how many rows were written. */
    method BackfillYear(station: string, offset: int, archive: seq<IemRow>, observedAt: int) returns (written: nat)
      modifies this
      ensures rows == AfterWrites(old(rows), IemWrites(station, offset, archive, observedAt))
      ensures written == |IemWrites(station, offset, archive, observedAt)| == |ArchiveSaid(offset, archive, observedAt)|
      ensures Outcome(old(rows), rows, station, "iem_cli", observedAt, ArchiveSaid(offset, archive, observedAt))
    {
      hide Outcome;
      ArchiveWritesSay(station, offset, archive, observedAt);
      WritesHaveTheOutcome(rows, IemWrites(station, offset, archive, observedAt), station, "iem_cli", observedAt,
                           ArchiveSaid(offset, archive, observedAt));
      written := 0;
      for i := 0 to |archive|
        invariant rows == AfterWrites(old(rows), IemWrites(station, offset, archive[..i], observedAt))
        invariant written == |IemWrites(station, offset, archive[..i], observedAt)|
      {
        assert archive[..i + 1][..i] == archive[..i];
        var row := archive[i];
        if row.high.Some? && row.date.Some? {
          var date := row.date.value;
          var w := Write(station, date, Row(row.high.value, observedAt, "iem_cli",
                                            IemIsFinal(row, offset, date, observedAt)));
          Upsert(w);
          written := written + 1;
          var before := IemWrites(station, offset, archive[..i], observedAt);
          assert (before + [w])[..|before|] == before;
        }
      }
      assert archive[..|archive|] == archive;
    }

    /**
     * The archive backfill, year by year. A year that cannot be fetched is passed over; if that was every year, the
     * outage is told apart from an empty archive.
     */
    method Backfill(station: string, offset: int, years: seq<Option<seq<IemRow>>>, observedAt: int)
      returns (written: Option<nat>)
      modifies this
      ensures rows == AfterWrites(old(rows), YearWrites(station, offset, years, observedAt))
      ensures written.None? <==> years != [] && forall i :: 0 <= i < |years| ==> years[i].None?
      ensures written.Some? ==> written.value == |YearsSaid(offset, years, observedAt)|
      ensures Outcome(old(rows), rows, station, "iem_cli", observedAt, YearsSaid(offset, years, observedAt))
    {
      hide Outcome;
      YearWritesSay(station, offset, years, observedAt);
      WritesHaveTheOutcome(rows, YearWrites(station, offset, years, observedAt), station, "iem_cli", observedAt,
                           YearsSaid(offset, years, observedAt));
      var count, failed := 0, 0;
      for i := 0 to |years|
        invariant rows == AfterWrites(old(rows), YearWrites(station, offset, years[..i], observedAt))
        invariant count == |YearWrites(station, offset, years[..i], observedAt)|
        invariant failed <= i && (failed == i <==> forall j :: 0 <= j < i ==> years[j].None?)
      {
        assert years[..i + 1][..i] == years[..i];
        if years[i].None? {
          failed := failed + 1;
        } else {
          var more := BackfillYear(station, offset, years[i].value, observedAt);
          count := count + more;
          WritesCompose(old(rows), YearWrites(station, offset, years[..i], observedAt),
                        IemWrites(station, offset, years[i].value, observedAt));
        }
      }
      assert years[..|years|] == years;
      written := if failed > 0 && failed == |years| then None else Some(count);
    }
  }

  lemma {:induction false} WritesCompose(rows: Table, first: seq<Write>, second: seq<Write>)
    ensures AfterWrites(rows, first + second) == AfterWrites(AfterWrites(rows, first), second)
  {
    if second == [] {
      assert first + second == first;
    } else {
      var k := |second| - 1;
      WritesCompose(rows, first, second[..k]);
      assert (first + second)[..|first| + k] == first + second[..k];
    }
  }

  /** What the fetched years write, in order. */
  function YearWrites(station: string, offset: int, years: seq<Option<seq<IemRow>>>, observedAt: int): seq<Write> {
    if years == [] then []
    else
      var last, before := years[|years| - 1], YearWrites(station, offset, years[..|years| - 1], observedAt);
      if last.None? then before else before + IemWrites(station, offset, last.value, observedAt)
  }

  function LiveWrites(station: string, offset: int, reports: seq<Report>, observedAt: int): (ws: seq<Write>)
    ensures |ws| == |reports|
    ensures forall i :: 0 <= i < |ws| ==> ws[i] == LiveWrite(station, offset, reports[i], observedAt)
  {
    seq(|reports|, i requires 0 <= i < |reports| => LiveWrite(station, offset, reports[i], observedAt))
  }

  function IemWrites(station: string, offset: int, archive: seq<IemRow>, observedAt: int): seq<Write> {
    if archive == [] then []
    else
      var before := IemWrites(station, offset, archive[..|archive| - 1], observedAt);
      match IemWrite(station, offset, archive[|archive| - 1], observedAt)
      case None => before
      case Some(w) => before + [w]
  }

  // ----- Choosing among report versions -----

  predicate ReportsOn(version: Option<Report>, date: int) {
    version.Some? && version.value.date == date
  }

  /** Report i is what a date should settle on: its first final version, or its first version if none is final. */
  predicate Preferred(versions: seq<Option<Report>>, i: nat) {
    && i < |versions| && versions[i].Some?
    && var r := versions[i].value;
       && (forall j :: 0 <= j < i && ReportsOn(versions[j], r.date) ==>
             versions[j].value.isPreliminary && !r.isPreliminary)
       && (r.isPreliminary ==>
             forall j :: 0 <= j < |versions| && ReportsOn(versions[j], r.date) ==> versions[j].value.isPreliminary)
  }

  /** Versions arrive newest first; an unreadable or unparsed one is None. */
  method SelectReports(versions: seq<Option<Report>>) returns (reports: map<int, Report>)
    ensures forall d :: d in reports <==>
      exists i :: 0 <= i < |versions| && ReportsOn(versions[i], d)
    ensures forall i: nat :: Preferred(versions, i) ==>
      versions[i].value.date in reports && reports[versions[i].value.date] == versions[i].value
    ensures forall d :: d in reports ==> exists i: nat :: Preferred(versions, i) && versions[i].value == reports[d]
  {
    reports := map[];
    ghost var chosen: map<int, nat> := map[];
    for k := 0 to |versions|
      invariant reports.Keys == chosen.Keys
      invariant forall i :: 0 <= i < k && versions[i].Some? ==> versions[i].value.date in reports
      invariant forall d :: d in reports ==>
        && chosen[d] < k && Preferred(versions[..k], chosen[d])
        && versions[chosen[d]].value == reports[d] && reports[d].date == d
    {
      var version := versions[k];
      if version.Some? {
        var report := version.value;
        var d := report.date;
        if d !in reports || (reports[d].isPreliminary && !report.isPreliminary) {
          reports := reports[d := report];
          chosen := chosen[d := k];
        }
      }
    }
    assert versions[..|versions|] == versions;
    forall i: nat | Preferred(versions, i)
      ensures versions[i].value.date in reports && reports[versions[i].value.date] == versions[i].value
    {
      PreferredIsUnique(versions, i, chosen[versions[i].value.date]);
    }
  }

  lemma PreferredIsUnique(versions: seq<Option<Report>>, i: nat, j: nat)
    requires Preferred(versions, i) && Preferred(versions, j) && versions[i].value.date == versions[j].value.date
    ensures i == j
  {
  }
}
