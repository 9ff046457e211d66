/** Station-day highs from one WeatherKit response (forecaster/apple_weatherkit.py, parse_station_highs). */
module AppleParser {
  import opened Wrappers
  import opened SettlementCalendar
  import opened AppleCache
  import opened HourSets
  import opened RealOrder

  /** One hourly row; a temperature that is not a finite number is None. */
  datatype Hour = Hour(validAt: int, temperature: Option<real>)

  /** The parsed hourly product, and the diagnostic daily product when it is usable, with its own expiry. */
  datatype Daily = Daily(expiresAt: int, highs: map<int, real>)

  datatype Response = Response(readAt: int, expiresAt: int, hours: seq<Hour>, daily: Option<Daily>)

  datatype Place = Place(city: string, station: string, offset: int)

  datatype ParseError = AlreadyExpired | InvalidTemperature | DuplicateHour | NoStationDay

  // ----- Exact hours -----

  predicate OnHour(hour: Hour, offset: int) {
    TimeOfDay(hour.validAt, offset) % MICROS_PER_HOUR == 0
  }

  function DayOf(hour: Hour, offset: int): int {
    LocalStandardDate(hour.validAt, offset)
  }

  function HourOf(hour: Hour, offset: int): (h: nat)
    ensures h < 24
  {
    TimeOfDay(hour.validAt, offset) / MICROS_PER_HOUR
  }

  /** An exact hour of that station day. */
  predicate OfDay(hour: Hour, day: int, offset: int) {
    OnHour(hour, offset) && DayOf(hour, offset) == day
  }

  /** The row reports that hour of that station day. */
  predicate Reports(hour: Hour, day: int, h: nat, offset: int) {
    OnHour(hour, offset) && DayOf(hour, offset) == day && HourOf(hour, offset) == h
  }

  /**
   * A row reports an hour of a day exactly if it starts that many hours after the day's midnight on the fixed clock.
   */
  lemma ReportsAreExactHours(hour: Hour, day: int, h: nat, offset: int)
    ensures Reports(hour, day, h, offset) <==>
      h < 24 && hour.validAt + offset * 3_600_000_000 == day * 86_400_000_000 + h * 3_600_000_000
  {
    var local := hour.validAt + offset * 3_600_000_000;
    assert local == local / 86_400_000_000 * 86_400_000_000 + local % 86_400_000_000;
  }

  /** What the grouping dictionary holds after some rows: exactly what they report, each hour once. */
  ghost predicate Grouped(hours: seq<Hour>, offset: int, byDay: map<int, DayHours>) {
    && (forall k :: 0 <= k < |hours| && OnHour(hours[k], offset) ==>
          && DayOf(hours[k], offset) in byDay
          && HourOf(hours[k], offset) in byDay[DayOf(hours[k], offset)]
          && hours[k].temperature == Some(byDay[DayOf(hours[k], offset)][HourOf(hours[k], offset)]))
    && (forall day :: day in byDay ==> byDay[day] != map[])
    && (forall day, h: nat :: day in byDay && h in byDay[day] ==> Heard(hours, day, h, offset))
  }

  predicate Heard(hours: seq<Hour>, day: int, h: nat, offset: int) {
    exists k :: 0 <= k < |hours| && Reports(hours[k], day, h, offset)
  }

  predicate Repeats(hours: seq<Hour>, offset: int) {
    exists j, k :: 0 <= j < k < |hours| && SameHour(hours[j], hours[k], offset)
  }

  predicate SameHour(a: Hour, b: Hour, offset: int) {
    OnHour(a, offset) && OnHour(b, offset) && DayOf(a, offset) == DayOf(b, offset)
    && HourOf(a, offset) == HourOf(b, offset)
  }

  predicate BadTemperature(hours: seq<Hour>, offset: int) {
    exists k :: 0 <= k < |hours| && OnHour(hours[k], offset) && hours[k].temperature.None?
  }

  predicate NoHours(hours: seq<Hour>, offset: int) {
    forall k :: 0 <= k < |hours| ==> !OnHour(hours[k], offset)
  }

  lemma GroupedSkips(hours: seq<Hour>, hour: Hour, offset: int, byDay: map<int, DayHours>)
    requires Grouped(hours, offset, byDay) && !OnHour(hour, offset)
    ensures Grouped(hours + [hour], offset, byDay)
  {
    hide HourOf, DayOf, OnHour;
    HeardStays(hours, hour, offset);
  }

  lemma HeardStays(hours: seq<Hour>, hour: Hour, offset: int)
    ensures forall day, h: nat :: Heard(hours, day, h, offset) ==> Heard(hours + [hour], day, h, offset)
  {
    forall day, h: nat | Heard(hours, day, h, offset) ensures Heard(hours + [hour], day, h, offset) {
      var k :| 0 <= k < |hours| && Reports(hours[k], day, h, offset);
      assert Reports((hours + [hour])[k], day, h, offset);
    }
  }

  /** The dictionary with one more reading set. */
  function Put(byDay: map<int, DayHours>, day: int, h: nat, temperature: real): map<int, DayHours> {
    byDay[day := (if day in byDay then byDay[day] else map[])[h := temperature]]
  }

  lemma GroupedAdds(hours: seq<Hour>, hour: Hour, offset: int, byDay: map<int, DayHours>)
    requires Grouped(hours, offset, byDay) && OnHour(hour, offset) && hour.temperature.Some?
    requires DayOf(hour, offset) in byDay ==> HourOf(hour, offset) !in byDay[DayOf(hour, offset)]
    ensures Grouped(hours + [hour], offset,
                    Put(byDay, DayOf(hour, offset), HourOf(hour, offset), hour.temperature.value))
  {
    hide HourOf, DayOf, OnHour;
    var day, h := DayOf(hour, offset), HourOf(hour, offset);
    var more := Put(byDay, day, h, hour.temperature.value);
    HeardStays(hours, hour, offset);
    assert Reports((hours + [hour])[|hours|], day, h, offset);
    assert Heard(hours + [hour], day, h, offset);
    assert h in more[day];
  }

  lemma GroupedRejects(hours: seq<Hour>, i: nat, offset: int, byDay: map<int, DayHours>)
    requires i < |hours| && Grouped(hours[..i], offset, byDay) && OnHour(hours[i], offset)
    requires DayOf(hours[i], offset) in byDay && HourOf(hours[i], offset) in byDay[DayOf(hours[i], offset)]
    ensures Repeats(hours, offset)
  {
    hide HourOf, DayOf, OnHour;
    assert Heard(hours[..i], DayOf(hours[i], offset), HourOf(hours[i], offset), offset);
    var k :| 0 <= k < i && Reports(hours[..i][k], DayOf(hours[i], offset), HourOf(hours[i], offset), offset);
    assert SameHour(hours[k], hours[i], offset);
  }

  /** The prefix seen so far is clean: usable temperatures and no hour twice. */
  predicate Clean(hours: seq<Hour>, offset: int) {
    !Repeats(hours, offset) && !BadTemperature(hours, offset)
  }

  lemma CleanSkips(hours: seq<Hour>, hour: Hour, offset: int)
    requires Clean(hours, offset) && !OnHour(hour, offset)
    ensures Clean(hours + [hour], offset)
  {
    hide HourOf, DayOf, OnHour;
    var more := hours + [hour];
    forall j, k | 0 <= j < k < |more| ensures !SameHour(more[j], more[k], offset) {
      if k < |hours| {
        assert more[j] == hours[j] && more[k] == hours[k];
      }
    }
  }

  lemma CleanAdds(hours: seq<Hour>, hour: Hour, offset: int, byDay: map<int, DayHours>)
    requires Clean(hours, offset) && Grouped(hours, offset, byDay) && hour.temperature.Some? && OnHour(hour, offset)
    requires DayOf(hour, offset) in byDay ==> HourOf(hour, offset) !in byDay[DayOf(hour, offset)]
    ensures Clean(hours + [hour], offset)
  {
    hide HourOf, DayOf, OnHour;
    var more := hours + [hour];
    forall j, k | 0 <= j < k < |more| ensures !SameHour(more[j], more[k], offset) {
      if k < |hours| {
        assert more[j] == hours[j] && more[k] == hours[k];
      } else if OnHour(hours[j], offset) {
        assert more[j] == hours[j];
      }
    }
  }

  lemma NothingGrouped(offset: int)
    ensures Grouped([], offset, map[]) && Clean([], offset)
  {
  }

  /** Groups exact hours by station day; off-hour rows are passed over before their temperature is looked at. */
  method GroupByDay(hours: seq<Hour>, offset: int) returns (grouped: Result<map<int, DayHours>, ParseError>)
    ensures grouped.Ok? <==> Clean(hours, offset)
    ensures grouped.Ok? ==> Grouped(hours, offset, grouped.value)
    ensures grouped == Err(DuplicateHour) ==> Repeats(hours, offset)
    ensures grouped == Err(InvalidTemperature) ==> BadTemperature(hours, offset)
  {
    hide HourOf, DayOf, OnHour, Clean, Grouped, Repeats, Put;
    var byDay: map<int, DayHours> := map[];
    NothingGrouped(offset);
    var i := 0;
    while i < |hours|
      invariant 0 <= i <= |hours|
      invariant Grouped(hours[..i], offset, byDay) && Clean(hours[..i], offset)
    {
      assert hours[..i + 1] == hours[..i] + [hours[i]];
      var hour := hours[i];
      if !OnHour(hour, offset) {
        GroupedSkips(hours[..i], hour, offset, byDay);
        CleanSkips(hours[..i], hour, offset);
      } else {
        if hour.temperature.None? {
          BadIsNotClean(hours, i, offset);
          return Err(InvalidTemperature);
        }
        var day, h := DayOf(hour, offset), HourOf(hour, offset);
        if day in byDay && h in byDay[day] {
          GroupedRejects(hours, i, offset, byDay);
          RepeatsAreNotClean(hours, offset);
          return Err(DuplicateHour);
        }
        CleanAdds(hours[..i], hour, offset, byDay);
        GroupedAdds(hours[..i], hour, offset, byDay);
        byDay := Put(byDay, day, h, hour.temperature.value);
      }
      i := i + 1;
    }
    assert hours[..i] == hours;
    grouped := Ok(byDay);
  }

  lemma BadIsNotClean(hours: seq<Hour>, i: nat, offset: int)
    requires i < |hours| && OnHour(hours[i], offset) && hours[i].temperature.None?
    ensures BadTemperature(hours, offset) && !Clean(hours, offset)
  {
  }

  lemma RepeatsAreNotClean(hours: seq<Hour>, offset: int)
    requires Repeats(hours, offset)
    ensures !Clean(hours, offset)
  {
  }

  // ----- One day's snapshot -----

  /** The hours of the day that were reported. */
  ghost function HeardHours(hours: seq<Hour>, day: int, offset: int): set<nat> {
    set h: nat | h < 24 && Heard(hours, day, h, offset)
  }

  /** The day's snapshot says what its hours say. */
  ghost predicate Describes(snapshot: Snapshot, hours: seq<Hour>, place: Place) {
    && (exists k :: 0 <= k < |hours| && OfDay(hours[k], snapshot.target, place.offset)
          && hours[k].temperature == Some(snapshot.hourlyHigh))
    && (forall k :: 0 <= k < |hours| && OfDay(hours[k], snapshot.target, place.offset) ==>
          hours[k].temperature.Some? && hours[k].temperature.value <= snapshot.hourlyHigh)
    && (snapshot.complete <==> forall h: nat :: h < 24 ==> Heard(hours, snapshot.target, h, place.offset))
    && snapshot.coveredHours == |HeardHours(hours, snapshot.target, place.offset)|
    && (snapshot.complete ==> snapshot.coveredHours == 24)
  }

  lemma HeardIffGrouped(hours: seq<Hour>, byDay: map<int, DayHours>, day: int, h: nat, offset: int)
    requires Grouped(hours, offset, byDay) && day in byDay
    ensures Heard(hours, day, h, offset) <==> h in byDay[day]
  {
    hide HourOf, DayOf, OnHour;
    if Heard(hours, day, h, offset) {
      var k :| 0 <= k < |hours| && Reports(hours[k], day, h, offset);
    }
  }

  lemma GroupedHoursBelow24(hours: seq<Hour>, byDay: map<int, DayHours>, day: int, offset: int)
    requires Grouped(hours, offset, byDay) && day in byDay
    ensures forall h :: h in byDay[day] ==> h < 24
  {
    hide DayOf, OnHour;
    forall h | h in byDay[day] ensures h < 24 {
      var k :| 0 <= k < |hours| && Reports(hours[k], day, h, offset);
    }
  }

  function SnapshotOf(place: Place, target: int, fetchedAt: int, issuedAt: int, expiresAt: int, high: real,
          daily: Option<real>, dayHours: DayHours): Snapshot {
    Snapshot(place.city, place.station, target, fetchedAt, issuedAt, expiresAt, high, daily, |dayHours|,
             |dayHours| == 24 && EveryHour(dayHours))
  }

  lemma SnapshotDescribes(hours: seq<Hour>, byDay: map<int, DayHours>, day: int, place: Place, fetchedAt: int,
          issuedAt: int, expiresAt: int, high: real, daily: Option<real>)
    requires Grouped(hours, place.offset, byDay) && day in byDay && IsMax(byDay[day], high)
    ensures Describes(SnapshotOf(place, day, fetchedAt, issuedAt, expiresAt, high, daily, byDay[day]), hours, place)
  {
    hide HourOf, DayOf, OnHour;
    var offset := place.offset;
    GroupedHoursBelow24(hours, byDay, day, offset);
    TwentyFourIsEveryHour(byDay[day]);
    forall h: nat ensures Heard(hours, day, h, offset) <==> h in byDay[day] {
      HeardIffGrouped(hours, byDay, day, h, offset);
    }
    assert HeardHours(hours, day, offset) == byDay[day].Keys;
    var best :| best in byDay[day] && byDay[day][best] == high;
    var k :| 0 <= k < |hours| && Reports(hours[k], day, best, offset);
    assert hours[k].temperature == Some(high);
  }

  // ----- The parser -----

  lemma {:induction false} HasLeast(days: set<int>) returns (least: int)
    requires days != {}
    ensures least in days && forall day :: day in days ==> least <= day
    decreases |days|
  {
    if forall day :: day !in days {
      assert false;
    }
    var some :| some in days;
    var rest := days - {some};
    assert forall day :: day in days <==> day in rest || day == some;
    if rest == {} {
      least := some;
    } else {
      var other := HasLeast(rest);
      least := if some < other then some else other;
    }
  }

  method SortedDays(days: set<int>) returns (sorted: seq<int>)
    ensures StrictlyAscending(sorted) && forall day :: day in sorted <==> day in days
  {
    sorted := [];
    var remaining := days;
    while remaining != {}
      invariant remaining <= days && StrictlyAscending(sorted)
      invariant forall day :: day in sorted <==> day in days && day !in remaining
      invariant forall i, day :: 0 <= i < |sorted| && day in remaining ==> sorted[i] < day
      decreases |remaining|
    {
      ghost var least := HasLeast(remaining);
      var next :| next in remaining && forall day :: day in remaining ==> next <= day;
      sorted := sorted + [next];
      remaining := remaining - {next};
    }
  }

  /**
   * What every snapshot of one response shares, and the diagnostic high that the daily product gives its day, if any.
   */
  predicate Stamped(snapshot: Snapshot, response: Response, place: Place, fetchedAt: int) {
    var daily := UsableDaily(response, fetchedAt);
    && snapshot.city == place.city && snapshot.station == place.station
    && snapshot.fetchedAt == fetchedAt && snapshot.issuedAt == response.readAt
    && snapshot.expiresAt == ExpiryOf(response, fetchedAt)
    && snapshot.dailyHigh == if snapshot.target in daily then Some(daily[snapshot.target]) else None
  }

  /** The daily product counts only while unexpired, and then its expiry caps the snapshots too. */
  function UsableDaily(response: Response, fetchedAt: int): map<int, real> {
    if response.daily.Some? && response.daily.value.expiresAt > fetchedAt then response.daily.value.highs else map[]
  }

  /** An expired daily product counts for nothing. */
  lemma DailyCountsUntilItExpires(response: Response, fetchedAt: int, day: int)
    ensures day in UsableDaily(response, fetchedAt) <==>
      response.daily.Some? && fetchedAt < response.daily.value.expiresAt && day in response.daily.value.highs
    ensures day in UsableDaily(response, fetchedAt) ==>
      UsableDaily(response, fetchedAt)[day] == response.daily.value.highs[day]
  {
  }

  function ExpiryOf(response: Response, fetchedAt: int): int {
    if UsableDaily(response, fetchedAt) != map[] && response.daily.value.expiresAt < response.expiresAt
    then response.daily.value.expiresAt else response.expiresAt
  }

  /** A snapshot expires with the first product that it draws on. */
  lemma ExpiryIsTheEarliest(response: Response, fetchedAt: int)
    ensures var expiry := ExpiryOf(response, fetchedAt);
            var drawsOnDaily := exists day :: day in UsableDaily(response, fetchedAt);
            && expiry <= response.expiresAt
            && (drawsOnDaily ==> expiry <= response.daily.value.expiresAt)
            && (expiry == response.expiresAt || (drawsOnDaily && expiry == response.daily.value.expiresAt))
  {
    if forall day :: day !in UsableDaily(response, fetchedAt) {
      assert UsableDaily(response, fetchedAt) == map[];
    }
  }

  /**
   * One snapshot per station day that has an exact hour, in date order; each carries that day's maximum, counts its
   * reported hours, is complete exactly when all 24 were, carries the response's read time and the usable diagnostic
   * high, and expires after it was fetched.
   */
  method ParseStationHighs(response: Response, place: Place, fetchedAt: int) returns (result: Result<seq<Snapshot>,
          ParseError>)
    ensures result.Ok? <==>
      response.expiresAt > fetchedAt && Clean(response.hours, place.offset) && !NoHours(response.hours, place.offset)
    ensures result.Ok? ==>
      && (forall i :: 0 <= i < |result.value| ==> Describes(result.value[i], response.hours, place))
      && (forall i :: 0 <= i < |result.value| ==> Stamped(result.value[i], response, place, fetchedAt))
      && fetchedAt < ExpiryOf(response, fetchedAt)
      && (forall i, j :: 0 <= i < j < |result.value| ==> result.value[i].target < result.value[j].target)
      && (forall k :: 0 <= k < |response.hours| && OnHour(response.hours[k], place.offset) ==>
            exists i :: 0 <= i < |result.value| && result.value[i].target == DayOf(response.hours[k], place.offset))
    ensures result.Ok? ==>
      forall stations: Stations :: place.city in stations && stations[place.city] == place.station ==>
        ParserProduced(stations, place.city, result.value)
  {
    hide HourOf, DayOf, OnHour, Clean, Grouped, Describes, EveryHour;
    if response.expiresAt <= fetchedAt {
      return Err(AlreadyExpired);
    }
    var grouped := GroupByDay(response.hours, place.offset);
    if grouped.Err? {
      return Err(grouped.error);
    }
    var byDay, daily, expiresAt := grouped.value, UsableDaily(response, fetchedAt), ExpiryOf(response, fetchedAt);
    var days := SortedDays(byDay.Keys);
    var snapshots: seq<Snapshot>, i := [], 0;
    while i < |days|
      invariant 0 <= i == |snapshots| <= |days|
      invariant forall k :: 0 <= k < i ==>
        snapshots[k].target == days[k] && Describes(snapshots[k], response.hours, place)
      invariant forall k :: 0 <= k < i ==> Stamped(snapshots[k], response, place, fetchedAt)
    {
      var day := days[i];
      assert day in days;
      GroupedDayIsUsable(response.hours, byDay, day, place.offset);
      var high := MaxOf(byDay[day]);
      var diagnostic := if day in daily then Some(daily[day]) else None;
      SnapshotDescribes(response.hours, byDay, day, place, fetchedAt, response.readAt, expiresAt, high, diagnostic);
      snapshots := snapshots + [SnapshotOf(place, day, fetchedAt, response.readAt, expiresAt, high, diagnostic,
                                           byDay[day])];
      i := i + 1;
    }
    GroupedDays(response.hours, byDay, place.offset);
    if snapshots == [] {
      assert forall day :: day !in days;
      return Err(NoStationDay);
    }
    assert days[0] in days;
    AllProduced(snapshots, response.hours, place);
    result := Ok(snapshots);
  }

  lemma GroupedDayIsUsable(hours: seq<Hour>, byDay: map<int, DayHours>, day: int, offset: int)
    requires Grouped(hours, offset, byDay) && day in byDay
    ensures byDay[day] != map[] && forall h :: h in byDay[day] ==> h < 24
  {
    GroupedHoursBelow24(hours, byDay, day, offset);
  }

  /** The dictionary's days are the days of the exact hours. */
  lemma GroupedDays(hours: seq<Hour>, byDay: map<int, DayHours>, offset: int)
    requires Grouped(hours, offset, byDay)
    ensures forall k :: 0 <= k < |hours| && OnHour(hours[k], offset) ==> DayOf(hours[k], offset) in byDay
    ensures NoHours(hours, offset) <==> forall day :: day !in byDay
  {
    hide HourOf, DayOf, OnHour;
    if day :| day in byDay {
      var h :| h in byDay[day];
      var k :| 0 <= k < |hours| && Reports(hours[k], day, h, offset);
    }
  }

  lemma AllProduced(snapshots: seq<Snapshot>, hours: seq<Hour>, place: Place)
    requires forall i :: 0 <= i < |snapshots| ==>
      && Describes(snapshots[i], hours, place) && snapshots[i].city == place.city
      && snapshots[i].station == place.station
      && snapshots[i].expiresAt > snapshots[i].fetchedAt
    requires forall i, j :: 0 <= i < j < |snapshots| ==> snapshots[i].target < snapshots[j].target
    ensures forall stations: Stations :: place.city in stations && stations[place.city] == place.station ==>
      ParserProduced(stations, place.city, snapshots)
  {
  }
}
