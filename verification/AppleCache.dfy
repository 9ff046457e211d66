/**
 * The expiring Apple cache (forecaster/apple_weatherkit.py, AppleRuntimeCache): a strict reader over a rewritten file.
 */
module AppleCache {
  import opened Wrappers

  datatype Snapshot = Snapshot(city: string, station: string, target: int, fetchedAt: int, issuedAt: int,
                               expiresAt: int, hourlyHigh: real, dailyHigh: Option<real>, coveredHours: int,
                               complete: bool)

  /** The file on disk: absent, not a version-1 document at all, or a list of typed rows of any content. */
  datatype File = Missing | Unparsable | Entries(rows: seq<Snapshot>)

  type Stations = map<string, string>

  // ----- The strict reader -----

  predicate ValidRow(stations: Stations, row: Snapshot) {
    && row.city in stations && stations[row.city] == row.station
    && row.coveredHours == 24 && row.complete && row.expiresAt > row.fetchedAt
  }

  predicate SameIdentity(a: Snapshot, b: Snapshot) {
    a.city == b.city && a.target == b.target
  }

  predicate UniqueIdentities(rows: seq<Snapshot>) {
    forall i, j :: 0 <= i < j < |rows| ==> !SameIdentity(rows[i], rows[j])
  }

  predicate Valid(stations: Stations, rows: seq<Snapshot>) {
    UniqueIdentities(rows) && forall i :: 0 <= i < |rows| ==> ValidRow(stations, rows[i])
  }

  /** None stands for the error a corrupt or foreign file raises. */
  function Read(stations: Stations, file: File): Option<seq<Snapshot>> {
    match file
    case Missing => Some([])
    case Unparsable => None
    case Entries(rows) => if Valid(stations, rows) then Some(rows) else None
  }

  predicate Readable(stations: Stations, file: File) {
    Read(stations, file).Some?
  }

  /** What the strict reader demands: configured cities, complete days that outlive their fetch, and no day twice. */
  lemma ReaderDemands(stations: Stations, rows: seq<Snapshot>)
    ensures Readable(stations, Entries(rows)) <==>
      && (forall row :: row in rows ==>
            && row.city in stations && row.station == stations[row.city]
            && row.complete && row.coveredHours == 24 && row.fetchedAt < row.expiresAt)
      && (forall i, j :: 0 <= i < j < |rows| ==> rows[i].city != rows[j].city || rows[i].target != rows[j].target)
    ensures Readable(stations, Missing) && !Readable(stations, Unparsable)
  {
    forall i | 0 <= i < |rows| ensures rows[i] in rows {
    }
  }

  // ----- Filtering -----

  datatype Keep =
    | Unexpired(now: int)
    | UnexpiredElsewhere(city: string, now: int)
    | CompleteUnexpired(now: int)
    | ActiveIn(city: string, now: int)

  predicate Keeps(keep: Keep, row: Snapshot) {
    match keep
    case Unexpired(now) => row.expiresAt > now
    case UnexpiredElsewhere(city, now) => row.city != city && row.expiresAt > now
    case CompleteUnexpired(now) => row.complete && row.expiresAt > now
    case ActiveIn(city, now) => row.city == city && row.complete && row.expiresAt > now
  }

  function Select(rows: seq<Snapshot>, keep: Keep): (kept: seq<Snapshot>)
    ensures |kept| <= |rows|
    ensures forall row :: row in kept <==> row in rows && Keeps(keep, row)
    ensures |kept| == |rows| ==> kept == rows
  {
    if rows == [] then []
    else
      var before, last := Select(rows[..|rows| - 1], keep), rows[|rows| - 1];
      assert rows == rows[..|rows| - 1] + [last];
      if Keeps(keep, last) then before + [last] else before
  }

  lemma {:induction false} SelectKeepsUnique(rows: seq<Snapshot>, keep: Keep)
    requires UniqueIdentities(rows)
    ensures UniqueIdentities(Select(rows, keep))
  {
    if rows != [] {
      var k := |rows| - 1;
      SelectKeepsUnique(rows[..k], keep);
      var before := Select(rows[..k], keep);
      forall i | 0 <= i < |before| ensures !SameIdentity(before[i], rows[k]) {
        assert before[i] in rows[..k];
      }
    }
  }

  lemma SelectKeepsValid(stations: Stations, rows: seq<Snapshot>, keep: Keep)
    requires Valid(stations, rows)
    ensures Valid(stations, Select(rows, keep))
  {
    SelectKeepsUnique(rows, keep);
    forall i | 0 <= i < |Select(rows, keep)| ensures ValidRow(stations, Select(rows, keep)[i]) {
      assert Select(rows, keep)[i] in rows;
    }
  }

  // ----- Operations -----

  datatype Event =
    | ReplaceCity(city: string, snapshots: seq<Snapshot>, now: int)
    | Purge(now: int)
    | PurgeOrDiscard(now: int)
    | ReadHighs(city: string, now: int)
    | Discard

  function Purged(stations: Stations, file: File, now: int): File {
    var rows := Read(stations, file);
    if rows.None? then file
    else
      var active := Select(rows.value, Unexpired(now));
      if |active| == |rows.value| then file else if active == [] then Missing else Entries(active)
  }

  function Replaced(stations: Stations, file: File, city: string, snapshots: seq<Snapshot>, now: int): File {
    var rows := Read(stations, file);
    if rows.None? then file
    else Entries(Select(rows.value, UnexpiredElsewhere(city, now)) + Select(snapshots, CompleteUnexpired(now)))
  }

  /** The file after one operation; one that raises leaves it alone. */
  function After(stations: Stations, file: File, event: Event): File {
    match event
    case ReplaceCity(city, snapshots, now) => Replaced(stations, file, city, snapshots, now)
    case Purge(now) => Purged(stations, file, now)
    case PurgeOrDiscard(now) => if Readable(stations, file) then Purged(stations, file, now) else Missing
    case ReadHighs(_, now) => Purged(stations, file, now)
    case Discard => Missing
  }

  /** The rows that a file holds for the reader. */
  function Held(stations: Stations, file: File): seq<Snapshot> {
    match Read(stations, file)
    case None => []
    case Some(rows) => rows
  }

  /** An unreadable file is only ever discarded; whatever else is asked of it leaves it alone. */
  lemma UnreadableFilesStay(stations: Stations, file: File, event: Event)
    requires !Readable(stations, file)
    ensures After(stations, file, event) == if event.Discard? || event.PurgeOrDiscard? then Missing else file
  {
  }

  /** What each operation leaves of a readable file. */
  lemma OperationsHold(stations: Stations, file: File, event: Event, row: Snapshot)
    requires Readable(stations, file)
    requires event.ReplaceCity? ==> ParserProduced(stations, event.city, event.snapshots)
    ensures var after := After(stations, file, event);
            && Readable(stations, after)
            && (row in Held(stations, after) <==>
                  match event
                  case ReplaceCity(city, snapshots, now) =>
                    now < row.expiresAt
                    && if row in snapshots && row.complete then true
                        else row in Held(stations, file) && row.city != city
                  case Purge(now) => row in Held(stations, file) && now < row.expiresAt
                  case PurgeOrDiscard(now) => row in Held(stations, file) && now < row.expiresAt
                  case ReadHighs(_, now) => row in Held(stations, file) && now < row.expiresAt
                  case Discard => false)
  {
    hide Valid, ParserProduced;
    match event
    case ReplaceCity(city, snapshots, now) => ReplacementIsLocal(stations, file, city, snapshots, now);
    case Purge(now) => PurgeDropsExactlyTheExpired(stations, file, now);
    case PurgeOrDiscard(now) => PurgeDropsExactlyTheExpired(stations, file, now);
    case ReadHighs(_, now) => PurgeDropsExactlyTheExpired(stations, file, now);
    case Discard => EmptyIsValid(stations);
  }

  function Run(stations: Stations, file: File, events: seq<Event>): File {
    if events == [] then file
    else After(stations, Run(stations, file, events[..|events| - 1]), events[|events| - 1])
  }

  /** A run is its operations one after the other. */
  lemma RunsGoEventByEvent(stations: Stations, file: File, events: seq<Event>, event: Event)
    ensures Run(stations, file, []) == file
    ensures Run(stations, file, events + [event]) == After(stations, Run(stations, file, events), event)
  {
    assert (events + [event])[..|events|] == events;
  }

  // ----- What every run keeps -----

  /** What the parser hands to `replace_city`: one city's own days, each at most once, none already expired. */
  predicate ParserProduced(stations: Stations, city: string, snapshots: seq<Snapshot>) {
    && city in stations && UniqueIdentities(snapshots)
    && forall i :: 0 <= i < |snapshots| ==>
         && snapshots[i].city == city && snapshots[i].station == stations[city]
         && snapshots[i].expiresAt > snapshots[i].fetchedAt
         && (snapshots[i].complete ==> snapshots[i].coveredHours == 24)
  }

  predicate Produced(stations: Stations, event: Event) {
    event.ReplaceCity? ==> ParserProduced(stations, event.city, event.snapshots)
  }

  lemma ReplacedIsValid(stations: Stations, rows: seq<Snapshot>, city: string, snapshots: seq<Snapshot>, now: int)
    requires Valid(stations, rows) && ParserProduced(stations, city, snapshots)
    ensures Valid(stations, Select(rows, UnexpiredElsewhere(city, now)) + Select(snapshots, CompleteUnexpired(now)))
  {
    var others, own := Select(rows, UnexpiredElsewhere(city, now)), Select(snapshots, CompleteUnexpired(now));
    SelectKeepsValid(stations, rows, UnexpiredElsewhere(city, now));
    SelectKeepsUnique(snapshots, CompleteUnexpired(now));
    forall j | 0 <= j < |own| ensures ValidRow(stations, own[j]) && own[j].city == city {
      assert own[j] in own;
    }
    forall i, j | 0 <= i < |others| && 0 <= j < |own| ensures !SameIdentity(others[i], own[j]) {
      assert others[i] in others;
    }
  }

  lemma EventKeepsReadable(stations: Stations, file: File, event: Event)
    requires Readable(stations, file) && Produced(stations, event)
    ensures Readable(stations, After(stations, file, event))
  {
    hide Valid;
    var rows := Read(stations, file).value;
    EmptyIsValid(stations);
    match event
    case ReplaceCity(city, snapshots, now) => ReplacedIsValid(stations, rows, city, snapshots, now);
    case Purge(now) => SelectKeepsValid(stations, rows, Unexpired(now));
    case PurgeOrDiscard(now) => SelectKeepsValid(stations, rows, Unexpired(now));
    case ReadHighs(_, now) => SelectKeepsValid(stations, rows, Unexpired(now));
    case Discard =>
  }

  lemma EmptyIsValid(stations: Stations)
    ensures Valid(stations, [])
  {
  }

  /** From an absent file on, the strict reader accepts whatever any run of operations has written. */
  lemma {:induction false} EveryRunStaysReadable(stations: Stations, events: seq<Event>)
    requires forall i :: 0 <= i < |events| ==> Produced(stations, events[i])
    ensures Readable(stations, Run(stations, Missing, events))
  {
    if events != [] {
      EveryRunStaysReadable(stations, events[..|events| - 1]);
      EventKeepsReadable(stations, Run(stations, Missing, events[..|events| - 1]), events[|events| - 1]);
    }
  }

  predicate NothingExpired(file: File, now: int) {
    file.Entries? ==> forall row :: row in file.rows ==> row.expiresAt > now
  }

  /** A read or purge that succeeds leaves nothing at or past its expiry, and drops nothing else. */
  lemma PurgeDropsExactlyTheExpired(stations: Stations, file: File, now: int)
    requires Readable(stations, file)
    ensures NothingExpired(Purged(stations, file, now), now)
    ensures Readable(stations, Purged(stations, file, now))
    ensures forall row: Snapshot :: row in Read(stations, Purged(stations, file, now)).value <==>
              row in Read(stations, file).value && row.expiresAt > now
  {
    var rows := Read(stations, file).value;
    SelectKeepsValid(stations, rows, Unexpired(now));
  }

  /** Replacing one city touches no other city's unexpired row and leaves nothing expired behind. */
  lemma ReplacementIsLocal(stations: Stations, file: File, city: string, snapshots: seq<Snapshot>, now: int)
    requires Readable(stations, file) && ParserProduced(stations, city, snapshots)
    ensures var after := Replaced(stations, file, city, snapshots, now);
            && Readable(stations, after) && NothingExpired(after, now)
            && (forall row: Snapshot :: row.city != city ==>
                  (row in Read(stations, after).value <==> row in Read(stations, file).value && row.expiresAt > now))
            && (forall row: Snapshot :: row.city == city ==>
                  (row in Read(stations, after).value <==> row in snapshots && row.complete && row.expiresAt > now))
  {
    ReplacedIsValid(stations, Read(stations, file).value, city, snapshots, now);
    forall row | row in snapshots ensures row.city == city {
      var i :| 0 <= i < |snapshots| && snapshots[i] == row;
    }
  }

  datatype CacheError = Invalid

  /** One city's request: it fails, or its snapshots are accepted at some later instant. */
  datatype CityFetch = FetchFailed | Fetched(snapshots: seq<Snapshot>, acceptedAt: int)

  class AppleRuntimeCache {
    const stations: Stations
    var file: File

    constructor (stations: Stations)
      ensures this.stations == stations && file == Missing
    {
      this.stations := stations;
      file := Missing;
    }

    method ReplaceCity(city: string, snapshots: seq<Snapshot>, now: int) returns (result: Result<(), CacheError>)
      modifies this
      ensures file == After(stations, old(file), Event.ReplaceCity(city, snapshots, now))
      ensures result.Ok? <==> Readable(stations, old(file))
      ensures result.Ok? && ParserProduced(stations, city, snapshots) ==>
        Readable(stations, file) && NothingExpired(file, now)
    {
      var rows := Read(stations, file);
      if rows.None? {
        return Err(Invalid);
      }
      if ParserProduced(stations, city, snapshots) {
        ReplacementIsLocal(stations, file, city, snapshots, now);
      }
      var current := Select(rows.value, UnexpiredElsewhere(city, now));
      current := current + Select(snapshots, CompleteUnexpired(now));
      file := Entries(current);
      result := Ok(());
    }

    /** Also the purge a read begins with. */
    method PurgeExpired(now: int) returns (removed: Result<nat, CacheError>)
      modifies this
      ensures file == After(stations, old(file), Purge(now))
      ensures removed.Ok? <==> Readable(stations, old(file))
      ensures removed.Ok? ==>
        && Readable(stations, file) && NothingExpired(file, now)
        && removed.value == |Read(stations, old(file)).value| - |Read(stations, file).value|
    {
      var rows := Read(stations, file);
      if rows.None? {
        return Err(Invalid);
      }
      PurgeDropsExactlyTheExpired(stations, file, now);
      SelectKeepsValid(stations, rows.value, Unexpired(now));
      var active := Select(rows.value, Unexpired(now));
      var count := |rows.value| - |active|;
      if count > 0 {
        file := if active == [] then Missing else Entries(active);
      }
      removed := Ok(count);
    }

    method ActiveHighs(city: string, now: int) returns (result: Result<seq<Snapshot>, CacheError>)
      modifies this
      ensures file == After(stations, old(file), ReadHighs(city, now))
      ensures result.Ok? <==> Readable(stations, old(file))
      ensures result.Ok? ==> NothingExpired(file, now)
      ensures result.Ok? ==> forall row :: row in result.value <==>
        row in Read(stations, old(file)).value && row.city == city && row.expiresAt > now
    {
      ghost var before := file;
      var removed := PurgeExpired(now);
      if removed.Err? {
        return Err(Invalid);
      }
      PurgeDropsExactlyTheExpired(stations, before, now);
      var rows := Read(stations, file).value;
      result := Ok(Select(rows, ActiveIn(city, now)));
      forall row | row in rows ensures row.complete {
        var i :| 0 <= i < |rows| && rows[i] == row;
      }
    }

    method PurgeOrDiscardUnverifiable(now: int) returns (removed: nat, discarded: bool)
      modifies this
      ensures file == After(stations, old(file), PurgeOrDiscard(now))
      ensures discarded <==> !Readable(stations, old(file))
      ensures Readable(stations, file) && NothingExpired(file, now)
    {
      var count := PurgeExpired(now);
      if count.Err? {
        file := Missing;
        EmptyIsValid(stations);
        return 0, true;
      }
      removed, discarded := count.value, false;
    }

    /**
     * Refresh every city independently. Whatever the file held before, the strict reader accepts what is left, and a
     * city is refreshed exactly when its request brought a complete day that had not expired on acceptance.
     */
    method RefreshAppleWeather(cities: seq<string>, fetches: seq<CityFetch>,
            now: int) returns (refreshed: seq<string>, failed: seq<string>)
      requires |cities| == |fetches|
      requires forall i :: 0 <= i < |cities| && fetches[i].Fetched? ==>
        ParserProduced(stations, cities[i], fetches[i].snapshots)
      modifies this
      ensures Readable(stations, file)
      ensures refreshed == Chosen(cities, fetches, true) && failed == Chosen(cities, fetches, false)
      ensures file == AfterFetches(stations, After(stations, old(file), PurgeOrDiscard(now)), cities, fetches)
    {
      hide Valid, ParserProduced, NothingExpired;
      var _, _ := PurgeOrDiscardUnverifiable(now);
      ghost var start := file;
      refreshed, failed := [], [];
      var i := 0;
      while i < |cities|
        invariant 0 <= i <= |cities|
        invariant Readable(stations, file)
        invariant refreshed == Chosen(cities[..i], fetches[..i], true)
          && failed == Chosen(cities[..i], fetches[..i], false)
        invariant file == AfterFetches(stations, start, cities[..i], fetches[..i])
      {
        PrefixStep(cities, i);
        PrefixStep(fetches, i);
        if Brings(fetches[i]) {
          var complete := Select(fetches[i].snapshots, CompleteUnexpired(fetches[i].acceptedAt));
          CompleteOnesAreProduced(stations, cities[i], fetches[i].snapshots, fetches[i].acceptedAt);
          var _ := ReplaceCity(cities[i], complete, fetches[i].acceptedAt);
          refreshed := refreshed + [cities[i]];
        } else {
          failed := failed + [cities[i]];
        }
        i := i + 1;
      }
      assert cities[..i] == cities && fetches[..i] == fetches;
    }
  }

  lemma PrefixStep<T>(items: seq<T>, i: nat)
    requires i < |items|
    ensures |items[..i + 1]| == i + 1 && items[..i + 1][..i] == items[..i] && items[..i + 1][i] == items[i]
  {
  }

  predicate Brings(fetch: CityFetch) {
    fetch.Fetched? && Select(fetch.snapshots, CompleteUnexpired(fetch.acceptedAt)) != []
  }

  /** The cities whose request did, or did not, bring anything, in order. */
  function Chosen(cities: seq<string>, fetches: seq<CityFetch>, brought: bool): seq<string>
    requires |cities| == |fetches|
  {
    if cities == [] then []
    else
      var k := |cities| - 1;
      Chosen(cities[..k], fetches[..k], brought) + if Brings(fetches[k]) == brought then [cities[k]] else []
  }

  function AfterFetches(stations: Stations, file: File, cities: seq<string>, fetches: seq<CityFetch>): File
    requires |cities| == |fetches|
  {
    if cities == [] then file
    else
      var k := |cities| - 1;
      var before := AfterFetches(stations, file, cities[..k], fetches[..k]);
      if Brings(fetches[k]) then
        var chosen := Select(fetches[k].snapshots, CompleteUnexpired(fetches[k].acceptedAt));
        After(stations, before, Event.ReplaceCity(cities[k], chosen, fetches[k].acceptedAt))
      else before
  }

  /** A city is refreshed exactly when its request brought a complete day that had not expired on acceptance. */
  lemma {:induction false} ChosenAreTheirCities(cities: seq<string>, fetches: seq<CityFetch>, city: string)
    requires |cities| == |fetches|
    ensures city in Chosen(cities, fetches, true) <==>
      exists i :: 0 <= i < |cities| && cities[i] == city && BringsADay(fetches[i])
    ensures city in Chosen(cities, fetches, false) <==>
      exists i :: 0 <= i < |cities| && cities[i] == city && !BringsADay(fetches[i])
    ensures |Chosen(cities, fetches, true)| + |Chosen(cities, fetches, false)| == |cities|
  {
    hide Brings, BringsADay;
    if cities != [] {
      var k := |cities| - 1;
      ChosenAreTheirCities(cities[..k], fetches[..k], city);
      BringsADayIffBrings(fetches[k]);
      assert forall i :: 0 <= i < k ==> cities[..k][i] == cities[i] && fetches[..k][i] == fetches[i];
    }
  }

  predicate BringsADay(fetch: CityFetch) {
    fetch.Fetched? && exists row :: row in fetch.snapshots && row.complete && fetch.acceptedAt < row.expiresAt
  }

  lemma BringsADayIffBrings(fetch: CityFetch)
    ensures Brings(fetch) <==> BringsADay(fetch)
  {
    if fetch.Fetched? {
      var kept := Select(fetch.snapshots, CompleteUnexpired(fetch.acceptedAt));
      if kept != [] {
        assert kept[0] in kept;
      }
    }
  }

  /** Not expired at any acceptance from the k-th request on that brought something. */
  predicate Outlives(fetches: seq<CityFetch>, k: nat, expiresAt: int) {
    forall j :: k <= j < |fetches| && BringsADay(fetches[j]) ==> fetches[j].acceptedAt < expiresAt
  }

  lemma {:induction false} FetchesKeepReadable(stations: Stations, start: File, cities: seq<string>,
          fetches: seq<CityFetch>)
    requires |cities| == |fetches| && Readable(stations, start)
    requires forall k :: 0 <= k < |cities| && fetches[k].Fetched? ==>
      ParserProduced(stations, cities[k], fetches[k].snapshots)
    ensures Readable(stations, AfterFetches(stations, start, cities, fetches))
  {
    hide ParserProduced, Readable, BringsADay, After;
    if cities != [] {
      var k := |cities| - 1;
      assert forall j :: 0 <= j < k ==> cities[..k][j] == cities[j] && fetches[..k][j] == fetches[j];
      FetchesKeepReadable(stations, start, cities[..k], fetches[..k]);
      var row :| true;
      OneFetchMore(stations, start, cities, fetches, row);
    }
  }

  lemma NoFetches(stations: Stations, start: File)
    ensures AfterFetches(stations, start, [], []) == start
    ensures forall expiresAt :: Outlives([], 0, expiresAt)
  {
  }

  /** After a refresh a city that was refreshed once holds just the complete days its request brought. */
  lemma {:induction false} RefreshedCitiesHoldTheirDays(stations: Stations, start: File, cities: seq<string>,
          fetches: seq<CityFetch>, i: nat, row: Snapshot)
    requires |cities| == |fetches| && i < |cities| && Readable(stations, start) && row.city == cities[i]
    requires forall k :: 0 <= k < |cities| && fetches[k].Fetched? ==>
      ParserProduced(stations, cities[k], fetches[k].snapshots)
    requires BringsADay(fetches[i]) && forall k :: i < k < |cities| ==> cities[k] != cities[i]
    ensures Readable(stations, AfterFetches(stations, start, cities, fetches))
    ensures row in Held(stations, AfterFetches(stations, start, cities, fetches)) <==>
      row in fetches[i].snapshots && row.complete && Outlives(fetches, i, row.expiresAt)
  {
    hide ParserProduced, Readable, Held, BringsADay, AfterFetches, Outlives;
    FetchesKeepReadable(stations, start, cities, fetches);
    var k := |cities| - 1;
    assert forall j :: 0 <= j < k ==> cities[..k][j] == cities[j] && fetches[..k][j] == fetches[j];
    OneFetchMore(stations, start, cities, fetches, row);
    OutlivesOneMore(fetches, i, row.expiresAt);
    FetchesKeepReadable(stations, start, cities[..k], fetches[..k]);
    if i < k {
      RefreshedCitiesHoldTheirDays(stations, start, cities[..k], fetches[..k], i, row);
    }
  }

  /** And a city that was not refreshed keeps what outlives every acceptance. */
  lemma {:induction false} OtherCitiesKeepTheirDays(stations: Stations, start: File, cities: seq<string>,
          fetches: seq<CityFetch>, row: Snapshot)
    requires |cities| == |fetches| && Readable(stations, start)
    requires forall k :: 0 <= k < |cities| && fetches[k].Fetched? ==>
      ParserProduced(stations, cities[k], fetches[k].snapshots)
    requires forall k :: 0 <= k < |cities| && BringsADay(fetches[k]) ==> cities[k] != row.city
    ensures Readable(stations, AfterFetches(stations, start, cities, fetches))
    ensures row in Held(stations, AfterFetches(stations, start, cities, fetches)) <==>
      row in Held(stations, start) && Outlives(fetches, 0, row.expiresAt)
  {
    hide ParserProduced, Readable, Held, BringsADay, AfterFetches, Outlives;
    NoFetches(stations, start);
    if cities != [] {
      var k := |cities| - 1;
      assert forall j :: 0 <= j < k ==> cities[..k][j] == cities[j] && fetches[..k][j] == fetches[j];
      OneFetchMore(stations, start, cities, fetches, row);
      OutlivesOneMore(fetches, 0, row.expiresAt);
      OtherCitiesKeepTheirDays(stations, start, cities[..k], fetches[..k], row);
    }
  }

  lemma OutlivesOneMore(fetches: seq<CityFetch>, i: nat, expiresAt: int)
    requires i < |fetches|
    ensures var k := |fetches| - 1;
            Outlives(fetches, i, expiresAt) <==>
              (i < k ==> Outlives(fetches[..k], i, expiresAt))
              && (BringsADay(fetches[k]) ==> fetches[k].acceptedAt < expiresAt)
  {
    hide BringsADay;
    var k := |fetches| - 1;
    assert forall j :: 0 <= j < k ==> fetches[..k][j] == fetches[j];
  }

  lemma ProducedOfTheCity(stations: Stations, city: string, snapshots: seq<Snapshot>, row: Snapshot)
    requires ParserProduced(stations, city, snapshots) && row in snapshots
    ensures row.city == city
  {
    var i :| 0 <= i < |snapshots| && snapshots[i] == row;
  }

  /** The last request of a refresh, seen from one row. */
  lemma OneFetchMore(stations: Stations, start: File, cities: seq<string>, fetches: seq<CityFetch>, row: Snapshot)
    requires |cities| == |fetches| > 0 && Readable(stations, start)
    requires forall k :: 0 <= k < |cities| && fetches[k].Fetched? ==>
      ParserProduced(stations, cities[k], fetches[k].snapshots)
    ensures var k := |cities| - 1;
            var before := AfterFetches(stations, start, cities[..k], fetches[..k]);
            var after := AfterFetches(stations, start, cities, fetches);
            && (!BringsADay(fetches[k]) ==> after == before)
            && (BringsADay(fetches[k]) && row in fetches[k].snapshots ==> row.city == cities[k])
            && (BringsADay(fetches[k]) && Readable(stations, before) ==>
                  && Readable(stations, after)
                  && (row in Held(stations, after) <==>
                        && fetches[k].acceptedAt < row.expiresAt
                        && if row in fetches[k].snapshots && row.complete then true
                           else row in Held(stations, before) && row.city != cities[k]))
  {
    hide ParserProduced, Readable, Held, After;
    var k := |cities| - 1;
    var before := AfterFetches(stations, start, cities[..k], fetches[..k]);
    BringsADayIffBrings(fetches[k]);
    if BringsADay(fetches[k]) && row in fetches[k].snapshots {
      ProducedOfTheCity(stations, cities[k], fetches[k].snapshots, row);
    }
    if BringsADay(fetches[k]) && Readable(stations, before) {
      var chosen := Select(fetches[k].snapshots, CompleteUnexpired(fetches[k].acceptedAt));
      CompleteOnesAreProduced(stations, cities[k], fetches[k].snapshots, fetches[k].acceptedAt);
      OperationsHold(stations, before, Event.ReplaceCity(cities[k], chosen, fetches[k].acceptedAt), row);
    }
  }

  lemma CompleteOnesAreProduced(stations: Stations, city: string, snapshots: seq<Snapshot>, now: int)
    requires ParserProduced(stations, city, snapshots)
    ensures ParserProduced(stations, city, Select(snapshots, CompleteUnexpired(now)))
  {
    var kept := Select(snapshots, CompleteUnexpired(now));
    SelectKeepsUnique(snapshots, CompleteUnexpired(now));
    forall i | 0 <= i < |kept|
      ensures kept[i].city == city && kept[i].station == stations[city] && kept[i].expiresAt > kept[i].fetchedAt
              && (kept[i].complete ==> kept[i].coveredHours == 24)
    {
      assert kept[i] in snapshots;
    }
  }
}
