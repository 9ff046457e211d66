/** The runtime store object: each method is one transaction on its rows and watermarks. */
module GenerationStore {
  import opened Wrappers
  import opened RuntimeStore
  import opened RuntimeHighs

  datatype Lifetimes = Lifetimes(hourly: int, todayDaily: int, futureDaily: int, current: int)

  /** Every configured city, the civil date at each of them, and how long each kind of content may live. */
  datatype StoreConfig = StoreConfig(sites: Sites, civilDate: (string, int) -> int, lifetimes: Lifetimes)

  datatype StoreError = InvalidArgument

  /** One item of a mapping from instants or days to temperatures. */
  datatype Sample = Sample(slot: int, value: real)

  predicate DistinctSamples(samples: seq<Sample>) {
    forall i, j :: 0 <= i < j < |samples| ==> samples[i].slot != samples[j].slot
  }

  predicate Canonical(config: StoreConfig, city: string, station: string) {
    city in config.sites && config.sites[city].station == station
  }

  function HourlyEntries(config: StoreConfig, samples: seq<Sample>, stored: int): (entries: seq<Entry>)
    ensures |entries| == |samples|
    ensures forall i :: 0 <= i < |samples| ==>
      entries[i] == Entry(samples[i].slot, Reading(samples[i].value, stored + config.lifetimes.hourly))
  {
    seq(|samples|, i requires 0 <= i < |samples| =>
      Entry(samples[i].slot, Reading(samples[i].value, stored + config.lifetimes.hourly)))
  }

  /** A day that is over or under way at the city has the lifetime of today, a later one that of future days. */
  function DailyLifetime(config: StoreConfig, city: string, day: int, stored: int): int {
    if day <= config.civilDate(city, stored) then config.lifetimes.todayDaily else config.lifetimes.futureDaily
  }

  function DailyEntries(config: StoreConfig, city: string, samples: seq<Sample>, stored: int): (entries: seq<Entry>)
    ensures |entries| == |samples|
    ensures forall i :: 0 <= i < |samples| ==>
      entries[i] == Entry(samples[i].slot,
                          Reading(samples[i].value, stored + DailyLifetime(config, city, samples[i].slot, stored)))
  {
    seq(|samples|, i requires 0 <= i < |samples| =>
      Entry(samples[i].slot, Reading(samples[i].value, stored + DailyLifetime(config, city, samples[i].slot, stored))))
  }

  function DailyScope(city: string, station: string): Scope {
    Scope(Daily, city, station, None)
  }

  function CurrentScope(city: string, station: string): Scope {
    Scope(Current, city, station, None)
  }

  // ----- What a replacement leaves in its scope -----

  /** The scope holds one row per sample, all of that issue, each expiring as the rule for its slot says. */
  ghost predicate IsGeneration(rows: seq<Row>, scope: Scope, issued: int, samples: seq<Sample>, expiry: int -> int) {
    forall row: Row :: row in rows && row.scope == scope <==>
      exists sample ::
        sample in samples && row == Row(scope, issued, sample.slot, Reading(sample.value, expiry(sample.slot)))
  }

  /** No generation of the scope as late as that has been accepted. */
  predicate NotOlder(state: State, scope: Scope, issued: int) {
    scope in state.watermarks ==> state.watermarks[scope] <= issued
  }

  lemma GenerationIsStored(state: State, scope: Scope, issued: int, samples: seq<Sample>, entries: seq<Entry>,
          expiry: int -> int)
    requires Inv(state) && ValidStep(Replace(scope, issued, entries)) && NotOlder(state, scope, issued)
    requires |entries| == |samples|
    requires forall i :: 0 <= i < |samples| ==>
      entries[i] == Entry(samples[i].slot, Reading(samples[i].value, expiry(samples[i].slot)))
    ensures IsGeneration(Apply(state, Replace(scope, issued, entries)).rows, scope, issued, samples, expiry)
  {
    hide Refused;
    RefusedIffOlder(state, scope, issued);
    var rows, added := Apply(state, Replace(scope, issued, entries)).rows, Generation(scope, issued, entries);
    forall row: Row | row in rows && row.scope == scope
      ensures exists sample :: sample in samples
                               && row == Row(scope, issued, sample.slot, Reading(sample.value, expiry(sample.slot)))
    {
      assert row in added;
      var i :| 0 <= i < |added| && added[i] == row;
      assert samples[i] in samples;
    }
    forall sample | sample in samples
      ensures Row(scope, issued, sample.slot, Reading(sample.value, expiry(sample.slot))) in rows
    {
      var i :| 0 <= i < |samples| && samples[i] == sample;
      assert added[i] in added;
    }
  }

  /** Hourly rows live alike. */
  function HourlyExpiry(config: StoreConfig, stored: int): int -> int {
    _ => stored + config.lifetimes.hourly
  }

  /** Days up to the civil today of the city live as today does, later ones as the future does. */
  function DailyExpiry(config: StoreConfig, city: string, stored: int): int -> int {
    day => if config.civilDate(city, stored) < day then stored + config.lifetimes.futureDaily
           else stored + config.lifetimes.todayDaily
  }

  function CurrentExpiry(config: StoreConfig, stored: int): int -> int {
    _ => stored + config.lifetimes.current
  }

  lemma HourlyIsStored(state: State, config: StoreConfig, city: string, station: string, issued: int,
          samples: seq<Sample>, stored: int)
    requires Inv(state) && DistinctSamples(samples)
    ensures var scope := Scope(Hourly, city, station, None);
            var after := Apply(state, Replace(HourlyScope(city, station), issued,
                                              HourlyEntries(config, samples, stored)));
            if NotOlder(state, scope, issued)
            then IsGeneration(after.rows, scope, issued, samples, HourlyExpiry(config, stored)) else after == state
  {
    hide Refused;
    RefusedIffOlder(state, HourlyScope(city, station), issued);
    if NotOlder(state, HourlyScope(city, station), issued) {
      GenerationIsStored(state, HourlyScope(city, station), issued, samples, HourlyEntries(config, samples, stored),
                         HourlyExpiry(config, stored));
    }
  }

  lemma DailyIsStored(state: State, config: StoreConfig, city: string, station: string, issued: int,
          samples: seq<Sample>, stored: int)
    requires Inv(state) && DistinctSamples(samples)
    ensures var scope := Scope(Daily, city, station, None);
            var entries := DailyEntries(config, city, samples, stored);
            var after := Apply(state, Replace(DailyScope(city, station), issued, entries));
            if NotOlder(state, scope, issued)
            then IsGeneration(after.rows, scope, issued, samples, DailyExpiry(config, city, stored)) else after == state
  {
    hide Refused;
    RefusedIffOlder(state, DailyScope(city, station), issued);
    if NotOlder(state, DailyScope(city, station), issued) {
      GenerationIsStored(state, DailyScope(city, station), issued, samples, DailyEntries(config, city, samples, stored),
                         DailyExpiry(config, city, stored));
    }
  }

  lemma CurrentIsStored(state: State, config: StoreConfig, city: string, station: string, issued: int, sample: Sample,
          stored: int)
    requires Inv(state)
    ensures var scope := Scope(Current, city, station, None);
            var entry := Entry(sample.slot, Reading(sample.value, stored + config.lifetimes.current));
            var after := Apply(state, Replace(CurrentScope(city, station), issued, [entry]));
            if NotOlder(state, scope, issued)
            then IsGeneration(after.rows, scope, issued, [sample], CurrentExpiry(config, stored)) else after == state
  {
    hide Refused;
    RefusedIffOlder(state, CurrentScope(city, station), issued);
    if NotOlder(state, CurrentScope(city, station), issued) {
      GenerationIsStored(state, CurrentScope(city, station), issued, [sample],
                         [Entry(sample.slot, Reading(sample.value, stored + config.lifetimes.current))],
                         CurrentExpiry(config, stored));
    }
  }

  /** The write a derivation from these rows performs. */
  function DerivedStep(site: Site, city: string, target: int, day: seq<Row>): (step: Step)
    requires day != []
    ensures ValidStep(step)
  {
    WriteHigh(HighScope(city, site.station, target), day[0].issuedAt, Summary(day))
  }

  predicate Fits(row: Row, city: string, station: string, issued: int, target: int, offset: int) {
    row.scope == HourlyScope(city, station) && row.issuedAt == issued && InDay(row, target, offset)
  }

  predicate AllFit(rows: seq<Row>, city: string, station: string, issued: int, target: int, offset: int) {
    && (forall i :: 0 <= i < |rows| ==> Fits(rows[i], city, station, issued, target, offset))
    && (forall i, j :: 0 <= i < j < |rows| ==> rows[i].slot != rows[j].slot)
  }

  /** What write_runtime_high demands of the rows it summarises. */
  predicate ValidConstituents(rows: seq<Row>, city: string, station: string, issued: int, target: int, offset: int) {
    rows != [] && AllFit(rows, city, station, issued, target, offset)
  }

  lemma OneMoreFits(rows: seq<Row>, i: nat, city: string, station: string, issued: int, target: int, offset: int)
    requires i < |rows|
    ensures AllFit(rows[..i + 1], city, station, issued, target, offset) <==>
      && AllFit(rows[..i], city, station, issued, target, offset)
      && Fits(rows[i], city, station, issued, target, offset) && rows[i].slot !in Slots(rows[..i])
    ensures Slots(rows[..i + 1]) == Slots(rows[..i]) + {rows[i].slot}
  {
    hide Fits;
    assert rows[..i + 1] == rows[..i] + [rows[i]];
    assert rows[..i + 1][..i] == rows[..i];
    if rows[i].slot in Slots(rows[..i]) {
      var j :| 0 <= j < i && rows[..i][j].slot == rows[i].slot;
      assert rows[..i + 1][j].slot == rows[..i + 1][i].slot;
    }
  }

  lemma PrefixFits(rows: seq<Row>, i: nat, city: string, station: string, issued: int, target: int, offset: int)
    requires i <= |rows| && AllFit(rows, city, station, issued, target, offset)
    ensures AllFit(rows[..i], city, station, issued, target, offset)
  {
    hide Fits;
  }

  lemma SummaryExtends(rows: seq<Row>, i: nat)
    requires i < |rows|
    ensures MaxValue(rows[..i + 1]) ==
      if i > 0 && rows[i].payload.value <= MaxValue(rows[..i]) then MaxValue(rows[..i]) else rows[i].payload.value
    ensures MinExpiry(rows[..i + 1]) ==
      if i > 0 && MinExpiry(rows[..i]) <= rows[i].payload.expiresAt then MinExpiry(rows[..i])
      else rows[i].payload.expiresAt
  {
    assert rows[..i + 1][..i] == rows[..i];
  }

  datatype Grouped = Grouped(issuedAt: int, constituents: seq<Row>)

  /** The loop state of the grouping: exact hours seen so far, and nothing anomalous among them. */
  ghost predicate GroupsPrefix(rows: seq<Row>, target: int, offset: int, byHour: map<nat, Row>, issue: Option<int>) {
    && !Anomalous(rows, target, offset)
    && (issue.None? <==> byHour == map[])
    && (forall hour: nat :: hour in byHour ==>
          byHour[hour] in rows && InDay(byHour[hour], target, offset) && HourOf(byHour[hour], offset) == hour
          && issue == Some(byHour[hour].issuedAt))
    && (forall row :: row in rows && InDay(row, target, offset) ==>
        HourOf(row, offset) in byHour && byHour[HourOf(row, offset)] == row)
  }

  lemma GroupingSkips(rows: seq<Row>, row: Row, target: int, offset: int, byHour: map<nat, Row>, issue: Option<int>)
    requires GroupsPrefix(rows, target, offset, byHour, issue) && !InDay(row, target, offset)
    ensures GroupsPrefix(rows + [row], target, offset, byHour, issue)
  {
  }

  lemma GroupingAdds(rows: seq<Row>, row: Row, target: int, offset: int, byHour: map<nat, Row>, issue: Option<int>)
    requires GroupsPrefix(rows, target, offset, byHour, issue) && InDay(row, target, offset)
    requires issue.Some? ==> issue.value == row.issuedAt
    requires HourOf(row, offset) !in byHour
    ensures GroupsPrefix(rows + [row], target, offset, byHour[HourOf(row, offset) := row], Some(row.issuedAt))
  {
    var more, hour := rows + [row], HourOf(row, offset);
    hide InDay, HourOf;
    forall i, j | 0 <= i < j < |more| ensures !Clash(more[i], more[j], target, offset) {
      if j < |rows| {
        assert more[i] == rows[i] && more[j] == rows[j];
      } else if InDay(rows[i], target, offset) {
        assert rows[i] in rows && HourOf(rows[i], offset) in byHour;
      }
    }
    assert hour in byHour[hour := row];
  }

  lemma GroupingRejects(rows: seq<Row>, i: nat, target: int, offset: int, byHour: map<nat, Row>, issue: Option<int>,
          hour: nat)
    requires i < |rows| && GroupsPrefix(rows[..i], target, offset, byHour, issue) && InDay(rows[i], target, offset)
    requires hour in byHour && (issue != Some(rows[i].issuedAt) || hour == HourOf(rows[i], offset))
    ensures Anomalous(rows, target, offset)
  {
    var j :| 0 <= j < i && rows[..i][j] == byHour[hour];
    assert Clash(rows[j], rows[i], target, offset);
  }

  /** Hours in ascending order, from the dictionary. */
  ghost predicate ListsHours(listed: seq<Row>, byHour: map<nat, Row>, bound: nat, offset: int) {
    && (forall row :: row in listed <==> exists hour: nat :: hour < bound && hour in byHour && byHour[hour] == row)
    && (forall i :: 0 <= i < |listed| ==> HourOf(listed[i], offset) < bound)
    && (forall i, j :: 0 <= i < j < |listed| ==> HourOf(listed[i], offset) < HourOf(listed[j], offset))
  }

  lemma ListsOneMore(listed: seq<Row>, byHour: map<nat, Row>, hour: nat, offset: int)
    requires ListsHours(listed, byHour, hour, offset)
    requires hour in byHour ==> HourOf(byHour[hour], offset) == hour
    ensures ListsHours(if hour in byHour then listed + [byHour[hour]] else listed, byHour, hour + 1, offset)
  {
    hide HourOf;
    var more := if hour in byHour then listed + [byHour[hour]] else listed;
    forall row ensures row in more <==> exists h: nat :: h < hour + 1 && h in byHour && byHour[h] == row {
      if row in listed {
        var h: nat :| h < hour && h in byHour && byHour[h] == row;
      }
    }
  }

  lemma NothingGrouped(target: int, offset: int)
    ensures GroupsPrefix([], target, offset, map[], None)
  {
  }

  lemma NoIssueNoDay(rows: seq<Row>, target: int, offset: int, byHour: map<nat, Row>)
    requires GroupsPrefix(rows, target, offset, byHour, None)
    ensures DayRows(rows, target, offset) == []
  {
    forall row ensures row !in DayRows(rows, target, offset) {
      if row in rows && InDay(row, target, offset) {
        assert byHour[HourOf(row, offset)] == row;
      }
    }
  }

  method ListHours(byHour: map<nat, Row>, offset: int) returns (listed: seq<Row>)
    requires forall hour :: hour in byHour ==> HourOf(byHour[hour], offset) == hour
    ensures ListsHours(listed, byHour, 24, offset)
  {
    hide HourOf;
    listed := [];
    var next := 0;
    while next < 24
      invariant 0 <= next <= 24
      invariant ListsHours(listed, byHour, next, offset)
    {
      ListsOneMore(listed, byHour, next, offset);
      if next in byHour {
        listed := listed + [byHour[next]];
      }
      next := next + 1;
    }
  }

  /** Groups one issue's rows into exact hours of the day, or fails closed on any anomaly. */
  method GroupStationDayHours(rows: seq<Row>, target: int, offset: int) returns (grouped: Option<Grouped>)
    ensures grouped.None? <==> Anomalous(rows, target, offset) || DayRows(rows, target, offset) == []
    ensures grouped.Some? ==>
      var constituents := grouped.value.constituents;
      && constituents != []
      && (forall row :: row in constituents <==> row in DayRows(rows, target, offset))
      && (forall row :: row in constituents ==> row.issuedAt == grouped.value.issuedAt)
      && (forall i, j :: 0 <= i < j < |constituents| ==>
          HourOf(constituents[i], offset) < HourOf(constituents[j], offset))
  {
    hide InDay, HourOf, DayRows, Anomalous, ListsHours;
    var byHour: map<nat, Row>, issue := map[], None;
    NothingGrouped(target, offset);
    var i := 0;
    while i < |rows|
      invariant 0 <= i <= |rows|
      invariant GroupsPrefix(rows[..i], target, offset, byHour, issue)
    {
      assert rows[..i + 1] == rows[..i] + [rows[i]];
      var hour := HourOf(rows[i], offset);
      if !InDay(rows[i], target, offset) {
        GroupingSkips(rows[..i], rows[i], target, offset, byHour, issue);
      } else {
        if issue.Some? && rows[i].issuedAt != issue.value {
          ghost var seen: nat :| seen in byHour;
          GroupingRejects(rows, i, target, offset, byHour, issue, seen);
          return None;
        }
        if hour in byHour {
          GroupingRejects(rows, i, target, offset, byHour, issue, hour);
          return None;
        }
        GroupingAdds(rows[..i], rows[i], target, offset, byHour, issue);
        issue, byHour := Some(rows[i].issuedAt), byHour[hour := rows[i]];
      }
      i := i + 1;
    }
    assert rows[..i] == rows;
    if issue.None? {
      NoIssueNoDay(rows, target, offset, byHour);
      return None;
    }
    var constituents := ListHours(byHour, offset);
    GroupingComplete(rows, target, offset, byHour, issue, constituents);
    grouped := Some(Grouped(issue.value, constituents));
  }

  lemma GroupingComplete(rows: seq<Row>, target: int, offset: int, byHour: map<nat, Row>, issue: Option<int>,
          constituents: seq<Row>)
    requires GroupsPrefix(rows, target, offset, byHour, issue) && issue.Some?
    requires ListsHours(constituents, byHour, 24, offset)
    ensures constituents != [] && !Anomalous(rows, target, offset)
    ensures forall row :: row in constituents <==> row in DayRows(rows, target, offset)
    ensures forall row :: row in constituents ==> row.issuedAt == issue.value
    ensures forall i, j :: 0 <= i < j < |constituents| ==>
      HourOf(constituents[i], offset) < HourOf(constituents[j], offset)
    ensures DayRows(rows, target, offset) != []
  {
    forall row ensures row in constituents <==> row in DayRows(rows, target, offset) {
      if row in constituents {
        var hour: nat :| hour < 24 && hour in byHour && byHour[hour] == row;
      }
      if row in DayRows(rows, target, offset) {
        assert byHour[HourOf(row, offset)] == row;
      }
    }
    var hour: nat :| hour in byHour;
    assert byHour[hour] in DayRows(rows, target, offset);
  }

  class GoogleRuntimeStore {
    const config: StoreConfig
    var rows: seq<Row>
    var watermarks: map<Scope, int>

    function Contents(): State
      reads this
    {
      State(rows, watermarks)
    }

    ghost predicate Valid()
      reads this
    {
      Inv(Contents())
    }

    constructor (config: StoreConfig)
      ensures this.config == config && Contents() == EMPTY && Valid()
    {
      this.config := config;
      rows, watermarks := [], map[];
    }

    /** Any other processes' transactions, in any order. */
    method Interfere(steps: seq<Step>)
      requires Valid() && ValidSteps(steps)
      modifies this
      ensures Valid() && Contents() == Run(old(Contents()), steps)
    {
      RunKeepsInv(Contents(), steps);
      var after := Run(Contents(), steps);
      rows, watermarks := after.rows, after.watermarks;
    }

    /** Replace a scope's whole generation, unless it is older than the newest accepted. */
    method ReplaceGeneration(scope: Scope, issued: int, entries: seq<Entry>) returns (accepted: bool)
      requires Valid() && ValidStep(Replace(scope, issued, entries))
      modifies this
      ensures Valid() && Contents() == Apply(old(Contents()), Replace(scope, issued, entries))
      ensures accepted <==> scope !in old(watermarks) || issued >= old(watermarks)[scope]
      ensures !accepted ==> Contents() == old(Contents())
    {
      StepKeepsInv(Contents(), Replace(scope, issued, entries));
      RefusedIffOlder(Contents(), scope, issued);
      var latest := Latest(Contents(), scope);
      if latest.Some? && issued < latest.value {
        return false;
      }
      watermarks := watermarks[scope := issued];
      rows := Delete(rows, OfScope(scope)) + Generation(scope, issued, entries);
      accepted := true;
    }

    method ReplaceHourlyGeneration(city: string, station: string, issued: int, samples: seq<Sample>, stored: int)
      returns (result: Result<bool, StoreError>)
      requires Valid() && DistinctSamples(samples)
      modifies this
      ensures Valid()
      ensures !Canonical(config, city, station) ==> result == Err(InvalidArgument) && Contents() == old(Contents())
      ensures Canonical(config, city, station) ==>
        && result.Ok?
        && Contents() == Apply(old(Contents()),
                               Replace(HourlyScope(city, station), issued, HourlyEntries(config, samples, stored)))
        && (result.value <==> !Refused(old(Contents()), HourlyScope(city, station), issued))
      ensures result.Ok? <==> city in config.sites && config.sites[city].station == station
      ensures result.Ok? ==>
        && (result.value <==> NotOlder(old(Contents()), Scope(Hourly, city, station, None), issued))
        && (result.value ==> IsGeneration(rows, Scope(Hourly, city, station, None), issued, samples,
                                          HourlyExpiry(config, stored)))
    {
      hide IsGeneration;
      HourlyIsStored(Contents(), config, city, station, issued, samples, stored);
      if !Canonical(config, city, station) {
        return Err(InvalidArgument);
      }
      RefusedIffOlder(Contents(), HourlyScope(city, station), issued);
      var accepted := ReplaceGeneration(HourlyScope(city, station), issued, HourlyEntries(config, samples, stored));
      result := Ok(accepted);
    }

    method ReplaceDailyGeneration(city: string, station: string, issued: int, samples: seq<Sample>, stored: int)
      returns (result: Result<bool, StoreError>)
      requires Valid() && DistinctSamples(samples)
      modifies this
      ensures Valid()
      ensures !Canonical(config, city, station) ==> result == Err(InvalidArgument) && Contents() == old(Contents())
      ensures Canonical(config, city, station) ==>
        && result.Ok?
        && Contents() == Apply(old(Contents()),
                               Replace(DailyScope(city, station), issued, DailyEntries(config, city, samples, stored)))
      ensures result.Ok? <==> city in config.sites && config.sites[city].station == station
      ensures result.Ok? ==>
        && (result.value <==> NotOlder(old(Contents()), Scope(Daily, city, station, None), issued))
        && (result.value ==> IsGeneration(rows, Scope(Daily, city, station, None), issued, samples,
                                          DailyExpiry(config, city, stored)))
    {
      hide IsGeneration;
      DailyIsStored(Contents(), config, city, station, issued, samples, stored);
      RefusedIffOlder(Contents(), DailyScope(city, station), issued);
      if !Canonical(config, city, station) {
        return Err(InvalidArgument);
      }
      var accepted := ReplaceGeneration(DailyScope(city, station), issued, DailyEntries(config, city, samples, stored));
      result := Ok(accepted);
    }

    method ReplaceCurrentGeneration(city: string, station: string, issued: int, observed: Sample, stored: int)
      returns (result: Result<bool, StoreError>)
      requires Valid()
      modifies this
      ensures Valid()
      ensures !Canonical(config, city, station) ==> result == Err(InvalidArgument) && Contents() == old(Contents())
      ensures Canonical(config, city, station) ==>
        && result.Ok?
        && Contents() == Apply(old(Contents()), Replace(CurrentScope(city, station), issued,
             [Entry(observed.slot, Reading(observed.value, stored + config.lifetimes.current))]))
      ensures result.Ok? <==> city in config.sites && config.sites[city].station == station
      ensures result.Ok? ==>
        && (result.value <==> NotOlder(old(Contents()), Scope(Current, city, station, None), issued))
        && (result.value ==> IsGeneration(rows, Scope(Current, city, station, None), issued, [observed],
                                          CurrentExpiry(config, stored)))
    {
      hide IsGeneration;
      CurrentIsStored(Contents(), config, city, station, issued, observed, stored);
      RefusedIffOlder(Contents(), CurrentScope(city, station), issued);
      if !Canonical(config, city, station) {
        return Err(InvalidArgument);
      }
      var accepted := ReplaceGeneration(CurrentScope(city, station), issued,
                                        [Entry(observed.slot,
                                               Reading(observed.value, stored + config.lifetimes.current))]);
      result := Ok(accepted);
    }

    /** Validates the constituents one by one while taking their maximum and their earliest expiry. */
    method Summarise(city: string, station: string, issued: int, target: int, offset: int, constituents: seq<Row>)
      returns (payload: Option<Payload>)
      ensures payload.Some? <==> ValidConstituents(constituents, city, station, issued, target, offset)
      ensures payload.Some? ==> payload.value == Summary(constituents)
    {
      hide AllFit, MaxValue, MinExpiry, InDay;
      if constituents == [] {
        return None;
      }
      var high, expiry := constituents[0].payload.value, constituents[0].payload.expiresAt;
      var seen: set<int> := {};
      var i := 0;
      NothingToFit(city, station, issued, target, offset);
      while i < |constituents|
        invariant 0 <= i <= |constituents|
        invariant AllFit(constituents[..i], city, station, issued, target, offset)
        invariant i > 0 ==> high == MaxValue(constituents[..i]) && expiry == MinExpiry(constituents[..i])
        invariant i == 0 ==> high == constituents[0].payload.value && expiry == constituents[0].payload.expiresAt
        invariant seen == Slots(constituents[..i])
      {
        var row := constituents[i];
        OneMoreFits(constituents, i, city, station, issued, target, offset);
        SummaryExtends(constituents, i);
        if !Fits(row, city, station, issued, target, offset) || row.slot in seen {
          if AllFit(constituents, city, station, issued, target, offset) {
            PrefixFits(constituents, i + 1, city, station, issued, target, offset);
          }
          return None;
        }
        seen := seen + {row.slot};
        high := if row.payload.value > high then row.payload.value else high;
        expiry := if row.payload.expiresAt < expiry then row.payload.expiresAt else expiry;
        i := i + 1;
      }
      assert constituents[..i] == constituents;
      payload := Some(DayHigh(high, |constituents|, |constituents| == 24, expiry));
    }

    method WriteRuntimeHigh(city: string, station: string, issued: int, target: int, constituents: seq<Row>)
      returns (result: Result<bool, StoreError>)
      requires Valid()
      modifies this
      ensures Valid()
      ensures result.Ok? <==>
        && Canonical(config, city, station)
        && ValidConstituents(constituents, city, station, issued, target, config.sites[city].standardOffset)
      ensures result.Ok? ==>
        && Contents() == Apply(old(Contents()),
                               WriteHigh(HighScope(city, station, target), issued, Summary(constituents)))
        && (result.value <==> !Refused(old(Contents()), HighScope(city, station, target), issued))
      ensures result.Err? ==> Contents() == old(Contents())
    {
      if !Canonical(config, city, station) {
        return Err(InvalidArgument);
      }
      var offset := config.sites[city].standardOffset;
      var payload := Summarise(city, station, issued, target, offset, constituents);
      if payload.None? {
        return Err(InvalidArgument);
      }
      CompleteIffEveryHour(constituents, target, offset);
      var scope := HighScope(city, station, target);
      StepKeepsInv(Contents(), WriteHigh(scope, issued, payload.value));
      var latest := Latest(Contents(), scope);
      if latest.Some? && issued < latest.value {
        return Ok(false);
      }
      watermarks := watermarks[scope := issued];
      if latest.Some? && issued > latest.value {
        rows := Delete(rows, OlderIn(scope, issued));
      }
      rows := Upsert(rows, Row(scope, issued, target, payload.value));
      result := Ok(true);
    }

    /** Deletes exactly the expired rows, leaves every watermark, and reports how many rows went. */
    method PurgeExpired(now: int) returns (deleted: nat)
      requires Valid()
      modifies this
      ensures Valid() && Contents() == Apply(old(Contents()), Purge(now))
      ensures deleted == |old(rows)| - |rows| && watermarks == old(watermarks)
      ensures forall row :: row in rows <==> row in old(rows) && row.payload.expiresAt > now
    {
      StepKeepsInv(Contents(), Purge(now));
      var kept := Delete(rows, ExpiredBy(now));
      deleted := |rows| - |kept|;
      rows := kept;
    }

    /**
     * Derive a station-day high: read the active hours, group them, let anything else happen, then write. In a store
     * whose highs have only ever been derived, an uninterrupted derivation answers with the summary of exactly the
     * active exact hours of the day, or with nothing when there are none.
     */
    method DeriveStationDayHigh(city: string, target: int, now: int, others: seq<Step>) returns (high: Option<Row>)
      requires Valid() && ValidSteps(others) && city in config.sites
      modifies this
      ensures Valid()
      ensures var day := SiteDay(old(Contents()), config.sites[city], city, target, now);
              if day == [] then high.None? && Contents() == old(Contents())
              else Contents() == Apply(Run(old(Contents()), others), DerivedStep(config.sites[city], city, target, day))
      ensures high.Some? ==>
        && high.value in rows && high.value.scope == HighScope(city, config.sites[city].station, target)
        && high.value.payload.expiresAt > now
      ensures others == [] && HighsFollow(World(old(Contents()), [])) ==>
        var day := SiteDay(old(Contents()), config.sites[city], city, target, now);
        day != [] ==> high.Some? && high.value.payload == Summary(day) && high.value.issuedAt == day[0].issuedAt
    {
      hide Inv, HighsFollow, Apply, Run, DayRows, Summary, InDay, HourOf, Anomalous, DistinctHours, Refused, Active,
           HighScope, ValidConstituents, ValidSteps;
      var station, offset := config.sites[city].station, config.sites[city].standardOffset;
      ghost var before := Contents();
      var active := Active(Contents(), HourlyScope(city, station), now);
      ghost var day := DayOf(before, city, station, target, offset, now);
      StoredHoursNeverClash(Contents(), city, station, now, target, offset);
      DayOfDistinct(Contents(), city, station, target, offset, now);
      ReadsSeeTheWatermark(Contents(), HourlyScope(city, station), now);
      var grouped := GroupStationDayHours(active, target, offset);
      if grouped.None? {
        return None;
      }
      var constituents := grouped.value.constituents;
      GroupedIsValid(constituents, day, city, station, grouped.value.issuedAt, target, offset);
      Interfere(others);
      var written := WriteRuntimeHigh(city, station, grouped.value.issuedAt, target, constituents);
      high := ActiveRuntimeHigh(city, station, target, now);
      if others == [] && HighsFollow(World(before, [])) {
        NothingRuns(before);
        FreshHighIsRead(before, city, station, target, offset, now);
      }
    }

    method ActiveRuntimeHigh(city: string, station: string, target: int, now: int) returns (high: Option<Row>)
      requires Valid()
      ensures high.Some? <==>
        exists row :: row in rows && row.scope == HighScope(city, station, target) && row.payload.expiresAt > now
      ensures high.Some? ==> high.value in rows && high.value.scope == HighScope(city, station, target)
                             && high.value.payload.expiresAt > now
    {
      var active := Active(Contents(), HighScope(city, station, target), now);
      ReadsSeeTheWatermark(Contents(), HighScope(city, station, target), now);
      if active == [] {
        assert forall row :: row !in active;
        return None;
      }
      assert active[0] in active;
      high := Some(active[0]);
    }
  }

  lemma NothingRuns(state: State)
    ensures Run(state, []) == state
  {
  }

  /** What the grouping of stored rows hands on always passes the write's validation. */
  lemma GroupedIsValid(constituents: seq<Row>, day: seq<Row>, city: string, station: string, issued: int,
          target: int, offset: int)
    requires constituents != [] && day != [] && DistinctHours(day, target, offset)
    requires forall row :: row in constituents <==> row in day
    requires forall row :: row in day ==> row.scope == HourlyScope(city, station)
    requires forall row :: row in constituents ==> row.issuedAt == issued
    requires forall i, j :: 0 <= i < j < |constituents| ==>
      HourOf(constituents[i], offset) < HourOf(constituents[j], offset)
    ensures ValidConstituents(constituents, city, station, issued, target, offset)
    ensures Summary(constituents) == Summary(day) && day[0].issuedAt == issued
  {
    hide HourOf, InDay, Summary;
    forall i | 0 <= i < |constituents| ensures InDay(constituents[i], target, offset)
      && constituents[i].scope == HourlyScope(city, station) {
      assert constituents[i] in day;
      var k :| 0 <= k < |day| && day[k] == constituents[i];
    }
    forall i, j | 0 <= i < j < |constituents| ensures constituents[i].slot != constituents[j].slot {
      HoursFollowSlots(constituents[i], constituents[j], offset);
    }
    SummaryIgnoresOrder(constituents, day);
    assert day[0] in constituents;
  }

  lemma HoursFollowSlots(a: Row, b: Row, offset: int)
    ensures a.slot == b.slot ==> HourOf(a, offset) == HourOf(b, offset)
  {
  }

  lemma NothingToFit(city: string, station: string, issued: int, target: int, offset: int)
    ensures AllFit([], city, station, issued, target, offset) && Slots([]) == {}
  {
  }

  /** An accepted high is the only row its scope keeps. */
  lemma AcceptedHighStandsAlone(state: State, step: Step)
    requires Inv(state) && ValidStep(step) && step.WriteHigh? && !Refused(state, step.scope, step.issued)
    ensures var row := Row(step.scope, step.issued, step.scope.target.value, step.payload);
            forall other: Row :: other in Apply(state, step).rows && other.scope == step.scope <==> other == row
  {
    hide Refused, Latest, DistinctKeys;
    var latest, cut := Latest(state, step.scope), OlderIn(step.scope, step.issued);
    var kept := if latest.Some? && step.issued > latest.value then Delete(state.rows, cut) else state.rows;
    DeleteKeepsKeys(state.rows, cut);
    KeptCarryIssue(state, step.scope, step.issued, kept);
    UpsertEffect(kept, Row(step.scope, step.issued, step.scope.target.value, step.payload));
    forall other | other in kept && other.scope == step.scope ensures other.slot == step.scope.target.value {
      assert Marked(state.watermarks, other);
    }
  }

  /** The high just derived is accepted and unexpired. */
  lemma FreshHighIsRead(before: State, city: string, station: string, target: int, offset: int, now: int)
    requires HighsFollow(World(before, []))
    requires DayOf(before, city, station, target, offset, now) != []
    ensures var day := DayOf(before, city, station, target, offset, now);
            var row := Row(HighScope(city, station, target), day[0].issuedAt, target, Summary(day));
            && row.payload.expiresAt > now
            && var after := Apply(before, WriteHigh(row.scope, row.issuedAt, row.payload));
               forall other: Row :: other in after.rows && other.scope == row.scope <==> other == row
  {
    hide Apply, Refused, HighScope;
    var day := DayOf(before, city, station, target, offset, now);
    var scope := HighScope(city, station, target);
    assert day[0] in day;
    ReadsSeeTheWatermark(before, HourlyScope(city, station), now);
    HighMarkFollows(before, city, station, target, day[0].issuedAt);
    AcceptedHighStandsAlone(before, WriteHigh(scope, day[0].issuedAt, Summary(day)));
  }

  lemma HighMarkFollows(before: State, city: string, station: string, target: int, issued: int)
    requires HighsFollow(World(before, []))
    requires HourlyScope(city, station) in before.watermarks && issued == before.watermarks[HourlyScope(city, station)]
    ensures !Refused(before, HighScope(city, station, target), issued)
    ensures HighScope(city, station, target).content.High? && HighScope(city, station, target).target == Some(target)
  {
    RefusedIffOlder(before, HighScope(city, station, target), issued);
  }
}
