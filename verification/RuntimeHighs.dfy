/**
 * Station-day highs derived from stored hourly rows, and the fixed challenger they feed
 * (forecaster/google_runtime_blend.py; write_runtime_high in forecaster/google_weather_store.py).
 */
module RuntimeHighs {
  import opened Wrappers
  import opened HourSets
  import opened SettlementCalendar
  import opened RuntimeStore

  // ----- Exact hours of a fixed-standard day -----

  predicate InDay(row: Row, target: int, offset: int) {
    LocalStandardDate(row.slot, offset) == target && TimeOfDay(row.slot, offset) % MICROS_PER_HOUR == 0
  }

  function HourOf(row: Row, offset: int): (hour: nat)
    ensures hour < 24
  {
    TimeOfDay(row.slot, offset) / MICROS_PER_HOUR
  }

  function DayRows(rows: seq<Row>, target: int, offset: int): (day: seq<Row>)
    ensures forall row :: row in day <==> row in rows && InDay(row, target, offset)
  {
    if rows == [] then []
    else
      var before, last := DayRows(rows[..|rows| - 1], target, offset), rows[|rows| - 1];
      if InDay(last, target, offset) then before + [last] else before
  }

  /** Two exact hours of the day that disagree on the issue or collide on the hour. */
  predicate Clash(a: Row, b: Row, target: int, offset: int) {
    InDay(a, target, offset) && InDay(b, target, offset)
    && (a.issuedAt != b.issuedAt || HourOf(a, offset) == HourOf(b, offset))
  }

  predicate Anomalous(rows: seq<Row>, target: int, offset: int) {
    exists i, j :: 0 <= i < j < |rows| && Clash(rows[i], rows[j], target, offset)
  }

  /** An exact hour of a day determines the instant. */
  lemma HourFixesInstant(a: Row, b: Row, target: int, offset: int)
    requires InDay(a, target, offset) && InDay(b, target, offset) && HourOf(a, offset) == HourOf(b, offset)
    ensures a.slot == b.slot
  {
    assert TimeOfDay(a.slot, offset) == HourOf(a, offset) * MICROS_PER_HOUR;
    assert TimeOfDay(b.slot, offset) == HourOf(b, offset) * MICROS_PER_HOUR;
    InstantFromParts(a.slot, b.slot, offset);
  }

  function HourlyScope(city: string, station: string): Scope {
    Scope(Hourly, city, station, None)
  }

  function HighScope(city: string, station: string, target: int): Scope {
    Scope(High, city, station, Some(target))
  }

  /** The store's invariant leaves the grouping nothing to reject: its fail-closed branches are unreachable. */
  lemma StoredHoursNeverClash(state: State, city: string, station: string, now: int, target: int, offset: int)
    requires Inv(state)
    ensures !Anomalous(Active(state, HourlyScope(city, station), now), target, offset)
  {
    var scope := HourlyScope(city, station);
    var rows := Active(state, scope, now);
    ReadsSeeTheWatermark(state, scope, now);
    ActiveKeysDistinct(state.rows, scope, MaxIssued(state.rows, scope), now);
    forall i, j | 0 <= i < j < |rows| ensures !Clash(rows[i], rows[j], target, offset) {
      assert rows[i] in rows && rows[j] in rows && !SameKey(rows[i], rows[j]);
      if Clash(rows[i], rows[j], target, offset) {
        HourFixesInstant(rows[i], rows[j], target, offset);
      }
    }
  }

  // ----- Summaries -----

  function MaxValue(rows: seq<Row>): (high: real)
    requires rows != []
    ensures exists row :: row in rows && row.payload.value == high
    ensures forall row :: row in rows ==> row.payload.value <= high
  {
    var last := rows[|rows| - 1];
    assert rows == rows[..|rows| - 1] + [last];
    if |rows| == 1 then last.payload.value
    else
      var before := MaxValue(rows[..|rows| - 1]);
      if last.payload.value > before then last.payload.value else before
  }

  function MinExpiry(rows: seq<Row>): (expiry: int)
    requires rows != []
    ensures exists row :: row in rows && row.payload.expiresAt == expiry
    ensures forall row :: row in rows ==> expiry <= row.payload.expiresAt
  {
    var last := rows[|rows| - 1];
    assert rows == rows[..|rows| - 1] + [last];
    if |rows| == 1 then last.payload.expiresAt
    else
      var before := MinExpiry(rows[..|rows| - 1]);
      if last.payload.expiresAt < before then last.payload.expiresAt else before
  }

  function Summary(constituents: seq<Row>): Payload
    requires constituents != []
  {
    DayHigh(MaxValue(constituents), |constituents|, |constituents| == 24, MinExpiry(constituents))
  }

  /** Every row an exact hour of the day, no instant twice. */
  predicate DistinctHours(rows: seq<Row>, target: int, offset: int) {
    && (forall i :: 0 <= i < |rows| ==> InDay(rows[i], target, offset))
    && (forall i, j :: 0 <= i < j < |rows| ==> rows[i].slot != rows[j].slot)
  }

  predicate CoversHour(rows: seq<Row>, offset: int, hour: nat) {
    exists i :: 0 <= i < |rows| && HourOf(rows[i], offset) == hour
  }

  function HoursCovered(rows: seq<Row>, offset: int): (hours: set<nat>)
    ensures forall hour: nat :: hour in hours <==> CoversHour(rows, offset, hour)
  {
    if rows == [] then {}
    else
      assert rows == rows[..|rows| - 1] + [rows[|rows| - 1]];
      HoursCovered(rows[..|rows| - 1], offset) + {HourOf(rows[|rows| - 1], offset)}
  }

  lemma HoursDiffer(rows: seq<Row>, target: int, offset: int, k: nat)
    requires DistinctHours(rows, target, offset) && k < |rows|
    ensures !CoversHour(rows[..k], offset, HourOf(rows[k], offset))
  {
    forall i | 0 <= i < k ensures HourOf(rows[..k][i], offset) != HourOf(rows[k], offset) {
      if HourOf(rows[i], offset) == HourOf(rows[k], offset) {
        HourFixesInstant(rows[i], rows[k], target, offset);
      }
    }
  }

  lemma {:induction false} DistinctHoursCount(rows: seq<Row>, target: int, offset: int)
    requires DistinctHours(rows, target, offset)
    ensures |HoursCovered(rows, offset)| == |rows|
  {
    hide HourOf, InDay, CoversHour;
    if rows != [] {
      var k := |rows| - 1;
      DistinctHoursCount(rows[..k], target, offset);
      HoursDiffer(rows, target, offset, k);
    }
  }

  /** Distinct exact hours of one day are at most 24, and 24 of them are every hour of it. */
  lemma CompleteIffEveryHour(rows: seq<Row>, target: int, offset: int)
    requires DistinctHours(rows, target, offset)
    ensures |rows| <= 24
    ensures |rows| == 24 <==> forall hour: nat :: hour < 24 ==> CoversHour(rows, offset, hour)
  {
    hide HourOf, FirstHours, HoursCovered;
    var covered := HoursCovered(rows, offset);
    DistinctHoursCount(rows, target, offset);
    assert covered <= FirstHours(24) by {
      forall hour | hour in covered ensures hour < 24 {
        assert CoversHour(rows, offset, hour);
      }
    }
    SubsetOfFullSize(covered, FirstHours(24));
    hide CoversHour;
    if forall hour: nat :: hour < 24 ==> CoversHour(rows, offset, hour) {
      assert covered == FirstHours(24);
    }
  }

  function Slots(rows: seq<Row>): (slots: set<int>)
    ensures forall slot :: slot in slots <==> exists row :: row in rows && row.slot == slot
  {
    if rows == [] then {}
    else
      assert rows == rows[..|rows| - 1] + [rows[|rows| - 1]];
      Slots(rows[..|rows| - 1]) + {rows[|rows| - 1].slot}
  }

  lemma {:induction false} DistinctSlotsCount(rows: seq<Row>)
    requires forall i, j :: 0 <= i < j < |rows| ==> rows[i].slot != rows[j].slot
    ensures |Slots(rows)| == |rows|
  {
    if rows != [] {
      var k := |rows| - 1;
      DistinctSlotsCount(rows[..k]);
      assert rows[k].slot !in Slots(rows[..k]);
    }
  }

  ghost predicate SameRows(a: seq<Row>, b: seq<Row>) {
    && (forall row :: row in a <==> row in b)
    && (forall i, j :: 0 <= i < j < |a| ==> a[i].slot != a[j].slot)
    && (forall i, j :: 0 <= i < j < |b| ==> b[i].slot != b[j].slot)
  }

  lemma SameRowsSameLength(a: seq<Row>, b: seq<Row>)
    requires SameRows(a, b)
    ensures |a| == |b|
  {
    DistinctSlotsCount(a);
    DistinctSlotsCount(b);
    assert Slots(a) == Slots(b);
  }

  lemma MaxAtMost(a: seq<Row>, b: seq<Row>)
    requires a != [] && b != [] && forall row :: row in a ==> row in b
    ensures MaxValue(a) <= MaxValue(b) && MinExpiry(b) <= MinExpiry(a)
  {
    hide MaxValue, MinExpiry;
  }

  /** The summary depends only on which rows it summarises, never on their order. */
  lemma SummaryIgnoresOrder(a: seq<Row>, b: seq<Row>)
    requires a != [] && b != [] && SameRows(a, b)
    ensures Summary(a) == Summary(b)
  {
    SameRowsSameLength(a, b);
    assert MaxValue(a) == MaxValue(b) && MinExpiry(a) == MinExpiry(b) by {
      hide MaxValue, MinExpiry;
      MaxAtMost(a, b);
      MaxAtMost(b, a);
    }
  }

  // ----- Derivation, interleaved with everything else -----

  /** A derivation that has read and grouped the hourly rows but not yet written its high. */
  datatype Pending = Pending(city: string, station: string, target: int, issuedAt: int, payload: Payload)

  datatype World = World(store: State, pending: seq<Pending>)

  /** A configured city's settlement station and its fixed-standard offset in hours. */
  datatype Site = Site(station: string, standardOffset: int)

  type Sites = map<string, Site>

  datatype Event =
    | Other(step: Step)
    | BeginDerive(city: string, target: int, now: int)
    | FinishDerive(k: nat)

  function DayOf(state: State, city: string, station: string, target: int, offset: int, now: int): seq<Row> {
    DayRows(Active(state, HourlyScope(city, station), now), target, offset)
  }

  /** The active exact hours of a city's day, on that city's own clock. */
  function SiteDay(state: State, site: Site, city: string, target: int, now: int): seq<Row> {
    DayOf(state, city, site.station, target, site.standardOffset, now)
  }

  /** Highs are written by derivation only, and derived for configured cities. */
  predicate Derivational(sites: Sites, event: Event) {
    && (event.Other? ==> ValidStep(event.step) && !event.step.WriteHigh?)
    && (event.BeginDerive? ==> event.city in sites)
  }

  function HighStep(pending: Pending): Step {
    WriteHigh(HighScope(pending.city, pending.station, pending.target), pending.issuedAt, pending.payload)
  }

  function Happen(sites: Sites, world: World, event: Event): World
    requires Derivational(sites, event) && forall p :: p in world.pending ==> p.payload.DayHigh?
  {
    match event
    case Other(step) => world.(store := Apply(world.store, step))
    case BeginDerive(city, target, now) =>
      var day := SiteDay(world.store, sites[city], city, target, now);
      if day == [] then world
      else world.(pending := world.pending
                  + [Pending(city, sites[city].station, target, day[0].issuedAt, Summary(day))])
    case FinishDerive(k) =>
      if k < |world.pending| then world.(store := Apply(world.store, HighStep(world.pending[k]))) else world
  }

  predicate Behind(watermarks: map<Scope, int>, city: string, station: string, issuedAt: int) {
    HourlyScope(city, station) in watermarks && issuedAt <= watermarks[HourlyScope(city, station)]
  }

  /** No station-day high, written or pending, is of a later issue than its station's hourly rows. */
  predicate HighsFollow(world: World) {
    && Inv(world.store)
    && (forall scope :: scope in world.store.watermarks && scope.content.High? ==>
          Behind(world.store.watermarks, scope.city, scope.station, world.store.watermarks[scope]))
    && (forall p :: p in world.pending ==>
        p.payload.DayHigh? && Behind(world.store.watermarks, p.city, p.station, p.issuedAt))
  }

  /** A step other than a high touches no high's watermark. */
  lemma OtherStepsSpareHighs(state: State, step: Step, scope: Scope)
    requires ValidStep(step) && !step.WriteHigh? && scope.content.High?
    ensures scope in Apply(state, step).watermarks <==> scope in state.watermarks
    ensures scope in state.watermarks ==> Apply(state, step).watermarks[scope] == state.watermarks[scope]
  {
  }

  lemma OtherKeepsFollowing(sites: Sites, world: World, step: Step)
    requires HighsFollow(world) && Derivational(sites, Other(step))
    ensures HighsFollow(Happen(sites, world, Other(step)))
  {
    hide Inv, Apply;
    var after := Apply(world.store, step);
    StepKeepsInv(world.store, step);
    forall scope | scope in after.watermarks && scope.content.High?
      ensures Behind(after.watermarks, scope.city, scope.station, after.watermarks[scope])
    {
      OtherStepsSpareHighs(world.store, step, scope);
      assert Behind(world.store.watermarks, scope.city, scope.station, world.store.watermarks[scope]);
    }
  }

  lemma BeginKeepsFollowing(sites: Sites, world: World, event: Event)
    requires HighsFollow(world) && event.BeginDerive? && Derivational(sites, event)
    ensures HighsFollow(Happen(sites, world, event))
  {
    hide Inv;
    ReadsSeeTheWatermark(world.store, HourlyScope(event.city, sites[event.city].station), event.now);
    var day := SiteDay(world.store, sites[event.city], event.city, event.target, event.now);
    if day != [] {
      assert day[0] in day;
    }
  }

  lemma FinishKeepsFollowing(sites: Sites, world: World, k: nat)
    requires HighsFollow(world) && k < |world.pending|
    ensures HighsFollow(Happen(sites, world, FinishDerive(k)))
  {
    hide Inv;
    var p := world.pending[k];
    assert p in world.pending;
    StepKeepsInv(world.store, HighStep(p));
  }

  /** Whatever interleaves with derivations in flight, a derived high's watermark never passes the hourly one. */
  lemma DerivationNeverOvertakes(sites: Sites, world: World, event: Event)
    requires HighsFollow(world) && Derivational(sites, event)
    ensures HighsFollow(Happen(sites, world, event))
  {
    hide HighsFollow, Happen;
    match event
    case Other(step) => OtherKeepsFollowing(sites, world, step);
    case BeginDerive(_, _, _) => BeginKeepsFollowing(sites, world, event);
    case FinishDerive(k) =>
      if k < |world.pending| {
        FinishKeepsFollowing(sites, world, k);
      } else {
        IdleFinish(sites, world, k);
      }
  }

  lemma IdleFinish(sites: Sites, world: World, k: nat)
    requires HighsFollow(world) && k >= |world.pending|
    ensures Happen(sites, world, FinishDerive(k)) == world
  {
  }

  /** Whether every event of a history is derivational, and the world it leads to. */
  predicate AllDerivational(sites: Sites, events: seq<Event>) {
    forall i :: 0 <= i < |events| ==> Derivational(sites, events[i])
  }

  function History(sites: Sites, events: seq<Event>): (world: World)
    requires AllDerivational(sites, events)
    ensures HighsFollow(world)
  {
    if events == [] then World(EMPTY, [])
    else
      var before := History(sites, events[..|events| - 1]);
      DerivationNeverOvertakes(sites, before, events[|events| - 1]);
      Happen(sites, before, events[|events| - 1])
  }

  /** A history is its events one after the other. */
  lemma HistoriesGoEventByEvent(sites: Sites, events: seq<Event>, event: Event)
    requires AllDerivational(sites, events) && Derivational(sites, event)
    ensures History(sites, []) == World(EMPTY, [])
    ensures History(sites, events + [event]) == Happen(sites, History(sites, events), event)
  {
    assert (events + [event])[..|events|] == events;
  }

  /** A derivation takes down what it read, and once finished its high is stored unless a later issue came first. */
  lemma DerivationsReachTheStore(sites: Sites, world: World, event: Event)
    requires HighsFollow(world) && Derivational(sites, event)
    ensures var after := Happen(sites, world, event);
            match event
            case Other(step) => after == World(Apply(world.store, step), world.pending)
            case BeginDerive(city, target, now) =>
              var site := sites[city];
              var day := DayOf(world.store, city, site.station, target, site.standardOffset, now);
              && after.store == world.store
              && (day == [] ==> after.pending == world.pending)
              && (day != [] ==>
                  after.pending == world.pending
                                   + [Pending(city, site.station, target, day[0].issuedAt, Summary(day))])
            case FinishDerive(k) =>
              && after.pending == world.pending
              && (k >= |world.pending| ==> after == world)
              && (k < |world.pending| ==>
                  var p := world.pending[k];
                  var scope := HighScope(p.city, p.station, p.target);
                  if Refused(world.store, scope, p.issuedAt) then after == world
                  else Row(scope, p.issuedAt, p.target, p.payload) in after.store.rows
                       && scope in after.store.watermarks && after.store.watermarks[scope] == p.issuedAt)
  {
    if event.FinishDerive? && event.k < |world.pending| {
      var p := world.pending[event.k];
      assert p in world.pending;
      var scope := HighScope(p.city, p.station, p.target);
      if !Refused(world.store, scope, p.issuedAt) {
        var latest := Latest(world.store, scope);
        var kept := if latest.Some? && p.issuedAt > latest.value
            then Delete(world.store.rows, OlderIn(scope, p.issuedAt)) else world.store.rows;
        DeleteKeepsKeys(world.store.rows, OlderIn(scope, p.issuedAt));
        UpsertEffect(kept, Row(scope, p.issuedAt, p.target, p.payload));
      }
    }
  }

  // ----- What a stored high says -----

  lemma {:induction false} DayRowsDistinct(rows: seq<Row>, target: int, offset: int)
    requires forall i, j :: 0 <= i < j < |rows| ==> rows[i].slot != rows[j].slot
    ensures DistinctHours(DayRows(rows, target, offset), target, offset)
  {
    if rows != [] {
      var k := |rows| - 1;
      DayRowsDistinct(rows[..k], target, offset);
      var before := DayRows(rows[..k], target, offset);
      forall i | 0 <= i < |before| ensures before[i].slot != rows[k].slot {
        assert before[i] in rows[..k];
      }
    }
  }

  lemma ActiveSlotsDistinct(state: State, scope: Scope, now: int)
    requires Inv(state)
    ensures var rows := Active(state, scope, now);
            forall i, j :: 0 <= i < j < |rows| ==> rows[i].slot != rows[j].slot
  {
    var rows := Active(state, scope, now);
    ReadsSeeTheWatermark(state, scope, now);
    ActiveKeysDistinct(state.rows, scope, MaxIssued(state.rows, scope), now);
    forall i, j | 0 <= i < j < |rows| ensures rows[i].slot != rows[j].slot {
      assert rows[i] in rows && rows[j] in rows && !SameKey(rows[i], rows[j]);
    }
  }

  lemma DayOfDistinct(state: State, city: string, station: string, target: int, offset: int, now: int)
    requires Inv(state)
    ensures DistinctHours(DayOf(state, city, station, target, offset, now), target, offset)
  {
    ActiveSlotsDistinct(state, HourlyScope(city, station), now);
    DayRowsDistinct(Active(state, HourlyScope(city, station), now), target, offset);
  }

  /** The exact hours of a city's day that the store held at the moment event n of the history read them. */
  function DayRead(sites: Sites, events: seq<Event>, n: nat): seq<Row>
    requires AllDerivational(sites, events) && n < |events| && events[n].BeginDerive?
  {
    var begin := events[n];
    SiteDay(History(sites, events[..n]).store, sites[begin.city], begin.city, begin.target, begin.now)
  }

  /** Event n of the history is the derivation of exactly this high. */
  predicate DerivedBy(sites: Sites, events: seq<Event>, n: nat, pending: Pending)
    requires AllDerivational(sites, events)
  {
    && n < |events| && events[n].BeginDerive?
    && events[n].city == pending.city && sites[pending.city].station == pending.station
    && events[n].target == pending.target
    && DayRead(sites, events, n) != []
    && pending.issuedAt == DayRead(sites, events, n)[0].issuedAt
    && pending.payload == Summary(DayRead(sites, events, n))
  }

  predicate Derived(sites: Sites, events: seq<Event>, pending: Pending)
    requires AllDerivational(sites, events)
  {
    exists n: nat :: n < |events| && DerivedBy(sites, events, n, pending)
  }

  /** A stored high, as the derivation that must have written it. */
  function AsPending(row: Row): Pending {
    Pending(row.scope.city, row.scope.station, row.slot, row.issuedAt, row.payload)
  }

  /** Every high, stored or in flight, was derived by some event of the history. */
  predicate HighsDerived(sites: Sites, events: seq<Event>, world: World)
    requires AllDerivational(sites, events)
  {
    && (forall row :: row in world.store.rows && row.scope.content.High? ==> Derived(sites, events, AsPending(row)))
    && (forall p :: p in world.pending ==> Derived(sites, events, p))
  }

  /** A longer history has read the same days. */
  lemma ReadStays(sites: Sites, events: seq<Event>, event: Event, n: nat)
    requires AllDerivational(sites, events) && AllDerivational(sites, events + [event])
    requires n < |events| && events[n].BeginDerive?
    ensures DayRead(sites, events + [event], n) == DayRead(sites, events, n)
  {
    hide History, SiteDay;
    assert (events + [event])[..n] == events[..n];
  }

  lemma DerivedStays(sites: Sites, events: seq<Event>, event: Event, pending: Pending)
    requires AllDerivational(sites, events) && AllDerivational(sites, events + [event])
      && Derived(sites, events, pending)
    ensures Derived(sites, events + [event], pending)
  {
    hide DayRead, Summary;
    var n: nat :| n < |events| && DerivedBy(sites, events, n, pending);
    ReadStays(sites, events, event, n);
    assert DerivedBy(sites, events + [event], n, pending);
  }

  lemma HighsStayDerived(sites: Sites, events: seq<Event>, event: Event, world: World)
    requires AllDerivational(sites, events) && AllDerivational(sites, events + [event])
      && HighsDerived(sites, events, world)
    ensures HighsDerived(sites, events + [event], world)
  {
    hide Derived;
    forall row | row in world.store.rows && row.scope.content.High?
      ensures Derived(sites, events + [event], AsPending(row)) {
      DerivedStays(sites, events, event, AsPending(row));
    }
    forall p | p in world.pending ensures Derived(sites, events + [event], p) {
      DerivedStays(sites, events, event, p);
    }
  }

  /** Beginning a derivation puts in flight exactly what it read. */
  lemma BeginDerives(sites: Sites, events: seq<Event>, event: Event)
    requires AllDerivational(sites, events) && AllDerivational(sites, events + [event])
    requires event.BeginDerive? && Derivational(sites, event)
    requires HighsDerived(sites, events + [event], History(sites, events))
    ensures HighsDerived(sites, events + [event], Happen(sites, History(sites, events), event))
  {
    hide Derived;
    var more, before := events + [event], History(sites, events);
    var day := SiteDay(before.store, sites[event.city], event.city, event.target, event.now);
    if day != [] {
      var p := Pending(event.city, sites[event.city].station, event.target, day[0].issuedAt, Summary(day));
      assert more[..|events|] == events;
      assert DerivedBy(sites, more, |events|, p);
      WitnessDerives(sites, more, |events|, p);
    }
  }

  lemma WitnessDerives(sites: Sites, events: seq<Event>, n: nat, pending: Pending)
    requires AllDerivational(sites, events) && DerivedBy(sites, events, n, pending)
    ensures Derived(sites, events, pending)
  {
  }

  /** Finishing one writes that and nothing else. */
  lemma FinishKeepsDerived(sites: Sites, events: seq<Event>, world: World, k: nat)
    requires AllDerivational(sites, events) && HighsFollow(world) && HighsDerived(sites, events, world)
      && k < |world.pending|
    ensures HighsDerived(sites, events, Happen(sites, world, FinishDerive(k)))
  {
    hide Derived, Refused, Latest;
    var p := world.pending[k];
    assert p in world.pending;
    var step, state := HighStep(p), world.store;
    var latest, cut := Latest(state, step.scope), OlderIn(step.scope, step.issued);
    var kept := if latest.Some? && step.issued > latest.value then Delete(state.rows, cut) else state.rows;
    var row := Row(step.scope, step.issued, p.target, p.payload);
    DeleteKeepsKeys(state.rows, cut);
    UpsertEffect(kept, row);
    assert AsPending(row) == p;
  }

  lemma OtherKeepsDerived(sites: Sites, events: seq<Event>, world: World, step: Step)
    requires AllDerivational(sites, events) && HighsDerived(sites, events, world) && HighsFollow(world)
    requires ValidStep(step) && !step.WriteHigh?
    ensures HighsDerived(sites, events, World(Apply(world.store, step), world.pending))
  {
    hide Derived, Refused;
  }

  /**
   * In any history, every stored high was derived by one of its events: it carries the issue, the maximum, the
   * coverage and the earliest expiry of exactly the hours its own city's store held of its own day, on its own clock,
   * when that event read them.
   */
  lemma {:induction false} StoredHighsSummariseTheirDay(sites: Sites, events: seq<Event>)
    requires AllDerivational(sites, events)
    ensures HighsDerived(sites, events, History(sites, events))
  {
    hide HighsDerived, HighsFollow;
    if events == [] {
      NothingDerived(sites);
    } else {
      var before, event := events[..|events| - 1], events[|events| - 1];
      var world := History(sites, before);
      StoredHighsSummariseTheirDay(sites, before);
      assert events == before + [event];
      HighsStayDerived(sites, before, event, world);
      match event
      case Other(step) => OtherKeepsDerived(sites, events, world, step);
      case BeginDerive(_, _, _) => BeginDerives(sites, before, event);
      case FinishDerive(k) =>
        if k < |world.pending| {
          FinishKeepsDerived(sites, events, world, k);
        }
    }
  }

  lemma NothingDerived(sites: Sites)
    ensures HighsDerived(sites, [], World(EMPTY, []))
  {
  }

  /** What that makes of a stored high, hour by hour. */
  lemma StoredHighSpeaksForItsHours(sites: Sites, events: seq<Event>, row: Row) returns (n: nat)
    requires AllDerivational(sites, events)
    requires row in History(sites, events).store.rows && row.scope.content.High?
    ensures DerivedBy(sites, events, n, AsPending(row))
    ensures var day := DayRead(sites, events, n);
            && (forall hour :: hour in day ==> hour.issuedAt == row.issuedAt)
            && (exists hour :: hour in day && hour.payload.value == row.payload.value)
            && (forall hour :: hour in day ==>
                  hour.payload.value <= row.payload.value && row.payload.expiresAt <= hour.payload.expiresAt)
            && (row.payload.complete <==> forall hour: nat :: hour < 24 ==>
                CoversHour(day, sites[row.scope.city].standardOffset, hour))
  {
    StoredHighsSummariseTheirDay(sites, events);
    assert Derived(sites, events, AsPending(row));
    n :| n < |events| && DerivedBy(sites, events, n, AsPending(row));
    SummaryOfRead(sites, events, n, AsPending(row));
  }

  lemma SummaryOfRead(sites: Sites, events: seq<Event>, n: nat, pending: Pending)
    requires AllDerivational(sites, events) && DerivedBy(sites, events, n, pending)
    ensures var day := DayRead(sites, events, n);
            && (forall hour :: hour in day ==> hour.issuedAt == pending.issuedAt)
            && (exists hour :: hour in day && hour.payload.value == pending.payload.value)
            && (forall hour :: hour in day ==>
                  hour.payload.value <= pending.payload.value && pending.payload.expiresAt <= hour.payload.expiresAt)
            && (pending.payload.complete <==> forall hour: nat :: hour < 24 ==>
                CoversHour(day, sites[pending.city].standardOffset, hour))
  {
    hide HourOf, CoversHour, MaxValue, MinExpiry, Inv;
    var begin, before, day := events[n], History(sites, events[..n]), DayRead(sites, events, n);
    var site := sites[begin.city];
    ReadsSeeTheWatermark(before.store, HourlyScope(begin.city, site.station), begin.now);
    DayOfDistinct(before.store, begin.city, site.station, begin.target, site.standardOffset, begin.now);
    CompleteIffEveryHour(day, begin.target, site.standardOffset);
    assert day[0] in day;
  }

  /** So an uninterrupted derivation is never refused. */
  lemma DerivedHighIsAccepted(sites: Sites, events: seq<Event>, city: string, target: int, now: int)
    requires AllDerivational(sites, events) && city in sites
    requires SiteDay(History(sites, events).store, sites[city], city, target, now) != []
    ensures var store := History(sites, events).store;
            !Refused(store, HighScope(city, sites[city].station, target),
                     SiteDay(store, sites[city], city, target, now)[0].issuedAt)
  {
    var store, station := History(sites, events).store, sites[city].station;
    var day := SiteDay(store, sites[city], city, target, now);
    assert day[0] in day;
    ReadsSeeTheWatermark(store, HourlyScope(city, station), now);
    RefusedIffOlder(store, HighScope(city, station, target), day[0].issuedAt);
  }

  // ----- The fixed challenger -----

  const SHARE := 0.15
  const ADJUSTMENT_CAP := 1.5
  const BLOCK_GAP := 7.0

  datatype Challenger = Forecast(mu: real, sigma: real) | Blocked(sigma: real)

  function Absolute(x: real): real {
    if x < 0.0 then -x else x
  }

  function CappedAdjustment(gap: real): real {
    var scaled := SHARE * gap;
    var capped := if scaled < ADJUSTMENT_CAP then scaled else ADJUSTMENT_CAP;
    if capped > -ADJUSTMENT_CAP then capped else -ADJUSTMENT_CAP
  }

  function GoogleChallenger(mu: real, sigma: real, high: real): Challenger {
    if Absolute(high - mu) >= BLOCK_GAP then Blocked(sigma) else Forecast(mu + CappedAdjustment(high - mu), sigma)
  }

  function ChallengerFromHigh(high: Option<Payload>, mu: real, sigma: real): Option<Challenger>
    requires high.Some? ==> high.value.DayHigh?
  {
    if high.None? || !high.value.complete then None else Some(GoogleChallenger(mu, sigma, high.value.value))
  }

  /**
   * A challenger exists only for a complete day; it keeps sigma, moves the mean toward the high by less than 1.05,
   * and never far enough for the cap to act.
   */
  lemma ChallengerIsBounded(high: Option<Payload>, mu: real, sigma: real)
    requires high.Some? ==> high.value.DayHigh?
    ensures ChallengerFromHigh(high, mu, sigma).Some? <==> high.Some? && high.value.complete
    ensures var result := ChallengerFromHigh(high, mu, sigma);
            result.Some? ==>
              && result.value.sigma == sigma
              && (result.value.Blocked? <==> Absolute(high.value.value - mu) >= 7.0)
              && (result.value.Forecast? ==>
                    && Absolute(result.value.mu - mu) < 1.05
                    && result.value.mu - mu == 0.15 * (high.value.value - mu))
  {
  }
}
