/**
 * The generation store (forecaster/google_weather_store.py, GoogleRuntimeStore): a TTL cache whose every scope
 * carries a permanent watermark of the newest issue it has accepted.
 */
module RuntimeStore {
  import opened Wrappers

  datatype Content = Hourly | Daily | Current | High

  /** Only station-day highs are scoped by a target day. */
  datatype Scope = Scope(content: Content, city: string, station: string, target: Option<int>)

  datatype Payload =
    | Reading(value: real, expiresAt: int)
    | DayHigh(value: real, coveredHours: nat, complete: bool, expiresAt: int)

  /** The slot is a valid instant, a target day or an observation instant; scope, issue and slot are the primary key. */
  datatype Row = Row(scope: Scope, issuedAt: int, slot: int, payload: Payload)

  datatype Entry = Entry(slot: int, payload: Payload)

  datatype State = State(rows: seq<Row>, watermarks: map<Scope, int>)

  const EMPTY := State([], map[])

  // ----- Deleting -----

  datatype Cut = OfScope(scope: Scope) | OlderIn(scope: Scope, issued: int) | ExpiredBy(now: int)

  predicate Cuts(cut: Cut, row: Row) {
    match cut
    case OfScope(scope) => row.scope == scope
    case OlderIn(scope, issued) => row.scope == scope && row.issuedAt < issued
    case ExpiredBy(now) => row.payload.expiresAt <= now
  }

  function Delete(rows: seq<Row>, cut: Cut): (kept: seq<Row>)
    ensures |kept| <= |rows|
    ensures forall row :: row in kept <==> row in rows && !Cuts(cut, row)
  {
    if rows == [] then []
    else
      var before, last := Delete(rows[..|rows| - 1], cut), rows[|rows| - 1];
      if Cuts(cut, last) then before else before + [last]
  }

  // ----- Writing -----

  function MaxIssued(rows: seq<Row>, scope: Scope): (r: Option<int>)
    ensures r.None? <==> forall row :: row in rows ==> row.scope != scope
    ensures r.Some? ==> exists row :: row in rows && row.scope == scope && row.issuedAt == r.value
    ensures forall row :: row in rows && row.scope == scope ==> r.Some? && row.issuedAt <= r.value
  {
    if rows == [] then None
    else
      var before, last := MaxIssued(rows[..|rows| - 1], scope), rows[|rows| - 1];
      assert forall row :: row in rows <==> row in rows[..|rows| - 1] || row == last;
      if last.scope != scope then before
      else if before.Some? && before.value > last.issuedAt then before else Some(last.issuedAt)
  }

  /** The newest issue on record: the watermark or a surviving row, whichever is later. */
  function Latest(state: State, scope: Scope): Option<int> {
    var stored := MaxIssued(state.rows, scope);
    if scope !in state.watermarks then stored
    else if stored.Some? && stored.value > state.watermarks[scope] then stored else Some(state.watermarks[scope])
  }

  predicate Refused(state: State, scope: Scope, issued: int) {
    Latest(state, scope).Some? && issued < Latest(state, scope).value
  }

  function Generation(scope: Scope, issued: int, entries: seq<Entry>): (rows: seq<Row>)
    ensures |rows| == |entries|
    ensures forall i :: 0 <= i < |rows| ==> rows[i] == Row(scope, issued, entries[i].slot, entries[i].payload)
  {
    seq(|entries|, i requires 0 <= i < |entries| => Row(scope, issued, entries[i].slot, entries[i].payload))
  }

  predicate SameKey(a: Row, b: Row) {
    a.scope == b.scope && a.issuedAt == b.issuedAt && a.slot == b.slot
  }

  /** Insert, or on a key conflict replace the payload in place. */
  function Upsert(rows: seq<Row>, row: Row): (r: seq<Row>) {
    if rows == [] then [row]
    else if SameKey(rows[0], row) then [row] + rows[1..]
    else [rows[0]] + Upsert(rows[1..], row)
  }

  datatype Step =
    | Replace(scope: Scope, issued: int, entries: seq<Entry>)
    | WriteHigh(scope: Scope, issued: int, payload: Payload)
    | Purge(now: int)
    | RolledBack

  /** What the public operations submit: a mapping has distinct keys, and only highs use the target column. */
  predicate ValidStep(step: Step) {
    match step
    case Replace(scope, _, entries) =>
      && !scope.content.High? && scope.target.None?
      && (forall i, j :: 0 <= i < j < |entries| ==> entries[i].slot != entries[j].slot)
      && (forall i :: 0 <= i < |entries| ==> entries[i].payload.Reading?)
    case WriteHigh(scope, _, payload) => scope.content.High? && scope.target.Some? && payload.DayHigh?
    case Purge(_) => true
    case RolledBack => true
  }

  function Apply(state: State, step: Step): State
    requires ValidStep(step)
  {
    match step
    case Replace(scope, issued, entries) =>
      if Refused(state, scope, issued) then state
      else State(Delete(state.rows, OfScope(scope)) + Generation(scope, issued, entries),
                 state.watermarks[scope := issued])
    case WriteHigh(scope, issued, payload) =>
      if Refused(state, scope, issued) then state
      else
        var latest := Latest(state, scope);
        var kept := if latest.Some? && issued > latest.value then Delete(state.rows, OlderIn(scope, issued))
            else state.rows;
        State(Upsert(kept, Row(scope, issued, scope.target.value, payload)), state.watermarks[scope := issued])
    case Purge(now) => State(Delete(state.rows, ExpiredBy(now)), state.watermarks)
    case RolledBack => state
  }

  predicate ValidSteps(steps: seq<Step>) {
    forall i :: 0 <= i < |steps| ==> ValidStep(steps[i])
  }

  function Run(state: State, steps: seq<Step>): State
    requires ValidSteps(steps)
  {
    if steps == [] then state else Apply(Run(state, steps[..|steps| - 1]), steps[|steps| - 1])
  }

  /** A run is its steps one after the other. */
  lemma RunsGoStepByStep(state: State, steps: seq<Step>, step: Step)
    requires ValidSteps(steps) && ValidStep(step)
    ensures Run(state, []) == state && Run(state, steps + [step]) == Apply(Run(state, steps), step)
  {
    assert (steps + [step])[..|steps|] == steps;
  }

  /** A rolled-back transaction is a valid one, and changes nothing. */
  lemma RollingBackChangesNothing(state: State)
    ensures ValidStep(RolledBack) && Apply(state, RolledBack) == state
  {
  }

  /** An accepted write raises the mark of its own scope to its issue and touches no other scope's mark or rows. */
  lemma WritesTouchOneScope(state: State, step: Step, row: Row)
    requires ValidStep(step) && (step.Replace? || step.WriteHigh?)
    ensures var after := Apply(state, step);
            && (row.scope != step.scope ==> (row in after.rows <==> row in state.rows))
            && (row.scope != step.scope ==>
                  (row.scope in after.watermarks <==> row.scope in state.watermarks)
                  && (row.scope in state.watermarks ==> after.watermarks[row.scope] == state.watermarks[row.scope]))
            && (if Refused(state, step.scope, step.issued) then after == state
                else step.scope in after.watermarks && after.watermarks[step.scope] == step.issued)
  {
    hide Refused;
    if step.WriteHigh? && !Refused(state, step.scope, step.issued) && row.scope != step.scope {
      var latest := Latest(state, step.scope);
      var kept := if latest.Some? && step.issued > latest.value
          then Delete(state.rows, OlderIn(step.scope, step.issued))
                  else state.rows;
      UpsertTouchesItsKey(kept, Row(step.scope, step.issued, step.scope.target.value, step.payload), row);
    }
  }

  lemma {:induction false} UpsertTouchesItsKey(rows: seq<Row>, row: Row, other: Row)
    requires other.scope != row.scope
    ensures other in Upsert(rows, row) <==> other in rows
  {
    if rows != [] {
      assert rows == [rows[0]] + rows[1..];
      if !SameKey(rows[0], row) {
        UpsertTouchesItsKey(rows[1..], row, other);
      }
    }
  }

  // ----- The invariant -----

  predicate Marked(watermarks: map<Scope, int>, row: Row) {
    && row.scope in watermarks && row.issuedAt == watermarks[row.scope]
    && (row.scope.content.High? <==> row.payload.DayHigh?)
    && row.scope.target == (if row.scope.content.High? then Some(row.slot) else None)
  }

  predicate AllMarked(watermarks: map<Scope, int>, rows: seq<Row>) {
    forall row :: row in rows ==> Marked(watermarks, row)
  }

  predicate DistinctKeys(rows: seq<Row>) {
    forall i, j :: 0 <= i < j < |rows| ==> !SameKey(rows[i], rows[j])
  }

  /** Every stored row carries exactly its scope's watermark, and primary keys are unique. */
  predicate Inv(state: State) {
    AllMarked(state.watermarks, state.rows) && DistinctKeys(state.rows)
  }

  /** Watermarks exist for good and only rise. */
  predicate Risen(before: State, after: State) {
    forall scope :: scope in before.watermarks ==>
      scope in after.watermarks && before.watermarks[scope] <= after.watermarks[scope]
  }

  lemma LatestIsWatermark(state: State, scope: Scope)
    requires Inv(state)
    ensures Latest(state, scope) == if scope in state.watermarks then Some(state.watermarks[scope]) else None
  {
  }

  /** A write is refused exactly when it is older than the watermark, whether or not any row survives. */
  lemma RefusedIffOlder(state: State, scope: Scope, issued: int)
    requires Inv(state)
    ensures Refused(state, scope, issued) <==> scope in state.watermarks && issued < state.watermarks[scope]
  {
    LatestIsWatermark(state, scope);
  }

  lemma {:induction false} DeleteKeepsKeys(rows: seq<Row>, cut: Cut)
    requires DistinctKeys(rows)
    ensures DistinctKeys(Delete(rows, cut))
  {
    if rows != [] {
      var k := |rows| - 1;
      DeleteKeepsKeys(rows[..k], cut);
      var before := Delete(rows[..k], cut);
      forall i | 0 <= i < |before| ensures !SameKey(before[i], rows[k]) {
        assert before[i] in rows[..k];
      }
    }
  }

  lemma {:induction false} UpsertEffect(rows: seq<Row>, row: Row)
    requires DistinctKeys(rows)
    ensures DistinctKeys(Upsert(rows, row))
    ensures forall other :: other in Upsert(rows, row) <==> other == row || (other in rows && !SameKey(other, row))
  {
    if rows != [] {
      assert rows == [rows[0]] + rows[1..];
      if SameKey(rows[0], row) {
        forall other | other in rows[1..] ensures !SameKey(other, row) {
          var i :| 0 <= i < |rows[1..]| && rows[1..][i] == other;
          assert !SameKey(rows[0], rows[i + 1]);
        }
      } else {
        UpsertEffect(rows[1..], row);
        var rest := Upsert(rows[1..], row);
        forall j | 0 <= j < |rest| ensures !SameKey(rows[0], rest[j]) {
          assert rest[j] in rest;
          if rest[j] != row {
            var i :| 0 <= i < |rows[1..]| && rows[1..][i] == rest[j];
            assert !SameKey(rows[0], rows[i + 1]);
          }
        }
      }
    }
  }

  /** Moving one scope's mark keeps every row marked that belongs to another scope or to the new issue. */
  lemma RaisedMarks(watermarks: map<Scope, int>, rows: seq<Row>, scope: Scope, issued: int)
    requires AllMarked(watermarks, rows)
    requires forall row :: row in rows && row.scope == scope ==> row.issuedAt == issued
    ensures AllMarked(watermarks[scope := issued], rows)
  {
  }

  lemma GenerationMarked(watermarks: map<Scope, int>, scope: Scope, issued: int, entries: seq<Entry>)
    requires ValidStep(Replace(scope, issued, entries)) && scope in watermarks && watermarks[scope] == issued
    ensures AllMarked(watermarks, Generation(scope, issued, entries))
      && DistinctKeys(Generation(scope, issued, entries))
  {
  }

  lemma AppendDistinct(kept: seq<Row>, added: seq<Row>, scope: Scope)
    requires DistinctKeys(kept) && DistinctKeys(added)
    requires forall row :: row in kept ==> row.scope != scope
    requires forall row :: row in added ==> row.scope == scope
    ensures DistinctKeys(kept + added)
  {
    forall i, j | 0 <= i < |kept| && 0 <= j < |added| ensures !SameKey(kept[i], added[j]) {
      assert kept[i] in kept && added[j] in added;
    }
  }

  lemma ReplaceKeepsInv(state: State, step: Step)
    requires Inv(state) && ValidStep(step) && step.Replace?
    ensures Inv(Apply(state, step)) && Risen(state, Apply(state, step))
  {
    hide Marked, AllMarked, DistinctKeys, Refused;
    RefusedIffOlder(state, step.scope, step.issued);
    if !Refused(state, step.scope, step.issued) {
      var kept, added := Delete(state.rows, OfScope(step.scope)), Generation(step.scope, step.issued, step.entries);
      var watermarks := state.watermarks[step.scope := step.issued];
      DeleteKeepsInv(state, OfScope(step.scope));
      RaisedMarks(state.watermarks, kept, step.scope, step.issued);
      GenerationMarked(watermarks, step.scope, step.issued, step.entries);
      AppendDistinct(kept, added, step.scope);
      BothMarked(watermarks, kept, added);
    }
  }

  lemma BothMarked(watermarks: map<Scope, int>, a: seq<Row>, b: seq<Row>)
    requires AllMarked(watermarks, a) && AllMarked(watermarks, b)
    ensures AllMarked(watermarks, a + b)
  {
  }

  lemma DeleteKeepsInv(state: State, cut: Cut)
    requires Inv(state)
    ensures Inv(State(Delete(state.rows, cut), state.watermarks))
  {
    DeleteKeepsKeys(state.rows, cut);
  }

  lemma UpsertMarked(watermarks: map<Scope, int>, rows: seq<Row>, row: Row)
    requires AllMarked(watermarks, rows) && Marked(watermarks, row) && DistinctKeys(rows)
    ensures AllMarked(watermarks, Upsert(rows, row)) && DistinctKeys(Upsert(rows, row))
  {
    UpsertEffect(rows, row);
  }

  /** After the older rows are dropped, what is left of the scope carries the new issue. */
  lemma KeptCarryIssue(state: State, scope: Scope, issued: int, kept: seq<Row>)
    requires Inv(state) && !Refused(state, scope, issued)
    requires kept == if Latest(state, scope).Some? && issued > Latest(state, scope).value
                     then Delete(state.rows, OlderIn(scope, issued)) else state.rows
    ensures forall row :: row in kept && row.scope == scope ==> row.issuedAt == issued
  {
    LatestIsWatermark(state, scope);
    forall row | row in kept && row.scope == scope ensures row.issuedAt == issued {
      assert Marked(state.watermarks, row);
    }
  }

  lemma WriteHighKeepsInv(state: State, step: Step)
    requires Inv(state) && ValidStep(step) && step.WriteHigh?
    ensures Inv(Apply(state, step)) && Risen(state, Apply(state, step))
  {
    hide AllMarked, DistinctKeys, Refused, Latest;
    RefusedIffOlder(state, step.scope, step.issued);
    if !Refused(state, step.scope, step.issued) {
      var latest := Latest(state, step.scope);
      var cut := OlderIn(step.scope, step.issued);
      var kept := if latest.Some? && step.issued > latest.value then Delete(state.rows, cut) else state.rows;
      DeleteKeepsInv(state, cut);
      KeptCarryIssue(state, step.scope, step.issued, kept);
      RaisedMarks(state.watermarks, kept, step.scope, step.issued);
      UpsertMarked(state.watermarks[step.scope := step.issued], kept,
                   Row(step.scope, step.issued, step.scope.target.value, step.payload));
    }
  }

  lemma StepKeepsInv(state: State, step: Step)
    requires Inv(state) && ValidStep(step)
    ensures Inv(Apply(state, step)) && Risen(state, Apply(state, step))
  {
    match step
    case Replace(_, _, _) => ReplaceKeepsInv(state, step);
    case WriteHigh(_, _, _) => WriteHighKeepsInv(state, step);
    case Purge(now) => DeleteKeepsKeys(state.rows, ExpiredBy(now));
    case RolledBack =>
  }

  lemma {:induction false} RunKeepsInv(state: State, steps: seq<Step>)
    requires Inv(state) && ValidSteps(steps)
    ensures Inv(Run(state, steps)) && Risen(state, Run(state, steps))
  {
    hide Inv, Apply;
    if steps != [] {
      RunKeepsInv(state, steps[..|steps| - 1]);
      StepKeepsInv(Run(state, steps[..|steps| - 1]), steps[|steps| - 1]);
    }
  }

  // ----- Reading -----

  predicate ActiveRow(row: Row, scope: Scope, newest: Option<int>, now: int) {
    row.scope == scope && newest == Some(row.issuedAt) && row.payload.expiresAt > now
  }

  /** Unexpired rows of the newest stored issue. */
  function ActiveOf(rows: seq<Row>, scope: Scope, newest: Option<int>, now: int): (active: seq<Row>)
    ensures forall row :: row in active <==> row in rows && ActiveRow(row, scope, newest, now)
  {
    if rows == [] then []
    else
      var before, last := ActiveOf(rows[..|rows| - 1], scope, newest, now), rows[|rows| - 1];
      if ActiveRow(last, scope, newest, now) then before + [last] else before
  }

  function Active(state: State, scope: Scope, now: int): seq<Row> {
    ActiveOf(state.rows, scope, MaxIssued(state.rows, scope), now)
  }

  /** A read sees every unexpired row of its scope, and all of them carry the watermark. */
  lemma ReadsSeeTheWatermark(state: State, scope: Scope, now: int)
    requires Inv(state)
    ensures forall row :: row in Active(state, scope, now) <==>
              row in state.rows && row.scope == scope && row.payload.expiresAt > now
    ensures forall row :: row in Active(state, scope, now) ==>
              scope in state.watermarks && row.issuedAt == state.watermarks[scope]
  {
  }

  lemma {:induction false} ActiveKeysDistinct(rows: seq<Row>, scope: Scope, newest: Option<int>, now: int)
    requires DistinctKeys(rows)
    ensures DistinctKeys(ActiveOf(rows, scope, newest, now))
  {
    if rows != [] {
      var k := |rows| - 1;
      ActiveKeysDistinct(rows[..k], scope, newest, now);
      var before := ActiveOf(rows[..k], scope, newest, now);
      forall i | 0 <= i < |before| ensures !SameKey(before[i], rows[k]) {
        assert before[i] in rows[..k];
      }
    }
  }

  /**
   * Generations never go backwards. Whatever writes, rolled-back writes and purges happen between two reads of a
   * scope, the later read never returns an older issue.
   */
  lemma LaterReadsAreNoOlder(before: seq<Step>, between: seq<Step>, scope: Scope, now: int, later: int, first: Row,
          second: Row)
    requires ValidSteps(before) && ValidSteps(between)
    requires first in Active(Run(EMPTY, before), scope, now)
    requires second in Active(Run(Run(EMPTY, before), between), scope, later)
    ensures first.issuedAt <= second.issuedAt
  {
    var middle := Run(EMPTY, before);
    RunKeepsInv(EMPTY, before);
    RunKeepsInv(middle, between);
    ReadsSeeTheWatermark(middle, scope, now);
    ReadsSeeTheWatermark(Run(middle, between), scope, later);
  }

  /** Once an issue has been accepted, no older one is ever accepted again, even after purges empty the scope. */
  lemma OlderIssuesStayRefused(state: State, scope: Scope, accepted: int, steps: seq<Step>, issued: int)
    requires Inv(state) && ValidSteps(steps)
    requires scope in state.watermarks && accepted <= state.watermarks[scope] && issued < accepted
    ensures Refused(Run(state, steps), scope, issued)
  {
    RunKeepsInv(state, steps);
    RefusedIffOlder(Run(state, steps), scope, issued);
  }

  /** An accepted replacement is what the scope's reads then return, and no other scope notices. */
  lemma ReplacementIsWhatIsRead(state: State, step: Step, now: int, other: Scope)
    requires Inv(state) && ValidStep(step) && step.Replace? && !Refused(state, step.scope, step.issued)
    requires forall i :: 0 <= i < |step.entries| ==> step.entries[i].payload.expiresAt > now
    ensures var after := Apply(state, step);
            forall row :: row in Active(after, step.scope, now) <==>
              row in Generation(step.scope, step.issued, step.entries)
    ensures other != step.scope ==>
              forall row: Row :: row.scope == other ==> (row in Apply(state, step).rows <==> row in state.rows)
  {
    ReplaceKeepsInv(state, step);
    ReadsSeeTheWatermark(Apply(state, step), step.scope, now);
  }

  /** Purging at an instant changes no read at or after it. */
  lemma PurgeIsInvisible(state: State, scope: Scope, purgedAt: int, now: int)
    requires Inv(state) && purgedAt <= now
    ensures forall row :: row in Active(Apply(state, Purge(purgedAt)), scope, now) <==> row in Active(state, scope, now)
  {
    StepKeepsInv(state, Purge(purgedAt));
    ReadsSeeTheWatermark(state, scope, now);
    ReadsSeeTheWatermark(Apply(state, Purge(purgedAt)), scope, now);
  }
}
