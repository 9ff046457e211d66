/**
 * One paid request (forecaster/google_api.py): reserve, mark dispatched, call, and record the outcome, while any
 * other process may run ledger transactions in between. The transport is an arbitrary response.
 */
module GoogleDispatch {
  import opened Wrappers
  import opened UsageLedger
  import opened LedgerRuns
  import opened LedgerStore

  /** What the transport and the parser did; a body parses to a value or not at all. */
  datatype Response<+T> =
    | Body(parsed: Option<T>)
    | HttpFailure(code: Option<int>)
    | TimedOut
    | Unreachable
    | OtherFailure

  datatype FetchError =
    | Denied(reason: Error)
    | NotDispatched(reason: Error)
    | RequestFailed
    | OutcomeRejected(reason: Error)

  function Classify<T>(response: Response<T>): Outcome {
    match response
    case Body(Some(_)) => Outcome(true, None, None)
    case Body(None) => Outcome(false, None, Some(Parse))
    case HttpFailure(None) => Outcome(false, None, Some(Http))
    case HttpFailure(Some(code)) => Outcome(false, Some(code / 100), Some(Http))
    case TimedOut => Outcome(false, None, Some(Timeout))
    case Unreachable => Outcome(false, None, Some(Transport))
    case OtherFailure => Outcome(false, None, Some(Unknown))
  }

  /** The ledger accepts every outcome but an HTTP status below 100 or above 599. */
  predicate Recordable<T>(response: Response<T>) {
    response.HttpFailure? && response.code.Some? ==> 100 <= response.code.value < 600
  }

  lemma RecordableIffValid<T>(response: Response<T>)
    ensures ValidOutcome(Classify(response)) <==> Recordable(response)
  {
  }

  // ----- Other processes -----

  /** A step by someone who does not hold this handle; sweeping stale reservations needs no handle. */
  predicate ForeignStep(step: Step, handle: Handle) {
    match step
    case Reserve(other, _, _, _) => other != handle
    case Dispatch(other, _) => other != handle
    case Complete(other, _, _) => other != handle
    case Cancel(other, _) => other != handle
    case CancelStale(_, _) => true
    case Seed(_, _, _) => true
  }

  predicate Foreign(steps: seq<Step>, handle: Handle) {
    forall i :: 0 <= i < |steps| ==> ForeignStep(steps[i], handle)
  }

  function RowOf(rows: Table, handle: Handle): Row
    requires Has(rows, handle)
  {
    rows[Find(rows, handle)]
  }

  /** A sweep of stale reservations that reaches one made at that instant. */
  predicate SweepsAt(step: Step, reservedAt: int) {
    step.CancelStale? && reservedAt < step.before
  }

  predicate Sweeps(steps: seq<Step>, reservedAt: int) {
    exists i :: 0 <= i < |steps| && SweepsAt(steps[i], reservedAt)
  }

  /** All that others can do to a row is sweep it while it still awaits dispatch. */
  predicate Fate(before: Row, after: Row, swept: bool) {
    if swept && AwaitingDispatch(before) then Refunded(after) else after == before
  }

  lemma FatesCompose(before: Row, middle: Row, after: Row, first: bool, second: bool)
    requires Fate(before, middle, first) && Fate(middle, after, second)
    ensures Fate(before, after, first || second)
  {
  }

  lemma SweepsOneMore(steps: seq<Step>, k: nat, reservedAt: int)
    requires k + 1 == |steps|
    ensures Sweeps(steps, reservedAt) <==> Sweeps(steps[..k], reservedAt) || SweepsAt(steps[k], reservedAt)
  {
    if Sweeps(steps[..k], reservedAt) {
      var i :| 0 <= i < k && SweepsAt(steps[..k][i], reservedAt);
      assert SweepsAt(steps[i], reservedAt);
    }
    if Sweeps(steps, reservedAt) && !SweepsAt(steps[k], reservedAt) {
      var i :| 0 <= i < |steps| && SweepsAt(steps[i], reservedAt);
      assert SweepsAt(steps[..k][i], reservedAt);
    }
  }

  lemma ForeignStepSpares(config: Config, rows: Table, step: Step, handle: Handle)
    requires Inv(rows) && Has(rows, handle) && ForeignStep(step, handle)
    ensures Has(Apply(config, rows, step), handle)
    ensures var row := RowOf(rows, handle);
            Fate(row, RowOf(Apply(config, rows, step), handle), SweepsAt(step, row.reservedAt))
  {
    var after, i := Apply(config, rows, step), Find(rows, handle);
    StepKeepsInv(config, rows, step);
    RowStays(rows, after, handle);
    ForeignStepAt(config, rows, step, handle);
  }

  /** Evolution never moves a row. */
  lemma RowStays(rows: Table, after: Table, handle: Handle)
    requires TableEvolves(rows, after) && Inv(after) && Has(rows, handle)
    ensures Has(after, handle) && Find(after, handle) == Find(rows, handle)
  {
    var i := Find(rows, handle);
    assert Evolves(rows[i], after[i]);
    FindIsUnique(after, handle, i);
  }

  lemma ForeignStepAt(config: Config, rows: Table, step: Step, handle: Handle)
    requires Inv(rows) && Has(rows, handle) && ForeignStep(step, handle)
    ensures var after := Apply(config, rows, step);
            var row := rows[Find(rows, handle)];
            |after| >= |rows| && Fate(row, after[Find(rows, handle)], SweepsAt(step, row.reservedAt))
  {
    hide Inv, Find, Refusal;
    var i := Find(rows, handle);
    RowIsWellFormed(rows, i);
    match step
    case Reserve(_, _, _, _) =>
    case Dispatch(other, _) => assert Find(rows, other) != i;
    case Complete(other, _, _) => assert Find(rows, other) != i;
    case Cancel(other, _) => assert Find(rows, other) != i;
    case CancelStale(_, _) =>
    case Seed(month, count, now) =>
      if count >= 0 && month != "" {
        SeededKeeps(rows, month, count, now, i);
      }
  }

  lemma RowIsWellFormed(rows: Table, i: nat)
    requires Inv(rows) && i < |rows|
    ensures WellFormed(rows[i])
  {
  }

  lemma {:induction false} SeededKeeps(rows: Table, month: string, count: nat, now: int, i: nat)
    requires i < |rows|
    ensures |Seeded(rows, month, count, now)| >= |rows| && Seeded(rows, month, count, now)[i] == rows[i]
  {
    if count > 0 {
      SeededKeeps(rows, month, count - 1, now, i);
    }
  }

  lemma {:induction false} ForeignRunSpares(config: Config, rows: Table, steps: seq<Step>, handle: Handle)
    requires Inv(rows) && Has(rows, handle) && Foreign(steps, handle)
    ensures Has(Run(config, rows, steps), handle)
    ensures var row := RowOf(rows, handle);
            Fate(row, RowOf(Run(config, rows, steps), handle), Sweeps(steps, row.reservedAt))
  {
    hide Inv, Apply, Find, Fate, Has, Sweeps;
    var row := RowOf(rows, handle);
    if steps != [] {
      var k := |steps| - 1;
      ForeignRunSpares(config, rows, steps[..k], handle);
      RunKeepsInv(config, rows, steps[..k]);
      ForeignStepSpares(config, Run(config, rows, steps[..k]), steps[k], handle);
      var middle, after := RowOf(Run(config, rows, steps[..k]), handle), RowOf(Run(config, rows, steps), handle);
      SweepsOneMore(steps, k, row.reservedAt);
      FateKeepsInstant(row, middle, after, Sweeps(steps[..k], row.reservedAt), steps[k]);
      FatesCompose(row, middle, after, Sweeps(steps[..k], row.reservedAt), SweepsAt(steps[k], row.reservedAt));
    } else {
      NothingSwept(row);
    }
  }

  lemma NothingSwept(row: Row)
    ensures Fate(row, row, Sweeps([], row.reservedAt))
  {
  }

  /** A swept row is past sweeping, so the instant that counts is the first one. */
  lemma FateKeepsInstant(before: Row, middle: Row, after: Row, swept: bool, step: Step)
    requires Fate(before, middle, swept) && Fate(middle, after, SweepsAt(step, middle.reservedAt))
    ensures Fate(middle, after, SweepsAt(step, before.reservedAt))
  {
  }

  /** Others never create a row under a handle that is not theirs. */
  lemma {:induction false} ForeignRunAddsNothing(config: Config, rows: Table, steps: seq<Step>, handle: Handle)
    requires Inv(rows) && !Has(rows, handle) && handle.endpoint in ENDPOINTS && Foreign(steps, handle)
    ensures !Has(Run(config, rows, steps), handle)
  {
    hide Inv, Apply, Has;
    if steps != [] {
      var k := |steps| - 1;
      ForeignRunAddsNothing(config, rows, steps[..k], handle);
      RunKeepsInv(config, rows, steps[..k]);
      ForeignStepAddsNothing(config, Run(config, rows, steps[..k]), steps[k], handle);
    }
  }

  lemma ForeignStepAddsNothing(config: Config, rows: Table, step: Step, handle: Handle)
    requires Inv(rows) && !Has(rows, handle) && handle.endpoint in ENDPOINTS && ForeignStep(step, handle)
    ensures !Has(Apply(config, rows, step), handle)
  {
    var after := Apply(config, rows, step);
    StepKeepsInv(config, rows, step);
    forall i | 0 <= i < |after| ensures after[i].handle != handle {
      if i < |rows| {
        assert Evolves(rows[i], after[i]);
      } else {
        AddedHandle(config, rows, step, i);
      }
    }
  }

  lemma AddedHandle(config: Config, rows: Table, step: Step, i: nat)
    requires Inv(rows) && |rows| <= i < |Apply(config, rows, step)|
    ensures var added := Apply(config, rows, step)[i].handle;
            (step.Reserve? && added == step.handle) || added.endpoint == "legacy_seed"
  {
    if step.Seed? {
      SeededAdds(rows, step.month, step.count, step.now, i);
    }
  }

  lemma {:induction false} SeededAdds(rows: Table, month: string, count: nat, now: int, i: nat)
    requires |rows| <= i < |Seeded(rows, month, count, now)|
    ensures Seeded(rows, month, count, now)[i].handle.endpoint == "legacy_seed"
  {
    if count > 0 && i < |Seeded(rows, month, count - 1, now)| {
      SeededAdds(rows, month, count - 1, now, i);
    }
  }

  // ----- The request -----

  /** Who is asking, for what page, under which freshly drawn reservation id, and when. */
  datatype Request = Request(city: string, station: string, handle: Handle, now: int)

  /** Transactions of other processes between reserving and dispatching, and between dispatching and completing. */
  datatype Others = Others(beforeDispatch: seq<Step>, beforeComplete: seq<Step>)

  const NOBODY := Others([], [])

  predicate OthersForeign(others: Others, handle: Handle) {
    Foreign(others.beforeDispatch, handle) && Foreign(others.beforeComplete, handle)
  }

  /** A fresh handle stays absent while only others act. */
  ghost predicate Untouched(before: Table, after: Table, others: Others, handle: Handle) {
    handle.endpoint in ENDPOINTS && OthersForeign(others, handle) && !Has(before, handle) ==> !Has(after, handle)
  }

  /** What holds of the table at every stage of a request under handle `own`. */
  ghost predicate Sound(first: Table, rows: Table, others: Others, own: Handle) {
    && Inv(rows) && TableEvolves(first, rows)
    && forall handle :: handle != own ==> Untouched(first, rows, others, handle)
  }

  predicate OwnStep(step: Step, own: Handle) {
    (step.Reserve? || step.Dispatch? || step.Complete? || step.Cancel?) && step.handle == own
  }

  lemma SoundAtFirst(rows: Table, others: Others, own: Handle)
    requires Inv(rows)
    ensures Sound(rows, rows, others, own)
  {
    TableEvolvesReflexive(rows);
  }

  lemma SoundAfterOwnStep(config: Config, first: Table, rows: Table, step: Step, others: Others, own: Handle)
    requires Sound(first, rows, others, own) && OwnStep(step, own)
    ensures Sound(first, Apply(config, rows, step), others, own)
  {
    hide Inv, TableEvolves, Has, Apply, Foreign;
    StepKeepsInv(config, rows, step);
    EvolutionComposes(first, rows, Apply(config, rows, step));
    forall handle | handle != own ensures Untouched(first, Apply(config, rows, step), others, handle) {
      assert Untouched(first, rows, others, handle);
      if handle.endpoint in ENDPOINTS && OthersForeign(others, handle) && !Has(first, handle) {
        ForeignStepAddsNothing(config, rows, step, handle);
      }
    }
  }

  lemma SoundAfterOthers(config: Config, first: Table, rows: Table, steps: seq<Step>, others: Others, own: Handle)
    requires Sound(first, rows, others, own) && (steps == others.beforeDispatch || steps == others.beforeComplete)
    ensures Sound(first, Run(config, rows, steps), others, own)
  {
    hide Inv, TableEvolves, Has, Run, Foreign;
    RunKeepsInv(config, rows, steps);
    EvolutionComposes(first, rows, Run(config, rows, steps));
    forall handle | handle != own ensures Untouched(first, Run(config, rows, steps), others, handle) {
      assert Untouched(first, rows, others, handle);
      if handle.endpoint in ENDPOINTS && OthersForeign(others, handle) && !Has(first, handle) {
        ForeignRunAddsNothing(config, rows, steps, handle);
      }
    }
  }

  lemma SoundMeans(first: Table, rows: Table, others: Others, own: Handle)
    requires Sound(first, rows, others, own)
    ensures Inv(rows) && TableEvolves(first, rows)
    ensures forall handle :: handle != own ==> Untouched(first, rows, others, handle)
  {
  }

  lemma RowInTable(rows: Table, row: Row)
    requires Inv(rows) && row in rows
    ensures Has(rows, row.handle) && RowOf(rows, row.handle) == row
  {
    var i :| 0 <= i < |rows| && rows[i] == row;
    FindIsUnique(rows, row.handle, i);
  }

  lemma PhasesExclude(row: Row)
    ensures AwaitingDispatch(row) ==> Undispatched(row) && !InFlight(row) && !Settled(row)
    ensures AwaitingOutcome(row) ==> InFlight(row) && row.dispatchedAt.Some? && !Settled(row)
    ensures Refunded(row) ==>
      Settled(row) && !Undispatched(row) && row.dispatchedAt.None? && !Succeeded(row) && !Failed(row)
    ensures Succeeded(row) ==> Settled(row) && !Failed(row) && !Refunded(row)
    ensures Failed(row) ==> Settled(row) && !Refunded(row)
  {
  }

  /** A row that is in the state recorded for an outcome is settled with that outcome. */
  lemma CompletedPhase(rows: Table, row: Row, outcome: Outcome)
    requires Inv(rows) && row in rows && AlreadyCompleted(row, outcome) && ValidOutcome(outcome)
    ensures if outcome.success then Succeeded(row) else Failed(row)
    ensures row.errorKind == outcome.errorKind && row.responseClass == outcome.responseClass
  {
    var i :| 0 <= i < |rows| && rows[i] == row;
    assert WellFormed(rows[i]);
  }

  /**
   * How one request ends: what became of its row, and what its caller learns. `swept` says whether someone else
   * cancelled the reservation before it could go out.
   */
  predicate RequestSettled<T>(rows: Table, handle: Handle, response: Response<T>, swept: bool,
          result: Result<T, FetchError>) {
    Has(rows, handle) ==>
      var row := RowOf(rows, handle);
      && (Settled(row) <==> swept || Recordable(response))
      && (!Settled(row) ==> AwaitingOutcome(row) && result.Err? && result.error.OutcomeRejected?)
      && (Refunded(row) <==> swept)
      && (swept <==> result.Err? && result.error.NotDispatched?)
      && (Succeeded(row) <==> result.Ok?)
      && (Failed(row) <==> result.Err? && result.error.RequestFailed?)
      && (Failed(row) ==>
            row.errorKind == Classify(response).errorKind && row.responseClass == Classify(response).responseClass)
  }

  lemma DeniedRequest<T>(rows: Table, handle: Handle, response: Response<T>, swept: bool, result: Result<T, FetchError>)
    requires !Has(rows, handle)
    ensures RequestSettled(rows, handle, response, swept, result)
  {
  }

  lemma SweptRequest<T>(rows: Table, handle: Handle, response: Response<T>, reason: Error)
    requires Has(rows, handle) && Refunded(RowOf(rows, handle))
    ensures RequestSettled(rows, handle, response, true, Err(NotDispatched(reason)))
  {
    PhasesExclude(RowOf(rows, handle));
  }

  lemma RejectedRequest<T>(rows: Table, handle: Handle, response: Response<T>, reason: Error)
    requires Has(rows, handle) && AwaitingOutcome(RowOf(rows, handle)) && !Recordable(response)
    ensures RequestSettled(rows, handle, response, false, Err(OutcomeRejected(reason)))
  {
    PhasesExclude(RowOf(rows, handle));
  }

  lemma AnsweredRequest<T>(rows: Table, row: Row, response: Response<T>, result: Result<T, FetchError>)
    requires Inv(rows) && row in rows && AlreadyCompleted(row, Classify(response)) && Recordable(response)
    requires if Classify(response).success then result.Ok? else result == Err(RequestFailed)
    ensures Has(rows, row.handle) && RequestSettled(rows, row.handle, response, false, result)
  {
    hide Inv, Has, Find, Recordable, Classify;
    RecordableIffValid(response);
    CompletedPhase(rows, row, Classify(response));
    RowInTable(rows, row);
    PhasesExclude(row);
  }

  /**
   * One answer that leaves the row in flight for good: the first request of an empty ledger, alone and within the
   * caps, answered with status 600. Its class 6 is refused, so the row is billed and neither settled nor a breaker
   * entry, and no later sweep reaches it.
   */
  lemma StatusSixHundredStaysInFlight(config: Config, request: Request)
    requires ValidReservation(config, request.handle, request.city, request.station)
    requires config.limits.daily > 0 && config.limits.monthly > 0 && config.limits.softMonthly > 0
    ensures ReserveResult(config, [], request.handle, request.city, request.station, request.now).Ok?
    ensures var answer: Response<seq<string>> := HttpFailure(Some(600));
            var handle, now := request.handle, request.now;
            var rows := Run(config, [], [Reserve(handle, request.city, request.station, now), Dispatch(handle, now),
                                         Complete(handle, Classify(answer), now)]);
            && !Recordable(answer)
            && |rows| == 1 && rows[0].handle == handle && AwaitingOutcome(rows[0]) && !Settled(rows[0])
            && !Terminal(rows[0])
            && forall before: int, later: int :: CancelAllStale(rows, before, later) == rows
  {
    var handle, now := request.handle, request.now;
    var reserve, dispatch := Reserve(handle, request.city, request.station, now), Dispatch(handle, now);
    var answer: Response<seq<string>> := HttpFailure(Some(600));
    var refused := Complete(handle, Classify(answer), now);
    RunOfThree(config, [], reserve, dispatch, refused);
    FirstReservation(config, request);
    var row := NewRow(config, handle, request.city, request.station, now);
    SingleRowSteps(config, row, now, Classify(answer));
    NoSweepReachesIt(row.(status := Consumed, dispatchedAt := Some(now)));
  }

  lemma FirstReservation(config: Config, request: Request)
    requires ValidReservation(config, request.handle, request.city, request.station)
    requires config.limits.daily > 0 && config.limits.monthly > 0 && config.limits.softMonthly > 0
    ensures ReserveResult(config, [], request.handle, request.city, request.station, request.now).Ok?
    ensures Apply(config, [], Reserve(request.handle, request.city, request.station, request.now)) ==
            [NewRow(config, request.handle, request.city, request.station, request.now)]
  {
    hide ValidReservation;
  }

  lemma SingleRowSteps(config: Config, row: Row, now: int, outcome: Outcome)
    requires Undispatched(row) && !ValidOutcome(outcome)
    ensures var sent := row.(status := Consumed, dispatchedAt := Some(now));
            && Apply(config, [row], Dispatch(row.handle, now)) == [sent]
            && Apply(config, [sent], Complete(row.handle, outcome, now)) == [sent]
  {
    hide ReserveResult, Seeded;
    assert Find([row], row.handle) == 0;
  }

  lemma NoSweepReachesIt(sent: Row)
    requires InFlight(sent)
    ensures forall before: int, later: int :: CancelAllStale([sent], before, later) == [sent]
  {
    forall before: int, later: int ensures CancelAllStale([sent], before, later) == [sent] {
    }
  }

  lemma RunOfThree(config: Config, rows: Table, first: Step, second: Step, third: Step)
    ensures Run(config, rows, [first, second, third])
      == Apply(config, Apply(config, Apply(config, rows, first), second), third)
  {
    hide Apply;
    assert [first, second, third][..2] == [first, second];
    assert [first, second][..1] == [first];
    assert Run(config, rows, [first]) == Apply(config, rows, first);
    assert Run(config, rows, [first, second]) == Apply(config, Apply(config, rows, first), second);
  }

  /** The result that an answer leads to once its request went out. */
  ghost predicate AnsweredBy<T>(result: Result<T, FetchError>, response: Response<T>) {
    && (result.Ok? <==> response.Body? && response.parsed.Some?)
    && (result.Ok? ==> response.parsed == Some(result.value))
    && (result == Err(RequestFailed) <==>
          if response.HttpFailure? then response.code.None? || 100 <= response.code.value < 600
          else response.Body? ==> response.parsed.None?)
    && (result.Err? ==> result.error.RequestFailed? || result.error.OutcomeRejected?)
  }

  lemma SettledIsAnswered<T>(rows: Table, handle: Handle, response: Response<T>, result: Result<T, FetchError>)
    requires Has(rows, handle) && RequestSettled(rows, handle, response, false, result)
    requires result.Ok? ==> response == Body(Some(result.value))
    requires result == Err(RequestFailed) ==> !Classify(response).success
    requires result.Err? ==> !result.error.Denied?
    ensures AnsweredBy(result, response)
  {
    PhasesExclude(RowOf(rows, handle));
  }

  /** Requests feed the breaker with exactly their 4xx answers: never a timeout, a bad body or a server error. */
  lemma OnlyClientErrorsFeedTheBreaker<T>(rows: Table, handle: Handle, response: Response<T>, swept: bool,
          result: Result<T, FetchError>)
    requires Inv(rows) && Has(rows, handle) && RequestSettled(rows, handle, response, swept, result)
    ensures Terminal(RowOf(rows, handle)) && ClientError(RowOf(rows, handle)) <==>
      result == Err(RequestFailed) && response.HttpFailure? && response.code.Some? && 400 <= response.code.value < 500
  {
    RowIsWellFormed(rows, Find(rows, handle));
  }

  // ----- Acting alone -----

  /** What is known of some answers: each can be recorded; none is a client error. */
  datatype Answers = Answers(recordable: bool, quiet: bool)

  /** Any HTTP answer but a 4xx, and any failure that is none. */
  predicate Quiet<T>(response: Response<T>) {
    response.HttpFailure? && response.code.Some? ==> !(400 <= response.code.value < 500)
  }

  function AnswerOf<T>(response: Response<T>): Answers {
    Answers(Recordable(response), Quiet(response))
  }

  function Both(p: Answers, q: Answers): Answers {
    Answers(p.recordable && q.recordable, p.quiet && q.quiet)
  }

  predicate Implies(q: Answers, p: Answers) {
    (q.recordable ==> p.recordable) && (q.quiet ==> p.quiet)
  }

  /**
   * At most `most` rows were appended, under these handles only; all of them settled if the answers were recordable,
   * and none failed with a client error if the answers were quiet.
   */
  ghost predicate AloneEffect(before: Table, after: Table, most: nat, handles: set<Handle>, answers: Answers) {
    && |before| <= |after| <= |before| + most && after[..|before|] == before
    && (forall handle: Handle :: handle.endpoint in ENDPOINTS && handle !in handles && !Has(before, handle) ==>
        !Has(after, handle))
    && (answers.recordable ==> forall i :: |before| <= i < |after| ==> Settled(after[i]))
    && (answers.quiet ==> forall i :: |before| <= i < |after| ==> !ClientError(after[i]))
  }

  lemma AloneIdle(rows: Table, most: nat, handles: set<Handle>, answers: Answers)
    ensures AloneEffect(rows, rows, most, handles, answers)
  {
  }

  lemma AloneBound(before: Table, after: Table, most: nat, handles: set<Handle>, answers: Answers)
    requires AloneEffect(before, after, most, handles, answers)
    ensures |before| <= |after| <= |before| + most && after[..|before|] == before
  {
  }

  lemma AloneComposes(a: Table, b: Table, c: Table, m: nat, n: nat, first: set<Handle>, second: set<Handle>,
          p: Answers, q: Answers)
    requires AloneEffect(a, b, m, first, p) && AloneEffect(b, c, n, second, q)
    ensures AloneEffect(a, c, m + n, first + second, Both(p, q))
  {
    assert c[..|a|] == c[..|b|][..|a|] == a;
    forall i | |a| <= i < |b| ensures c[i] == b[i] {
      assert c[..|b|][i] == b[i];
    }
  }

  lemma AloneWidens(a: Table, b: Table, m: nat, n: nat, first: set<Handle>, second: set<Handle>,
          p: Answers, q: Answers)
    requires AloneEffect(a, b, m, first, p) && m <= n && first <= second && Implies(q, p)
    ensures AloneEffect(a, b, n, second, q)
  {
  }

  lemma NewRowIsLast(before: Table, after: Table, handle: Handle)
    requires |after| == |before| + 1 && after[..|before|] == before && !Has(before, handle) && Has(after, handle)
    ensures RowOf(after, handle) == after[|before|]
  {
    var i := Find(after, handle);
    assert i >= |before|;
  }

  lemma QuietRow<T>(row: Row, response: Response<T>, result: Result<T, FetchError>)
    requires Settled(row) || AwaitingOutcome(row)
    requires Failed(row) ==> row.responseClass == Classify(response).responseClass && !Classify(response).success
    ensures Quiet(response) ==> !ClientError(row)
  {
  }

  lemma AloneRequest<T>(before: Table, after: Table, handle: Handle, response: Response<T>, result: Result<T,
          FetchError>)
    requires |after| == |before| + 1 && after[..|before|] == before && !Has(before, handle) && Has(after, handle)
    requires RequestSettled(after, handle, response, false, result)
    requires forall other :: other != handle ==> Untouched(before, after, NOBODY, other)
    ensures AloneEffect(before, after, 1, {handle}, AnswerOf(response))
  {
    QuietRow(RowOf(after, handle), response, result);
    NewRowIsLast(before, after, handle);
    forall other: Handle | other.endpoint in ENDPOINTS && other !in {handle} && !Has(before, other)
      ensures !Has(after, other) {
      assert Untouched(before, after, NOBODY, other);
    }
  }

  /** A step on a handle that the first rows do not hold leaves those rows and the length alone. */
  lemma StepSparesOlder(config: Config, older: Table, rows: Table, step: Step)
    requires (step.Dispatch? || step.Complete?) && !Has(older, step.handle)
    requires |older| <= |rows| && rows[..|older|] == older
    ensures |Apply(config, rows, step)| == |rows| && Apply(config, rows, step)[..|older|] == older
  {
    hide ReserveResult, Seeded, ValidOutcome;
    assert forall k :: 0 <= k < |older| ==> rows[k] == older[k];
    assert Find(rows, step.handle) >= |older|;
  }

  /** Alone, a request appends its row and touches nothing else. */
  lemma AloneAppends(config: Config, rows: Table, request: Request, outcome: Outcome)
    requires Inv(rows) && !Has(rows, request.handle)
    requires ReserveResult(config, rows, request.handle, request.city, request.station, request.now).Ok?
    ensures var second := Apply(config, rows, Reserve(request.handle, request.city, request.station, request.now));
            var fourth := Apply(config, Run(config, second, []), Dispatch(request.handle, request.now));
            var sixth := Apply(config, Run(config, fourth, []), Complete(request.handle, outcome, request.now));
            && |sixth| == |fourth| == |rows| + 1 && sixth[..|rows|] == rows && fourth[..|rows|] == rows
  {
    hide ReserveResult;
    var second := Apply(config, rows, Reserve(request.handle, request.city, request.station, request.now));
    assert |second| == |rows| + 1 && second[..|rows|] == rows;
    hide Apply, Has;
    StepSparesOlder(config, rows, second, Dispatch(request.handle, request.now));
    var fourth := Apply(config, second, Dispatch(request.handle, request.now));
    StepSparesOlder(config, rows, fourth, Complete(request.handle, outcome, request.now));
  }

  /**
   * Reserve, dispatch and classify one request. An admitted request's row ends cancelled or completed, unless nobody
   * swept it before dispatch and its answer is an HTTP status outside 100 to 599: exactly then it stays in flight.
   */
  method DispatchRequest<T>(ledger: GoogleUsageLedger, request: Request, response: Response<T>, others: Others)
    returns (result: Result<T, FetchError>)
    requires ledger.Valid()
    requires !Has(ledger.rows, request.handle) && OthersForeign(others, request.handle)
    modifies ledger
    ensures ledger.Valid() && TableEvolves(old(ledger.rows), ledger.rows)
    ensures result.Err? && result.error.Denied? <==> !Has(ledger.rows, request.handle)
    ensures result.Err? && result.error.Denied? <==>
      ReserveResult(ledger.config, old(ledger.rows), request.handle, request.city, request.station, request.now).Err?
    ensures result.Err? && result.error.Denied? ==>
      && ledger.rows == old(ledger.rows)
      && ReserveResult(ledger.config, ledger.rows, request.handle, request.city, request.station, request.now)
          == Err(result.error.reason)
    ensures RequestSettled(ledger.rows, request.handle, response, Sweeps(others.beforeDispatch, request.now), result)
    ensures result.Ok? ==> response == Body(Some(result.value))
    ensures result == Err(RequestFailed) ==> !Classify(response).success
    ensures !(result.Err? && result.error.Denied?) && !Sweeps(others.beforeDispatch, request.now) ==>
      AnsweredBy(result, response)
    ensures forall handle :: handle != request.handle ==> Untouched(old(ledger.rows), ledger.rows, others, handle)
    ensures others == NOBODY ==> AloneEffect(old(ledger.rows), ledger.rows, 1, {request.handle}, AnswerOf(response))
  {
    hide Inv, TableEvolves, Has, Find, Apply, Run, ReserveResult, Sound, Foreign, Untouched, AloneEffect,
         RequestSettled, AnsweredBy, Recordable, Fate, Sweeps, Settled, Refunded, Succeeded, Failed, AwaitingDispatch,
         AwaitingOutcome, Undispatched, InFlight, AlreadyCompleted;
    ghost var config, first := ledger.config, ledger.rows;
    var handle, now := request.handle, request.now;
    SoundAtFirst(first, others, handle);
    var reserved := ledger.ReserveEvent(handle, request.city, request.station, now);
    if reserved.Err? {
      SoundMeans(first, ledger.rows, others, handle);
      AloneIdle(first, 1, {handle}, AnswerOf(response));
      DeniedRequest(first, handle, response, Sweeps(others.beforeDispatch, now), Err(Denied(reserved.error)));
      return Err(Denied(reserved.error));
    }
    AloneAppends(config, first, request, Classify(response));
    SoundAfterOwnStep(config, first, first, Reserve(handle, request.city, request.station, now), others, handle);
    RowInTable(ledger.rows, ledger.rows[|ledger.rows| - 1]);
    ghost var second := ledger.rows;
    ghost var swept := Sweeps(others.beforeDispatch, now);
    NobodySweeps(others, now);
    ledger.Interfere(others.beforeDispatch);
    SoundAfterOthers(config, first, second, others.beforeDispatch, others, handle);
    ForeignRunSpares(config, second, others.beforeDispatch, handle);
    FateDecidesDispatch(RowOf(second, handle), RowOf(ledger.rows, handle), swept);
    PhasesExclude(RowOf(ledger.rows, handle));
    ghost var third := ledger.rows;
    var marked := ledger.MarkDispatched(handle, now);
    if marked.Err? {
      var cancelled := ledger.CancelBeforeDispatch(handle, now);
      SoundMeans(first, third, others, handle);
      SweptRequest(ledger.rows, handle, response, marked.error);
      return Err(NotDispatched(marked.error));
    }
    SoundAfterOwnStep(config, first, third, Dispatch(handle, now), others, handle);
    RowInTable(ledger.rows, marked.value);
    ghost var fourth := ledger.rows;
    ledger.Interfere(others.beforeComplete);
    SoundAfterOthers(config, first, fourth, others.beforeComplete, others, handle);
    ForeignRunSpares(config, fourth, others.beforeComplete, handle);
    AwaitingOutcomeStays(marked.value, RowOf(ledger.rows, handle),
                         Sweeps(others.beforeComplete, marked.value.reservedAt));
    PhasesExclude(RowOf(ledger.rows, handle));
    ghost var fifth := ledger.rows;
    var outcome := Classify(response);
    RecordableIffValid(response);
    var completed := ledger.CompleteEvent(handle, outcome, now);
    SoundAfterOwnStep(config, first, fifth, Complete(handle, outcome, now), others, handle);
    SoundMeans(first, ledger.rows, others, handle);
    if completed.Err? {
      RejectedRequest(ledger.rows, handle, response, completed.error);
      result := Err(OutcomeRejected(completed.error));
    } else {
      result := if outcome.success then Ok(response.parsed.value) else Err(RequestFailed);
      AnsweredRequest(ledger.rows, completed.value, response, result);
    }
    SettledIsAnswered(ledger.rows, handle, response, result);
    if others == NOBODY {
      AloneRequest(first, ledger.rows, handle, response, result);
    }
  }

  lemma NobodySweeps(others: Others, reservedAt: int)
    ensures others == NOBODY ==> !Sweeps(others.beforeDispatch, reservedAt)
  {
  }

  lemma FateDecidesDispatch(before: Row, after: Row, swept: bool)
    requires AwaitingDispatch(before) && Fate(before, after, swept)
    ensures if swept then Refunded(after) else AwaitingDispatch(after)
  {
  }

  lemma AwaitingOutcomeStays(before: Row, after: Row, swept: bool)
    requires AwaitingOutcome(before) && Fate(before, after, swept)
    ensures after == before
  {
  }
}
