/** The monitor's issue across polls (scripts/publication_freshness_github.py, check_publication_freshness.py). */
module IssueTracker {
  import opened Wrappers
  import opened FreshnessDecision
  import opened RealOrder

  /**
   * One monitor issue: the bucket markers on its body and comments, oldest first. The ages at which runs found the
   * snapshot stale while it was open are kept only to state what the markers mean.
   */
  datatype Issue = Issue(open: bool, stamps: seq<int>, staleAges: seq<real>)

  datatype Event =
    | Poll(seen: Observation, delivered: bool)
    | ClosedByHand

  /** The newest open issue, which is the one the search finds. */
  function OpenIndex(issues: seq<Issue>): (index: Option<nat>)
    ensures index.Some? ==> index.value < |issues| && issues[index.value].open
    ensures index.Some? ==> forall j :: index.value < j < |issues| ==> !issues[j].open
    ensures index.None? ==> forall j :: 0 <= j < |issues| ==> !issues[j].open
  {
    if issues == [] then None
    else if issues[|issues| - 1].open then Some(|issues| - 1)
    else OpenIndex(issues[..|issues| - 1])
  }

  function Posted(issues: seq<Issue>): Option<seq<int>> {
    var index := OpenIndex(issues);
    if index.None? then None else Some(issues[index.value].stamps)
  }

  function OpeningStamp(verdict: Verdict): seq<int> {
    if verdict.Stale? && EscalationBucket(verdict.age).Some? then [EscalationBucket(verdict.age).value] else []
  }

  function StaleAge(verdict: Verdict): seq<real> {
    if verdict.Stale? then [verdict.age] else []
  }

  /** The issue after a run that saw this verdict and performed this action on it. */
  function Updated(issue: Issue, verdict: Verdict, action: Action): Issue {
    var seen := issue.(staleAges := issue.staleAges + StaleAge(verdict));
    match action
    case Comment(bucket) => seen.(stamps := issue.stamps + [bucket])
    case Close => seen.(open := false)
    case _ => seen
  }

  function AfterPoll(issues: seq<Issue>, thresholds: Thresholds, seen: Observation, delivered: bool): seq<Issue> {
    var verdict, index := VerdictOf(seen, thresholds), OpenIndex(issues);
    var action := if delivered then Plan(seen, Posted(issues), thresholds) else Nothing;
    if index.Some? then issues[index.value := Updated(issues[index.value], verdict, action)]
    else if action.Create? then issues + [Issue(true, OpeningStamp(verdict), StaleAge(verdict))]
    else issues
  }

  function AfterHandClose(issues: seq<Issue>): seq<Issue> {
    var index := OpenIndex(issues);
    if index.Some? then issues[index.value := issues[index.value].(open := false)] else issues
  }

  function After(issues: seq<Issue>, thresholds: Thresholds, event: Event): seq<Issue> {
    match event
    case Poll(seen, delivered) => AfterPoll(issues, thresholds, seen, delivered)
    case ClosedByHand => AfterHandClose(issues)
  }

  function Run(thresholds: Thresholds, events: seq<Event>): seq<Issue> {
    if events == [] then []
    else After(Run(thresholds, events[..|events| - 1]), thresholds, events[|events| - 1])
  }

  /** What one delivered or undelivered run leaves behind. */
  lemma PollsChangeOneIssue(issues: seq<Issue>, thresholds: Thresholds, seen: Observation, delivered: bool)
    ensures var after, verdict := After(issues, thresholds, Poll(seen, delivered)), VerdictOf(seen, thresholds);
            var action, index := Plan(seen, Posted(issues), thresholds), OpenIndex(issues);
            && (index.None? && !(delivered && action.Create?) ==> after == issues)
            && (index.None? && delivered && action.Create? ==>
                  && |after| == |issues| + 1 && after[..|issues|] == issues && after[|issues|].open
                  && (forall b :: after[|issues|].stamps == [b] <==>
                        verdict.Stale? && EscalationBucket(verdict.age) == Some(b))
                  && (after[|issues|].stamps == [] <==> !verdict.Stale? || EscalationBucket(verdict.age).None?)
                  && after[|issues|].staleAges == if verdict.Stale? then [verdict.age] else [])
            && (index.Some? ==>
                  && |after| == |issues|
                  && (forall j :: 0 <= j < |issues| && j != index.value ==> after[j] == issues[j])
                  && (after[index.value].open <==> !(delivered && action.Close?))
                  && after[index.value].stamps
                     == issues[index.value].stamps + (if delivered && action.Comment? then [action.bucket] else [])
                  && after[index.value].staleAges
                     == issues[index.value].staleAges + (if verdict.Stale? then [verdict.age] else []))
  {
    hide VerdictOf, EscalationBucket, Plan, OpenIndex;
  }

  /** A run is its events one after the other, from no issue at all. */
  lemma RunsGoEventByEvent(thresholds: Thresholds, events: seq<Event>, event: Event)
    ensures Run(thresholds, []) == []
    ensures Run(thresholds, events + [event]) == After(Run(thresholds, events), thresholds, event)
  {
    assert (events + [event])[..|events|] == events;
  }

  /** A human closing the issue closes the newest open one and keeps its stamps. */
  lemma HandsCloseTheOpenIssue(issues: seq<Issue>, thresholds: Thresholds)
    ensures var after, index := After(issues, thresholds, ClosedByHand), OpenIndex(issues);
            && (index.None? ==> after == issues)
            && (index.Some? ==> after == issues[index.value := issues[index.value].(open := false)])
  {
  }

  // ----- What every run keeps -----

  predicate NonDecreasing(ages: seq<real>) {
    forall i, j :: 0 <= i < j < |ages| ==> ages[i] <= ages[j]
  }

  predicate NoRepeats(stamps: seq<int>) {
    forall i, j :: 0 <= i < j < |stamps| ==> stamps[i] != stamps[j]
  }

  /** The stamp is the bucket of some age at which the snapshot was seen stale. */
  predicate Earned(stamp: int, ages: seq<real>) {
    exists k :: 0 <= k < |ages| && EscalationBucket(ages[k]) == Some(stamp)
  }

  predicate IssueInv(issue: Issue) {
    && NoRepeats(issue.stamps)
    && (forall i :: 0 <= i < |issue.stamps| ==> Earned(issue.stamps[i], issue.staleAges))
    && (NonDecreasing(issue.staleAges) ==> StrictlyAscending(issue.stamps))
  }

  predicate AtMostOneOpen(issues: seq<Issue>) {
    forall i, j :: 0 <= i < j < |issues| ==> !(issues[i].open && issues[j].open)
  }

  predicate Inv(issues: seq<Issue>) {
    AtMostOneOpen(issues) && forall i :: 0 <= i < |issues| ==> IssueInv(issues[i])
  }

  lemma EarnedStays(stamp: int, ages: seq<real>, more: seq<real>)
    requires Earned(stamp, ages)
    ensures Earned(stamp, ages + more)
  {
    var k :| 0 <= k < |ages| && EscalationBucket(ages[k]) == Some(stamp);
    assert (ages + more)[k] == ages[k];
  }

  lemma NonDecreasingPrefix(ages: seq<real>, more: seq<real>)
    requires NonDecreasing(ages + more)
    ensures NonDecreasing(ages)
  {
    assert forall i :: 0 <= i < |ages| ==> (ages + more)[i] == ages[i];
  }

  lemma SeeingKeepsInv(issue: Issue, verdict: Verdict)
    requires IssueInv(issue)
    ensures IssueInv(issue.(staleAges := issue.staleAges + StaleAge(verdict)))
  {
    hide Earned, EscalationBucket;
    var ages := issue.staleAges + StaleAge(verdict);
    forall i | 0 <= i < |issue.stamps| ensures Earned(issue.stamps[i], ages) {
      EarnedStays(issue.stamps[i], issue.staleAges, StaleAge(verdict));
    }
    if NonDecreasing(ages) {
      NonDecreasingPrefix(issue.staleAges, StaleAge(verdict));
    }
  }

  /** A comment's bucket is new; if ages never fell it is past every earlier stamp. */
  lemma CommentKeepsInv(issue: Issue, age: real, bucket: int)
    requires IssueInv(issue) && EscalationBucket(age) == Some(bucket) && bucket !in issue.stamps
    ensures IssueInv(issue.(staleAges := issue.staleAges + [age], stamps := issue.stamps + [bucket]))
  {
    hide EscalationBucket;
    var ages := issue.staleAges + [age];
    assert ages[|issue.staleAges|] == age;
    assert Earned(bucket, ages);
    forall i | 0 <= i < |issue.stamps| ensures Earned(issue.stamps[i], ages) {
      EarnedStays(issue.stamps[i], issue.staleAges, [age]);
    }
    if NonDecreasing(ages) {
      NonDecreasingPrefix(issue.staleAges, [age]);
      forall i | 0 <= i < |issue.stamps| ensures issue.stamps[i] < bucket {
        assert Earned(issue.stamps[i], issue.staleAges);
        var k :| 0 <= k < |issue.staleAges| && EscalationBucket(issue.staleAges[k]) == Some(issue.stamps[i]);
        assert ages[k] <= ages[|issue.staleAges|];
        BucketsAreMonotone(issue.staleAges[k], age);
      }
    }
  }

  lemma OpeningKeepsInv(verdict: Verdict)
    ensures IssueInv(Issue(true, OpeningStamp(verdict), StaleAge(verdict)))
  {
    hide EscalationBucket;
    if OpeningStamp(verdict) != [] {
      assert StaleAge(verdict)[0] == verdict.age;
    }
  }

  /** What the plan can be while an issue is open. */
  lemma PlanWhileOpen(seen: Observation, stamps: seq<int>, thresholds: Thresholds)
    ensures var action, verdict := Plan(seen, Some(stamps), thresholds), VerdictOf(seen, thresholds);
            && !action.Create?
            && (action.Comment? ==>
                  verdict.Stale? && EscalationBucket(verdict.age) == Some(action.bucket) && action.bucket !in stamps)
            && (action.Close? ==> verdict.Fresh?)
  {
  }

  lemma UpdatedKeepsInv(issue: Issue, seen: Observation, thresholds: Thresholds, delivered: bool)
    requires IssueInv(issue)
    ensures var action := if delivered then Plan(seen, Some(issue.stamps), thresholds) else Nothing;
            IssueInv(Updated(issue, VerdictOf(seen, thresholds), action))
  {
    hide IssueInv, Plan, VerdictOf, EscalationBucket;
    var verdict, action := VerdictOf(seen, thresholds), Plan(seen, Some(issue.stamps), thresholds);
    PlanWhileOpen(seen, issue.stamps, thresholds);
    SeeingKeepsInv(issue, verdict);
    if action.Comment? {
      CommentKeepsInv(issue, verdict.age, action.bucket);
    }
    ClosingKeepsInv(issue.(staleAges := issue.staleAges + StaleAge(verdict)));
  }

  lemma ClosingKeepsInv(issue: Issue)
    requires IssueInv(issue)
    ensures IssueInv(issue.(open := false))
  {
  }

  lemma ReplaceKeepsInv(issues: seq<Issue>, i: nat, issue: Issue)
    requires Inv(issues) && i < |issues| && IssueInv(issue) && (issue.open ==> issues[i].open)
    ensures Inv(issues[i := issue])
  {
  }

  lemma AppendKeepsInv(issues: seq<Issue>, issue: Issue)
    requires Inv(issues) && IssueInv(issue) && OpenIndex(issues).None?
    ensures Inv(issues + [issue])
  {
  }

  lemma EventKeepsInv(issues: seq<Issue>, thresholds: Thresholds, event: Event)
    requires Inv(issues)
    ensures Inv(After(issues, thresholds, event))
  {
    hide Inv, IssueInv, Plan, VerdictOf;
    var index := OpenIndex(issues);
    if index.Some? {
      InvAt(issues, index.value);
    }
    match event
    case Poll(seen, delivered) =>
      var verdict := VerdictOf(seen, thresholds);
      if index.Some? {
        var action := if delivered then Plan(seen, Posted(issues), thresholds) else Nothing;
        UpdatedKeepsInv(issues[index.value], seen, thresholds, delivered);
        ReplaceKeepsInv(issues, index.value, Updated(issues[index.value], verdict, action));
      } else {
        OpeningKeepsInv(verdict);
        AppendKeepsInv(issues, Issue(true, OpeningStamp(verdict), StaleAge(verdict)));
      }
    case ClosedByHand =>
      if index.Some? {
        ClosingKeepsInv(issues[index.value]);
        ReplaceKeepsInv(issues, index.value, issues[index.value].(open := false));
      }
  }

  lemma InvAt(issues: seq<Issue>, i: nat)
    requires Inv(issues) && i < |issues|
    ensures IssueInv(issues[i])
  {
  }

  /**
   * With one runner, at most one monitor issue is ever open; no escalation is posted twice on an issue; and on an
   * issue whose stale ages never fell, the stamps, opening one included, strictly increase.
   */
  lemma {:induction false} EveryRunKeepsInv(thresholds: Thresholds, events: seq<Event>)
    ensures Inv(Run(thresholds, events))
  {
    hide Inv, After;
    if events == [] {
      NoIssues();
    } else {
      EveryRunKeepsInv(thresholds, events[..|events| - 1]);
      EventKeepsInv(Run(thresholds, events[..|events| - 1]), thresholds, events[|events| - 1]);
    }
  }

  lemma NoIssues()
    ensures Inv([])
  {
  }

  /**
   * Escalations are not only never repeated, they are never missed: a delivered, unmuted stale run leaves its bucket
   * stamped.
   */
  lemma EscalationsArePosted(issues: seq<Issue>, thresholds: Thresholds, seen: Observation)
    requires Inv(issues) && OpenIndex(issues).Some? && !seen.muted
    requires var verdict := VerdictOf(seen, thresholds);
             verdict.Stale? && EscalationBucket(verdict.age).Some?
    ensures var after := After(issues, thresholds, Poll(seen, true));
            && Posted(after).Some?
            && EscalationBucket(VerdictOf(seen, thresholds).age).value in Posted(after).value
  {
    hide VerdictOf, EscalationBucket;
    var i := OpenIndex(issues).value;
    var after := After(issues, thresholds, Poll(seen, true));
    assert after[i].open;
    assert forall j :: i < j < |issues| ==> !after[j].open;
    assert OpenIndex(after) == Some(i);
    var bucket := EscalationBucket(VerdictOf(seen, thresholds).age).value;
    assert bucket in after[i].stamps by {
      if bucket !in issues[i].stamps {
        assert after[i].stamps == issues[i].stamps + [bucket];
      }
    }
  }

  /** The tracker as one runner drives it. */
  class Monitor {
    const thresholds: Thresholds
    var issues: seq<Issue>

    predicate Valid()
      reads this
    {
      Inv(issues)
    }

    constructor (thresholds: Thresholds)
      ensures this.thresholds == thresholds && issues == [] && Valid()
    {
      this.thresholds := thresholds;
      issues := [];
    }

    /** One run: plan on what was seen, then write; a failed write changes nothing. */
    method RunOnce(seen: Observation, delivered: bool) returns (action: Action)
      requires Valid()
      modifies this
      ensures Valid() && issues == After(old(issues), thresholds, Poll(seen, delivered))
      ensures action == Plan(seen, Posted(old(issues)), thresholds)
      ensures |issues| == |old(issues)| + if delivered && action.Create? then 1 else 0
      ensures Posted(issues).Some? && Posted(old(issues)).None? ==> delivered && action.Create?
      ensures Posted(issues).None? && Posted(old(issues)).Some? ==> delivered && action.Close?
    {
      EventKeepsInv(issues, thresholds, Poll(seen, delivered));
      var verdict, index := VerdictOf(seen, thresholds), OpenIndex(issues);
      action := Plan(seen, Posted(issues), thresholds);
      if index.Some? {
        PlanWhileOpen(seen, issues[index.value].stamps, thresholds);
      }
      if delivered && action.Create? {
        issues := issues + [Issue(true, OpeningStamp(verdict), StaleAge(verdict))];
      } else if index.Some? {
        var issue := issues[index.value].(staleAges := issues[index.value].staleAges + StaleAge(verdict));
        if delivered && action.Comment? {
          issue := issue.(stamps := issue.stamps + [action.bucket]);
        } else if delivered && action.Close? {
          issue := issue.(open := false);
        }
        issues := issues[index.value := issue];
        if issue.open {
          StaysOpen(old(issues), issues, index.value);
        }
      }
    }
  }

  lemma StaysOpen(before: seq<Issue>, after: seq<Issue>, i: nat)
    requires OpenIndex(before) == Some(i) && |after| == |before| && after[i].open
    requires forall j :: i < j < |before| ==> after[j] == before[j]
    ensures OpenIndex(after) == Some(i)
  {
    hide OpenIndex;
  }
}
