/** The paired interval on calendar blocks (scripts/evaluate_v7_ml.py, calendar_block_interval). */
module CalendarBlocks {
  import opened Wrappers
  import opened RealOrder
  import opened RealSums
  import Bootstrap

  const BLOCK_DAYS := 7
  const MINIMUM_DATES := 14

  type Differences = map<int, real>

  /** Seven consecutive days, all of them observed. */
  predicate IsBlock(differences: Differences, start: int) {
    forall day :: start <= day < start + BLOCK_DAYS ==> day in differences
  }

  predicate Supported(differences: Differences, day: int) {
    exists start :: IsBlock(differences, start) && start <= day < start + BLOCK_DAYS
  }

  /** Enough dates, and none of them outside every complete block. */
  predicate FullySupported(differences: Differences) {
    |differences| >= MINIMUM_DATES && forall day :: day in differences ==> Supported(differences, day)
  }

  /** An interval needs fourteen dates, each among seven consecutive observed days. */
  lemma FullSupportIs(differences: Differences)
    ensures FullySupported(differences) <==>
      && |differences| >= 14
      && forall day :: day in differences ==>
           exists start :: day - 7 < start <= day && AllSeven(differences, start)
  {
    hide IsBlock, AllSeven;
    forall start ensures IsBlock(differences, start) <==> AllSeven(differences, start) {
      BlocksAreSevens(differences, start);
    }
    forall day | day in differences
      ensures Supported(differences, day) <==> exists start :: day - 7 < start <= day && AllSeven(differences, start)
    {
      if Supported(differences, day) {
        var start :| IsBlock(differences, start) && start <= day < start + BLOCK_DAYS;
        assert day - 7 < start <= day && AllSeven(differences, start);
      }
    }
  }

  lemma BlocksAreSevens(differences: Differences, start: int)
    ensures IsBlock(differences, start) <==> AllSeven(differences, start)
  {
    if AllSeven(differences, start) {
      forall day | start <= day < start + BLOCK_DAYS ensures day in differences {
        assert day == start || day == start + 1 || day == start + 2 || day == start + 3 || day == start + 4
            || day == start + 5 || day == start + 6;
      }
    }
  }

  predicate AllSeven(differences: Differences, start: int) {
    && start in differences && start + 1 in differences && start + 2 in differences && start + 3 in differences
    && start + 4 in differences && start + 5 in differences && start + 6 in differences
  }

  /** The days of a block. */
  function BlockDates(start: int): (days: set<int>)
    ensures forall day :: day in days <==> start <= day < start + BLOCK_DAYS
  {
    {start, start + 1, start + 2, start + 3, start + 4, start + 5, start + 6}
  }

  predicate CoveredBy(starts: seq<int>, day: int) {
    exists k :: 0 <= k < |starts| && starts[k] <= day < starts[k] + BLOCK_DAYS
  }

  /** Exactly the starts among some dates that begin a block, in order, and the days those blocks cover. */
  ghost predicate Scanned(differences: Differences, dates: seq<int>, starts: seq<int>, covered: set<int>) {
    && (forall start :: start in starts <==> start in dates && IsBlock(differences, start))
    && (forall day :: day in covered <==> CoveredBy(starts, day))
  }

  lemma ScanOne(differences: Differences, dates: seq<int>, starts: seq<int>, covered: set<int>, start: int)
    requires Scanned(differences, dates, starts, covered)
    ensures if IsBlock(differences, start)
            then Scanned(differences, dates + [start], starts + [start], covered + BlockDates(start))
            else Scanned(differences, dates + [start], starts, covered)
  {
    hide IsBlock;
    if IsBlock(differences, start) {
      var more, wider := starts + [start], covered + BlockDates(start);
      forall day ensures day in wider <==> CoveredBy(more, day) {
        if CoveredBy(starts, day) {
          var k :| 0 <= k < |starts| && starts[k] <= day < starts[k] + BLOCK_DAYS;
          assert more[k] == starts[k];
        }
        if day in BlockDates(start) {
          assert more[|starts|] == start;
        }
      }
    }
  }

  /** The block starts, unless some observed date is in no complete block. */
  method SupportedBlocks(differences: Differences, dates: seq<int>) returns (starts: Option<seq<int>>)
    requires forall day :: day in dates <==> day in differences
    requires |dates| == |differences|
    ensures starts.Some? <==> FullySupported(differences)
    ensures starts.Some? ==> starts.value != [] && forall start :: start in starts.value <==>
      IsBlock(differences, start)
  {
    if |dates| < MINIMUM_DATES {
      return None;
    }
    var found: seq<int>, covered: set<int>, i := [], {}, 0;
    while i < |dates|
      invariant 0 <= i <= |dates|
      invariant Scanned(differences, dates[..i], found, covered)
    {
      assert dates[..i + 1] == dates[..i] + [dates[i]];
      ScanOne(differences, dates[..i], found, covered, dates[i]);
      if IsBlock(differences, dates[i]) {
        found := found + [dates[i]];
        covered := covered + BlockDates(dates[i]);
      }
      i := i + 1;
    }
    assert dates[..i] == dates;
    ScanIsComplete(differences, dates, found, covered);
    if found == [] || covered != differences.Keys {
      return None;
    }
    starts := Some(found);
  }

  lemma BlockStartsAreDates(differences: Differences, start: int)
    requires IsBlock(differences, start)
    ensures start in differences
  {
  }

  lemma CoveredIffSupported(differences: Differences, starts: seq<int>, day: int)
    requires forall start :: start in starts <==> IsBlock(differences, start)
    ensures CoveredBy(starts, day) <==> Supported(differences, day)
    ensures Supported(differences, day) ==> day in differences
  {
    if CoveredBy(starts, day) {
      var k :| 0 <= k < |starts| && starts[k] <= day < starts[k] + BLOCK_DAYS;
      assert starts[k] in starts;
    }
    if Supported(differences, day) {
      var start :| IsBlock(differences, start) && start <= day < start + BLOCK_DAYS;
      assert start in starts;
    }
  }

  lemma ScanIsComplete(differences: Differences, dates: seq<int>, starts: seq<int>, covered: set<int>)
    requires Scanned(differences, dates, starts, covered) && forall day :: day in dates <==> day in differences
    requires |differences| >= MINIMUM_DATES
    ensures forall start :: start in starts <==> IsBlock(differences, start)
    ensures (starts != [] && covered == differences.Keys) <==> FullySupported(differences)
  {
    hide IsBlock, CoveredBy, Supported;
    forall start | IsBlock(differences, start) ensures start in starts {
      BlockStartsAreDates(differences, start);
    }
    forall day ensures day in covered <==> Supported(differences, day) {
      CoveredIffSupported(differences, starts, day);
    }
    forall day | Supported(differences, day) ensures day in differences && starts != [] {
      CoveredIffSupported(differences, starts, day);
      SupportNeedsStart(differences, starts, day);
    }
    SomeDate(differences);
    assert forall day :: day in differences <==> day in differences.Keys;
    if FullySupported(differences) {
      assert forall day :: day in covered <==> day in differences.Keys;
    }
  }

  lemma SupportNeedsStart(differences: Differences, starts: seq<int>, day: int)
    requires Supported(differences, day) && forall start :: start in starts <==> IsBlock(differences, start)
    ensures starts != []
  {
  }

  lemma SomeDate(differences: Differences)
    requires |differences| > 0
    ensures exists day :: day in differences
  {
    if forall day :: day !in differences {
      assert false;
    }
  }

  // ----- Resampling -----

  /** One replicate's blocks: any complete blocks, enough of them for n days. */
  predicate ValidChoice(differences: Differences, choice: seq<int>, n: nat) {
    (forall k :: 0 <= k < |choice| ==> IsBlock(differences, choice[k])) && |choice| * BLOCK_DAYS >= n
  }

  /** The block of a position and the day it stands for. */
  lemma PositionInBlock(differences: Differences, choice: seq<int>, n: nat, i: nat)
    requires ValidChoice(differences, choice, n) && i < n
    ensures i / BLOCK_DAYS < |choice| && choice[i / BLOCK_DAYS] + i % BLOCK_DAYS in differences
  {
    assert IsBlock(differences, choice[i / BLOCK_DAYS]);
  }

  function DayAt(differences: Differences, choice: seq<int>, n: nat, i: nat): (day: int)
    requires ValidChoice(differences, choice, n) && i < n
    ensures day in differences
  {
    PositionInBlock(differences, choice, n, i);
    choice[i / BLOCK_DAYS] + i % BLOCK_DAYS
  }

  function Replicate(differences: Differences, choice: seq<int>, n: nat): (values: seq<real>)
    requires ValidChoice(differences, choice, n)
    ensures |values| == n
    ensures forall i :: 0 <= i < n ==> values[i] == differences[DayAt(differences, choice, n, i)]
  {
    seq(n, i requires 0 <= i < n => differences[DayAt(differences, choice, n, i)])
  }

  predicate ValidDraws(differences: Differences, draws: seq<seq<int>>, n: nat) {
    forall k :: 0 <= k < |draws| ==> ValidChoice(differences, draws[k], n)
  }

  function Means(differences: Differences, draws: seq<seq<int>>, n: nat): (means: seq<real>)
    requires n > 0 && ValidDraws(differences, draws, n)
    ensures |means| == |draws|
    ensures forall k :: 0 <= k < |draws| ==> means[k] == Mean(Replicate(differences, draws[k], n))
  {
    seq(|draws|, k requires 0 <= k < |draws| => Mean(Replicate(differences, draws[k], n)))
  }

  /** The replicates' means in order, read at 2.5% and 97.5% of their number, rounded down. */
  function Interval(differences: Differences, draws: seq<seq<int>>): (real, real)
    requires |differences| > 0 && draws != [] && ValidDraws(differences, draws, |differences|)
  {
    var ordered := Sorted(Means(differences, draws, |differences|));
    (ordered[25 * |draws| / 1000], ordered[975 * |draws| / 1000])
  }

  /** Its ends leave a fortieth of the replicates' means at or beyond each of them. */
  lemma IntervalRanksTheMeans(differences: Differences, draws: seq<seq<int>>)
    requires |differences| > 0 && draws != [] && ValidDraws(differences, draws, |differences|)
    ensures var means, interval := Means(differences, draws, |differences|), Interval(differences, draws);
            && AtMost(means, interval.0) > |draws| / 40 >= Under(means, interval.0)
            && AtMost(means, interval.1) > 39 * |draws| / 40 >= Under(means, interval.1)
  {
    hide Means, Sorted, ValidDraws;
    SortedRank(Means(differences, draws, |differences|), 25 * |draws| / 1000);
    SortedRank(Means(differences, draws, |differences|), 975 * |draws| / 1000);
  }

  /** Ordered, and inside the range of the observed differences. */
  lemma IntervalInRange(differences: Differences, draws: seq<seq<int>>, low: real, high: real)
    requires |differences| > 0 && draws != [] && ValidDraws(differences, draws, |differences|)
    requires forall day :: day in differences ==> low <= differences[day] <= high
    ensures low <= Interval(differences, draws).0 <= Interval(differences, draws).1 <= high
  {
    hide Sorted, Mean, IsBlock;
    var means := Means(differences, draws, |differences|);
    var ordered := Sorted(means);
    SortedAscends(means);
    SortedPermutes(means);
    forall k | 0 <= k < |ordered| ensures low <= ordered[k] <= high {
      assert ordered[k] in multiset(ordered);
      assert ordered[k] in means;
      var j :| 0 <= j < |means| && means[j] == ordered[k];
      Bootstrap.MeanInRange(Replicate(differences, draws[j], |differences|), low, high);
    }
  }

  /** For the same draws, lowering any day's difference lowers both ends. */
  lemma LowerDifferencesLowerInterval(better: Differences, worse: Differences, draws: seq<seq<int>>)
    requires better.Keys == worse.Keys && |better| == |worse| > 0 && draws != []
    requires ValidDraws(better, draws, |better|) && ValidDraws(worse, draws, |worse|)
    requires forall day :: day in better ==> better[day] <= worse[day]
    ensures Interval(better, draws).0 <= Interval(worse, draws).0
      && Interval(better, draws).1 <= Interval(worse, draws).1
  {
    hide Sorted, Mean, IsBlock;
    var n := |better|;
    forall k | 0 <= k < |draws| ensures Means(better, draws, n)[k] <= Means(worse, draws, n)[k] {
      Bootstrap.MeanMonotone(Replicate(better, draws[k], n), Replicate(worse, draws[k], n));
    }
    SortedBelow(Means(better, draws, n), Means(worse, draws, n));
  }

  // ----- The loops -----

  function BlockValues(differences: Differences, start: int): (values: seq<real>)
    requires IsBlock(differences, start)
    ensures |values| == BLOCK_DAYS && forall i :: 0 <= i < BLOCK_DAYS ==> values[i] == differences[start + i]
  {
    seq(BLOCK_DAYS, i requires 0 <= i < BLOCK_DAYS => differences[start + i])
  }

  /** Blocks are drawn until long enough, then cut to the observed number of dates. */
  method Resample(differences: Differences, choice: seq<int>, n: nat) returns (selected: seq<real>)
    requires ValidChoice(differences, choice, n)
    ensures selected == Replicate(differences, choice, n)
  {
    hide IsBlock;
    selected := [];
    var k := 0;
    while |selected| < n
      invariant k <= |choice| && |selected| == k * BLOCK_DAYS
      invariant forall i: nat :: i < |selected| && i < n ==>
        selected[i] == differences[DayAt(differences, choice, n, i)]
      decreases |choice| - k
    {
      selected := selected + BlockValues(differences, choice[k]);
      k := k + 1;
    }
    selected := selected[..n];
  }

  /** No interval unless every observed date can be resampled; otherwise the interval of the replicates' means. */
  method CalendarBlockInterval(differences: Differences, dates: seq<int>,
          draws: seq<seq<int>>) returns (interval: Option<(real, real)>)
    requires (forall day :: day in dates <==> day in differences) && |dates| == |differences|
    requires draws != [] && (FullySupported(differences) ==> ValidDraws(differences, draws, |differences|))
    ensures interval.Some? <==> FullySupported(differences)
    ensures interval.Some? ==> interval.value == Interval(differences, draws)
  {
    hide IsBlock, Sorted, Mean;
    var blocks := SupportedBlocks(differences, dates);
    if blocks.None? {
      return None;
    }
    var samples: seq<real>, k := [], 0;
    while k < |draws|
      invariant 0 <= k == |samples| <= |draws|
      invariant forall j :: 0 <= j < k ==> samples[j] == Means(differences, draws, |differences|)[j]
    {
      var selected := Resample(differences, draws[k], |dates|);
      samples := samples + [Mean(selected)];
      k := k + 1;
    }
    assert samples == Means(differences, draws, |differences|);
    var ordered := Sorted(samples);
    interval := Some((ordered[25 * |samples| / 1000], ordered[975 * |samples| / 1000]));
  }
}
