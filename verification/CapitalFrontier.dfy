/**
 * The research capital frontier (scripts/evaluate_v7_ml.py): fixed verified fills are
 * block-resampled into trajectories, each trajectory is walked at each starting capital
 * of an ascending grid, and a capital is feasible when few enough trajectories breach.
 *
 * The random number generator is an arbitrary sequence of in-range block choices.
 */
module CapitalFrontier {
  import opened RealOrder

  const MINIMUM_DAYS := 30
  const DAILY_LOSS_FRACTION := 0.01
  const PEAK_OPEN_COST_FRACTION := 0.05
  const MAXIMUM_DRAWDOWN := 0.10
  const MAXIMUM_BREACH_PROBABILITY := 0.05
  const BLOCK_DAYS := 7
  const CAPITAL_MULTIPLIERS := [1.0, 1.25, 1.5, 2.0, 3.0, 5.0, 10.0]

  datatype Day = Day(netPnl: real, peakOpenCost: real, realizedLoss: real)

  /** What the source demands of a day's fills before it studies them. */
  predicate Verified(day: Day) {
    day.peakOpenCost >= 0.0 && day.realizedLoss >= Max(-day.netPnl, 0.0)
  }

  datatype Walk = Walk(wealth: real, peak: real, drawdown: real, breached: bool)

  function Start(capital: real): Walk {
    Walk(capital, capital, 0.0, false)
  }

  predicate OverBudget(wealth: real, day: Day) {
    wealth <= 0.0
    || day.peakOpenCost > PEAK_OPEN_COST_FRACTION * wealth
    || day.realizedLoss > DAILY_LOSS_FRACTION * wealth
  }

  function Drop(peak: real, wealth: real): (drop: real)
    requires peak > 0.0
    ensures drop * peak == peak - wealth
  {
    (peak - wealth) / peak
  }

  function Advance(w: Walk, day: Day): (r: Walk)
    requires w.peak > 0.0
    ensures r.peak >= w.peak
  {
    var worst := w.wealth - day.realizedLoss - day.peakOpenCost;
    var wealth := w.wealth + day.netPnl;
    var peak := Max(w.peak, wealth);
    Walk(wealth, peak, Max(Max(w.drawdown, Drop(w.peak, worst)), Drop(peak, wealth)),
         w.breached || OverBudget(w.wealth, day))
  }

  function Follow(capital: real, days: seq<Day>): (r: Walk)
    requires capital > 0.0
    ensures r.peak >= capital
  {
    if days == [] then Start(capital)
    else Advance(Follow(capital, days[..|days| - 1]), days[|days| - 1])
  }

  predicate Breaches(w: Walk) {
    w.breached || w.drawdown > MAXIMUM_DRAWDOWN
  }

  // ----- What a walk reports, told from the days alone -----

  function TotalPnl(days: seq<Day>): real {
    if days == [] then 0.0 else TotalPnl(days[..|days| - 1]) + days[|days| - 1].netPnl
  }

  /** The wealth before day i: the start and the profits so far. */
  function WealthBefore(capital: real, days: seq<Day>, i: nat): real
    requires i <= |days|
  {
    capital + TotalPnl(days[..i])
  }

  /** The largest wealth seen before day i, the start included. */
  function PeakBefore(capital: real, days: seq<Day>, i: nat): (peak: real)
    requires i <= |days| && capital > 0.0
    ensures peak >= capital
    ensures forall j :: 0 <= j <= i ==> WealthBefore(capital, days, j) <= peak
    ensures exists j :: 0 <= j <= i && WealthBefore(capital, days, j) == peak
  {
    if i == 0 then
      assert WealthBefore(capital, days, 0) == capital;
      capital
    else if WealthBefore(capital, days, i) >= PeakBefore(capital, days, i - 1) then WealthBefore(capital, days, i)
    else PeakBefore(capital, days, i - 1)
  }

  /** The worst moment of day i: its realized losses come before its gains, and its open cost is lost as well. */
  function IntradayDrop(capital: real, days: seq<Day>, i: nat): real
    requires i < |days| && capital > 0.0
  {
    var peak := PeakBefore(capital, days, i);
    Drop(peak, WealthBefore(capital, days, i) - days[i].realizedLoss - days[i].peakOpenCost)
  }

  function ClosingDrop(capital: real, days: seq<Day>, i: nat): real
    requires i < |days| && capital > 0.0
  {
    var peak := PeakBefore(capital, days, i + 1);
    Drop(peak, WealthBefore(capital, days, i + 1))
  }

  /** Every day's profit is added to the wealth as it stands. */
  lemma WealthMovesByProfits(capital: real, days: seq<Day>, i: nat)
    requires i < |days|
    ensures WealthBefore(capital, days, 0) == capital
    ensures WealthBefore(capital, days, i + 1) - WealthBefore(capital, days, i) == days[i].netPnl
  {
    assert days[..i + 1][..i] == days[..i];
  }

  predicate Attains(capital: real, days: seq<Day>, i: nat, drawdown: real)
    requires i < |days| && capital > 0.0
  {
    drawdown == IntradayDrop(capital, days, i) || drawdown == ClosingDrop(capital, days, i)
  }

  /** The largest of zero, every day's worst moment and every day's close. */
  predicate IsWorstDrop(capital: real, days: seq<Day>, drawdown: real)
    requires capital > 0.0
  {
    && drawdown >= 0.0
    && (forall i :: 0 <= i < |days| ==>
          drawdown >= IntradayDrop(capital, days, i) && drawdown >= ClosingDrop(capital, days, i))
    && (drawdown == 0.0 || exists i :: 0 <= i < |days| && Attains(capital, days, i, drawdown))
  }

  /** Some day found no wealth, or an open cost or a realized loss above its share of the wealth before it. */
  predicate BreaksBudget(capital: real, days: seq<Day>) {
    exists i :: 0 <= i < |days|
      && (WealthBefore(capital, days, i) <= 0.0
          || days[i].peakOpenCost > 0.05 * WealthBefore(capital, days, i)
          || days[i].realizedLoss > 0.01 * WealthBefore(capital, days, i))
  }

  lemma WealthOfPrefix(capital: real, days: seq<Day>, k: nat, i: nat)
    requires i <= k <= |days|
    ensures WealthBefore(capital, days[..k], i) == WealthBefore(capital, days, i)
  {
    assert days[..k][..i] == days[..i];
  }

  lemma {:induction false} PeakOfPrefix(capital: real, days: seq<Day>, k: nat, i: nat)
    requires i <= k <= |days| && capital > 0.0
    ensures PeakBefore(capital, days[..k], i) == PeakBefore(capital, days, i)
  {
    WealthOfPrefix(capital, days, k, i);
    if i > 0 {
      PeakOfPrefix(capital, days, k, i - 1);
    }
  }

  lemma DropsOfPrefix(capital: real, days: seq<Day>, k: nat, i: nat)
    requires i < k <= |days| && capital > 0.0
    ensures IntradayDrop(capital, days[..k], i) == IntradayDrop(capital, days, i)
    ensures ClosingDrop(capital, days[..k], i) == ClosingDrop(capital, days, i)
  {
    hide PeakBefore, WealthBefore, Drop;
    WealthOfPrefix(capital, days, k, i);
    WealthOfPrefix(capital, days, k, i + 1);
    PeakOfPrefix(capital, days, k, i);
    PeakOfPrefix(capital, days, k, i + 1);
  }

  lemma {:induction false} WalkCarries(capital: real, days: seq<Day>)
    requires capital > 0.0
    ensures Follow(capital, days).wealth == WealthBefore(capital, days, |days|)
    ensures Follow(capital, days).peak == PeakBefore(capital, days, |days|)
  {
    assert days[..|days|] == days;
    if days != [] {
      var k := |days| - 1;
      WalkCarries(capital, days[..k]);
      PeakOfPrefix(capital, days, k, k);
      WealthOfPrefix(capital, days, k, k);
      assert days[..k][..k] == days[..k];
    }
  }

  lemma OneMoreDay(capital: real, days: seq<Day>)
    requires capital > 0.0 && days != []
    ensures var k := |days| - 1;
            Follow(capital, days).drawdown
            == Max(Max(Follow(capital, days[..k]).drawdown, IntradayDrop(capital, days, k)),
                   ClosingDrop(capital, days, k))
  {
    hide PeakBefore, WealthBefore, Max, Drop;
    var k := |days| - 1;
    assert days[..|days|] == days && days[..k][..k] == days[..k];
    WalkCarries(capital, days);
    WalkCarries(capital, days[..k]);
    WealthOfPrefix(capital, days, k, k);
    PeakOfPrefix(capital, days, k, k);
  }

  /** The drawdown of a walk is the worst drop from a running peak, intraday or at a close. */
  lemma {:induction false} DrawdownIsTheWorstDrop(capital: real, days: seq<Day>)
    requires capital > 0.0
    ensures IsWorstDrop(capital, days, Follow(capital, days).drawdown)
  {
    hide IntradayDrop, ClosingDrop, Follow;
    NoDaysNoDrop(capital);
    if days != [] {
      var k := |days| - 1;
      DrawdownIsTheWorstDrop(capital, days[..k]);
      OneMoreDay(capital, days);
      forall i | 0 <= i < k
        ensures IntradayDrop(capital, days[..k], i) == IntradayDrop(capital, days, i)
        ensures ClosingDrop(capital, days[..k], i) == ClosingDrop(capital, days, i)
      {
        DropsOfPrefix(capital, days, k, i);
      }
      WorstOfMore(capital, days, Follow(capital, days[..k]).drawdown, Follow(capital, days).drawdown);
    }
  }

  lemma NoDaysNoDrop(capital: real)
    requires capital > 0.0
    ensures Follow(capital, []).drawdown == 0.0
  {
  }

  lemma WorstOfMore(capital: real, days: seq<Day>, before: real, after: real)
    requires capital > 0.0 && days != []
    requires forall i :: 0 <= i < |days| - 1 ==>
      && IntradayDrop(capital, days[..|days| - 1], i) == IntradayDrop(capital, days, i)
      && ClosingDrop(capital, days[..|days| - 1], i) == ClosingDrop(capital, days, i)
    requires IsWorstDrop(capital, days[..|days| - 1], before)
    requires var k := |days| - 1;
             after == Max(Max(before, IntradayDrop(capital, days, k)), ClosingDrop(capital, days, k))
    ensures IsWorstDrop(capital, days, after)
  {
    hide IntradayDrop, ClosingDrop;
    var k := |days| - 1;
    if after == before && before != 0.0 {
      var i :| 0 <= i < k && Attains(capital, days[..k], i, before);
      assert Attains(capital, days, i, after);
    } else if after != before {
      assert Attains(capital, days, k, after);
    }
  }

  lemma {:induction false} BreachIsABrokenBudget(capital: real, days: seq<Day>)
    requires capital > 0.0
    ensures Follow(capital, days).breached <==> BreaksBudget(capital, days)
  {
    hide WealthBefore;
    if days != [] {
      var k := |days| - 1;
      BreachIsABrokenBudget(capital, days[..k]);
      WalkCarries(capital, days[..k]);
      forall i | 0 <= i <= k ensures WealthBefore(capital, days[..k], i) == WealthBefore(capital, days, i) {
        WealthOfPrefix(capital, days, k, i);
      }
    }
  }

  // ----- More capital on the same fills never hurts -----

  /** Two walks over the same days: the richer one is ahead by a constant and no worse off. */
  predicate AtLeastAsSafe(rich: Walk, poor: Walk) {
    && poor.peak > 0.0
    && rich.wealth - poor.wealth == rich.peak - poor.peak >= 0.0
    && poor.peak >= poor.wealth
    && rich.drawdown <= poor.drawdown
    && (rich.breached ==> poor.breached)
  }

  lemma QuotientAntitone(x: real, p: real, q: real)
    requires x >= 0.0 && 0.0 < p <= q
    ensures x / q <= x / p
  {
    var u, v := x / p, x / q;
    assert u * p == x && v * q == x;
    if v > u {
      assert v * q >= v * p;
      assert v * p > u * p;
    }
  }

  lemma AdvanceKeepsSafety(rich: Walk, poor: Walk, day: Day)
    requires AtLeastAsSafe(rich, poor) && Verified(day)
    ensures AtLeastAsSafe(Advance(rich, day), Advance(poor, day))
  {
    var p, r := Advance(poor, day), Advance(rich, day);
    QuotientAntitone(poor.peak - (poor.wealth - day.realizedLoss - day.peakOpenCost), poor.peak, rich.peak);
    QuotientAntitone(p.peak - p.wealth, p.peak, r.peak);
  }

  /** On any verified trajectory the richer start draws down no further and breaches only if the poorer does. */
  lemma {:induction false} MoreCapitalIsSafer(poor: real, rich: real, days: seq<Day>)
    requires 0.0 < poor <= rich
    requires forall d :: d in days ==> Verified(d)
    ensures AtLeastAsSafe(Follow(rich, days), Follow(poor, days))
    ensures Breaches(Follow(rich, days)) ==> Breaches(Follow(poor, days))
  {
    if days != [] {
      MoreCapitalIsSafer(poor, rich, days[..|days| - 1]);
      AdvanceKeepsSafety(Follow(rich, days[..|days| - 1]), Follow(poor, days[..|days| - 1]), days[|days| - 1]);
    }
  }

  // ----- One frontier row -----

  type Trajectories = t: seq<seq<Day>> | |t| > 0 witness [[]]

  datatype Row = Row(capital: int, breachProbability: real, drawdown95: real, feasible: bool)

  function Drawdowns(capital: real, trajectories: seq<seq<Day>>): (r: seq<real>)
    requires capital > 0.0
    ensures |r| == |trajectories|
    ensures forall i :: 0 <= i < |r| ==> r[i] == Follow(capital, trajectories[i]).drawdown
  {
    seq(|trajectories|, i requires 0 <= i < |trajectories| => Follow(capital, trajectories[i]).drawdown)
  }

  function BreachCount(capital: real, trajectories: seq<seq<Day>>): (r: nat)
    requires capital > 0.0
    ensures r <= |trajectories|
  {
    if trajectories == [] then 0
    else
      var last := |trajectories| - 1;
      BreachCount(capital, trajectories[..last]) + if Breaches(Follow(capital, trajectories[last])) then 1 else 0
  }

  function RowAt(capital: int, trajectories: Trajectories): Row
    requires capital > 0
  {
    var probability := BreachCount(capital as real, trajectories) as real / |trajectories| as real;
    Row(capital, probability,
        Sorted(Drawdowns(capital as real, trajectories))[95 * |trajectories| / 100],
        probability <= MAXIMUM_BREACH_PROBABILITY)
  }

  predicate AllVerified(trajectories: seq<seq<Day>>) {
    forall t, d :: t in trajectories && d in t ==> Verified(d)
  }

  lemma {:induction false} BreachCountAntitone(poor: real, rich: real, trajectories: seq<seq<Day>>)
    requires 0.0 < poor <= rich && AllVerified(trajectories)
    ensures BreachCount(rich, trajectories) <= BreachCount(poor, trajectories)
  {
    if trajectories != [] {
      var last := |trajectories| - 1;
      assert trajectories[last] in trajectories;
      BreachCountAntitone(poor, rich, trajectories[..last]);
      MoreCapitalIsSafer(poor, rich, trajectories[last]);
    }
  }

  lemma QuotientMonotone(x: real, y: real, n: real)
    requires x <= y && n > 0.0
    ensures x / n <= y / n
  {
    var d := (y - x) / n;
    assert y / n == x / n + d;
  }

  /** The study's verdict on a trajectory: a broken budget, or a drop of more than a tenth. */
  predicate BreachesStudy(capital: real, days: seq<Day>)
    requires capital > 0.0
  {
    BreaksBudget(capital, days)
    || exists i :: 0 <= i < |days| && DropsBelow(capital, days, i, 0.10)
  }

  predicate DropsBelow(capital: real, days: seq<Day>, i: nat, limit: real)
    requires i < |days| && capital > 0.0
  {
    IntradayDrop(capital, days, i) > limit || ClosingDrop(capital, days, i) > limit
  }

  lemma BreachesAreTheStudys(capital: real, days: seq<Day>)
    requires capital > 0.0
    ensures Breaches(Follow(capital, days)) <==> BreachesStudy(capital, days)
  {
    hide BreaksBudget, IntradayDrop, ClosingDrop, Follow;
    DrawdownIsTheWorstDrop(capital, days);
    BreachIsABrokenBudget(capital, days);
    var drawdown := Follow(capital, days).drawdown;
    if drawdown > 0.10 {
      var i :| 0 <= i < |days| && Attains(capital, days, i, drawdown);
      assert DropsBelow(capital, days, i, 0.10);
    }
  }

  /** Which trajectories breach. */
  ghost function Breaching(capital: real, trajectories: seq<seq<Day>>): set<nat>
    requires capital > 0.0
  {
    set i: nat | i < |trajectories| && BreachesStudy(capital, trajectories[i])
  }

  lemma {:induction false} BreachCountCountsThem(capital: real, trajectories: seq<seq<Day>>)
    requires capital > 0.0
    ensures BreachCount(capital, trajectories) == |Breaching(capital, trajectories)|
  {
    hide BreachesStudy, Breaches;
    if trajectories != [] {
      var k := |trajectories| - 1;
      BreachCountCountsThem(capital, trajectories[..k]);
      BreachesAreTheStudys(capital, trajectories[k]);
      var before := Breaching(capital, trajectories[..k]);
      assert Breaching(capital, trajectories) == if BreachesStudy(capital, trajectories[k]) then before + {k}
          else before;
      assert k !in before;
    }
  }

  /** What a row of the frontier says: the share of breaching trajectories, and whether it is at most a twentieth. */
  lemma RowCountsBreaches(capital: int, trajectories: Trajectories)
    requires capital > 0
    ensures var row, n := RowAt(capital, trajectories), |trajectories|;
            var breaching := |Breaching(capital as real, trajectories)|;
            && row.capital == capital && row.breachProbability * n as real == breaching as real
            && (row.feasible <==> 20 * breaching <= n)
  {
    hide Breaching, BreachCount, Drawdowns, Sorted;
    var n := |trajectories|;
    BreachCountCountsThem(capital as real, trajectories);
    var count := BreachCount(capital as real, trajectories) as real;
    ShareOf(count, n as real, count / n as real);
  }

  /** Its drawdown is the worst drop that all but a twentieth of the trajectories stay within. */
  lemma RowRanksDrawdowns(capital: int, trajectories: Trajectories, i: nat)
    requires capital > 0 && i < |trajectories|
    ensures var drawdowns, worst := Drawdowns(capital as real, trajectories), RowAt(capital, trajectories).drawdown95;
            && AtMost(drawdowns, worst) > 95 * |trajectories| / 100 >= Under(drawdowns, worst)
            && IsWorstDrop(capital as real, trajectories[i], drawdowns[i])
  {
    hide IsWorstDrop, BreachCount, Follow, Sorted;
    SortedRank(Drawdowns(capital as real, trajectories), 95 * |trajectories| / 100);
    DrawdownIsTheWorstDrop(capital as real, trajectories[i]);
  }

  lemma ShareOf(count: real, n: real, share: real)
    requires n > 0.0 && share == count / n
    ensures share * n == count && (share <= 0.05 <==> 20.0 * count <= n)
  {
  }

  /** Along increasing capital neither the breach probability nor the 95th-percentile drawdown rises. */
  lemma RowsImproveWithCapital(poor: int, rich: int, trajectories: Trajectories)
    requires 0 < poor <= rich && AllVerified(trajectories)
    ensures RowAt(rich, trajectories).breachProbability <= RowAt(poor, trajectories).breachProbability
    ensures RowAt(rich, trajectories).drawdown95 <= RowAt(poor, trajectories).drawdown95
    ensures RowAt(poor, trajectories).feasible ==> RowAt(rich, trajectories).feasible
  {
    var p, r := poor as real, rich as real;
    BreachCountAntitone(p, r, trajectories);
    QuotientMonotone(BreachCount(r, trajectories) as real, BreachCount(p, trajectories) as real,
                     |trajectories| as real);
    forall i | 0 <= i < |trajectories|
      ensures Drawdowns(r, trajectories)[i] <= Drawdowns(p, trajectories)[i]
    {
      assert trajectories[i] in trajectories;
      MoreCapitalIsSafer(p, r, trajectories[i]);
    }
    SortedBelow(Drawdowns(r, trajectories), Drawdowns(p, trajectories));
  }

  // ----- The simulation -----

  /** One trajectory, day by day, as the inner loop walks it. */
  method Simulate(capital: int, trajectory: seq<Day>) returns (drawdown: real, breached: bool)
    requires capital > 0
    ensures drawdown == Follow(capital as real, trajectory).drawdown
    ensures breached <==> Follow(capital as real, trajectory).breached
    ensures IsWorstDrop(capital as real, trajectory, drawdown)
    ensures breached <==> BreaksBudget(capital as real, trajectory)
  {
    hide IsWorstDrop, BreaksBudget;
    DrawdownIsTheWorstDrop(capital as real, trajectory);
    BreachIsABrokenBudget(capital as real, trajectory);
    var wealth, peak := capital as real, capital as real;
    drawdown, breached := 0.0, false;
    for i := 0 to |trajectory|
      invariant peak > 0.0
      invariant Walk(wealth, peak, drawdown, breached) == Follow(capital as real, trajectory[..i])
    {
      var day := trajectory[i];
      if wealth <= 0.0 || day.peakOpenCost > PEAK_OPEN_COST_FRACTION * wealth
         || day.realizedLoss > DAILY_LOSS_FRACTION * wealth {
        breached := true;
      }
      var worst := wealth - day.realizedLoss - day.peakOpenCost;
      drawdown := Max(drawdown, (peak - worst) / peak);
      wealth := wealth + day.netPnl;
      peak := Max(peak, wealth);
      drawdown := Max(drawdown, (peak - wealth) / peak);
      assert trajectory[..i + 1][..i] == trajectory[..i];
    }
    assert trajectory[..|trajectory|] == trajectory;
  }

  method Evaluate(capital: int, trajectories: Trajectories) returns (row: Row)
    requires capital > 0
    ensures row == RowAt(capital, trajectories)
  {
    var breaches, drawdowns := 0, [];
    for i := 0 to |trajectories|
      invariant breaches == BreachCount(capital as real, trajectories[..i])
      invariant drawdowns == Drawdowns(capital as real, trajectories[..i])
    {
      var drawdown, breached := Simulate(capital, trajectories[i]);
      drawdowns := drawdowns + [drawdown];
      if breached || drawdown > MAXIMUM_DRAWDOWN {
        breaches := breaches + 1;
      }
      assert trajectories[..i + 1][..i] == trajectories[..i];
    }
    assert trajectories[..|trajectories|] == trajectories;
    var probability := breaches as real / |trajectories| as real;
    row := Row(capital, probability, Sorted(drawdowns)[95 * |trajectories| / 100],
               probability <= MAXIMUM_BREACH_PROBABILITY);
  }

  function Ceiling(x: real): int {
    -(-x).Floor
  }

  /** A grid multiple of the starting bound, rounded up to a dollar. */
  function GridCapital(bound: real, multiplier: real): (r: int)
    requires bound >= 1.0 && multiplier >= 1.0
    ensures r >= 1 && r as real >= bound
  {
    var exact := bound * multiplier;
    ProductAtLeast(bound, multiplier, exact);
    Ceiling(exact)
  }

  /** A grid capital is the first whole dollar at or above the multiple. */
  lemma GridIsTheNextDollar(bound: real, multiplier: real)
    requires bound >= 1.0 && multiplier >= 1.0
    ensures (GridCapital(bound, multiplier) - 1) as real < bound * multiplier <= GridCapital(bound, multiplier) as real
  {
  }

  lemma ProductAtLeast(x: real, m: real, r: real)
    requires x >= 0.0 && m >= 1.0 && r == x * m
    ensures r >= x
  {
  }

  lemma GridCapitalMonotone(bound: real, low: real, high: real)
    requires bound >= 1.0 && 1.0 <= low <= high
    ensures GridCapital(bound, low) <= GridCapital(bound, high)
  {
    var x, y := bound * low, bound * high;
    assert bound * (high - low) >= 0.0;
  }

  predicate GridMultipliers(multipliers: seq<real>) {
    forall i :: 0 <= i < |multipliers| ==> multipliers[i] >= 1.0
  }

  predicate OnGrid(bound: real, multipliers: seq<real>, trajectories: Trajectories, rows: seq<Row>)
    requires bound >= 1.0 && GridMultipliers(multipliers)
  {
    && |rows| == |multipliers|
    && forall i :: 0 <= i < |rows| ==> rows[i] == RowAt(GridCapital(bound, multipliers[i]), trajectories)
  }

  method Frontier(bound: real, multipliers: seq<real>, trajectories: Trajectories) returns (rows: seq<Row>)
    requires bound >= 1.0 && GridMultipliers(multipliers)
    ensures OnGrid(bound, multipliers, trajectories, rows)
  {
    rows := [];
    for i := 0 to |multipliers|
      invariant |rows| == i
      invariant forall j :: 0 <= j < i ==> rows[j] == RowAt(GridCapital(bound, multipliers[j]), trajectories)
    {
      var row := Evaluate(GridCapital(bound, multipliers[i]), trajectories);
      rows := rows + [row];
    }
  }

  /** Row j costs at least as much as row i and is no riskier. */
  predicate Improves(rows: seq<Row>, i: nat, j: nat)
    requires i < |rows| && j < |rows|
  {
    && rows[i].capital <= rows[j].capital
    && rows[j].breachProbability <= rows[i].breachProbability
    && rows[j].drawdown95 <= rows[i].drawdown95
    && (rows[i].feasible ==> rows[j].feasible)
  }

  /** On an ascending grid risk never rises, so the feasible rows form a suffix. */
  lemma FeasibleRowsAreASuffix(bound: real, multipliers: seq<real>, trajectories: Trajectories, rows: seq<Row>)
    requires bound >= 1.0 && Ascending(multipliers) && GridMultipliers(multipliers)
    requires OnGrid(bound, multipliers, trajectories, rows) && AllVerified(trajectories)
    ensures forall i, j :: 0 <= i <= j < |rows| ==> Improves(rows, i, j)
  {
    forall i, j | 0 <= i <= j < |rows| ensures Improves(rows, i, j) {
      var poor, rich := GridCapital(bound, multipliers[i]), GridCapital(bound, multipliers[j]);
      GridCapitalMonotone(bound, multipliers[i], multipliers[j]);
      RowsImproveWithCapital(poor, rich, trajectories);
    }
  }

  /** The reported range is exactly the feasible part of the grid, and the candidate its cheapest capital. */
  predicate ExactRange(rows: seq<Row>, candidate: int, low: int, high: int) {
    && candidate == low
    && (exists i :: 0 <= i < |rows| && rows[i].capital == candidate)
    && forall i :: 0 <= i < |rows| ==> (rows[i].feasible <==> low <= rows[i].capital <= high)
  }

  /** What an evaluated ascending grid guarantees about its rows. */
  predicate Coherent(rows: seq<Row>) {
    && (forall i, j :: 0 <= i <= j < |rows| ==> Improves(rows, i, j))
    && (forall i, j :: 0 <= i < |rows| && 0 <= j < |rows| && rows[i].capital == rows[j].capital ==> rows[i] == rows[j])
  }

  lemma GridRowsAreCoherent(bound: real, multipliers: seq<real>, trajectories: Trajectories, rows: seq<Row>)
    requires bound >= 1.0 && Ascending(multipliers) && GridMultipliers(multipliers)
    requires OnGrid(bound, multipliers, trajectories, rows) && AllVerified(trajectories)
    ensures Coherent(rows)
  {
    FeasibleRowsAreASuffix(bound, multipliers, trajectories, rows);
    forall i, j | 0 <= i < |rows| && 0 <= j < |rows| && rows[i].capital == rows[j].capital
      ensures rows[i] == rows[j]
    {
      assert rows[i] == RowAt(rows[i].capital, trajectories);
      assert rows[j] == RowAt(rows[j].capital, trajectories);
    }
  }

  lemma FirstFeasibleBoundsTheRange(rows: seq<Row>)
    requires Coherent(rows) && FirstFeasible(rows) < |rows|
    ensures var first := rows[FirstFeasible(rows)].capital;
            ExactRange(rows, first, first, rows[|rows| - 1].capital)
  {
    var k, last := FirstFeasible(rows), |rows| - 1;
    forall i | 0 <= i < |rows|
      ensures rows[i].feasible <==> rows[k].capital <= rows[i].capital <= rows[last].capital
    {
      assert Improves(rows, i, last);
      if i >= k {
        assert Improves(rows, k, i);
      } else {
        assert Improves(rows, i, k);
      }
    }
  }

  // ----- The study -----

  datatype Study =
    | InsufficientDays
    | Unverified
    | LowerBoundNotPositive(lower: real)
    | NoFeasibleCapital(frontier: seq<Row>)
    | Feasible(frontier: seq<Row>, candidate: int, low: int, high: int)

  function MeanPnls(trajectories: seq<seq<Day>>): (r: seq<real>)
    requires forall t :: t in trajectories ==> |t| > 0
    ensures |r| == |trajectories|
  {
    seq(|trajectories|, i requires 0 <= i < |trajectories| =>
      assert trajectories[i] in trajectories; TotalPnl(trajectories[i]) / |trajectories[i]| as real)
  }

  /** Enough block starts to cover the observed length, each leaving room for a whole block. */
  predicate ValidChoices(days: seq<Day>, choices: seq<nat>) {
    |choices| * BLOCK_DAYS >= |days| && forall c :: c in choices ==> c + BLOCK_DAYS <= |days|
  }

  /** Day i of a resampled trajectory sits in its drawn block at its own offset. */
  function Resampled(days: seq<Day>, choices: seq<nat>, i: nat): (d: Day)
    requires ValidChoices(days, choices) && i < |choices| * BLOCK_DAYS
    ensures d in days
  {
    assert choices[i / BLOCK_DAYS] in choices;
    days[choices[i / BLOCK_DAYS] + i % BLOCK_DAYS]
  }

  function Trajectory(days: seq<Day>, choices: seq<nat>): (t: seq<Day>)
    requires ValidChoices(days, choices)
    ensures |t| == |days| && forall d :: d in t ==> d in days
    ensures forall i :: 0 <= i < |t| ==> i / 7 < |choices| && choices[i / 7] + i % 7 < |days|
    ensures forall i :: 0 <= i < |t| ==> t[i] == days[choices[i / 7] + i % 7]
  {
    assert forall i :: 0 <= i < |days| ==> choices[i / BLOCK_DAYS] in choices;
    seq(|days|, i requires 0 <= i < |days| => Resampled(days, choices, i))
  }

  predicate ValidDraws(days: seq<Day>, draws: seq<seq<nat>>) {
    forall k :: 0 <= k < |draws| ==> ValidChoices(days, draws[k])
  }

  function AllTrajectories(days: seq<Day>, draws: seq<seq<nat>>): (ts: seq<seq<Day>>)
    requires ValidDraws(days, draws)
    ensures |ts| == |draws|
    ensures forall t :: t in ts ==> |t| == |days| && forall d :: d in t ==> d in days
  {
    seq(|draws|, k requires 0 <= k < |draws| => Trajectory(days, draws[k]))
  }

  /** The 2.5th percentile of the resampled mean daily profits. */
  function LowerBound(trajectories: Trajectories): real
    requires forall t :: t in trajectories ==> |t| > 0
  {
    Sorted(MeanPnls(trajectories))[25 * |trajectories| / 1000]
  }

  /**
   * A fortieth of the resampled mean daily profits lies at or under the bound, and no more than that strictly under it.
   */
  lemma LowerBoundIsTheFortieth(trajectories: Trajectories)
    requires forall t :: t in trajectories ==> |t| > 0
    ensures var means, bound := MeanPnls(trajectories), LowerBound(trajectories);
            AtMost(means, bound) > |trajectories| / 40 >= Under(means, bound)
  {
    hide MeanPnls, Sorted;
    SortedRank(MeanPnls(trajectories), 25 * |trajectories| / 1000);
  }

  /** Every mean is the wealth that its trajectory adds to any start, spread over its days. */
  lemma MeanIsTheDailyGain(trajectories: seq<seq<Day>>, i: nat, capital: real)
    requires i < |trajectories| && forall t :: t in trajectories ==> |t| > 0
    ensures var days := trajectories[i];
            |days| > 0
            && MeanPnls(trajectories)[i] * |days| as real == WealthBefore(capital, days, |days|) - capital
  {
    var days := trajectories[i];
    assert days in trajectories && days[..|days|] == days;
    var mean, n := TotalPnl(days) / |days| as real, |days| as real;
    assert mean * n == TotalPnl(days);
  }

  /** Consecutive blocks drawn until the trajectory is long enough, then cut to the observed length. */
  method Resample(days: seq<Day>, choices: seq<nat>) returns (trajectory: seq<Day>)
    requires ValidChoices(days, choices)
    ensures trajectory == Trajectory(days, choices)
  {
    trajectory := [];
    var k := 0;
    while |trajectory| < |days|
      invariant k <= |choices| && |trajectory| == k * BLOCK_DAYS
      invariant forall i :: 0 <= i < |trajectory| ==> trajectory[i] == Resampled(days, choices, i)
      decreases |choices| - k
    {
      var start := choices[k];
      assert start in choices;
      trajectory := trajectory + days[start..start + BLOCK_DAYS];
      k := k + 1;
    }
    trajectory := trajectory[..|days|];
  }

  method ResampleAll(days: seq<Day>, draws: seq<seq<nat>>) returns (trajectories: seq<seq<Day>>)
    requires ValidDraws(days, draws)
    ensures trajectories == AllTrajectories(days, draws)
  {
    trajectories := [];
    for k := 0 to |draws|
      invariant |trajectories| == k
      invariant forall j :: 0 <= j < k ==> trajectories[j] == Trajectory(days, draws[j])
    {
      var trajectory := Resample(days, draws[k]);
      trajectories := trajectories + [trajectory];
    }
  }

  lemma ResampledDaysAreVerified(days: seq<Day>, trajectories: seq<seq<Day>>)
    requires forall d :: d in days ==> Verified(d)
    requires forall t :: t in trajectories ==> forall d :: d in t ==> d in days
    ensures AllVerified(trajectories)
  {
  }

  lemma DeclaredMultipliersAscend()
    ensures Ascending(CAPITAL_MULTIPLIERS) && GridMultipliers(CAPITAL_MULTIPLIERS)
  {
    var m := CAPITAL_MULTIPLIERS;
    assert m[0] == 1.0 && m[1] == 1.25 && m[2] == 1.5 && m[3] == 2.0 && m[4] == 3.0 && m[5] == 5.0 && m[6] == 10.0;
  }

  function LargestCost(days: seq<Day>): real {
    if days == [] then 0.0 else Max(LargestCost(days[1..]), days[0].peakOpenCost)
  }

  function LargestLoss(days: seq<Day>): real {
    if days == [] then 0.0 else Max(LargestLoss(days[1..]), days[0].realizedLoss)
  }

  function StartingBound(days: seq<Day>): (r: real)
    ensures r >= 1.0
  {
    Max(1.0, Max(LargestCost(days) / PEAK_OPEN_COST_FRACTION, LargestLoss(days) / DAILY_LOSS_FRACTION))
  }

  lemma {:induction false} LargestBounds(days: seq<Day>, d: Day)
    requires d in days
    ensures d.peakOpenCost <= LargestCost(days) && d.realizedLoss <= LargestLoss(days)
  {
    if d != days[0] {
      LargestBounds(days[1..], d);
    }
  }

  lemma FractionOf(x: real, largest: real, fraction: real, capital: real)
    requires x <= largest && fraction > 0.0 && largest / fraction <= capital
    ensures x <= fraction * capital
  {
    var q := largest / fraction;
    assert q * fraction == largest;
    assert fraction * (capital - q) >= 0.0;
  }

  lemma {:induction false} LargestIsAttained(days: seq<Day>)
    ensures LargestCost(days) == 0.0 || exists d :: d in days && d.peakOpenCost == LargestCost(days)
    ensures LargestLoss(days) == 0.0 || exists d :: d in days && d.realizedLoss == LargestLoss(days)
  {
    if days != [] {
      assert days == [days[0]] + days[1..];
      LargestIsAttained(days[1..]);
    }
  }

  /** The starting bound is a dollar, or just what some observed day needs. */
  lemma StartingBoundIsNeeded(days: seq<Day>)
    ensures var bound := StartingBound(days);
            bound == 1.0 || exists d :: d in days && (d.peakOpenCost == 0.05 * bound || d.realizedLoss == 0.01 * bound)
  {
    LargestIsAttained(days);
    var bound := StartingBound(days);
    if bound != 1.0 && bound == LargestCost(days) / 0.05 {
      var d :| d in days && d.peakOpenCost == LargestCost(days);
      assert d.peakOpenCost == 0.05 * bound;
    } else if bound != 1.0 {
      var d :| d in days && d.realizedLoss == LargestLoss(days);
      assert d.realizedLoss == 0.01 * bound;
    }
  }

  /** Every grid capital can fund any one observed day from a standing start. */
  lemma StartingBoundFundsEveryDay(days: seq<Day>, d: Day, multiplier: real)
    requires d in days && multiplier >= 1.0
    ensures !OverBudget(GridCapital(StartingBound(days), multiplier) as real, d)
  {
    LargestBounds(days, d);
    var capital := GridCapital(StartingBound(days), multiplier) as real;
    FractionOf(d.peakOpenCost, LargestCost(days), PEAK_OPEN_COST_FRACTION, capital);
    FractionOf(d.realizedLoss, LargestLoss(days), DAILY_LOSS_FRACTION, capital);
  }

  /** The first feasible row, or the number of rows. */
  function FirstFeasible(rows: seq<Row>): (i: nat)
    ensures i <= |rows|
    ensures forall j :: 0 <= j < i ==> !rows[j].feasible
    ensures i < |rows| ==> rows[i].feasible
  {
    if rows == [] || rows[0].feasible then 0 else 1 + FirstFeasible(rows[1..])
  }

  /** How a study ends, each way under exactly its own condition. */
  ghost predicate Concludes(days: seq<Day>, draws: seq<seq<nat>>, study: Study)
    requires |draws| > 0 && (|days| >= MINIMUM_DAYS ==> ValidDraws(days, draws))
  {
    && (study.InsufficientDays? <==> |days| < 30)
    && (study.Unverified? <==>
          |days| >= 30
          && exists d :: d in days && (d.peakOpenCost < 0.0 || d.realizedLoss < 0.0 || d.realizedLoss < -d.netPnl))
    && (!study.InsufficientDays? && !study.Unverified? ==>
          var trajectories := AllTrajectories(days, draws);
          && (study.LowerBoundNotPositive? <==> LowerBound(trajectories) <= 0.0)
          && (study.LowerBoundNotPositive? ==> study.lower == LowerBound(trajectories))
          && (!study.LowerBoundNotPositive? ==>
                OnGrid(StartingBound(days), CAPITAL_MULTIPLIERS, trajectories, study.frontier)))
    && (study.Feasible? ==> ExactRange(study.frontier, study.candidate, study.low, study.high))
    && (study.NoFeasibleCapital? ==> forall r :: r in study.frontier ==> !r.feasible)
  }

  /**
   * The study for fills of distinct consecutive days, in date order; `draws` holds one list of block
   * choices per bootstrap replicate.
   */
  method Conduct(days: seq<Day>, draws: seq<seq<nat>>) returns (study: Study)
    requires |draws| > 0 && (|days| >= MINIMUM_DAYS ==> ValidDraws(days, draws))
    ensures Concludes(days, draws, study)
  {
    if |days| < MINIMUM_DAYS {
      return InsufficientDays;
    }
    if exists d :: d in days && !Verified(d) {
      return Unverified;
    }
    var trajectories := ResampleAll(days, draws);
    var lower := LowerBound(trajectories);
    if lower <= 0.0 {
      return LowerBoundNotPositive(lower);
    }
    var bound := StartingBound(days);
    DeclaredMultipliersAscend();
    var rows := Frontier(bound, CAPITAL_MULTIPLIERS, trajectories);
    var first := FirstFeasible(rows);
    if first == |rows| {
      return NoFeasibleCapital(rows);
    }
    ResampledDaysAreVerified(days, trajectories);
    GridRowsAreCoherent(bound, CAPITAL_MULTIPLIERS, trajectories, rows);
    FirstFeasibleBoundsTheRange(rows);
    study := Feasible(rows, rows[first].capital, rows[first].capital, rows[|rows| - 1].capital);
  }
}
