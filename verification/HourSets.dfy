/** The 24 hours of a day, and dictionaries from hours to readings. */
module HourSets {
  import opened Wrappers

  type DayHours = map<nat, real>

  /** The maximum of a day's readings. */
  ghost predicate IsMax(dayHours: DayHours, high: real) {
    (exists h :: h in dayHours && dayHours[h] == high) && forall h :: h in dayHours ==> dayHours[h] <= high
  }

  method MaxOf(dayHours: DayHours) returns (high: real)
    requires dayHours != map[] && forall h :: h in dayHours ==> h < 24
    ensures IsMax(dayHours, high)
  {
    var best: Option<real>, h := None, 0;
    ghost var some: nat :| some in dayHours;
    while h < 24
      invariant 0 <= h <= 24
      invariant best.None? <==> forall k :: k in dayHours ==> k >= h
      invariant best.Some? ==> exists k :: k in dayHours && dayHours[k] == best.value
      invariant best.Some? ==> forall k :: k in dayHours && k < h ==> dayHours[k] <= best.value
    {
      if h in dayHours && (best.None? || dayHours[h] > best.value) {
        best := Some(dayHours[h]);
      }
      h := h + 1;
    }
    assert some < 24;
    high := best.value;
  }

  predicate EveryHour(dayHours: DayHours) {
    forall h :: 0 <= h < 24 ==> h in dayHours
  }

  function FirstHours(n: nat): (hours: set<nat>)
    ensures |hours| == n && forall h: nat :: h in hours <==> h < n
  {
    if n == 0 then {} else FirstHours(n - 1) + {n - 1}
  }

  lemma SubsetOfFullSize(a: set<nat>, b: set<nat>)
    requires a <= b
    ensures |a| <= |b| && (|a| == |b| ==> a == b)
  {
    assert b == a + (b - a);
    assert |b| == |a| + |b - a|;
  }

  /** Counting 24 of a day's hours and checking that they are 0 to 23 is one and the same test. */
  lemma TwentyFourIsEveryHour(dayHours: DayHours)
    requires forall h :: h in dayHours ==> h < 24
    ensures |dayHours| <= 24
    ensures |dayHours| == 24 <==> EveryHour(dayHours)
  {
    var keys, all := dayHours.Keys, FirstHours(24);
    assert |dayHours| == |keys|;
    forall h | h in keys ensures h in all {
    }
    SubsetOfFullSize(keys, all);
    if EveryHour(dayHours) {
      forall h | h in all ensures h in keys {
        assert h in dayHours;
      }
      SubsetOfFullSize(all, keys);
    }
  }
}
