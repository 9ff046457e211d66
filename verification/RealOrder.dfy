/** Order: sorting of real sequences, how order statistics respond to pointwise changes, and ascending day lists. */
module RealOrder {

  function Max(x: real, y: real): real {
    if x >= y then x else y
  }

  function Min(x: real, y: real): real {
    if x <= y then x else y
  }

  predicate StrictlyAscending(s: seq<int>) {
    forall i, j :: 0 <= i < j < |s| ==> s[i] < s[j]
  }

  predicate Ascending(s: seq<real>) {
    forall i, j :: 0 <= i < j < |s| ==> s[i] <= s[j]
  }

  function Insert(x: real, s: seq<real>): (r: seq<real>)
    ensures |r| == |s| + 1
  {
    if s == [] || x <= s[0] then [x] + s else [s[0]] + Insert(x, s[1..])
  }

  function Sorted(s: seq<real>): (r: seq<real>)
    ensures |r| == |s|
  {
    if s == [] then [] else Insert(s[0], Sorted(s[1..]))
  }

  lemma {:induction false} InsertPermutes(x: real, s: seq<real>)
    ensures multiset(Insert(x, s)) == multiset(s) + multiset{x}
  {
    if s != [] && x > s[0] {
      InsertPermutes(x, s[1..]);
      assert s == [s[0]] + s[1..];
    }
  }

  lemma {:induction false} InsertSorted(x: real, s: seq<real>)
    requires Ascending(s)
    ensures Ascending(Insert(x, s))
    ensures Insert(x, s)[0] == if s == [] then x else Min(x, s[0])
  {
    if s != [] && x > s[0] {
      var tail := Insert(x, s[1..]);
      InsertSorted(x, s[1..]);
      assert forall j :: 0 <= j < |tail| ==> tail[0] <= tail[j];
    }
  }

  lemma {:induction false} SortedAscends(s: seq<real>)
    ensures Ascending(Sorted(s))
  {
    if s != [] {
      SortedAscends(s[1..]);
      InsertSorted(s[0], Sorted(s[1..]));
    }
  }

  lemma {:induction false} SortedPermutes(s: seq<real>)
    ensures multiset(Sorted(s)) == multiset(s)
  {
    if s != [] {
      SortedPermutes(s[1..]);
      InsertPermutes(s[0], Sorted(s[1..]));
      assert s == [s[0]] + s[1..];
    }
  }

  /** How many entries are at most x, or strictly below it. */
  function AtMost(s: seq<real>, x: real): nat {
    if s == [] then 0 else AtMost(s[1..], x) + if s[0] <= x then 1 else 0
  }

  function Under(s: seq<real>, x: real): nat {
    if s == [] then 0 else Under(s[1..], x) + if s[0] < x then 1 else 0
  }

  lemma {:induction false} InsertCounts(y: real, s: seq<real>, x: real)
    ensures AtMost(Insert(y, s), x) == AtMost(s, x) + if y <= x then 1 else 0
    ensures Under(Insert(y, s), x) == Under(s, x) + if y < x then 1 else 0
  {
    if s != [] && y > s[0] {
      InsertCounts(y, s[1..], x);
      assert Insert(y, s)[1..] == Insert(y, s[1..]);
    } else {
      assert ([y] + s)[1..] == s;
    }
  }

  lemma {:induction false} SortedCounts(s: seq<real>, x: real)
    ensures AtMost(Sorted(s), x) == AtMost(s, x) && Under(Sorted(s), x) == Under(s, x)
  {
    if s != [] {
      SortedCounts(s[1..], x);
      InsertCounts(s[0], Sorted(s[1..]), x);
    }
  }

  lemma {:induction false} AscendingCounts(s: seq<real>, k: int, x: real)
    requires Ascending(s) && k < |s|
    requires forall i :: 0 <= i < |s| ==> (i <= k ==> s[i] <= x) && (i >= k ==> x <= s[i])
    ensures AtMost(s, x) > k && Under(s, x) <= if k >= 0 then k else 0
  {
    if s != [] {
      AscendingCounts(s[1..], k - 1, x);
    }
  }

  /** What an order statistic is: more than k entries are at most the k-th of them, and no more than k lie below it. */
  lemma SortedRank(s: seq<real>, k: nat)
    requires k < |s|
    ensures AtMost(s, Sorted(s)[k]) > k && Under(s, Sorted(s)[k]) <= k
    ensures Sorted(s)[k] in s
  {
    SortedAscends(s);
    SortedCounts(s, Sorted(s)[k]);
    AscendingCounts(Sorted(s), k, Sorted(s)[k]);
    SortedPermutes(s);
    assert Sorted(s)[k] in multiset(Sorted(s));
  }

  predicate Below(s: seq<real>, t: seq<real>) {
    |s| == |t| && forall i :: 0 <= i < |s| ==> s[i] <= t[i]
  }

  lemma {:induction false} InsertBelow(x: real, s: seq<real>, y: real, t: seq<real>)
    requires x <= y && Below(s, t) && Ascending(s) && Ascending(t)
    ensures Below(Insert(x, s), Insert(y, t))
    decreases |s|
  {
    if s != [] {
      var s', t' := s[1..], t[1..];
      var a, b := s[0], t[0];
      assert Below(s', t') && a <= b;
      if x <= a && y > b {
        InsertBelow(a, s', y, t');
        InsertHead(s);
        BelowCons(x, s, b, Insert(y, t'));
      } else if x > a && y <= b {
        InsertBelow(x, s', b, t');
        InsertHead(t);
        BelowCons(a, Insert(x, s'), y, t);
      } else if x > a {
        InsertBelow(x, s', y, t');
        BelowCons(a, Insert(x, s'), b, Insert(y, t'));
      } else {
        BelowCons(x, s, y, t);
      }
    }
  }

  lemma BelowCons(x: real, s: seq<real>, y: real, t: seq<real>)
    requires x <= y && Below(s, t)
    ensures Below([x] + s, [y] + t)
  {
  }

  lemma InsertHead(s: seq<real>)
    requires |s| > 0 && Ascending(s)
    ensures Insert(s[0], s[1..]) == s
  {
    assert s == [s[0]] + s[1..];
  }

  /** Lowering every entry lowers every order statistic. */
  lemma {:induction false} SortedBelow(s: seq<real>, t: seq<real>)
    requires Below(s, t)
    ensures Below(Sorted(s), Sorted(t))
  {
    if s != [] {
      SortedBelow(s[1..], t[1..]);
      SortedAscends(s[1..]);
      SortedAscends(t[1..]);
      InsertBelow(s[0], Sorted(s[1..]), t[0], Sorted(t[1..]));
    }
  }
}
