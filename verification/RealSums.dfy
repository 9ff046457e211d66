/** Finite sums of real-valued functions, shared by the statistics and regression modules. */
module RealSums {

  /** f(0) + ... + f(n-1), in the order a loop accumulates it. */
  function SumTo(f: int -> real, n: nat): real {
    if n == 0 then 0.0 else SumTo(f, n - 1) + f(n - 1)
  }

  /** The element at i, or zero outside the sequence. */
  function At(s: seq<real>, i: int): real {
    if 0 <= i < |s| then s[i] else 0.0
  }

  function Elements(s: seq<real>): int -> real {
    i => At(s, i)
  }

  function Total(s: seq<real>): real {
    SumTo(Elements(s), |s|)
  }

  function Mean(s: seq<real>): real
    requires |s| > 0
  {
    Total(s) / |s| as real
  }

  function Products(xs: seq<real>, ys: seq<real>): int -> real {
    i => At(xs, i) * At(ys, i)
  }

  function Square(x: real): (r: real)
    ensures r >= 0.0
    ensures r == 0.0 <==> x == 0.0
  {
    var r := x * x;
    SquareSign(x, r);
    r
  }

  lemma SquareSign(x: real, r: real)
    requires r == x * x
    ensures r >= 0.0
    ensures r == 0.0 <==> x == 0.0
  {
    if x != 0.0 {
      SameSignProduct(x, x, r);
    }
  }

  lemma SameSignProduct(x: real, y: real, r: real)
    requires (x > 0.0 && y > 0.0) || (x < 0.0 && y < 0.0)
    requires r == x * y
    ensures r > 0.0
  {
  }

  /** Multiplication distributes, stated over named factors so that no product of sums appears. */
  lemma Distribute(w: real, p: real, q: real, r: real)
    requires w == p + q
    ensures w * r == p * r + q * r
    ensures r * w == r * p + r * q
  {
  }

  lemma {:induction false} SumCongruence(f: int -> real, g: int -> real, n: nat)
    requires forall i :: 0 <= i < n ==> f(i) == g(i)
    ensures SumTo(f, n) == SumTo(g, n)
  {
    if n > 0 {
      SumCongruence(f, g, n - 1);
    }
  }

  lemma {:induction false} SumLinear(h: int -> real, a: real, f: int -> real, b: real, g: int -> real, n: nat)
    requires forall i :: 0 <= i < n ==> h(i) == a * f(i) + b * g(i)
    ensures SumTo(h, n) == a * SumTo(f, n) + b * SumTo(g, n)
  {
    if n > 0 {
      SumLinear(h, a, f, b, g, n - 1);
      var p, q := SumTo(f, n - 1), SumTo(g, n - 1);
      assert a * (p + f(n - 1)) == a * p + a * f(n - 1);
      assert b * (q + g(n - 1)) == b * q + b * g(n - 1);
    }
  }

  lemma OneMoreTerm(c: real, sum: real, term: real, more: real)
    requires more == sum + term
    ensures c * more == c * sum + c * term
  {
  }

  /** A sum of a fixed linear combination is that combination of the sums. */
  lemma {:induction false} SumCombination(h: int -> real, f: int -> real, c0: real, c1: real, f1: int -> real,
                                          c2: real, f2: int -> real, c3: real, f3: int -> real,
                                          c4: real, f4: int -> real, n: nat)
    requires forall i :: 0 <= i < n ==> h(i) == f(i) + c0 + c1 * f1(i) + c2 * f2(i) + c3 * f3(i) + c4 * f4(i)
    ensures SumTo(h, n) == SumTo(f, n) + c0 * n as real + c1 * SumTo(f1, n) + c2 * SumTo(f2, n)
                           + c3 * SumTo(f3, n) + c4 * SumTo(f4, n)
  {
    if n > 0 {
      var m := n - 1;
      SumCombination(h, f, c0, c1, f1, c2, f2, c3, f3, c4, f4, m);
      OneMoreTerm(c0, m as real, 1.0, n as real);
      OneMoreTerm(c1, SumTo(f1, m), f1(m), SumTo(f1, n));
      OneMoreTerm(c2, SumTo(f2, m), f2(m), SumTo(f2, n));
      OneMoreTerm(c3, SumTo(f3, m), f3(m), SumTo(f3, n));
      OneMoreTerm(c4, SumTo(f4, m), f4(m), SumTo(f4, n));
    }
  }

  lemma {:induction false} SumAdd(h: int -> real, f: int -> real, g: int -> real, n: nat)
    requires forall i :: 0 <= i < n ==> h(i) == f(i) + g(i)
    ensures SumTo(h, n) == SumTo(f, n) + SumTo(g, n)
  {
    if n > 0 {
      SumAdd(h, f, g, n - 1);
    }
  }

  lemma {:induction false} SumConstant(f: int -> real, c: real, n: nat)
    requires forall i :: 0 <= i < n ==> f(i) == c
    ensures SumTo(f, n) == c * n as real
  {
    if n > 0 {
      SumConstant(f, c, n - 1);
      assert c * n as real == c * (n - 1) as real + c;
    }
  }

  /** A sum of non-negative terms is non-negative, and zero only when every term is. */
  lemma {:induction false} SumNonNegative(f: int -> real, n: nat)
    requires forall i :: 0 <= i < n ==> f(i) >= 0.0
    ensures SumTo(f, n) >= 0.0
    ensures SumTo(f, n) == 0.0 <==> forall i :: 0 <= i < n ==> f(i) == 0.0
  {
    if n > 0 {
      SumNonNegative(f, n - 1);
    }
  }

  /** Terms from m on that are all zero add nothing. */
  lemma {:induction false} SumTrailingZeros(f: int -> real, m: nat, n: nat)
    requires m <= n
    requires forall i :: m <= i < n ==> f(i) == 0.0
    ensures SumTo(f, n) == SumTo(f, m)
  {
    if m < n {
      SumTrailingZeros(f, m, n - 1);
    }
  }

  /** Delaying a function supported on [0, n) by j leaves its sum unchanged, once the range covers the support. */
  lemma {:induction false} SumShift(f: int -> real, g: int -> real, j: nat, n: nat, m: nat)
    requires forall i :: i < 0 ==> f(i) == 0.0
    requires forall i :: i >= n ==> f(i) == 0.0
    requires forall t :: g(t) == f(t - j)
    requires m >= n + j
    ensures SumTo(g, m) == SumTo(f, n)
  {
    SumShiftPrefix(f, g, j, m);
    SumTrailingZeros(f, n, m - j);
  }

  lemma {:induction false} SumShiftPrefix(f: int -> real, g: int -> real, j: nat, m: nat)
    requires forall i :: i < 0 ==> f(i) == 0.0
    requires forall t :: g(t) == f(t - j)
    ensures SumTo(g, m) == SumTo(f, if m < j then 0 else m - j)
  {
    if m > 0 {
      SumShiftPrefix(f, g, j, m - 1);
    }
  }

  // ----- Square roots, as parameters that their squares pin down -----

  predicate IsRoot(root: real, x: real) {
    root >= 0.0 && Square(root) == x
  }

  function Magnitude(x: real): (m: real)
    ensures m >= 0.0
  {
    if x < 0.0 then -x else x
  }

  lemma MagnitudeSquare(x: real)
    ensures Square(Magnitude(x)) == Square(x)
  {
  }

  lemma SquaresOrder(x: real, y: real)
    requires x >= 0.0 && y >= 0.0
    ensures x <= y <==> Square(x) <= Square(y)
    ensures x < y <==> Square(x) < Square(y)
  {
    SquaresDiffer(x, y, y - x, y + x);
  }

  lemma SquaresDiffer(x: real, y: real, d: real, t: real)
    requires x >= 0.0 && y >= 0.0 && d == y - x && t == y + x
    ensures d > 0.0 <==> Square(y) > Square(x)
    ensures d < 0.0 <==> Square(y) < Square(x)
  {
    assert Square(y) - Square(x) == d * t;
    if d > 0.0 {
      SameSignProduct(d, t, d * t);
    } else if d < 0.0 {
      SameSignProduct(-d, t, -d * t);
    }
  }

  /** A root is pinned down by its square. */
  lemma OneRoot(a: real, b: real, x: real)
    requires IsRoot(a, x) && IsRoot(b, x)
    ensures a == b
  {
    hide Square;
    SquaresOrder(a, b);
    SquaresOrder(b, a);
  }
}
