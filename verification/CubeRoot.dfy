/** The rounded cube root that sets lags and block lengths (forecaster/forecast_backtest.py). */
module CubeRoot {
  function Cube(x: int): int {
    x * x * x
  }

  lemma OddCube(k: nat)
    ensures Cube(2 * k + 1) % 2 == 1 && Cube(2 * k + 1) >= 8 * k + 1
  {
    var square, cube := k * k, k * k * k;
    assert Cube(2 * k + 1) == 8 * cube + 12 * square + 6 * k + 1;
    if k > 0 {
      assert square >= k;
    }
  }

  lemma OddCubeLeavesRoom(k: nat)
    requires k > 0
    ensures Cube(2 * k + 1) > 8 * (k + 1)
  {
    var square, cube := k * k, k * k * k;
    assert Cube(2 * k + 1) == 8 * cube + 12 * square + 6 * k + 1;
    assert square >= k && cube >= square;
  }

  function RoundedFrom(n: nat, k: nat): (root: nat)
    requires k <= n && (k > 0 ==> Cube(2 * k - 1) < 8 * n)
    ensures root <= n && 8 * n < Cube(2 * root + 1) && (root > 0 ==> Cube(2 * root - 1) < 8 * n)
    decreases n - k
  {
    OddCube(k);
    if 8 * n < Cube(2 * k + 1) then k else RoundedFrom(n, k + 1)
  }

  /** The whole number nearest to the cube root; no cube of a half falls on a whole number, so there are no ties. */
  function RoundedCubeRoot(n: nat): (root: nat)
    ensures root <= n && 8 * n < Cube(2 * root + 1) && (root > 0 ==> Cube(2 * root - 1) < 8 * n)
  {
    RoundedFrom(n, 0)
  }

  /** The root of a length is positive, and from three on it leaves room. */
  lemma RootOfLength(n: nat)
    requires n > 0
    ensures 1 <= RoundedCubeRoot(n) <= n && (n >= 3 ==> RoundedCubeRoot(n) < n)
  {
    if n >= 3 {
      OddCubeLeavesRoom(n - 1);
      assert 2 * (n - 1) + 1 == 2 * n - 1;
    }
  }
}
