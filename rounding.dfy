/**
  Python's `round(x, 1)` on an exact value: the nearest multiple of 0.1,
  a value exactly halfway going to the even tenth (so 0.25 becomes 0.2).
 */
module Rounding {

  /** The number of tenths `round(x, 1)` yields. */
  function NearestTenths(x: real): (k: int)
    ensures -0.5 <= k as real - 10.0 * x <= 0.5
    ensures (k as real - 10.0 * x == 0.5 || k as real - 10.0 * x == -0.5) ==> k % 2 == 0
  {
    var y := 10.0 * x;
    var n := y.Floor;
    var frac := y - n as real;
    if frac < 0.5 then n
    else if frac > 0.5 then n + 1
    else if n % 2 == 0 then n
    else n + 1
  }

  /** `round(x, 1)`: a whole number of tenths, within 0.05 of `x`. */
  function Round1(x: real): (r: real)
    ensures r * 10.0 == NearestTenths(x) as real
    ensures -0.05 <= r - x <= 0.05
  {
    NearestTenths(x) as real / 10.0
  }

  /** A whole number of tenths strictly closer than 0.05 to `x` is what `x` rounds to. */
  lemma Round1Unique(x: real, k: int)
    requires -0.5 < k as real - 10.0 * x < 0.5
    ensures Round1(x) == k as real / 10.0
  {
    var n := NearestTenths(x);
    var d := n - k;
    assert d as real == n as real - k as real;
    assert -1.0 < d as real < 1.0;
    assert d == 0;
  }

  /** A value already on the 0.1 grid rounds to itself, so rounding is idempotent. */
  lemma Round1OnGrid(k: int, x: real)
    ensures Round1(k as real / 10.0) == k as real / 10.0
    ensures Round1(Round1(x)) == Round1(x)
  {
    Round1Unique(k as real / 10.0, k);
    Round1Unique(Round1(x), NearestTenths(x));
  }

  /** An exact tie goes to the even tenth. */
  lemma Round1HalfToEven()
    ensures Round1(0.25) == 0.2
    ensures Round1(0.35) == 0.4
    ensures Round1(-0.25) == -0.2
  {
  }
}
