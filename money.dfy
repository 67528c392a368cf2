/** Money arithmetic of the earnings computer. Amounts are exact rationals;
    Number(x.toFixed(k)) is modelled as rounding to the nearest multiple of
    10^-k, ties away from zero, which is what toFixed specifies for the
    exact value it is given (it rounds the magnitude, choosing the larger
    candidate on a tie, and then restores the sign). */
module Money {

  /** x is a whole number of 1/scale units. */
  predicate OnGrid(x: real, scale: nat) {
    (x * scale as real).Floor as real == x * scale as real
  }

  lemma DivMul(k: real, s: real)
    requires s > 0.0
    ensures (k / s) * s == k
  {
  }

  lemma NegateScaled(m: real, s: real)
    ensures (-m) * s == -(m * s)
  {
  }

  lemma IntOnGrid(r: real, k: int, scale: nat)
    requires r * scale as real == k as real
    ensures OnGrid(r, scale)
  {
    assert (k as real).Floor == k;
  }

  /** Round a non-negative amount to the nearest 1/scale, ties upward. */
  function RoundMagnitude(x: real, scale: nat): (r: real)
    requires scale > 0 && x >= 0.0
    ensures r * scale as real == (x * scale as real + 0.5).Floor as real
    ensures x * scale as real - 0.5 < r * scale as real <= x * scale as real + 0.5
    ensures 0.0 <= r
  {
    var k := (x * scale as real + 0.5).Floor as real;
    DivMul(k, scale as real);
    k / scale as real
  }

  /** Number(x.toFixed(k)) for scale = 10^k. */
  function ToFixed(x: real, scale: nat): (r: real)
    requires scale > 0
    ensures OnGrid(r, scale)
    ensures x - 1.0 / (2 * scale) as real <= r <= x + 1.0 / (2 * scale) as real
    ensures 0.0 <= x ==> 0.0 <= r
  {
    if x >= 0.0 then
      RoundedNear(x, scale);
      RoundMagnitude(x, scale)
    else
      var y := -x;
      RoundedNear(y, scale);
      NegatedNear(RoundMagnitude(y, scale), y, scale);
      -RoundMagnitude(y, scale)
  }

  /** The rounded magnitude lies on the grid within half a step. */
  lemma RoundedNear(x: real, scale: nat)
    requires scale > 0 && x >= 0.0
    ensures OnGrid(RoundMagnitude(x, scale), scale)
    ensures x - 1.0 / (2 * scale) as real <= RoundMagnitude(x, scale) <= x + 1.0 / (2 * scale) as real
  {
    var m := RoundMagnitude(x, scale);
    IntOnGrid(m, (x * scale as real + 0.5).Floor, scale);
    Unscale(m, x, scale as real);
  }

  /** Negating keeps a grid point on the grid, at the same distance. */
  lemma NegatedNear(m: real, x: real, scale: nat)
    requires scale > 0 && OnGrid(m, scale)
    requires x - 1.0 / (2 * scale) as real <= m <= x + 1.0 / (2 * scale) as real
    ensures OnGrid(-m, scale)
    ensures -x - 1.0 / (2 * scale) as real <= -m <= -x + 1.0 / (2 * scale) as real
  {
    var k := (m * scale as real).Floor;
    NegateScaled(m, scale as real);
    IntOnGrid(-m, -k, scale);
  }

  /** Within half a unit after scaling is within half a grid step before. */
  lemma Unscale(a: real, b: real, s: real)
    requires s > 0.0 && b * s - 0.5 < a * s <= b * s + 0.5
    ensures b - 1.0 / (2.0 * s) <= a <= b + 1.0 / (2.0 * s)
  {
    var d, h := a - b, 1.0 / (2.0 * s);
    assert d * s == a * s - b * s;
    assert h * s == 0.5;
    CancelFactor(d, h, s);
    NegateScaled(h, s);
    CancelFactor(-h, d, s);
  }

  function Round6(x: real): real {
    ToFixed(x, 1000000)
  }

  function Round2(x: real): real {
    ToFixed(x, 100)
  }

  // ---------------------------------------------------------------------------

  /** Rounding an amount that is already on the grid gives it back, so
      rounding twice is rounding once. */
  lemma ToFixedKeepsGrid(x: real, scale: nat)
    requires scale > 0 && OnGrid(x, scale)
    ensures ToFixed(x, scale) == x
  {
    var k := (x * scale as real).Floor;
    if x >= 0.0 {
      assert (x * scale as real + 0.5).Floor == k;
      DivMul(x * scale as real, scale as real);
    } else {
      assert -x * scale as real == (-k) as real;
      assert (-x * scale as real + 0.5).Floor == -k;
      DivMul(-x * scale as real, scale as real);
    }
  }

  lemma ToFixedIdempotent(x: real, scale: nat)
    requires scale > 0
    ensures ToFixed(ToFixed(x, scale), scale) == ToFixed(x, scale)
  {
    ToFixedKeepsGrid(ToFixed(x, scale), scale);
  }

  lemma FloorMonotone(a: real, b: real)
    requires a <= b
    ensures a.Floor <= b.Floor
  {
  }

  lemma MagnitudeMonotone(x: real, y: real, scale: nat)
    requires scale > 0 && 0.0 <= x <= y
    ensures RoundMagnitude(x, scale) <= RoundMagnitude(y, scale)
  {
    var i, j := (x * scale as real + 0.5).Floor, (y * scale as real + 0.5).Floor;
    MulMonotone(x, y, scale as real);
    FloorMonotone(x * scale as real + 0.5, y * scale as real + 0.5);
    MagnitudeUnits(x, scale, i);
    MagnitudeUnits(y, scale, j);
    DivMonotone(i as real, j as real, scale as real);
  }

  /** The rounded magnitude is its whole number of units over the scale. */
  lemma MagnitudeUnits(x: real, scale: nat, k: int)
    requires scale > 0 && x >= 0.0 && k == (x * scale as real + 0.5).Floor
    ensures RoundMagnitude(x, scale) == k as real / scale as real
  {
  }

  lemma DivMonotone(a: real, b: real, s: real)
    requires a <= b && s > 0.0
    ensures a / s <= b / s
  {
    DivMul(a, s);
    DivMul(b, s);
    CancelFactor(a / s, b / s, s);
  }

  lemma MulMonotone(a: real, b: real, s: real)
    requires a <= b && s > 0.0
    ensures a * s <= b * s
  {
    assert (b - a) * s >= 0.0;
  }

  lemma CancelFactor(a: real, b: real, s: real)
    requires s > 0.0 && a * s <= b * s
    ensures a <= b
  {
  }

  lemma ScaleBound(dev: real, e: real, n: real)
    requires -e <= dev <= e && n >= 0.0
    ensures -(e * n) <= dev * n <= e * n
  {
    assert (e - dev) * n >= 0.0;
    assert (dev + e) * n >= 0.0;
  }

  /** A larger amount never rounds to a smaller one. */
  lemma ToFixedMonotone(x: real, y: real, scale: nat)
    requires scale > 0 && x <= y
    ensures ToFixed(x, scale) <= ToFixed(y, scale)
  {
    if 0.0 <= x {
      MagnitudeMonotone(x, y, scale);
    } else if y < 0.0 {
      MagnitudeMonotone(-y, -x, scale);
    }
  }

  /** A tie rounds away from zero: 0.0000005 becomes 0.000001 and
      -0.0000005 becomes -0.000001. The 2.675 case is the exact value; the
      JavaScript double nearest 2.675 lies just below it and gives 2.67. */
  lemma TieAwayFromZero()
    ensures Round6(0.0000005) == 0.000001
    ensures Round6(-0.0000005) == -0.000001
    ensures Round2(2.675) == 2.68
  {
    assert (0.0000005 * 1000000.0 + 0.5).Floor == 1;
    assert (2.675 * 100.0 + 0.5).Floor == 268;
  }

  /** The rounded per-day rate, paid for all n eligible days, differs from
      the monthly salary by at most n half-millionths: q is the exact
      quotient of the salary by n. */
  lemma PerDayApproximation(salary: real, n: nat, q: real)
    requires n > 0 && q * n as real == salary
    ensures salary - n as real / 2000000.0 <= Round6(q) * n as real <= salary + n as real / 2000000.0
  {
    Spread(q, Round6(q), n as real, salary, 1.0 / 2000000.0, n as real / 2000000.0);
  }

  /** A rate within e of q, paid m times, is within e*m = w of q*m. */
  lemma Spread(q: real, r: real, m: real, total: real, e: real, w: real)
    requires q * m == total && q - e <= r <= q + e && m >= 0.0 && e * m == w
    ensures total - w <= r * m <= total + w
  {
    ScaleBound(r - q, e, m);
    assert (r - q) * m == r * m - q * m;
  }
}
