/**
 * The JavaScript arithmetic the bar code relies on, stated on unbounded reals:
 * `Math.abs`, `Math.min`, `Math.floor`, `Math.ceil`, `Math.round`, the
 * remainder operator `%` (which truncates toward zero, unlike Dafny's) and
 * `d3.round(x, 2)`.  Floating-point rounding error is not modelled.
 */
module JsMath {

  function Abs(x: real): (r: real)
    ensures r >= 0.0
    ensures r == x || r == -x
  {
    if x < 0.0 then -x else x
  }

  function Min(a: real, b: real): (r: real)
    ensures r <= a && r <= b
    ensures r == a || r == b
  {
    if a <= b then a else b
  }

  function Max(a: real, b: real): (r: real)
    ensures r >= a && r >= b
    ensures r == a || r == b
  {
    if a >= b then a else b
  }

  /** `Math.floor`: the largest integer not above `x`. */
  function Floor(x: real): (r: int)
    ensures r as real <= x < r as real + 1.0
  {
    x.Floor
  }

  /** `Math.ceil`: the smallest integer not below `x`. */
  function Ceil(x: real): (r: int)
    ensures x <= r as real < x + 1.0
  {
    -((-x).Floor)
  }

  /** `Math.round`: the nearest integer, halves rounded upward (so Round(-2.5) == -2). */
  function Round(x: real): (r: int)
    ensures x - 0.5 < r as real <= x + 0.5
  {
    (x + 0.5).Floor
  }

  /** `x % 1` in JavaScript: the fractional part, carrying the sign of `x`. */
  function FracPart(x: real): (r: real)
    ensures x >= 0.0 ==> 0.0 <= r < 1.0
    ensures x < 0.0 ==> -1.0 < r <= 0.0
    ensures (x - r).Floor as real == x - r
  {
    if x >= 0.0 then x - Floor(x) as real else x - Ceil(x) as real
  }

  /** `d3.round(x, 2)`, that is `Math.round(x * 100) / 100`. */
  function Round2(x: real): (r: real)
    ensures x - 0.005 < r <= x + 0.005
    ensures (r * 100.0).Floor as real == r * 100.0
  {
    Round(x * 100.0) as real / 100.0
  }

  lemma RoundMonotone(x: real, y: real)
    requires x <= y
    ensures Round(x) <= Round(y)
  {
  }

  lemma Round2Monotone(x: real, y: real)
    requires x <= y
    ensures Round2(x) <= Round2(y)
  {
    RoundMonotone(x * 100.0, y * 100.0);
  }

  /** Scaling by `s` keeps `b` within `a` exactly when `s` is at most `a / b`. */
  lemma ScaleWithin(s: real, a: real, b: real)
    requires b > 0.0
    ensures s <= a / b <==> s * b <= a
    ensures s < a / b <==> s * b < a
  {
    var q := a / b;
    assert q * b == a;
    if s <= q {
      assert s * b <= q * b;
    }
    if s * b <= a {
      assert (s - q) * b <= 0.0;
    }
  }

  /** A factor in [0, 1] scales a non-negative size down. */
  lemma ScaleDown(s: real, a: real)
    requires 0.0 <= s <= 1.0 && a >= 0.0
    ensures 0.0 <= s * a <= a
  {
  }

  /** Multiplying by a non-negative factor keeps the order. */
  lemma MulMonotone(s: real, a: real, b: real)
    requires s >= 0.0 && a <= b
    ensures s * a <= s * b
  {
    assert s * b - s * a == s * (b - a);
  }

  /** Rounding a fraction in [0, 1) to two decimals stays in [0, 1]. */
  lemma Round2UnitBounds(x: real)
    requires 0.0 <= x < 1.0
    ensures 0.0 <= Round2(x) <= 1.0
  {
    var n := Round(x * 100.0);
    assert -0.5 < n as real <= 100.5;
    assert 0 <= n <= 100;
  }
}
