/** The linear interpolation every channel write goes through
    (`THREE.MathUtils.lerp(current, value, speed)`), and what repeating it
    at a constant target does. */
module Blend {

  /** One step of the exponential approach: moves `speed` of the remaining
      distance from `current` to `target`. */
  function Lerp(current: real, target: real, speed: real): (r: real)
    ensures r - target == (1.0 - speed) * (current - target)
  {
    current + speed * (target - current)
  }

  /** For a rate in (0, 1] one step lands between the current value and the
      target, never overshooting; at rate 1 it lands on the target. */
  lemma LerpBetween(current: real, target: real, speed: real)
    requires 0.0 < speed <= 1.0
    ensures current == target ==> Lerp(current, target, speed) == target
    ensures current < target ==> current < Lerp(current, target, speed) <= target
    ensures current > target ==> target <= Lerp(current, target, speed) < current
    ensures speed == 1.0 ==> Lerp(current, target, speed) == target
  {
    var d := target - current;
    assert Lerp(current, target, speed) == current + speed * d;
    if d > 0.0 {
      assert 0.0 < speed * d <= d;
    } else if d < 0.0 {
      assert d <= speed * d < 0.0;
    }
  }

  function Abs(x: real): (r: real) { if x < 0.0 then -x else x }

  /** The distance to the target shrinks by the factor `1 - speed` per step. */
  lemma LerpContracts(current: real, target: real, speed: real)
    requires 0.0 < speed <= 1.0
    ensures Abs(Lerp(current, target, speed) - target) == (1.0 - speed) * Abs(current - target)
    ensures current != target ==> Abs(Lerp(current, target, speed) - target) < Abs(current - target)
  {
    var d := current - target;
    var q := 1.0 - speed;
    assert Lerp(current, target, speed) - target == q * d;
    if d < 0.0 {
      assert q * d <= 0.0;
      assert Abs(q * d) == q * -d;
    }
  }

  /** `x` raised to the power `n`. */
  function Pow(x: real, n: nat): (r: real) {
    if n == 0 then 1.0 else x * Pow(x, n - 1)
  }

  /** The value after holding the target for `n` frames. */
  function Iterate(current: real, target: real, speed: real, n: nat): (r: real) {
    if n == 0 then current else Lerp(Iterate(current, target, speed, n - 1), target, speed)
  }

  /** Closed form of `n` frames at a constant target. */
  lemma {:induction false} IterateClosedForm(current: real, target: real, speed: real, n: nat)
    ensures Iterate(current, target, speed, n) - target == Pow(1.0 - speed, n) * (current - target)
  {
    if n > 0 {
      IterateClosedForm(current, target, speed, n - 1);
      var e := Iterate(current, target, speed, n - 1) - target;
      assert Iterate(current, target, speed, n) - target == (1.0 - speed) * e;
      assert (1.0 - speed) * (Pow(1.0 - speed, n - 1) * (current - target))
          == ((1.0 - speed) * Pow(1.0 - speed, n - 1)) * (current - target);
    }
  }

  /** A channel relaxing from 0 toward 1 at rate 0.1 (an expression preset
      entry of 1) holds 1 - 0.9^n after n frames. */
  lemma {:induction false} ExpressionRamp(n: nat)
    ensures Iterate(0.0, 1.0, 0.1, n) == 1.0 - Pow(0.9, n)
  {
    IterateClosedForm(0.0, 1.0, 0.1, n);
  }

  /** The first two frames of that ramp. */
  lemma ExpressionRampFirstFrames()
    ensures Iterate(0.0, 1.0, 0.1, 1) == 0.1
    ensures Iterate(0.0, 1.0, 0.1, 2) == 0.19
  {
    ExpressionRamp(1);
    ExpressionRamp(2);
  }

  /** A power of a rate's complement stays in [0, 1]. */
  lemma {:induction false} PowUnit(s: real, n: nat)
    requires 0.0 <= s <= 1.0
    ensures 0.0 <= Pow(1.0 - s, n) <= 1.0
  {
    if n > 0 {
      PowUnit(s, n - 1);
      var p := Pow(1.0 - s, n - 1);
      assert Pow(1.0 - s, n) == (1.0 - s) * p;
      MulNonNegative(1.0 - s, p);
      assert p - (1.0 - s) * p == s * p;
      MulNonNegative(s, p);
    }
  }

  /** The inductive step of Bernoulli's inequality: from
      p * (1 + m s) <= 1 follows (1 - s) p (1 + (m + 1) s) <= 1, stated for
      `next == (1 - s) * p` and `k == m + 1`. */
  lemma BernoulliStep(s: real, m: real, p: real, next: real, k: real)
    requires 0.0 <= s <= 1.0 && m >= 0.0 && p >= 0.0
    requires p * (1.0 + m * s) <= 1.0
    requires next == (1.0 - s) * p && k == m + 1.0
    ensures next * (1.0 + k * s) <= 1.0
  {
    var q := 1.0 - s;
    // (1 - s)(1 + (m + 1) s) = 1 + m s - (m + 1) s^2
    assert q * (1.0 + (m + 1.0) * s) == 1.0 + m * s - (m + 1.0) * s * s;
    MulNonNegative((m + 1.0) * s, s);
    assert next * (1.0 + k * s) == p * (q * (1.0 + (m + 1.0) * s));
    assert p * (1.0 + m * s) - p * (q * (1.0 + (m + 1.0) * s))
        == p * ((1.0 + m * s) - q * (1.0 + (m + 1.0) * s));
    MulNonNegative(p, (1.0 + m * s) - q * (1.0 + (m + 1.0) * s));
  }

  /** Bernoulli's inequality in the form used for convergence:
      (1 - s)^n * (1 + n * s) <= 1 for a rate s in [0, 1]. */
  lemma {:induction false} PowBound(s: real, n: nat)
    requires 0.0 <= s <= 1.0
    ensures Pow(1.0 - s, n) * (1.0 + (n as real) * s) <= 1.0
  {
    if n > 0 {
      var p := Pow(1.0 - s, n - 1);
      var m := (n - 1) as real;
      PowBound(s, n - 1);
      PowUnit(s, n - 1);
      BernoulliStep(s, m, p, Pow(1.0 - s, n), n as real);
    }
  }

  lemma MulNonNegative(x: real, y: real)
    requires x >= 0.0 && y >= 0.0
    ensures x * y >= 0.0
  {
  }

  lemma AboveQuotient(x: real, y: real, c: real)
    requires c > 0.0 && x > y / c
    ensures x * c > y
  {
    assert (y / c) * c == y;
    assert x * c - (y / c) * c == (x - y / c) * c;
  }

  /** The arithmetic step of convergence: a factor bounded by Bernoulli's
      inequality scales the initial distance below the tolerance. */
  lemma ScaledBelow(p: real, d0: real, a: real, eps: real)
    requires p >= 0.0 && d0 >= 0.0 && a >= 0.0 && eps > 0.0
    requires p * (1.0 + a) <= 1.0
    requires a * eps > d0
    ensures p * d0 < eps
  {
    var b := 1.0 + a;
    assert d0 < b * eps;
    assert p * d0 <= p * (b * eps) by {
      assert p * (b * eps) - p * d0 == p * (b * eps - d0);
    }
    assert p * (b * eps) == (p * b) * eps;
    assert (p * b) * eps <= eps by {
      assert eps - (p * b) * eps == (1.0 - p * b) * eps;
      MulNonNegative(1.0 - p * b, eps);
    }
  }

  lemma AbsScale(p: real, x: real)
    requires p >= 0.0
    ensures Abs(p * x) == p * Abs(x)
  {
    if x < 0.0 {
      assert p * x == -(p * -x);
      MulNonNegative(p, -x);
    } else {
      MulNonNegative(p, x);
    }
  }

  /** A frame count large enough that `n * speed * eps` exceeds `d0`. */
  lemma FramesNeeded(d0: real, speed: real, eps: real) returns (n: nat)
    requires d0 >= 0.0 && speed > 0.0 && eps > 0.0
    ensures (n as real) * speed * eps > d0
  {
    var k := (d0 / (eps * speed)).Floor;
    n := if k < 0 then 0 else k + 1;
    assert (n as real) > d0 / (eps * speed);
    AboveQuotient(n as real, d0, eps * speed);
    assert (n as real) * speed * eps == (n as real) * (eps * speed);
  }

  /** Holding a target, the channel gets as close to it as one likes: for
      every tolerance there is a frame count after which the distance is
      below it. */
  lemma Converges(current: real, target: real, speed: real, eps: real)
    requires 0.0 < speed <= 1.0 && eps > 0.0
    ensures exists n: nat :: Abs(Iterate(current, target, speed, n) - target) < eps
  {
    var n := FramesNeeded(Abs(current - target), speed, eps);
    ClosedAfter(current, target, speed, eps, n);
  }

  /** The distance to the target after `n` frames. */
  lemma DistanceAfter(current: real, target: real, speed: real, n: nat)
    requires 0.0 <= speed <= 1.0
    ensures Abs(Iterate(current, target, speed, n) - target) == Pow(1.0 - speed, n) * Abs(current - target)
  {
    IterateClosedForm(current, target, speed, n);
    PowUnit(speed, n);
    AbsScale(Pow(1.0 - speed, n), current - target);
  }

  /** After enough frames the shrinking factor brings an initial distance
      `d0` below the tolerance. */
  lemma FactorBelow(speed: real, n: nat, eps: real, d0: real)
    requires 0.0 < speed <= 1.0 && eps > 0.0 && d0 >= 0.0
    requires (n as real) * speed * eps > d0
    ensures Pow(1.0 - speed, n) * d0 < eps
  {
    PowBound(speed, n);
    PowUnit(speed, n);
    MulNonNegative(n as real, speed);
    ScaledBelow(Pow(1.0 - speed, n), d0, (n as real) * speed, eps);
  }

  lemma ClosedAfter(current: real, target: real, speed: real, eps: real, n: nat)
    requires 0.0 < speed <= 1.0 && eps > 0.0
    requires (n as real) * speed * eps > Abs(current - target)
    ensures Abs(Iterate(current, target, speed, n) - target) < eps
  {
    FactorBelow(speed, n, eps, Abs(current - target));
    DistanceAfter(current, target, speed, n);
  }
}
