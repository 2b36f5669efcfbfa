/**
 * The p5.js arithmetic helpers the sketch relies on (`abs`, `constrain`,
 * `lerp`, `map`, `pow`), over exact reals, and sums of sequences of reals.
 * Floating-point rounding is not modelled.
 */
module Numeric {

  function Abs(x: real): (r: real)
    ensures r >= 0.0
    ensures r == x || r == -x
  {
    if x < 0.0 then -x else x
  }

  /** p5's `constrain(n, low, high)`, i.e. `Math.max(Math.min(n, high), low)`. */
  function Constrain(n: real, low: real, high: real): (r: real)
    ensures low <= r
    ensures low <= high ==> r <= high
    ensures low <= n <= high ==> r == n
    ensures n <= low ==> r == low
    ensures low <= high && high <= n ==> r == high
  {
    var capped := if n < high then n else high;
    if capped > low then capped else low
  }

  /** Raising the input never lowers the output of `constrain`. */
  lemma ConstrainMonotone(m: real, n: real, low: real, high: real)
    requires m <= n
    ensures Constrain(m, low, high) <= Constrain(n, low, high)
  {
  }

  /**
   * p5's `lerp(start, stop, amt)`, i.e. `amt * (stop - start) + start`.
   * The distance to `stop` shrinks by the factor `1 - amt`; with `amt` in
   * [0, 1] the result lies between `start` and `stop`.
   */
  function Lerp(start: real, stop: real, amt: real): (r: real)
    ensures r - stop == (1.0 - amt) * (start - stop)
  {
    amt * (stop - start) + start
  }

  /** Multiplying by a non-negative factor keeps an inequality. */
  lemma MulMonotone(m: real, a: real, b: real)
    requires m >= 0.0 && a <= b
    ensures m * a <= m * b && a * m <= b * m
  {
    assert m * (b - a) >= 0.0;
  }

  /** `lerp` with one rate is additive in its two ends. */
  lemma LerpAdd(a1: real, b1: real, a2: real, b2: real, amt: real)
    ensures Lerp(a1, b1, amt) + Lerp(a2, b2, amt) == Lerp(a1 + a2, b1 + b2, amt)
  {
    assert amt * (b1 - a1) + amt * (b2 - a2) == amt * ((b1 + b2) - (a1 + a2));
  }

  /** A non-negative factor keeps the sign of the other. */
  lemma MulSign(m: real, a: real)
    requires m >= 0.0
    ensures a >= 0.0 ==> m * a >= 0.0
    ensures a <= 0.0 ==> m * a <= 0.0
  {
  }

  /** With a rate in [0, 1], `lerp` lands between its two ends. */
  lemma LerpBetween(start: real, stop: real, amt: real)
    requires 0.0 <= amt <= 1.0
    ensures start <= stop ==> start <= Lerp(start, stop, amt) <= stop
    ensures stop <= start ==> stop <= Lerp(start, stop, amt) <= start
  {
    var r := Lerp(start, stop, amt);
    assert r - start == amt * (stop - start);
    MulSign(amt, stop - start);
    MulSign(1.0 - amt, start - stop);
  }

  /** With a rate in [0, 1], `lerp` never moves away from its target. */
  lemma LerpContracts(start: real, stop: real, amt: real)
    requires 0.0 <= amt <= 1.0
    ensures Abs(Lerp(start, stop, amt) - stop) <= Abs(start - stop)
  {
    LerpBetween(start, stop, amt);
  }

  /** p5's `map(n, start1, stop1, start2, stop2)`: the linear map sending start1 to start2 and stop1 to stop2. */
  function MapRange(n: real, start1: real, stop1: real, start2: real, stop2: real): (r: real)
    requires start1 != stop1
    ensures (r - start2) * (stop1 - start1) == (n - start1) * (stop2 - start2)
  {
    var t := (n - start1) / (stop1 - start1);
    Proportion(t, stop1 - start1, n - start1, stop2 - start2);
    t * (stop2 - start2) + start2
  }

  /** If t is a / d then t * e scaled back by d is a * e. */
  lemma Proportion(t: real, d: real, a: real, e: real)
    requires d != 0.0 && t == a / d
    ensures (t * e) * d == a * e
  {
    assert t * d == a;
    assert (t * e) * d == (t * d) * e;
  }

  /** `map` sends the ends of the first range to the ends of the second. */
  lemma MapRangeEnds(start1: real, stop1: real, start2: real, stop2: real)
    requires start1 != stop1
    ensures MapRange(start1, start1, stop1, start2, stop2) == start2
    ensures MapRange(stop1, start1, stop1, start2, stop2) == stop2
  {
    assert (start1 - start1) / (stop1 - start1) == 0.0;
    assert (stop1 - start1) / (stop1 - start1) == 1.0;
  }

  /** Mapping from [0, 1] onto [0, extent] is multiplying by the extent. */
  lemma MapUnit(n: real, extent: real)
    ensures MapRange(n, 0.0, 1.0, 0.0, extent) == n * extent
  {
    assert (n - 0.0) / (1.0 - 0.0) == n;
  }

  /** A product of positive factors is positive. */
  lemma MulPositive(a: real, b: real)
    requires a > 0.0 && b > 0.0
    ensures a * b > 0.0
  {
  }

  /** A quotient of positive numbers is positive. */
  lemma DivPositive(a: real, b: real)
    requires a > 0.0 && b > 0.0
    ensures a / b > 0.0
  {
  }

  /** Dividing by a non-zero number and multiplying back gives the start. */
  lemma MulDivCancel(a: real, b: real)
    requires a != 0.0
    ensures a * (b / a) == b && (b / a) * a == b
  {
  }

  /** `pow(b, k)` for a natural exponent: every power of one is one, every positive power of zero is zero. */
  function Pow(b: real, k: nat): (p: real)
    ensures b == 1.0 ==> p == 1.0
    ensures b == 0.0 && k > 0 ==> p == 0.0
  {
    if k == 0 then 1.0 else b * Pow(b, k - 1)
  }

  /** For non-negative bases the power is monotone in the base. */
  lemma {:induction false} PowMonotone(a: real, b: real, k: nat)
    requires 0.0 <= a <= b
    ensures 0.0 <= Pow(a, k) <= Pow(b, k)
  {
    if k > 0 {
      PowMonotone(a, b, k - 1);
      MulBothMonotone(a, b, Pow(a, k - 1), Pow(b, k - 1));
    }
  }

  /** Multiplying two inequalities between non-negative numbers. */
  lemma MulBothMonotone(a: real, b: real, pa: real, pb: real)
    requires 0.0 <= a <= b && 0.0 <= pa <= pb
    ensures 0.0 <= a * pa <= b * pb
  {
    MulMonotone(pa, a, b);
    MulMonotone(b, pa, pb);
    MulMonotone(a, 0.0, pa);
  }

  /** Left-to-right sum, in the order the sketch's loops accumulate. */
  function Sum(s: seq<real>): real
  {
    if s == [] then 0.0 else Sum(s[..|s| - 1]) + s[|s| - 1]
  }

  /** Extending a prefix by one element adds that element to the sum. */
  lemma PrefixSumStep(s: seq<real>, i: nat)
    requires i < |s|
    ensures Sum(s[..i + 1]) == Sum(s[..i]) + s[i]
  {
    assert s[..i + 1][..i] == s[..i];
  }

  /** A sequence whose entries are all at least m sums to at least |s| * m. */
  lemma {:induction false} SumLowerBound(s: seq<real>, m: real)
    requires forall i :: 0 <= i < |s| ==> s[i] >= m
    ensures Sum(s) >= (|s| as real) * m
  {
    if s != [] {
      SumLowerBound(s[..|s| - 1], m);
    }
  }

  /** n entries all at least m sum to at least n * m, which is positive when m is. */
  lemma SumAtLeast(s: seq<real>, n: nat, m: real)
    requires |s| == n && forall i :: 0 <= i < n ==> s[i] >= m
    ensures Sum(s) >= (n as real) * m
    ensures m > 0.0 && n > 0 ==> Sum(s) > 0.0
  {
    SumLowerBound(s, m);
    if m > 0.0 && n > 0 {
      MulPositive(n as real, m);
    }
  }

  /** A sequence of positive entries has a positive sum unless it is empty. */
  lemma {:induction false} SumPositive(s: seq<real>)
    requires forall i :: 0 <= i < |s| ==> s[i] > 0.0
    ensures |s| > 0 ==> Sum(s) > 0.0
    ensures Sum(s) >= 0.0
  {
    if s != [] {
      SumPositive(s[..|s| - 1]);
    }
  }

  /** The n-fold constant sequence sums to n * v. */
  lemma {:induction false} SumConstant(n: nat, v: real)
    ensures Sum(seq(n, _ => v)) == (n as real) * v
  {
    if n > 0 {
      assert seq(n, _ => v)[..n - 1] == seq(n - 1, _ => v);
      SumConstant(n - 1, v);
    }
  }

  /** Every entry multiplied by k. */
  function Scaled(s: seq<real>, k: real): seq<real>
  {
    seq(|s|, i requires 0 <= i < |s| => s[i] * k)
  }

  /** The i-th entry of a scaled sequence. */
  lemma ScaledAt(s: seq<real>, k: real, i: nat)
    requires i < |s|
    ensures Scaled(s, k)[i] == s[i] * k
  {
  }

  /** Scaling commutes with summation. */
  lemma {:induction false} SumScaled(s: seq<real>, k: real)
    ensures Sum(Scaled(s, k)) == k * Sum(s)
  {
    if s != [] {
      var n := |s| - 1;
      assert forall i :: 0 <= i < n ==> Scaled(s, k)[..n][i] == Scaled(s[..n], k)[i];
      assert Scaled(s, k)[..n] == Scaled(s[..n], k);
      SumScaled(s[..n], k);
    }
  }

  /** Entry-wise `lerp` of two equally long sequences with one rate. */
  function LerpAll(a: seq<real>, b: seq<real>, amt: real): (r: seq<real>)
    requires |a| == |b|
    ensures |r| == |a|
    ensures forall i :: 0 <= i < |a| ==> r[i] - b[i] == (1.0 - amt) * (a[i] - b[i])
  {
    seq(|a|, i requires 0 <= i < |a| => Lerp(a[i], b[i], amt))
  }

  /** `lerp` is linear, so summation commutes with it. */
  lemma {:induction false} SumLerpAll(a: seq<real>, b: seq<real>, amt: real)
    requires |a| == |b|
    ensures Sum(LerpAll(a, b, amt)) == Lerp(Sum(a), Sum(b), amt)
  {
    if a != [] {
      var n := |a| - 1;
      assert forall i :: 0 <= i < n ==> LerpAll(a, b, amt)[..n][i] == LerpAll(a[..n], b[..n], amt)[i];
      assert LerpAll(a, b, amt)[..n] == LerpAll(a[..n], b[..n], amt);
      SumLerpAll(a[..n], b[..n], amt);
      LerpAdd(Sum(a[..n]), Sum(b[..n]), a[n], b[n], amt);
      assert a[..n + 1] == a && b[..n + 1] == b;
    }
  }

  /**
   * A value after k frames that each `lerp` it toward the same fixed target
   * (a grid cell under a still focal point, a landmark under a still hand).
   */
  function Approach(start: real, target: real, rate: real, k: nat): real
  {
    if k == 0 then start else Lerp(Approach(start, target, rate, k - 1), target, rate)
  }

  /** A signed distance after k frames that each shrink it by the factor (1 - rate). */
  function Shrunk(d: real, rate: real, k: nat): real
  {
    if k == 0 then d else (1.0 - rate) * Shrunk(d, rate, k - 1)
  }

  /** Shrinking k times by the same factor is multiplying by its k-th power. */
  lemma {:induction false} ShrunkPow(d: real, rate: real, k: nat)
    ensures Shrunk(d, rate, k) == Pow(1.0 - rate, k) * d
  {
    if k > 0 {
      ShrunkPow(d, rate, k - 1);
      var p := Pow(1.0 - rate, k - 1);
      assert (1.0 - rate) * (p * d) == ((1.0 - rate) * p) * d;
    }
  }

  /** After k frames the distance to the target is the starting distance times (1 - rate)^k. */
  lemma {:induction false} ApproachDistance(start: real, target: real, rate: real, k: nat)
    ensures Approach(start, target, rate, k) - target == Pow(1.0 - rate, k) * (start - target)
  {
    ApproachShrinks(start, target, rate, k);
    ShrunkPow(start - target, rate, k);
  }

  /** Every frame shrinks the distance to the target by the factor (1 - rate). */
  lemma {:induction false} ApproachShrinks(start: real, target: real, rate: real, k: nat)
    ensures Approach(start, target, rate, k) - target == Shrunk(start - target, rate, k)
  {
    if k > 0 {
      ApproachShrinks(start, target, rate, k - 1);
    }
  }

  /**
   * With a rate in [0, 1], one more frame never takes the value
   * further from its target: it converges monotonically, without overshoot.
   */
  lemma ApproachMonotone(start: real, target: real, rate: real, k: nat)
    requires 0.0 <= rate <= 1.0
    ensures Abs(Approach(start, target, rate, k + 1) - target) <= Abs(Approach(start, target, rate, k) - target)
  {
    LerpContracts(Approach(start, target, rate, k), target, rate);
  }

  /** ... and after any number of frames the value is no further from its target than at the start. */
  lemma {:induction false} ApproachBounded(start: real, target: real, rate: real, k: nat)
    requires 0.0 <= rate <= 1.0
    ensures Abs(Approach(start, target, rate, k) - target) <= Abs(start - target)
  {
    if k > 0 {
      ApproachBounded(start, target, rate, k - 1);
      ApproachMonotone(start, target, rate, k - 1);
    }
  }
}
