/** Latency histograms: estimating a quantile from cumulative buckets.  Bounds and estimates are exact reals. */
module Buckets {

  datatype Bucket = Bucket(upperBound: real, count: nat)

  /** Positive, strictly increasing bounds and cumulative counts. */
  ghost predicate WellFormed(bs: seq<Bucket>) {
    && (forall i | 0 <= i < |bs| :: bs[i].upperBound > 0.0)
    && (forall i, j | 0 <= i < j < |bs| :: bs[i].upperBound < bs[j].upperBound)
    && (forall i, j | 0 <= i < j < |bs| :: bs[i].count <= bs[j].count)
  }

  function LowerBound(bs: seq<Bucket>, i: nat): real
    requires i < |bs|
  {
    if i == 0 then 0.0 else bs[i - 1].upperBound
  }

  function LowerCount(bs: seq<Bucket>, i: nat): nat
    requires i < |bs|
  {
    if i == 0 then 0 else bs[i - 1].count
  }

  /** The point at fraction `f` of the way from `a` to `b`. */
  function Between(a: real, b: real, f: real): real {
    a + (b - a) * f
  }

  // ---- The cumulative curve ----

  /** Where `x` lies in bucket `i`, from 0 at its lower bound to 1 at its upper bound. */
  function Fraction(bs: seq<Bucket>, i: nat, x: real): real
    requires WellFormed(bs) && i < |bs|
  {
    (x - LowerBound(bs, i)) / (bs[i].upperBound - LowerBound(bs, i))
  }

  function InBucket(bs: seq<Bucket>, i: nat, x: real): real
    requires WellFormed(bs) && i < |bs|
  {
    Between(LowerCount(bs, i) as real, bs[i].count as real, Fraction(bs, i, x))
  }

  /** The curve through the first `n` cumulative counts. */
  function CurveTo(bs: seq<Bucket>, n: nat, x: real): real
    requires WellFormed(bs) && n <= |bs|
  {
    if n == 0 then 0.0
    else if x >= bs[n - 1].upperBound then bs[n - 1].count as real
    else if x <= LowerBound(bs, n - 1) then CurveTo(bs, n - 1, x)
    else InBucket(bs, n - 1, x)
  }

  /** The piecewise-linear curve through the cumulative counts, 0 up to 0 and flat after the last bound. */
  function Curve(bs: seq<Bucket>, x: real): real
    requires WellFormed(bs)
  {
    CurveTo(bs, |bs|, x)
  }

  lemma BetweenEnds(a: real, b: real, f: real, g: real)
    requires a <= b && 0.0 <= f <= g <= 1.0
    ensures a <= Between(a, b, f) <= Between(a, b, g) <= b
    ensures a < b && f < g ==> Between(a, b, f) < Between(a, b, g)
    ensures Between(a, b, 0.0) == a && Between(a, b, 1.0) == b
  {
    assert (b - a) * f <= (b - a) * g <= b - a;
  }

  lemma DivisionOrder(x: real, y: real, w: real)
    requires 0.0 <= x <= y <= w && w > 0.0
    ensures 0.0 <= x / w <= y / w <= 1.0
    ensures x < y ==> x / w < y / w
  {
  }

  lemma FractionOrder(bs: seq<Bucket>, i: nat, x: real, y: real)
    requires WellFormed(bs) && i < |bs| && LowerBound(bs, i) <= x <= y <= bs[i].upperBound
    ensures 0.0 <= Fraction(bs, i, x) <= Fraction(bs, i, y) <= 1.0
    ensures x < y ==> Fraction(bs, i, x) < Fraction(bs, i, y)
  {
    var a := LowerBound(bs, i);
    DivisionOrder(x - a, y - a, bs[i].upperBound - a);
  }

  lemma {:induction false} CurveToInBucket(bs: seq<Bucket>, n: nat, i: nat, x: real)
    requires WellFormed(bs) && i < n <= |bs| && LowerBound(bs, i) <= x <= bs[i].upperBound
    ensures CurveTo(bs, n, x) == InBucket(bs, i, x)
    decreases n
  {
    FractionEnds(bs, i);
    if i < n - 1 {
      CurveToInBucket(bs, n - 1, i, x);
    }
  }

  /** Inside a bucket the curve is the line between its two counts. */
  lemma CurveInBucket(bs: seq<Bucket>, i: nat, x: real)
    requires WellFormed(bs) && i < |bs| && LowerBound(bs, i) <= x <= bs[i].upperBound
    ensures Curve(bs, x) == InBucket(bs, i, x)
  {
    CurveToInBucket(bs, |bs|, i, x);
  }

  lemma FractionEnds(bs: seq<Bucket>, i: nat)
    requires WellFormed(bs) && i < |bs|
    ensures InBucket(bs, i, LowerBound(bs, i)) == LowerCount(bs, i) as real
    ensures InBucket(bs, i, bs[i].upperBound) == bs[i].count as real
  {
    var w := bs[i].upperBound - LowerBound(bs, i);
    assert w / w == 1.0 && 0.0 / w == 0.0;
  }

  /** The bucket that contains `x`, among the first `n`. */
  function Locate(bs: seq<Bucket>, n: nat, x: real): (i: nat)
    requires WellFormed(bs) && 0 < n <= |bs| && 0.0 <= x < bs[n - 1].upperBound
    ensures i < n && LowerBound(bs, i) <= x < bs[i].upperBound
  {
    if x >= LowerBound(bs, n - 1) then n - 1 else Locate(bs, n - 1, x)
  }

  lemma CountsAt(bs: seq<Bucket>, i: nat, x: real)
    requires WellFormed(bs) && i < |bs| && LowerBound(bs, i) <= x <= bs[i].upperBound
    ensures LowerCount(bs, i) as real <= Curve(bs, x) <= bs[i].count as real
  {
    CurveInBucket(bs, i, x);
    FractionOrder(bs, i, x, x);
    BetweenEnds(LowerCount(bs, i) as real, bs[i].count as real, Fraction(bs, i, x), Fraction(bs, i, x));
  }

  lemma CurveMonotone(bs: seq<Bucket>, x: real, y: real)
    requires WellFormed(bs) && 0.0 <= x <= y
    ensures Curve(bs, x) <= Curve(bs, y)
  {
    if bs != [] && x < bs[|bs| - 1].upperBound {
      var i := Locate(bs, |bs|, x);
      CountsAt(bs, i, x);
      if y < bs[|bs| - 1].upperBound {
        var j := Locate(bs, |bs|, y);
        CountsAt(bs, j, y);
        if i == j {
          CurveInBucket(bs, i, x);
          CurveInBucket(bs, i, y);
          FractionOrder(bs, i, x, y);
          BetweenEnds(LowerCount(bs, i) as real, bs[i].count as real, Fraction(bs, i, x), Fraction(bs, i, y));
        } else {
          assert i < j;
        }
      }
    }
  }

  /** The curve is 0 at 0, the cumulative count at every bound, and the last count behind the last bound. */
  lemma CurveAtBounds(bs: seq<Bucket>, i: nat, x: real)
    requires WellFormed(bs) && i < |bs|
    ensures Curve(bs, 0.0) == 0.0
    ensures Curve(bs, bs[i].upperBound) == bs[i].count as real
    ensures x >= bs[|bs| - 1].upperBound ==> Curve(bs, x) == bs[|bs| - 1].count as real
  {
    CurveInBucket(bs, 0, 0.0);
    FractionEnds(bs, 0);
    CurveInBucket(bs, i, bs[i].upperBound);
    FractionEnds(bs, i);
  }

  /** Between neighbouring bounds, and between 0 and the first bound, the curve is a straight line. */
  lemma CurveIsStraight(bs: seq<Bucket>, i: nat, x: real, u: real, c: real)
    requires WellFormed(bs) && i < |bs|
    requires (u, c) == if i == 0 then (0.0, 0.0) else (bs[i - 1].upperBound, bs[i - 1].count as real)
    requires u <= x <= bs[i].upperBound
    ensures (Curve(bs, x) - c) * (bs[i].upperBound - u) == (bs[i].count as real - c) * (x - u)
  {
    CurveInBucket(bs, i, x);
    OnTheLine(c, bs[i].count as real, x - u, bs[i].upperBound - u);
  }

  lemma OnTheLine(a: real, b: real, x: real, w: real)
    requires w > 0.0
    ensures (Between(a, b, x / w) - a) * w == (b - a) * x
  {
    var f := x / w;
    assert f * w == x;
    assert (b - a) * f * w == (b - a) * (f * w);
  }

  // ---- The quantile ----

  function Ceil(x: real): int {
    -((-x).Floor)
  }

  /** The number of observations that the quantile has to cover. */
  function Target(bs: seq<Bucket>, q: real): nat
    requires bs != []
  {
    var c := Ceil(q * bs[|bs| - 1].count as real);
    if c < 0 then 0 else c
  }

  /** `x` is the least latency at which the curve reaches `target`, and it lies in the first bucket that does. */
  ghost predicate IsQuantile(bs: seq<Bucket>, target: nat, x: real) {
    && WellFormed(bs) && x >= 0.0
    && Curve(bs, x) == target as real
    && (forall y: real | 0.0 <= y < x :: Curve(bs, y) < target as real)
    && (exists i | 0 <= i < |bs| :: LowerBound(bs, i) <= x <= bs[i].upperBound && Covers(bs, i, target))
  }

  /** Bucket `i` is the first whose cumulative count reaches the target. */
  ghost predicate Covers(bs: seq<Bucket>, i: nat, target: nat)
    requires i < |bs|
  {
    target <= bs[i].count && forall k | 0 <= k < i :: bs[k].count < target
  }

  lemma Position(a: real, b: real, t: real, lo: real, hi: real) returns (f: real)
    requires a < b && lo <= t <= hi && (lo == hi ==> lo == t)
    ensures f == (t - lo) / (if hi - lo > 1.0 then hi - lo else if hi > lo then hi - lo else 1.0)
    ensures 0.0 <= f <= 1.0 && Between(lo, hi, f) == t
    ensures a <= Between(a, b, f) <= b && (Between(a, b, f) - a) / (b - a) == f
  {
    f := (t - lo) / (if hi - lo > 1.0 then hi - lo else if hi > lo then hi - lo else 1.0);
    if lo < hi {
      DivisionOrder(t - lo, hi - lo, hi - lo);
      assert (hi - lo) * f == t - lo;
    }
    BetweenEnds(a, b, f, f);
    ScaleBack(b - a, f);
  }

  lemma ScaleBack(w: real, f: real)
    requires w > 0.0
    ensures w * f / w == f
  {
  }

  /** Interpolating inside the covering bucket gives the quantile. */
  lemma InterpolationIsQuantile(bs: seq<Bucket>, i: nat, target: nat, x: real)
    requires WellFormed(bs) && i < |bs| && Covers(bs, i, target)
    requires LowerBound(bs, i) <= x <= bs[i].upperBound
    requires InBucket(bs, i, x) == target as real
    requires target == LowerCount(bs, i) ==> x == LowerBound(bs, i)
    ensures IsQuantile(bs, target, x)
  {
    CurveInBucket(bs, i, x);
    forall y: real | 0.0 <= y < x
      ensures Curve(bs, y) < target as real
    {
      if y < LowerBound(bs, i) {
        var j := Locate(bs, |bs|, y);
        CountsAt(bs, j, y);
        assert j < i;
      } else {
        CurveInBucket(bs, i, y);
        FractionOrder(bs, i, y, x);
        BetweenEnds(LowerCount(bs, i) as real, bs[i].count as real, Fraction(bs, i, y), Fraction(bs, i, x));
      }
    }
  }

  /** The target is the q-part of the total, rounded up. */
  lemma TargetIsShare(bs: seq<Bucket>, q: real)
    requires bs != [] && q >= 0.0
    ensures var total := bs[|bs| - 1].count as real;
            RoundedUp(Target(bs, q), q * total) && q * total <= Target(bs, q) as real < q * total + 1.0
  {
    ProductMonotone(0.0, q, bs[|bs| - 1].count as real);
  }

  /** `t` is `v` rounded up. */
  predicate RoundedUp(t: nat, v: real) {
    v <= t as real < v + 1.0
  }

  /** `x` is the least latency that at least the q-part of the observations do not exceed. */
  ghost predicate QuantileAt(bs: seq<Bucket>, q: real, x: real) {
    bs != [] && exists t: nat :: RoundedUp(t, q * bs[|bs| - 1].count as real) && IsQuantile(bs, t, x)
  }

  lemma OnlyTarget(bs: seq<Bucket>, v: real, target: nat, x: real)
    requires RoundedUp(target, v)
    ensures (exists t: nat :: RoundedUp(t, v) && IsQuantile(bs, t, x)) <==> IsQuantile(bs, target, x)
  {
    forall t: nat | RoundedUp(t, v) ensures t == target {
    }
  }

  lemma QuantileAtTarget(bs: seq<Bucket>, q: real, x: real)
    requires bs != [] && q >= 0.0
    ensures QuantileAt(bs, q, x) <==> IsQuantile(bs, Target(bs, q), x)
  {
    TargetIsShare(bs, q);
    OnlyTarget(bs, q * bs[|bs| - 1].count as real, Target(bs, q), x);
  }

  lemma EstimateIsRight(bs: seq<Bucket>, q: real, x: real)
    requires bs != [] && 0.0 <= q <= 1.0 && (Target(bs, q) <= bs[|bs| - 1].count ==> IsQuantile(bs, Target(bs, q), x))
    ensures QuantileAt(bs, q, x)
    ensures var total := bs[|bs| - 1].count as real;
            q * total <= Curve(bs, x) < q * total + 1.0
  {
    TargetInRange(bs, q);
    TargetIsShare(bs, q);
    QuantileAtTarget(bs, q, x);
  }

  /**
   Estimates a quantile.  Within the total the estimate is the least latency at which the cumulative
   curve reaches the target; beyond it, the last bound; without buckets, zero.
   */
  method EstimateQuantile(bs: seq<Bucket>, q: real) returns (x: real)
    requires WellFormed(bs)
    ensures bs == [] ==> x == 0.0
    ensures bs != [] && 0.0 <= q <= 1.0 ==> QuantileAt(bs, q, x)
    ensures bs != [] && 0.0 <= q <= 1.0 ==>
              var total := bs[|bs| - 1].count as real;
              q * total <= Curve(bs, x) < q * total + 1.0
    ensures bs != [] && Target(bs, q) <= bs[|bs| - 1].count ==> IsQuantile(bs, Target(bs, q), x)
    ensures bs != [] && Target(bs, q) > bs[|bs| - 1].count ==> x == bs[|bs| - 1].upperBound
  {
    if bs == [] {
      return 0.0;
    }
    var target := Target(bs, q);
    for i := 0 to |bs|
      invariant forall k | 0 <= k < i :: bs[k].count < target
    {
      if bs[i].count >= target {
        var lowerBound := if i == 0 then 0.0 else bs[i - 1].upperBound;
        var lowerCount := if i == 0 then 0 else bs[i - 1].count;
        var upperBound, upperCount := bs[i].upperBound, bs[i].count;
        var range := if upperCount - lowerCount > 1 then upperCount - lowerCount else 1;
        var position := (target - lowerCount) as real / range as real;
        x := lowerBound + (upperBound - lowerBound) * position;
        Interpolates(bs, i, target, position, x);
        if 0.0 <= q <= 1.0 {
          EstimateIsRight(bs, q, x);
        }
        return x;
      }
    }
    x := bs[|bs| - 1].upperBound;
    if 0.0 <= q <= 1.0 {
      EstimateIsRight(bs, q, x);
    }
  }

  lemma Interpolates(bs: seq<Bucket>, i: nat, target: nat, position: real, x: real)
    requires WellFormed(bs) && i < |bs| && Covers(bs, i, target)
    requires LowerCount(bs, i) <= target
    requires var range := if bs[i].count - LowerCount(bs, i) > 1 then bs[i].count - LowerCount(bs, i) else 1;
             position == (target - LowerCount(bs, i)) as real / range as real
    requires x == Between(LowerBound(bs, i), bs[i].upperBound, position)
    ensures IsQuantile(bs, target, x)
  {
    var f := Position(LowerBound(bs, i), bs[i].upperBound, target as real, LowerCount(bs, i) as real, bs[i].count as real);
    assert f == position;
    InterpolationIsQuantile(bs, i, target, x);
  }

  /** For q in [0, 1] the target never exceeds the total. */
  lemma TargetInRange(bs: seq<Bucket>, q: real)
    requires bs != [] && 0.0 <= q <= 1.0
    ensures Target(bs, q) <= bs[|bs| - 1].count
    ensures q * bs[|bs| - 1].count as real >= 0.0
  {
    var count := bs[|bs| - 1].count;
    var c := count as real;
    ProductMonotone(0.0, q, c);
    ProductMonotone(q, 1.0, c);
    CeilMonotone(q * c, c);
    assert Ceil(c) == count;
  }

  lemma CeilMonotone(x: real, y: real)
    requires x <= y
    ensures Ceil(x) <= Ceil(y)
  {
  }

  lemma TargetMonotone(bs: seq<Bucket>, q: real, r: real)
    requires bs != [] && q <= r
    ensures Target(bs, q) <= Target(bs, r)
  {
    var c := bs[|bs| - 1].count as real;
    ProductMonotone(q, r, c);
    CeilMonotone(q * c, r * c);
  }

  lemma ProductMonotone(q: real, r: real, c: real)
    requires q <= r && c >= 0.0
    ensures q * c <= r * c
  {
  }

  lemma QuantileOrder(bs: seq<Bucket>, t: nat, u: nat, x: real, y: real)
    requires IsQuantile(bs, t, x) && IsQuantile(bs, u, y) && t <= u
    ensures x <= y
  {
  }

  /** A quantile is unique, and a larger q never gives a smaller one. */
  lemma QuantileMonotone(bs: seq<Bucket>, q: real, r: real, x: real, y: real)
    requires 0.0 <= q <= r && QuantileAt(bs, q, x) && QuantileAt(bs, r, y)
    ensures x <= y && (q == r ==> x == y)
  {
    QuantileAtTarget(bs, q, x);
    QuantileAtTarget(bs, r, y);
    TargetMonotone(bs, q, r);
    QuantileOrder(bs, Target(bs, q), Target(bs, r), x, y);
    if q == r {
      QuantileOrder(bs, Target(bs, r), Target(bs, q), y, x);
    }
  }
}
