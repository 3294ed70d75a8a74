/** Downsampling of metric series. The source divides in floating point and rounds; here the
    quotient is exact. */
module Trends {
  const MAX_TREND_SAMPLES := 24

  /** The exact quotient a / b rounded to the nearest integer, ties upwards, as math.Round does
      for non-negative arguments. */
  function RoundDiv(a: nat, b: nat): nat
    requires b > 0
  {
    (2 * a + b) / (2 * b)
  }

  function Samples(n: nat): nat {
    if n < MAX_TREND_SAMPLES then n else MAX_TREND_SAMPLES
  }

  /** The point that sample i of a series of n points is read from. */
  function Pick(n: nat, i: nat): nat
    requires i < Samples(n)
  {
    if Samples(n) > 1 then RoundDiv(i * (n - 1), Samples(n) - 1) else 0
  }

  method TrendValues<P>(points: seq<P>, value: P -> int) returns (values: seq<int>)
    ensures |values| == Samples(|points|)
    ensures forall i | 0 <= i < |values| ::
              Pick(|points|, i) < |points| && values[i] == value(points[Pick(|points|, i)])
  {
    if |points| == 0 {
      return [];
    }
    var samples := MAX_TREND_SAMPLES;
    if |points| < samples {
      samples := |points|;
    }
    values := [];
    for i := 0 to samples
      invariant |values| == i
      invariant forall k | 0 <= k < i ::
                  Pick(|points|, k) < |points| && values[k] == value(points[Pick(|points|, k)])
    {
      var idx := 0;
      if samples > 1 {
        idx := RoundDiv(i * (|points| - 1), samples - 1);
      }
      assert idx == Pick(|points|, i);
      PickInRange(|points|, i);
      values := values + [value(points[idx])];
    }
  }

  /** A long series: the pick is within 11/23 of the exact position, so it is the one nearest
      integer and no tie is ever rounded. */
  lemma PickNearest(n: nat, i: nat)
    requires n > MAX_TREND_SAMPLES && i < MAX_TREND_SAMPLES
    ensures -11 <= 23 * Pick(n, i) - i * (n - 1) <= 11
    ensures forall k: int | k != Pick(n, i) :: 23 * k - i * (n - 1) < -11 || 23 * k - i * (n - 1) > 11
  {
  }

  /** A short series is copied. */
  lemma PickIdentity(n: nat, i: nat)
    requires i < n <= MAX_TREND_SAMPLES
    ensures Pick(n, i) == i
  {
    if n > 1 {
      var m := n - 1;
      assert Pick(n, i) == (2 * (i * m) + m) / (2 * m);
      assert 2 * (i * m) + m == i * (2 * m) + m;
      DivideExact(i, m, 2 * m);
    }
  }

  lemma DivideExact(q: nat, r: nat, d: nat)
    requires r < d
    ensures (q * d + r) / d == q
  {
    var x := (q * d + r) / d;
    assert x * d <= q * d + r < (x + 1) * d by { Quotient(q * d + r, d); }
    if x < q {
      Monotone(x + 1, q, d);
    } else if x > q {
      Monotone(q + 1, x, d);
    }
  }

  lemma Quotient(a: nat, d: nat)
    requires d > 0
    ensures a / d * d <= a < (a / d + 1) * d
  {
  }

  lemma Monotone(a: nat, b: nat, d: nat)
    requires a <= b
    ensures a * d <= b * d
  {
  }

  /** Neighbouring picks are as evenly spaced as integers allow, and never coincide. */
  lemma PickGap(n: nat, i: nat)
    requires n > MAX_TREND_SAMPLES && i + 1 < MAX_TREND_SAMPLES
    ensures (n - 1) / 23 <= Pick(n, i + 1) - Pick(n, i) <= (n - 1 + 22) / 23
    ensures Pick(n, i + 1) - Pick(n, i) >= 1
  {
    PickNearest(n, i);
    PickNearest(n, i + 1);
    assert (i + 1) * (n - 1) == i * (n - 1) + (n - 1);
  }

  lemma {:induction false} PickIncreasing(n: nat, i: nat, j: nat)
    requires i < j < Samples(n)
    ensures Pick(n, i) < Pick(n, j)
    decreases j
  {
    if n <= MAX_TREND_SAMPLES {
      PickIdentity(n, i);
      PickIdentity(n, j);
    } else {
      PickGap(n, j - 1);
      if i < j - 1 { PickIncreasing(n, i, j - 1); }
    }
  }

  /** The series is read from its first point to its last. */
  lemma PickEnds(n: nat)
    requires n > 0
    ensures Pick(n, 0) == 0 && Pick(n, Samples(n) - 1) == n - 1
  {
    if n <= MAX_TREND_SAMPLES {
      PickIdentity(n, 0);
      PickIdentity(n, n - 1);
    } else {
      PickNearest(n, 0);
      PickNearest(n, 23);
    }
  }

  lemma PickInRange(n: nat, i: nat)
    requires i < Samples(n)
    ensures Pick(n, i) < n
  {
    PickEnds(n);
    if i < Samples(n) - 1 { PickIncreasing(n, i, Samples(n) - 1); }
  }

  /** Reading the series backwards picks the same points. */
  lemma PickSymmetric(n: nat, i: nat)
    requires i < Samples(n)
    ensures Pick(n, Samples(n) - 1 - i) == n - 1 - Pick(n, i)
  {
    if n <= MAX_TREND_SAMPLES {
      PickIdentity(n, i);
      PickIdentity(n, n - 1 - i);
    } else {
      PickNearest(n, i);
      PickNearest(n, 23 - i);
      assert (23 - i) * (n - 1) == 23 * (n - 1) - i * (n - 1);
    }
  }
}
