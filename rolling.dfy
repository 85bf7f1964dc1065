/** The three pandas window operations every indicator is built from, on a
    series of real values indexed by bar:
      - `rolling(p).mean()`: undefined until p values are available;
      - `ewm(alpha, adjust=False).mean()`: seeded with the first value, then
        y[t] = alpha * x[t] + (1 - alpha) * y[t-1];
      - `rolling(p).apply(dot(x, [1..p]))`: the linearly weighted window.
    Each comes with the property that makes it an average: constant input
    gives that constant back and the result stays within the bounds of
    the values it averages. */
module Rolling {
  import opened Base

  // ---------------------------------------------------------------------
  // Simple moving average

  /** The mean of the p bars ending at bar t, or NaN before bar p - 1. */
  function SmaAt(xs: seq<real>, p: nat, t: nat): Option<real>
    requires 1 <= p && t < |xs|
  {
    if t + 1 < p then None else Some(Sum(xs[t + 1 - p..t + 1]) / p as real)
  }

  lemma PositiveFactor(a: real, n: real)
    requires n > 0.0 && a * n >= 0.0
    ensures a >= 0.0
  {
  }

  lemma DivBounds(s: real, n: real, lo: real, hi: real)
    requires n > 0.0 && n * lo <= s <= n * hi
    ensures lo <= s / n <= hi
  {
    var q := s / n;
    assert (q - lo) * n == s - n * lo;
    assert (hi - q) * n == n * hi - s;
    PositiveFactor(q - lo, n);
    PositiveFactor(hi - q, n);
  }

  /** Defined exactly from bar p - 1 on. */
  lemma SmaWarmup(xs: seq<real>, p: nat, t: nat)
    requires 1 <= p && t < |xs|
    ensures SmaAt(xs, p, t).Some? <==> t >= p - 1
  {
  }

  /** The mean lies between the least and the greatest value of its
      window. */
  lemma SmaBounds(xs: seq<real>, p: nat, t: nat, lo: real, hi: real)
    requires 1 <= p && p - 1 <= t < |xs|
    requires forall k :: t + 1 - p <= k <= t ==> lo <= xs[k] <= hi
    ensures SmaAt(xs, p, t).Some? && lo <= SmaAt(xs, p, t).value <= hi
  {
    var w := xs[t + 1 - p..t + 1];
    assert forall k :: 0 <= k < |w| ==> w[k] == xs[t + 1 - p + k];
    SumBounds(w, lo, hi);
    DivBounds(Sum(w), p as real, lo, hi);
  }

  /** A one-bar mean is the value itself. */
  lemma SmaOne(xs: seq<real>, t: nat)
    requires t < |xs|
    ensures SmaAt(xs, 1, t) == Some(xs[t])
  {
    assert xs[t..t + 1] == [xs[t]];
    assert Sum([xs[t]]) == Sum([xs[t]][..0]) + xs[t];
  }

  // ---------------------------------------------------------------------
  // Exponentially weighted mean, adjust=False

  /** `alpha` for `span`: 2 / (span + 1). */
  function SpanAlpha(span: nat): (a: real)
    requires span >= 1
    ensures 0.0 < a <= 1.0
  {
    2.0 / (span as real + 1.0)
  }

  /** `alpha = 1 / period`, Wilder's smoothing. */
  function WilderAlpha(period: nat): (a: real)
    requires period >= 1
    ensures 0.0 < a <= 1.0
  {
    1.0 / period as real
  }

  /** The recursive mean at bar t: the first bar seeds it. */
  function EwmAt(xs: seq<real>, alpha: real, t: nat): real
    requires t < |xs|
    decreases t
  {
    if t == 0 then xs[0] else alpha * xs[t] + (1.0 - alpha) * EwmAt(xs, alpha, t - 1)
  }

  /** A lower bound on the values through bar t bounds the mean. */
  lemma {:induction false} EwmAtLeast(xs: seq<real>, alpha: real, t: nat, lo: real)
    requires 0.0 <= alpha <= 1.0 && t < |xs|
    requires forall k :: 0 <= k <= t ==> lo <= xs[k]
    ensures lo <= EwmAt(xs, alpha, t)
  {
    if t > 0 {
      EwmAtLeast(xs, alpha, t - 1, lo);
      ConvexLower(alpha, xs[t], EwmAt(xs, alpha, t - 1), lo);
    }
  }

  /** An upper bound on the values through bar t bounds the mean. */
  lemma {:induction false} EwmAtMost(xs: seq<real>, alpha: real, t: nat, hi: real)
    requires 0.0 <= alpha <= 1.0 && t < |xs|
    requires forall k :: 0 <= k <= t ==> xs[k] <= hi
    ensures EwmAt(xs, alpha, t) <= hi
  {
    if t > 0 {
      EwmAtMost(xs, alpha, t - 1, hi);
      ConvexUpper(alpha, xs[t], EwmAt(xs, alpha, t - 1), hi);
    }
  }

  /** The mean through bar t lies between bounds of the values through
      bar t. */
  lemma EwmBounds(xs: seq<real>, alpha: real, t: nat, lo: real, hi: real)
    requires 0.0 <= alpha <= 1.0 && t < |xs|
    requires forall k :: 0 <= k <= t ==> lo <= xs[k] <= hi
    ensures lo <= EwmAt(xs, alpha, t) <= hi
  {
    EwmAtLeast(xs, alpha, t, lo);
    EwmAtMost(xs, alpha, t, hi);
  }

  /** The mean of positive values is positive. */
  lemma {:induction false} EwmPositive(xs: seq<real>, alpha: real, t: nat)
    requires 0.0 < alpha <= 1.0 && t < |xs|
    requires forall k :: 0 <= k <= t ==> xs[k] > 0.0
    ensures EwmAt(xs, alpha, t) > 0.0
  {
    if t > 0 {
      EwmPositive(xs, alpha, t - 1);
      MulNonneg(1.0 - alpha, EwmAt(xs, alpha, t - 1));
      assert alpha * xs[t] > 0.0;
    }
  }

  /** The mean of a constant series is that constant. */
  lemma EwmConstant(xs: seq<real>, alpha: real, t: nat, c: real)
    requires 0.0 <= alpha <= 1.0 && t < |xs|
    requires forall k :: 0 <= k <= t ==> xs[k] == c
    ensures EwmAt(xs, alpha, t) == c
  {
    EwmBounds(xs, alpha, t, c, c);
  }

  /** Only the bars up to t matter. */
  lemma {:induction false} EwmPrefix(xs: seq<real>, ys: seq<real>, alpha: real, t: nat)
    requires t < |xs| && t < |ys|
    requires forall k :: 0 <= k <= t ==> xs[k] == ys[k]
    ensures EwmAt(xs, alpha, t) == EwmAt(ys, alpha, t)
  {
    if t > 0 {
      EwmPrefix(xs, ys, alpha, t - 1);
    }
  }

  /** Wilder's smoothing with `min_periods = period`: undefined until
      `period` values have been seen. */
  function WilderAt(xs: seq<real>, period: nat, t: nat): Option<real>
    requires period >= 1 && t < |xs|
  {
    if t + 1 < period then None else Some(EwmAt(xs, WilderAlpha(period), t))
  }

  // ---------------------------------------------------------------------
  // Linearly weighted window

  /** `np.dot(w, [1, 2, ..., |w|])`: the oldest value weighs 1, the newest
      |w|. */
  function WeightedSum(w: seq<real>): real
  {
    if |w| == 0 then 0.0 else WeightedSum(w[..|w| - 1]) + |w| as real * w[|w| - 1]
  }

  /** `np.arange(1, p + 1).sum()`. */
  function WeightTotal(p: nat): nat
  {
    if p == 0 then 0 else WeightTotal(p - 1) + p
  }

  lemma {:induction false} WeightTotalClosed(p: nat)
    ensures WeightTotal(p) == p * (p + 1) / 2
  {
    if p > 0 {
      WeightTotalClosed(p - 1);
    }
  }

  /** The weighted sum of values in [lo, hi] lies between lo and hi times
      the total weight. */
  lemma {:induction false} WeightedSumBounds(w: seq<real>, lo: real, hi: real)
    requires forall k :: 0 <= k < |w| ==> lo <= w[k] <= hi
    ensures WeightTotal(|w|) as real * lo <= WeightedSum(w) <= WeightTotal(|w|) as real * hi
  {
    if |w| > 0 {
      var n := |w| as real;
      WeightedSumBounds(w[..|w| - 1], lo, hi);
      MulNonneg(n, w[|w| - 1] - lo);
      MulNonneg(n, hi - w[|w| - 1]);
      assert (WeightTotal(|w| - 1) + |w|) as real * lo == WeightTotal(|w| - 1) as real * lo + n * lo;
      assert (WeightTotal(|w| - 1) + |w|) as real * hi == WeightTotal(|w| - 1) as real * hi + n * hi;
    }
  }

  /** The weighted mean of the p bars ending at bar t, or NaN before bar
      p - 1. */
  function WmaAt(xs: seq<real>, p: nat, t: nat): Option<real>
    requires 1 <= p && t < |xs|
  {
    if t + 1 < p then None else Some(WeightedSum(xs[t + 1 - p..t + 1]) / WeightTotal(p) as real)
  }

  lemma WeightTotalPositive(p: nat)
    requires p >= 1
    ensures WeightTotal(p) >= 1
  {
  }

  /** Defined exactly from bar p - 1 on. */
  lemma WmaWarmup(xs: seq<real>, p: nat, t: nat)
    requires 1 <= p && t < |xs|
    ensures WmaAt(xs, p, t).Some? <==> t >= p - 1
  {
  }

  /** The weighted mean lies between the least and the greatest value of
      its window. */
  lemma WmaBounds(xs: seq<real>, p: nat, t: nat, lo: real, hi: real)
    requires 1 <= p && p - 1 <= t < |xs|
    requires forall k :: t + 1 - p <= k <= t ==> lo <= xs[k] <= hi
    ensures WmaAt(xs, p, t).Some? && lo <= WmaAt(xs, p, t).value <= hi
  {
    var w := xs[t + 1 - p..t + 1];
    assert forall k :: 0 <= k < |w| ==> w[k] == xs[t + 1 - p + k];
    WeightedSumBounds(w, lo, hi);
    WeightTotalPositive(p);
    DivBounds(WeightedSum(w), WeightTotal(p) as real, lo, hi);
  }
}
