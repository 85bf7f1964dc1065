/** The volatility indicators of the service layer: Wilder ATR without a
    warm-up and unrounded Bollinger bands. */
module Volatility {
  import opened Base
  import opened Rolling
  import IndicatorsHelper

  /** `atr(high, low, close, period)` at bar t: the true range smoothed
      with alpha = 1 / period and no `min_periods`, so it is defined from
      the first bar. */
  function AtrAt(high: seq<real>, low: seq<real>, close: seq<real>, period: nat, t: nat): real
    requires |high| == |close| && |low| == |close| && period >= 1 && t < |close|
  {
    EwmAt(IndicatorsHelper.TrueRanges(high, low, close), WilderAlpha(period), t)
  }

  /** The first ATR is the first bar's range, and every later ATR lies
      between the smallest and largest true range seen so far; with high
      >= low it is never negative. */
  lemma AtrSeededAndBounded(high: seq<real>, low: seq<real>, close: seq<real>, period: nat, t: nat, lo: real, hi: real)
    requires |high| == |close| && |low| == |close| && period >= 1 && t < |close|
    requires forall k :: 0 <= k <= t ==> lo <= IndicatorsHelper.TrueRangeAt(high, low, close, k) <= hi
    ensures AtrAt(high, low, close, period, 0) == high[0] - low[0]
    ensures lo <= AtrAt(high, low, close, period, t) <= hi
  {
    EwmBounds(IndicatorsHelper.TrueRanges(high, low, close), WilderAlpha(period), t, lo, hi);
  }

  lemma AtrNonNegative(high: seq<real>, low: seq<real>, close: seq<real>, period: nat, t: nat)
    requires |high| == |close| && |low| == |close| && period >= 1 && t < |close|
    requires forall k :: 0 <= k < |close| ==> low[k] <= high[k]
    ensures AtrAt(high, low, close, period, t) >= 0.0
  {
    var tr := IndicatorsHelper.TrueRanges(high, low, close);
    forall k | 0 <= k <= t
      ensures tr[k] >= 0.0
    {
      IndicatorsHelper.TrueRangeNonNegative(high, low, close, k);
    }
    EwmAtLeast(tr, WilderAlpha(period), t, 0.0);
  }

  /** `bollinger_bands(close, period, std_mult)` at bar t, unrounded. */
  function BollingerAt(close: seq<real>, std: seq<Option<real>>, period: nat, mult: real, t: nat): IndicatorsHelper.Bands
    requires period >= 1 && |std| == |close| && t < |close|
  {
    var mid := SmaAt(close, period, t);
    if mid.Some? && std[t].Some? then
      IndicatorsHelper.Bands(Some(mid.value + mult * std[t].value), mid, Some(mid.value - mult * std[t].value))
    else IndicatorsHelper.Bands(None, mid, None)
  }

  /** The bands sit symmetrically about the mean, `mult` deviations away
      on each side, and are defined exactly where mean and deviation are. */
  lemma BollingerSymmetric(close: seq<real>, std: seq<Option<real>>, period: nat, mult: real, t: nat)
    requires period >= 1 && |std| == |close| && t < |close|
    ensures var b := BollingerAt(close, std, period, mult, t);
      (b.upper.Some? <==> t >= period - 1 && std[t].Some?)
      && (b.upper.Some? <==> b.lower.Some?)
      && (b.upper.Some? ==>
            b.upper.value - b.middle.value == mult * std[t].value
            && b.middle.value - b.lower.value == mult * std[t].value)
  {
  }

  /** Rounding the service bands gives the pipeline's bands. */
  lemma BollingerRoundedAgrees(close: seq<real>, std: seq<Option<real>>, period: nat, mult: real, t: nat)
    requires period >= 1 && |std| == |close| && t < |close|
    ensures var b := BollingerAt(close, std, period, mult, t);
      IndicatorsHelper.BollingerAt(close, std, period, mult, t)
        == IndicatorsHelper.Bands(RoundOpt(b.upper), RoundOpt(b.middle), RoundOpt(b.lower))
  {
  }
}
