/** The indicator kernels the refresh pipeline calls: RSI with Wilder
    smoothing, Bollinger bands, ATR, MACD, Supertrend, and the rounded EMA
    and WMA. Every kernel works on a series of bars; a value that pandas
    leaves NaN is `None`, and every published value is rounded to two
    decimals. */
module IndicatorsHelper {
  import opened Base
  import opened Rolling

  // ---------------------------------------------------------------------
  // RSI

  /** `close.diff().clip(lower=0)` without its leading NaN: entry k is the
      gain from bar k to bar k + 1. */
  function Gains(close: seq<real>): (g: seq<real>)
    ensures |g| == if |close| == 0 then 0 else |close| - 1
  {
    if |close| == 0 then []
    else seq(|close| - 1, k requires 0 <= k < |close| - 1 => Max(close[k + 1] - close[k], 0.0))
  }

  /** `-close.diff().clip(upper=0)` without its leading NaN. */
  function Losses(close: seq<real>): (l: seq<real>)
    ensures |l| == if |close| == 0 then 0 else |close| - 1
  {
    if |close| == 0 then []
    else seq(|close| - 1, k requires 0 <= k < |close| - 1 => Max(close[k] - close[k + 1], 0.0))
  }

  /** A bar-to-bar change splits into a gain and a loss, never both. */
  lemma GainLossSplit(close: seq<real>, k: nat)
    requires k + 1 < |close|
    ensures Gains(close)[k] >= 0.0 && Losses(close)[k] >= 0.0
    ensures Gains(close)[k] - Losses(close)[k] == close[k + 1] - close[k]
    ensures Gains(close)[k] == 0.0 || Losses(close)[k] == 0.0
  {
  }

  lemma GainsLossesNonNegative(close: seq<real>)
    ensures forall k :: 0 <= k < |Gains(close)| ==> Gains(close)[k] >= 0.0 && Losses(close)[k] >= 0.0
  {
  }

  /** Wilder averages of gains and of losses are never negative. */
  lemma AveragesNonNegative(close: seq<real>, period: nat, t: nat)
    requires period >= 1 && t + 1 < |close|
    ensures WilderAt(Gains(close), period, t).Some? ==> WilderAt(Gains(close), period, t).value >= 0.0
    ensures WilderAt(Losses(close), period, t).Some? ==> WilderAt(Losses(close), period, t).value >= 0.0
  {
    GainsLossesNonNegative(close);
    EwmAtLeast(Gains(close), WilderAlpha(period), t, 0.0);
    EwmAtLeast(Losses(close), WilderAlpha(period), t, 0.0);
  }

  /** `100 - 100 / (1 + avg_gain / avg_loss)`, with the NaN a zero average
      loss produces filled with 100. */
  function RsiFromAverages(avgGain: real, avgLoss: real): real
    requires avgGain >= 0.0 && avgLoss >= 0.0
  {
    if avgLoss == 0.0 then 100.0
    else
      PositiveFactor(avgGain / avgLoss, avgLoss);
      100.0 - 100.0 / (1.0 + avgGain / avgLoss)
  }

  /** The usual closed form: RSI is the gain share of all movement, scaled
      to 100, and so lies in [0, 100). */
  lemma RsiFromAveragesShare(avgGain: real, avgLoss: real)
    requires avgGain >= 0.0 && avgLoss > 0.0
    ensures RsiFromAverages(avgGain, avgLoss) == 100.0 * avgGain / (avgGain + avgLoss)
    ensures 0.0 <= RsiFromAverages(avgGain, avgLoss) < 100.0
  {
    var rs := avgGain / avgLoss;
    var total := avgGain + avgLoss;
    assert rs * avgLoss == avgGain;
    PositiveFactor(rs, avgLoss);
    var q := 100.0 / (1.0 + rs);
    assert q * (1.0 + rs) == 100.0;
    assert (1.0 + rs) * avgLoss == total;
    assert q * total == (q * (1.0 + rs)) * avgLoss;
    assert q * total == 100.0 * avgLoss;
    assert q == 100.0 * avgLoss / total;
    assert 100.0 * total / total == 100.0;
    assert (100.0 * total - 100.0 * avgLoss) / total == 100.0 * total / total - 100.0 * avgLoss / total;
    assert 100.0 * total - 100.0 * avgLoss == 100.0 * avgGain;
    assert 100.0 - q == 100.0 * avgGain / total;
    PositiveFactor(q, total);
    MulNonneg(100.0, avgGain);
    DivBounds(100.0 * avgGain, total, 0.0, 100.0);
    assert q > 0.0;
  }

  /** `calculate_rsi_series(close, period)` at bar t, before rounding: the
      Wilder averages of gains and losses need `period` changes, and any
      bar where they are missing reads 100. */
  function RawRsiAt(close: seq<real>, period: nat, t: nat): real
    requires period >= 1 && t < |close|
  {
    if t == 0 then 100.0
    else
      var g := WilderAt(Gains(close), period, t - 1);
      var l := WilderAt(Losses(close), period, t - 1);
      AveragesNonNegative(close, period, t - 1);
      if g.Some? && l.Some? then RsiFromAverages(g.value, l.value) else 100.0
  }

  function RsiAt(close: seq<real>, period: nat, t: nat): real
    requires period >= 1 && t < |close|
  {
    Round2(RawRsiAt(close, period, t))
  }

  /** The whole RSI column. */
  function Rsi(close: seq<real>, period: nat): (r: seq<real>)
    requires period >= 1
    ensures |r| == |close|
  {
    seq(|close|, t requires 0 <= t < |close| => RsiAt(close, period, t))
  }

  lemma RawRsiRange(close: seq<real>, period: nat, t: nat)
    requires period >= 1 && t < |close|
    ensures 0.0 <= RawRsiAt(close, period, t) <= 100.0
  {
    if t > 0 {
      var g := WilderAt(Gains(close), period, t - 1);
      var l := WilderAt(Losses(close), period, t - 1);
      AveragesNonNegative(close, period, t - 1);
      if g.Some? && l.Some? && l.value != 0.0 {
        RsiFromAveragesShare(g.value, l.value);
      }
    }
  }

  /** RSI always lies in [0, 100]. */
  lemma RsiRange(close: seq<real>, period: nat, t: nat)
    requires period >= 1 && t < |close|
    ensures 0.0 <= RsiAt(close, period, t) <= 100.0
  {
    RawRsiRange(close, period, t);
    Round2Percent(RawRsiAt(close, period, t));
  }

  /** Until `period` changes have been seen both averages are missing
      (NaN) and the value is the fill, 100. */
  lemma RsiWarmup(close: seq<real>, period: nat, t: nat)
    requires period >= 1 && t < |close| && t < period
    ensures 0 < t ==> WilderAt(Gains(close), period, t - 1).None? && WilderAt(Losses(close), period, t - 1).None?
    ensures RsiAt(close, period, t) == 100.0
  {
    Round2Hundred();
  }

  lemma NoLossesWhenNeverFalling(close: seq<real>, t: nat)
    requires t < |close|
    requires forall k :: 0 < k <= t ==> close[k - 1] <= close[k]
    ensures forall k :: 0 <= k < t ==> Losses(close)[k] == 0.0
  {
    forall k | 0 <= k < t
      ensures Losses(close)[k] == 0.0
    {
      assert close[k] <= close[k + 1];
      GainLossSplit(close, k);
    }
  }

  /** A series that never falls reads 100 at every bar. */
  lemma RsiNeverFalling(close: seq<real>, period: nat, t: nat)
    requires period >= 1 && t < |close|
    requires forall k :: 0 < k <= t ==> close[k - 1] <= close[k]
    ensures RsiAt(close, period, t) == 100.0
  {
    Round2Hundred();
    if t > 0 && t >= period {
      NoLossesWhenNeverFalling(close, t);
      EwmConstant(Losses(close), WilderAlpha(period), t - 1, 0.0);
    }
  }

  lemma OnlyLossesWhenAlwaysFalling(close: seq<real>, t: nat)
    requires t < |close|
    requires forall k :: 0 < k <= t ==> close[k] < close[k - 1]
    ensures forall k :: 0 <= k < t ==> Gains(close)[k] == 0.0 && Losses(close)[k] > 0.0
  {
    forall k | 0 <= k < t
      ensures Gains(close)[k] == 0.0 && Losses(close)[k] > 0.0
    {
      assert close[k + 1] < close[k];
      GainLossSplit(close, k);
    }
  }

  /** A series that falls at every bar reads 0 once `period` changes have
      been seen. */
  lemma RsiAlwaysFalling(close: seq<real>, period: nat, t: nat)
    requires period >= 1 && period <= t < |close|
    requires forall k :: 0 < k <= t ==> close[k] < close[k - 1]
    ensures RsiAt(close, period, t) == 0.0
  {
    FallingAverages(close, period, t);
    RsiNoGain(WilderAt(Losses(close), period, t - 1).value);
    assert RawRsiAt(close, period, t) == 0.0;
    Round2Zero();
  }

  /** On a series that falls at every bar, the average gain is 0 and the
      average loss positive once `period` changes have been seen. */
  lemma FallingAverages(close: seq<real>, period: nat, t: nat)
    requires period >= 1 && period <= t < |close|
    requires forall k :: 0 < k <= t ==> close[k] < close[k - 1]
    ensures WilderAt(Gains(close), period, t - 1) == Some(0.0)
    ensures WilderAt(Losses(close), period, t - 1).Some?
    ensures WilderAt(Losses(close), period, t - 1).value > 0.0
  {
    OnlyLossesWhenAlwaysFalling(close, t);
    FallingGains(close, period, t);
    FallingLosses(close, period, t);
  }

  lemma FallingGains(close: seq<real>, period: nat, t: nat)
    requires period >= 1 && period <= t < |close|
    requires forall k :: 0 <= k < t ==> Gains(close)[k] == 0.0
    ensures WilderAt(Gains(close), period, t - 1) == Some(0.0)
  {
    EwmConstant(Gains(close), WilderAlpha(period), t - 1, 0.0);
  }

  lemma FallingLosses(close: seq<real>, period: nat, t: nat)
    requires period >= 1 && period <= t < |close|
    requires forall k :: 0 <= k < t ==> Losses(close)[k] > 0.0
    ensures WilderAt(Losses(close), period, t - 1).Some?
    ensures WilderAt(Losses(close), period, t - 1).value > 0.0
  {
    EwmPositive(Losses(close), WilderAlpha(period), t - 1);
  }

  /** With no gain at all the RSI reads 0. */
  lemma RsiNoGain(avgLoss: real)
    requires avgLoss > 0.0
    ensures RsiFromAverages(0.0, avgLoss) == 0.0
  {
    assert 0.0 / avgLoss == 0.0;
  }

  // ---------------------------------------------------------------------
  // Bollinger bands

  datatype Bands = Bands(upper: Option<real>, middle: Option<real>, lower: Option<real>)

  /** `calculate_bollinger(close, period, std_mult)` at bar t: the rolling
      mean and the mean plus and minus `mult` rolling standard deviations,
      each rounded. `std` is pandas' rolling sample standard deviation
      (NaN where the window is not full). */
  function BollingerAt(close: seq<real>, std: seq<Option<real>>, period: nat, mult: real, t: nat): Bands
    requires period >= 1 && |std| == |close| && t < |close|
  {
    var mid := SmaAt(close, period, t);
    var up := if mid.Some? && std[t].Some? then Some(mid.value + mult * std[t].value) else None;
    var down := if mid.Some? && std[t].Some? then Some(mid.value - mult * std[t].value) else None;
    Bands(RoundOpt(up), RoundOpt(mid), RoundOpt(down))
  }

  /** The bands are defined exactly where both the mean and the deviation
      are, and a non-negative deviation orders them lower <= middle <=
      upper even after rounding. */
  lemma BollingerOrdered(close: seq<real>, std: seq<Option<real>>, period: nat, mult: real, t: nat)
    requires period >= 1 && |std| == |close| && t < |close|
    requires mult >= 0.0 && (std[t].Some? ==> std[t].value >= 0.0)
    ensures BollingerAt(close, std, period, mult, t).middle.Some? <==> t >= period - 1
    ensures BollingerAt(close, std, period, mult, t).upper.Some?
        <==> t >= period - 1 && std[t].Some?
    ensures var b := BollingerAt(close, std, period, mult, t);
      b.upper.Some? ==> b.lower.value <= b.middle.value <= b.upper.value
  {
    var mid := SmaAt(close, period, t);
    if mid.Some? && std[t].Some? {
      MulNonneg(mult, std[t].value);
      Round2Monotone(mid.value - mult * std[t].value, mid.value);
      Round2Monotone(mid.value, mid.value + mult * std[t].value);
    }
  }

  // ---------------------------------------------------------------------
  // True range and ATR

  /** The true range of bar t: the greatest of high - low and the distances
      of high and low from the previous close. At bar 0 there is no
      previous close and pandas' row-wise max skips the NaNs. */
  function TrueRangeAt(high: seq<real>, low: seq<real>, close: seq<real>, t: nat): real
    requires |high| == |close| && |low| == |close| && t < |close|
  {
    if t == 0 then high[0] - low[0]
    else Max(Max(high[t] - low[t], Abs(high[t] - close[t - 1])), Abs(low[t] - close[t - 1]))
  }

  function TrueRanges(high: seq<real>, low: seq<real>, close: seq<real>): (tr: seq<real>)
    requires |high| == |close| && |low| == |close|
    ensures |tr| == |close|
  {
    seq(|close|, t requires 0 <= t < |close| => TrueRangeAt(high, low, close, t))
  }

  /** The true range is one of its three candidates and at least each of
      them; with high >= low it is never negative. */
  lemma TrueRangeIsMax(high: seq<real>, low: seq<real>, close: seq<real>, t: nat)
    requires |high| == |close| && |low| == |close| && 0 < t < |close|
    ensures var tr := TrueRangeAt(high, low, close, t);
      tr >= high[t] - low[t] && tr >= Abs(high[t] - close[t - 1]) && tr >= Abs(low[t] - close[t - 1])
      && (tr == high[t] - low[t] || tr == Abs(high[t] - close[t - 1]) || tr == Abs(low[t] - close[t - 1]))
  {
  }

  lemma TrueRangeNonNegative(high: seq<real>, low: seq<real>, close: seq<real>, t: nat)
    requires |high| == |close| && |low| == |close| && t < |close|
    requires low[t] <= high[t]
    ensures TrueRangeAt(high, low, close, t) >= 0.0
  {
  }

  /** `calculate_atr(df, period)` at bar t: Wilder-smoothed true range with
      `min_periods = period`, rounded. */
  function AtrAt(high: seq<real>, low: seq<real>, close: seq<real>, period: nat, t: nat): Option<real>
    requires |high| == |close| && |low| == |close| && period >= 1 && t < |close|
  {
    RoundOpt(WilderAt(TrueRanges(high, low, close), period, t))
  }

  /** ATR is NaN for the first `period - 1` bars and never negative after,
      when every bar has high >= low. */
  lemma AtrWarmupAndSign(high: seq<real>, low: seq<real>, close: seq<real>, period: nat, t: nat)
    requires |high| == |close| && |low| == |close| && period >= 1 && t < |close|
    requires forall k :: 0 <= k < |close| ==> low[k] <= high[k]
    ensures AtrAt(high, low, close, period, t).Some? <==> t >= period - 1
    ensures AtrAt(high, low, close, period, t).Some? ==> AtrAt(high, low, close, period, t).value >= 0.0
  {
    if t + 1 >= period {
      var tr := TrueRanges(high, low, close);
      forall k | 0 <= k <= t
        ensures tr[k] >= 0.0
      {
        TrueRangeNonNegative(high, low, close, k);
      }
      EwmAtLeast(tr, WilderAlpha(period), t, 0.0);
      Round2Zero();
      Round2Monotone(0.0, EwmAt(tr, WilderAlpha(period), t));
    }
  }

  // ---------------------------------------------------------------------
  // MACD

  /** EMA(12) - EMA(26) of the close, before rounding. */
  function MacdLine(close: seq<real>): (m: seq<real>)
    ensures |m| == |close|
  {
    seq(|close|, t requires 0 <= t < |close| =>
      EwmAt(close, SpanAlpha(12), t) - EwmAt(close, SpanAlpha(26), t))
  }

  /** `calculate_macd(close)` at bar t: the rounded MACD line and the
      rounded 9-span EMA of the unrounded line. */
  function MacdAt(close: seq<real>, t: nat): (real, real)
    requires t < |close|
  {
    (Round2(MacdLine(close)[t]), Round2(EwmAt(MacdLine(close), SpanAlpha(9), t)))
  }

  /** Both averages start at the first close, so the first bar reads 0 for
      both lines. */
  lemma MacdFirstBar(close: seq<real>)
    requires |close| > 0
    ensures MacdAt(close, 0) == (0.0, 0.0)
  {
    Round2Zero();
  }

  /** The MACD line is bounded by the range of the closes seen so far. */
  lemma MacdLineBounded(close: seq<real>, t: nat, lo: real, hi: real)
    requires t < |close|
    requires forall k :: 0 <= k <= t ==> lo <= close[k] <= hi
    ensures lo - hi <= MacdLine(close)[t] <= hi - lo
  {
    EwmBounds(close, SpanAlpha(12), t, lo, hi);
    EwmBounds(close, SpanAlpha(26), t, lo, hi);
  }

  /** A flat price has no momentum: both lines read 0. */
  lemma MacdFlat(close: seq<real>, t: nat, c: real)
    requires t < |close|
    requires forall k :: 0 <= k <= t ==> close[k] == c
    ensures MacdAt(close, t) == (0.0, 0.0)
  {
    var m := MacdLine(close);
    forall k | 0 <= k <= t
      ensures m[k] == 0.0
    {
      EwmConstant(close, SpanAlpha(12), k, c);
      EwmConstant(close, SpanAlpha(26), k, c);
    }
    EwmConstant(m, SpanAlpha(9), t, 0.0);
    Round2Zero();
  }

  // ---------------------------------------------------------------------
  // EMA and WMA, rounded

  /** `calculate_ema(series, period)` at bar t. */
  function EmaAt(xs: seq<real>, span: nat, t: nat): real
    requires span >= 1 && t < |xs|
  {
    Round2(EwmAt(xs, SpanAlpha(span), t))
  }

  /** `calculate_wma(series, period)` at bar t. */
  function WmaRoundedAt(xs: seq<real>, period: nat, t: nat): Option<real>
    requires period >= 1 && t < |xs|
  {
    RoundOpt(WmaAt(xs, period, t))
  }

  /** Averages of values in [0, 100], rounded, stay in [0, 100]: the
      smoothed RSI columns keep the RSI scale. */
  lemma SmoothedPercentRange(xs: seq<real>, span: nat, period: nat, t: nat)
    requires span >= 1 && period >= 1 && t < |xs|
    requires forall k :: 0 <= k < |xs| ==> 0.0 <= xs[k] <= 100.0
    ensures 0.0 <= EmaAt(xs, span, t) <= 100.0
    ensures WmaRoundedAt(xs, period, t).Some? <==> t >= period - 1
    ensures WmaRoundedAt(xs, period, t).Some? ==> 0.0 <= WmaRoundedAt(xs, period, t).value <= 100.0
  {
    EwmBounds(xs, SpanAlpha(span), t, 0.0, 100.0);
    Round2Percent(EwmAt(xs, SpanAlpha(span), t));
    if t + 1 >= period {
      WmaBounds(xs, period, t, 0.0, 100.0);
      Round2Percent(WmaAt(xs, period, t).value);
    }
  }

  // ---------------------------------------------------------------------
  // Supertrend

  /** `hl2 + multiplier * atr`, NaN where the ATR is. */
  function BasicUpper(high: seq<real>, low: seq<real>, close: seq<real>, period: nat, mult: real): (b: seq<Option<real>>)
    requires |high| == |close| && |low| == |close| && period >= 1
    ensures |b| == |close|
  {
    seq(|close|, t requires 0 <= t < |close| =>
      var atr := AtrAt(high, low, close, period, t);
      if atr.Some? then Some((high[t] + low[t]) / 2.0 + mult * atr.value) else None)
  }

  /** `hl2 - multiplier * atr`, NaN where the ATR is. */
  function BasicLower(high: seq<real>, low: seq<real>, close: seq<real>, period: nat, mult: real): (b: seq<Option<real>>)
    requires |high| == |close| && |low| == |close| && period >= 1
    ensures |b| == |close|
  {
    seq(|close|, t requires 0 <= t < |close| =>
      var atr := AtrAt(high, low, close, period, t);
      if atr.Some? then Some((high[t] + low[t]) / 2.0 - mult * atr.value) else None)
  }

  /** The final upper band at bar t: it moves to the new basic band when
      that is lower or when the previous close broke above the band, and
      otherwise stays where it was. Every comparison with NaN is false. */
  function FinalUpperAt(basic: seq<Option<real>>, close: seq<real>, t: nat): Option<real>
    requires |basic| == |close| && t < |close|
    decreases t
  {
    if t == 0 then basic[0]
    else
      var prev := FinalUpperAt(basic, close, t - 1);
      if Lt(basic[t], prev) || Gt(Some(close[t - 1]), prev) then basic[t] else prev
  }

  /** The final lower band, the mirror image of the upper one. */
  function FinalLowerAt(basic: seq<Option<real>>, close: seq<real>, t: nat): Option<real>
    requires |basic| == |close| && t < |close|
    decreases t
  {
    if t == 0 then basic[0]
    else
      var prev := FinalLowerAt(basic, close, t - 1);
      if Gt(basic[t], prev) || Lt(Some(close[t - 1]), prev) then basic[t] else prev
  }

  /** Direction and unrounded Supertrend at bar t from the final bands:
      bar 0 starts down on the upper band; afterwards a close above the
      previous Supertrend turns the trend up onto the lower band, anything
      else (NaN included) turns it down onto the upper band. */
  function TrendAt(upper: seq<Option<real>>, lower: seq<Option<real>>, close: seq<real>, t: nat): (int, Option<real>)
    requires |upper| == |close| && |lower| == |close| && t < |close|
    decreases t
  {
    if t == 0 then (-1, upper[0])
    else if Gt(Some(close[t]), TrendAt(upper, lower, close, t - 1).1) then (1, lower[t])
    else (-1, upper[t])
  }

  /** The band loop: the final bands start as the basic bands and are
      rewritten in place, bar by bar from bar 1. Only bar 0 of the copy is
      ever read before it is rewritten, so the arrays are seeded with it. */
  method AdjustBands(basicUb: seq<Option<real>>, basicLb: seq<Option<real>>, close: seq<real>)
    returns (finalUb: array<Option<real>>, finalLb: array<Option<real>>)
    requires |basicUb| == |close| && |basicLb| == |close|
    ensures finalUb.Length == |close| && finalLb.Length == |close|
    ensures forall k :: 0 <= k < |close| ==> finalUb[k] == FinalUpperAt(basicUb, close, k)
    ensures forall k :: 0 <= k < |close| ==> finalLb[k] == FinalLowerAt(basicLb, close, k)
  {
    var n := |close|;
    finalUb := new Option<real>[n](_ => None);
    finalLb := new Option<real>[n](_ => None);
    if n == 0 {
      return;
    }
    finalUb[0] := basicUb[0];
    finalLb[0] := basicLb[0];
    var i := 1;
    while i < n
      invariant 1 <= i <= n && finalUb != finalLb
      invariant forall k :: 0 <= k < i ==> finalUb[k] == FinalUpperAt(basicUb, close, k)
      invariant forall k :: 0 <= k < i ==> finalLb[k] == FinalLowerAt(basicLb, close, k)
    {
      AdjustUpper(finalUb, basicUb, close, i);
      AdjustLower(finalLb, basicLb, close, i);
      i := i + 1;
    }
  }

  /** One bar of the band loop, upper band. */
  method AdjustUpper(finalUb: array<Option<real>>, basicUb: seq<Option<real>>, close: seq<real>, i: nat)
    requires finalUb.Length == |basicUb| == |close| && 1 <= i < |close|
    requires forall k :: 0 <= k < i ==> finalUb[k] == FinalUpperAt(basicUb, close, k)
    modifies finalUb
    ensures forall k :: 0 <= k <= i ==> finalUb[k] == FinalUpperAt(basicUb, close, k)
  {
    finalUb[i] := if Lt(basicUb[i], finalUb[i - 1]) || Gt(Some(close[i - 1]), finalUb[i - 1])
      then basicUb[i] else finalUb[i - 1];
  }

  /** One bar of the band loop, lower band. */
  method AdjustLower(finalLb: array<Option<real>>, basicLb: seq<Option<real>>, close: seq<real>, i: nat)
    requires finalLb.Length == |basicLb| == |close| && 1 <= i < |close|
    requires forall k :: 0 <= k < i ==> finalLb[k] == FinalLowerAt(basicLb, close, k)
    modifies finalLb
    ensures forall k :: 0 <= k <= i ==> finalLb[k] == FinalLowerAt(basicLb, close, k)
  {
    finalLb[i] := if Gt(basicLb[i], finalLb[i - 1]) || Lt(Some(close[i - 1]), finalLb[i - 1])
      then basicLb[i] else finalLb[i - 1];
  }

  /** The trend loop: seed bar 0, then pick a band per bar from the
      previous Supertrend. Returns the rounded Supertrend and the
      direction. */
  method SelectTrend(upper: seq<Option<real>>, lower: seq<Option<real>>, close: seq<real>)
    returns (st: seq<Option<real>>, dir: seq<int>)
    requires |upper| == |close| && |lower| == |close| && |close| > 0
    ensures |st| == |close| && |dir| == |close|
    ensures forall t :: 0 <= t < |close| ==>
      dir[t] == TrendAt(upper, lower, close, t).0 && st[t] == RoundOpt(TrendAt(upper, lower, close, t).1)
  {
    var n := |close|;
    var supertrend := new Option<real>[n](_ => None);
    var direction := new int[n](_ => 0);
    supertrend[0] := upper[0];
    direction[0] := -1;
    var i := 1;
    while i < n
      invariant 1 <= i <= n
      invariant forall k {:trigger direction[k]} :: 0 <= k < i ==> direction[k] == TrendAt(upper, lower, close, k).0
      invariant forall k {:trigger supertrend[k]} :: 0 <= k < i ==> supertrend[k] == TrendAt(upper, lower, close, k).1
    {
      var prevSt := supertrend[i - 1];
      var up := Gt(Some(close[i]), prevSt);
      direction[i] := if up then 1 else -1;
      supertrend[i] := if up then lower[i] else upper[i];
      i := i + 1;
    }
    st := RoundAll(supertrend[..]);
    dir := direction[..];
  }

  /** The final upper band over every bar. */
  function FinalUpper(basic: seq<Option<real>>, close: seq<real>): (f: seq<Option<real>>)
    requires |basic| == |close|
    ensures |f| == |close|
  {
    seq(|close|, t requires 0 <= t < |close| => FinalUpperAt(basic, close, t))
  }

  function FinalLower(basic: seq<Option<real>>, close: seq<real>): (f: seq<Option<real>>)
    requires |basic| == |close|
    ensures |f| == |close|
  {
    seq(|close|, t requires 0 <= t < |close| => FinalLowerAt(basic, close, t))
  }

  /** Direction and unrounded Supertrend at bar t of a price frame. */
  function SupertrendAt(high: seq<real>, low: seq<real>, close: seq<real>, period: nat, mult: real, t: nat): (int, Option<real>)
    requires |high| == |close| && |low| == |close| && period >= 1 && t < |close|
  {
    TrendAt(FinalUpper(BasicUpper(high, low, close, period, mult), close),
            FinalLower(BasicLower(high, low, close, period, mult), close), close, t)
  }

  /** `calculate_supertrend(df, atr_period, multiplier)`. An empty frame
      raises on the seed assignment and yields empty columns. */
  method Supertrend(high: seq<real>, low: seq<real>, close: seq<real>, period: nat, mult: real)
    returns (st: seq<Option<real>>, dir: seq<int>)
    requires |high| == |close| && |low| == |close| && period >= 1
    ensures |st| == |close| && |dir| == |close|
    ensures forall t :: 0 <= t < |close| ==>
      dir[t] == SupertrendAt(high, low, close, period, mult, t).0
      && st[t] == RoundOpt(SupertrendAt(high, low, close, period, mult, t).1)
  {
    if |close| == 0 {
      return [], [];
    }
    var basicUb := BasicUpper(high, low, close, period, mult);
    var basicLb := BasicLower(high, low, close, period, mult);
    var finalUb, finalLb := AdjustBands(basicUb, basicLb, close);
    assert finalUb[..] == FinalUpper(basicUb, close);
    assert finalLb[..] == FinalLower(basicLb, close);
    st, dir := SelectTrend(finalUb[..], finalLb[..], close);
  }

  /** While the close stays at or below it, the final upper band can only
      come down; the lower band mirrors this. */
  lemma FinalBandsRatchet(basicUb: seq<Option<real>>, basicLb: seq<Option<real>>, close: seq<real>, t: nat)
    requires |basicUb| == |close| && |basicLb| == |close| && 0 < t < |close|
    ensures var u := FinalUpperAt(basicUb, close, t - 1);
      u.Some? && close[t - 1] <= u.value ==>
        FinalUpperAt(basicUb, close, t) == u || Lt(FinalUpperAt(basicUb, close, t), u)
    ensures var l := FinalLowerAt(basicLb, close, t - 1);
      l.Some? && close[t - 1] >= l.value ==>
        FinalLowerAt(basicLb, close, t) == l || Gt(FinalLowerAt(basicLb, close, t), l)
  {
  }

  /** A band that starts NaN stays NaN: every comparison with NaN is
      false, so the band keeps its previous value. */
  lemma {:induction false} FinalBandsStayUndefined(basicUb: seq<Option<real>>, basicLb: seq<Option<real>>, close: seq<real>, t: nat)
    requires |basicUb| == |close| && |basicLb| == |close| && t < |close|
    requires basicUb[0].None? && basicLb[0].None?
    ensures FinalUpperAt(basicUb, close, t).None? && FinalLowerAt(basicLb, close, t).None?
  {
    if t > 0 {
      FinalBandsStayUndefined(basicUb, basicLb, close, t - 1);
    }
  }

  /** Undefined final bands give an undefined Supertrend and a falling
      direction at every bar. */
  lemma {:induction false} TrendOnUndefinedBands(upper: seq<Option<real>>, lower: seq<Option<real>>, close: seq<real>, t: nat)
    requires |upper| == |close| && |lower| == |close| && t < |close|
    requires forall k :: 0 <= k < |close| ==> upper[k].None? && lower[k].None?
    ensures TrendAt(upper, lower, close, t) == (-1, None)
  {
    if t > 0 {
      TrendOnUndefinedBands(upper, lower, close, t - 1);
    }
  }

  /** With an ATR period above 1 the first ATR is NaN, so the final bands
      start NaN and stay NaN: the Supertrend is NaN at every bar and the
      direction is -1 throughout. */
  lemma SupertrendNeverDefined(high: seq<real>, low: seq<real>, close: seq<real>, period: nat, mult: real, t: nat)
    requires |high| == |close| && |low| == |close| && period >= 2 && t < |close|
    ensures SupertrendAt(high, low, close, period, mult, t) == (-1, None)
  {
    var bu := BasicUpper(high, low, close, period, mult);
    var bl := BasicLower(high, low, close, period, mult);
    var fu := FinalUpper(bu, close);
    var fl := FinalLower(bl, close);
    assert bu[0].None? && bl[0].None?;
    forall k | 0 <= k < |close|
      ensures fu[k].None? && fl[k].None?
    {
      FinalBandsStayUndefined(bu, bl, close, k);
    }
    TrendOnUndefinedBands(fu, fl, close, t);
  }
}
