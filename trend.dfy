/** The trend indicators of the service layer: unrounded MACD with its
    histogram, and a Supertrend whose direction flips only when the close
    crosses the previous final band. */
module Trend {
  import opened Base
  import opened Rolling
  import IndicatorsHelper
  import Volatility

  // ---------------------------------------------------------------------
  // MACD

  datatype Macd = Macd(line: real, signal: real, hist: real)

  /** EMA(fast) - EMA(slow) of the close over every bar. */
  function MacdLine(close: seq<real>, fast: nat, slow: nat): (m: seq<real>)
    requires fast >= 1 && slow >= 1
    ensures |m| == |close|
  {
    seq(|close|, t requires 0 <= t < |close| =>
      EwmAt(close, SpanAlpha(fast), t) - EwmAt(close, SpanAlpha(slow), t))
  }

  /** `macd(close, fast, slow, signal)` at bar t. */
  function MacdAt(close: seq<real>, fast: nat, slow: nat, signal: nat, t: nat): Macd
    requires fast >= 1 && slow >= 1 && signal >= 1 && t < |close|
  {
    var line := MacdLine(close, fast, slow);
    var sig := EwmAt(line, SpanAlpha(signal), t);
    Macd(line[t], sig, line[t] - sig)
  }

  /** A flat price gives zero line, signal and histogram. */
  lemma MacdFlat(close: seq<real>, fast: nat, slow: nat, signal: nat, t: nat, c: real)
    requires fast >= 1 && slow >= 1 && signal >= 1 && t < |close|
    requires forall k :: 0 <= k <= t ==> close[k] == c
    ensures MacdAt(close, fast, slow, signal, t) == Macd(0.0, 0.0, 0.0)
  {
    var line := MacdLine(close, fast, slow);
    forall k | 0 <= k <= t
      ensures line[k] == 0.0
    {
      EwmConstant(close, SpanAlpha(fast), k, c);
      EwmConstant(close, SpanAlpha(slow), k, c);
    }
    EwmConstant(line, SpanAlpha(signal), t, 0.0);
  }

  /** With the default spans 12, 26 and 9, rounding this MACD gives the
      pipeline's rounded MACD and signal. */
  lemma MacdRoundedAgrees(close: seq<real>, t: nat)
    requires t < |close|
    ensures var m := MacdAt(close, 12, 26, 9, t);
      IndicatorsHelper.MacdAt(close, t) == (Round2(m.line), Round2(m.signal))
  {
    assert MacdLine(close, 12, 26) == IndicatorsHelper.MacdLine(close);
  }

  // ---------------------------------------------------------------------
  // Supertrend

  /** `hl2 + multiplier * atr` over every bar. */
  function UpperBand(high: seq<real>, low: seq<real>, close: seq<real>, period: nat, mult: real): (b: seq<real>)
    requires |high| == |close| && |low| == |close| && period >= 1
    ensures |b| == |close|
  {
    seq(|close|, t requires 0 <= t < |close| =>
      (high[t] + low[t]) / 2.0 + mult * Volatility.AtrAt(high, low, close, period, t))
  }

  /** `hl2 - multiplier * atr` over every bar. */
  function LowerBand(high: seq<real>, low: seq<real>, close: seq<real>, period: nat, mult: real): (b: seq<real>)
    requires |high| == |close| && |low| == |close| && period >= 1
    ensures |b| == |close|
  {
    seq(|close|, t requires 0 <= t < |close| =>
      (high[t] + low[t]) / 2.0 - mult * Volatility.AtrAt(high, low, close, period, t))
  }

  /** The final upper band: reset to the basic band when the previous close
      was at or below the previous final band, otherwise the lower of the
      two. */
  function FinalUpperAt(band: seq<real>, close: seq<real>, t: nat): real
    requires |band| == |close| && t < |close|
    decreases t
  {
    if t == 0 then band[0]
    else
      var prev := FinalUpperAt(band, close, t - 1);
      if close[t - 1] <= prev then band[t] else Min(band[t], prev)
  }

  /** The final lower band: reset to the basic band when the previous close
      was at or above the previous final band, otherwise the higher of the
      two. */
  function FinalLowerAt(band: seq<real>, close: seq<real>, t: nat): real
    requires |band| == |close| && t < |close|
    decreases t
  {
    if t == 0 then band[0]
    else
      var prev := FinalLowerAt(band, close, t - 1);
      if close[t - 1] >= prev then band[t] else Max(band[t], prev)
  }

  /** The direction at bar t: up at bar 0; afterwards up on a close above
      the previous final upper band, down on a close below the previous
      final lower band, and unchanged otherwise. */
  function DirectionAt(upper: seq<real>, lower: seq<real>, close: seq<real>, t: nat): int
    requires |upper| == |close| && |lower| == |close| && t < |close|
    decreases t
  {
    if t == 0 then 1
    else if close[t] > upper[t - 1] then 1
    else if close[t] < lower[t - 1] then -1
    else DirectionAt(upper, lower, close, t - 1)
  }

  /** The final upper band over every bar. */
  function FinalUpper(band: seq<real>, close: seq<real>): (f: seq<real>)
    requires |band| == |close|
    ensures |f| == |close|
  {
    seq(|close|, t requires 0 <= t < |close| => FinalUpperAt(band, close, t))
  }

  /** The final lower band over every bar. */
  function FinalLower(band: seq<real>, close: seq<real>): (f: seq<real>)
    requires |band| == |close|
    ensures |f| == |close|
  {
    seq(|close|, t requires 0 <= t < |close| => FinalLowerAt(band, close, t))
  }

  datatype Columns = Columns(supertrend: seq<real>, direction: seq<int>)

  /** The band loop: copies of the basic bands rewritten bar by bar from
      the previous close and the previous final band. */
  method AdjustBands(upperband: seq<real>, lowerband: seq<real>, close: seq<real>)
    returns (finalUpper: array<real>, finalLower: array<real>)
    requires |upperband| == |close| && |lowerband| == |close| && |close| > 0
    ensures finalUpper[..] == FinalUpper(upperband, close)
    ensures finalLower[..] == FinalLower(lowerband, close)
  {
    var n := |close|;
    finalUpper := new real[n](_ => 0.0);
    finalLower := new real[n](_ => 0.0);
    finalUpper[0] := upperband[0];
    finalLower[0] := lowerband[0];
    var i := 1;
    while i < n
      invariant 1 <= i <= n
      invariant forall k {:trigger finalUpper[k]} :: 0 <= k < i ==> finalUpper[k] == FinalUpperAt(upperband, close, k)
      invariant forall k {:trigger finalLower[k]} :: 0 <= k < i ==> finalLower[k] == FinalLowerAt(lowerband, close, k)
    {
      var u := if close[i - 1] <= finalUpper[i - 1] then upperband[i] else Min(upperband[i], finalUpper[i - 1]);
      var l := if close[i - 1] >= finalLower[i - 1] then lowerband[i] else Max(lowerband[i], finalLower[i - 1]);
      finalUpper[i] := u;
      finalLower[i] := l;
      i := i + 1;
    }
  }

  /** The trend loop: direction from the crossings of the previous final
      bands, and the Supertrend as the band on the trend's side. */
  method SelectTrend(fu: seq<real>, fl: seq<real>, close: seq<real>) returns (c: Columns)
    requires |fu| == |close| && |fl| == |close| && |close| > 0
    ensures |c.supertrend| == |close| && |c.direction| == |close|
    ensures forall t :: 0 <= t < |close| ==>
      c.direction[t] == DirectionAt(fu, fl, close, t)
      && c.supertrend[t] == (if c.direction[t] == 1 then fl[t] else fu[t])
  {
    var n := |close|;
    var trend := new int[n](_ => 0);
    var st := new real[n](_ => 0.0);
    trend[0] := 1;
    st[0] := fl[0];
    var i := 1;
    while i < n
      invariant 1 <= i <= n
      invariant forall k {:trigger trend[k]} :: 0 <= k < i ==> trend[k] == DirectionAt(fu, fl, close, k)
      invariant forall k {:trigger st[k]} :: 0 <= k < i ==> st[k] == (if trend[k] == 1 then fl[k] else fu[k])
    {
      var d := if close[i] > fu[i - 1] then 1
        else if close[i] < fl[i - 1] then -1
        else trend[i - 1];
      trend[i] := d;
      st[i] := if d == 1 then fl[i] else fu[i];
      i := i + 1;
    }
    c := Columns(st[..], trend[..]);
  }

  /** `supertrend(high, low, close, period, multiplier)`. An empty frame
      raises on the seed assignment (`None`). */
  method Supertrend(high: seq<real>, low: seq<real>, close: seq<real>, period: nat, mult: real)
    returns (r: Option<Columns>)
    requires |high| == |close| && |low| == |close| && period >= 1
    ensures r.None? <==> |close| == 0
    ensures r.Some? ==>
      var fu := FinalUpper(UpperBand(high, low, close, period, mult), close);
      var fl := FinalLower(LowerBand(high, low, close, period, mult), close);
      |r.value.supertrend| == |close| && |r.value.direction| == |close|
      && forall t :: 0 <= t < |close| ==>
        r.value.direction[t] == DirectionAt(fu, fl, close, t)
        && r.value.supertrend[t] == (if r.value.direction[t] == 1 then fl[t] else fu[t])
  {
    if |close| == 0 {
      return None;
    }
    var finalUpper, finalLower := AdjustBands(UpperBand(high, low, close, period, mult), LowerBand(high, low, close, period, mult), close);
    var c := SelectTrend(finalUpper[..], finalLower[..], close);
    return Some(c);
  }

  /** The final upper band never rises above the basic band, and the final
      lower band never falls below it. */
  lemma FinalBandsBounded(ub: seq<real>, lb: seq<real>, close: seq<real>, t: nat)
    requires |ub| == |close| && |lb| == |close| && t < |close|
    ensures FinalUpperAt(ub, close, t) <= ub[t]
    ensures FinalLowerAt(lb, close, t) >= lb[t]
  {
  }

  /** While the close stays above it, the final upper band can only come
      down; while the close stays below it, the final lower band can only
      go up. */
  lemma FinalBandsTighten(ub: seq<real>, lb: seq<real>, close: seq<real>, t: nat)
    requires |ub| == |close| && |lb| == |close| && 0 < t < |close|
    ensures close[t - 1] > FinalUpperAt(ub, close, t - 1) ==> FinalUpperAt(ub, close, t) <= FinalUpperAt(ub, close, t - 1)
    ensures close[t - 1] < FinalLowerAt(lb, close, t - 1) ==> FinalLowerAt(lb, close, t) >= FinalLowerAt(lb, close, t - 1)
  {
  }

  /** The direction is always +1 or -1. */
  lemma {:induction false} DirectionIsSign(upper: seq<real>, lower: seq<real>, close: seq<real>, t: nat)
    requires |upper| == |close| && |lower| == |close| && t < |close|
    ensures DirectionAt(upper, lower, close, t) == 1 || DirectionAt(upper, lower, close, t) == -1
  {
    if t > 0 {
      DirectionIsSign(upper, lower, close, t - 1);
    }
  }

  /** The direction turns down only on a close below the previous lower
      band (and not above the upper one), and turns up only on a close
      above the previous upper band. */
  lemma DirectionFlipsOnlyOnCrossing(upper: seq<real>, lower: seq<real>, close: seq<real>, t: nat)
    requires |upper| == |close| && |lower| == |close| && 0 < t < |close|
    ensures DirectionAt(upper, lower, close, t - 1) == 1 && DirectionAt(upper, lower, close, t) == -1
      ==> close[t] < lower[t - 1] && close[t] <= upper[t - 1]
    ensures DirectionAt(upper, lower, close, t - 1) == -1 && DirectionAt(upper, lower, close, t) == 1
      ==> close[t] > upper[t - 1]
  {
  }

  /** While every close stays inside the previous bar's final bands, the
      direction does not change. */
  lemma {:induction false} DirectionPersists(upper: seq<real>, lower: seq<real>, close: seq<real>, a: nat, b: nat)
    requires |upper| == |close| && |lower| == |close| && a <= b < |close|
    requires forall s :: a < s <= b ==> lower[s - 1] <= close[s] <= upper[s - 1]
    ensures DirectionAt(upper, lower, close, b) == DirectionAt(upper, lower, close, a)
    decreases b - a
  {
    if b > a {
      DirectionPersists(upper, lower, close, a, b - 1);
    }
  }

  /** The two Supertrends start from opposite directions: the pipeline's
      starts down, this one up. */
  lemma SeedDirectionsDiffer(high: seq<real>, low: seq<real>, close: seq<real>, period: nat, mult: real)
    requires |high| == |close| && |low| == |close| && period >= 1 && |close| > 0
    ensures IndicatorsHelper.SupertrendAt(high, low, close, period, mult, 0).0 == -1
    ensures var ub := UpperBand(high, low, close, period, mult);
      var lb := LowerBand(high, low, close, period, mult);
      DirectionAt(ub, lb, close, 0) == 1
  {
  }
}
