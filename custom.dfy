/** The RSI compositions of the service layer: an EMA and a WMA laid over
    an RSI series. The RSI kernel they call lives in a momentum module
    that is not part of this model, so its values are a parameter. */
module Custom {
  import opened Base
  import opened Rolling

  /** `ema_rsi(close, rsi_period, ema_period)` at bar t, where `r` holds
      `rsi(close, rsi_period)`. */
  function EmaRsiAt(r: seq<real>, emaPeriod: nat, t: nat): real
    requires emaPeriod >= 1 && t < |r|
  {
    EwmAt(r, SpanAlpha(emaPeriod), t)
  }

  /** `wma_rsi(close, rsi_period, wma_period)` at bar t. */
  function WmaRsiAt(r: seq<real>, wmaPeriod: nat, t: nat): Option<real>
    requires wmaPeriod >= 1 && t < |r|
  {
    WmaAt(r, wmaPeriod, t)
  }

  /** The EMA of an RSI starts at the first RSI value and, because each
      step is a convex combination, stays on the RSI scale. */
  lemma EmaRsiRange(r: seq<real>, emaPeriod: nat, t: nat)
    requires emaPeriod >= 1 && t < |r|
    requires forall k :: 0 <= k <= t ==> 0.0 <= r[k] <= 100.0
    ensures EmaRsiAt(r, emaPeriod, 0) == r[0]
    ensures 0.0 <= EmaRsiAt(r, emaPeriod, t) <= 100.0
  {
    EwmBounds(r, SpanAlpha(emaPeriod), t, 0.0, 100.0);
  }

  /** With the default 21-bar window the WMA of an RSI is undefined on the
      first 20 bars and, once defined, lies within its window's range. */
  lemma WmaRsiWarmupAndRange(r: seq<real>, t: nat, lo: real, hi: real)
    requires t < |r|
    requires forall k :: 0 <= k <= t ==> lo <= r[k] <= hi
    ensures WmaRsiAt(r, 21, t).Some? <==> t >= 20
    ensures WmaRsiAt(r, 21, t).Some? ==> lo <= WmaRsiAt(r, 21, t).value <= hi
  {
    if t >= 20 {
      WmaBounds(r, 21, t, lo, hi);
    }
  }
}
