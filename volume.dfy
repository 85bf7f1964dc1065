/** On-balance volume: the running sum of volume signed by the direction
    of the close. */
module Volume {
  import opened Base

  function Sign(x: real): int {
    if x > 0.0 then 1 else if x < 0.0 then -1 else 0
  }

  /** `np.sign(close.diff()).fillna(0)` at bar t: 0 on the first bar. */
  function DirectionAt(close: seq<real>, t: nat): (d: int)
    requires t < |close|
    ensures -1 <= d <= 1
  {
    if t == 0 then 0 else Sign(close[t] - close[t - 1])
  }

  /** `volume * direction` over every bar. */
  function Flows(close: seq<real>, volume: seq<real>): (f: seq<real>)
    requires |volume| == |close|
    ensures |f| == |close|
  {
    seq(|close|, t requires 0 <= t < |close| => volume[t] * DirectionAt(close, t) as real)
  }

  /** `obv(close, volume)` at bar t: the cumulative sum of the flows. */
  function ObvAt(close: seq<real>, volume: seq<real>, t: nat): real
    requires |volume| == |close| && t < |close|
  {
    Sum(Flows(close, volume)[..t + 1])
  }

  /** OBV starts at zero. */
  lemma ObvFirst(close: seq<real>, volume: seq<real>)
    requires |volume| == |close| && |close| > 0
    ensures ObvAt(close, volume, 0) == 0.0
  {
    var f := Flows(close, volume)[..1];
    assert f[..0] == [];
    assert f[0] == volume[0] * 0.0;
    assert Sum(f) == Sum(f[..0]) + f[0];
  }

  /** Each bar adds its volume on a rising close, subtracts it on a
      falling close and leaves OBV unchanged on a flat close. */
  lemma ObvStep(close: seq<real>, volume: seq<real>, t: nat)
    requires |volume| == |close| && 0 < t < |close|
    ensures close[t] > close[t - 1] ==> ObvAt(close, volume, t) == ObvAt(close, volume, t - 1) + volume[t]
    ensures close[t] < close[t - 1] ==> ObvAt(close, volume, t) == ObvAt(close, volume, t - 1) - volume[t]
    ensures close[t] == close[t - 1] ==> ObvAt(close, volume, t) == ObvAt(close, volume, t - 1)
  {
    var f := Flows(close, volume);
    assert f[..t + 1][..t] == f[..t];
  }

  /** On strictly rising closes OBV is the sum of the volumes after the
      first bar. */
  lemma {:induction false} ObvRising(close: seq<real>, volume: seq<real>, t: nat)
    requires |volume| == |close| && t < |close|
    requires forall k :: 0 < k <= t ==> close[k] > close[k - 1]
    ensures ObvAt(close, volume, t) == Sum(volume[1..t + 1])
  {
    if t == 0 {
      ObvFirst(close, volume);
      assert volume[1..1] == [];
    } else {
      ObvRising(close, volume, t - 1);
      ObvStep(close, volume, t);
      assert volume[1..t + 1][..t - 1] == volume[1..t];
    }
  }
}
