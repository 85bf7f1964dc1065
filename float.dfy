/** The float64 values pandas produces when the scanners divide one
    column by another or the backtest divides by a buy price: a finite
    number, an infinity (a non-zero value over zero) or NaN (zero over
    zero, or any operand missing). Every comparison with NaN is false. */
module Float {
  import opened Base

  datatype Ext = Fin(v: real) | PosInf | NegInf | NaN

  /** `a / b` in IEEE arithmetic. */
  function Div(a: real, b: real): (r: Ext)
    ensures b != 0.0 ==> r == Fin(a / b)
    ensures b == 0.0 ==> (r.PosInf? <==> a > 0.0) && (r.NegInf? <==> a < 0.0) && (r.NaN? <==> a == 0.0)
  {
    if b != 0.0 then Fin(a / b)
    else if a > 0.0 then PosInf
    else if a < 0.0 then NegInf
    else NaN
  }

  /** Column division: a missing cell on either side gives NaN. */
  function DivOpt(a: Option<real>, b: Option<real>): (r: Ext)
    ensures a.None? || b.None? ==> r.NaN?
    ensures a.Some? && b.Some? ==> r == Div(a.value, b.value)
  {
    if a.Some? && b.Some? then Div(a.value, b.value) else NaN
  }

  /** `x >= c` and `x > c` for a constant c. */
  predicate AtLeast(x: Ext, c: real) { x.PosInf? || (x.Fin? && x.v >= c) }
  predicate Above(x: Ext, c: real) { x.PosInf? || (x.Fin? && x.v > c) }

  /** `x < y` between two float64 values. */
  predicate Below(x: Ext, y: Ext) {
    match (x, y)
    case (Fin(a), Fin(b)) => a < b
    case (NegInf, Fin(_)) => true
    case (NegInf, PosInf) => true
    case (Fin(_), PosInf) => true
    case _ => false
  }

  /** `x * k` for a positive constant k. */
  function Scale(x: Ext, k: real): Ext
    requires k > 0.0
  {
    if x.Fin? then Fin(x.v * k) else x
  }

  /** `x + y`: NaN absorbs, opposite infinities give NaN. */
  function Add(x: Ext, y: Ext): Ext {
    match (x, y)
    case (NaN, _) => NaN
    case (_, NaN) => NaN
    case (PosInf, NegInf) => NaN
    case (NegInf, PosInf) => NaN
    case (PosInf, _) => PosInf
    case (_, PosInf) => PosInf
    case (NegInf, _) => NegInf
    case (_, NegInf) => NegInf
    case (Fin(a), Fin(b)) => Fin(a + b)
  }

  /** `round(x, 2)`; infinities and NaN are left as they are. */
  function RoundExt(x: Ext): Ext {
    if x.Fin? then Fin(Round2(x.v)) else x
  }

  /** For a positive divisor, the ratio clears a bound exactly when the
      dividend clears the scaled bound. */
  lemma DivAtLeast(a: real, b: real, c: real)
    requires b > 0.0
    ensures AtLeast(Div(a, b), c) <==> a >= c * b
    ensures Above(Div(a, b), c) <==> a > c * b
  {
    assert a / b * b == a;
    if a >= c * b {
      assert a / b >= c;
    }
    if a > c * b {
      assert a / b > c;
    }
    if a / b >= c {
      MulNonneg(a / b - c, b);
    }
    if a / b > c {
      assert (a / b - c) * b > 0.0;
    }
  }
}
