/** Values shared by every kernel: an optional number standing for a pandas
    value that may be NaN, the comparisons pandas applies to such values,
    Python's round(., 2), and sums over a finite sequence of reals. */
module Base {

  /** `None` is NaN (or a missing cell); `Some(v)` a defined value. */
  datatype Option<+T> = None | Some(value: T)

  /** Comparisons in the NaN convention: any comparison that involves an
      undefined operand is false. */
  predicate Lt(a: Option<real>, b: Option<real>) {
    a.Some? && b.Some? && a.value < b.value
  }

  predicate Gt(a: Option<real>, b: Option<real>) {
    a.Some? && b.Some? && a.value > b.value
  }

  /** `x <op> constant` for a possibly-NaN column value. */
  predicate GeConst(a: Option<real>, c: real) { a.Some? && a.value >= c }
  predicate GtConst(a: Option<real>, c: real) { a.Some? && a.value > c }
  predicate LeConst(a: Option<real>, c: real) { a.Some? && a.value <= c }
  predicate LtConst(a: Option<real>, c: real) { a.Some? && a.value < c }

  function Max(a: real, b: real): real { if a >= b then a else b }
  function Min(a: real, b: real): real { if a <= b then a else b }

  function Abs(x: real): real { if x < 0.0 then -x else x }

  /** round(x, 2): the nearest multiple of 1/100, ties upward. */
  function Round2(x: real): real {
    ((x * 100.0 + 0.5).Floor as real) / 100.0
  }

  /** Series.round(2) applied to one possibly-NaN value. */
  function RoundOpt(a: Option<real>): Option<real> {
    match a
    case None => None
    case Some(v) => Some(Round2(v))
  }

  /** Series.round(2) on a whole column. */
  function RoundAll(xs: seq<Option<real>>): (r: seq<Option<real>>)
    ensures |r| == |xs|
    ensures forall k :: 0 <= k < |xs| ==> r[k] == RoundOpt(xs[k])
  {
    seq(|xs|, k requires 0 <= k < |xs| => RoundOpt(xs[k]))
  }

  lemma Round2Monotone(x: real, y: real)
    requires x <= y
    ensures Round2(x) <= Round2(y)
  {
    assert (x * 100.0 + 0.5).Floor <= (y * 100.0 + 0.5).Floor;
  }

  /** A value that already has two decimals is left as it is. */
  lemma Round2Cents(k: int)
    ensures Round2(k as real / 100.0) == k as real / 100.0
  {
    assert k as real / 100.0 * 100.0 + 0.5 == k as real + 0.5;
    assert (k as real + 0.5).Floor == k;
  }

  /** Rounding twice is rounding once. */
  lemma Round2Idempotent(x: real)
    ensures Round2(Round2(x)) == Round2(x)
  {
    Round2Cents((x * 100.0 + 0.5).Floor);
  }

  lemma Round2Zero()
    ensures Round2(0.0) == 0.0
  {
    Round2Cents(0);
  }

  lemma Round2Hundred()
    ensures Round2(100.0) == 100.0
  {
    Round2Cents(10000);
  }

  /** Rounding keeps a value inside [0, 100]. */
  lemma Round2Percent(x: real)
    requires 0.0 <= x <= 100.0
    ensures 0.0 <= Round2(x) <= 100.0
  {
    Round2Zero();
    Round2Hundred();
    Round2Monotone(0.0, x);
    Round2Monotone(x, 100.0);
  }

  /** Sum of a sequence of reals, accumulated from the front. */
  function Sum(s: seq<real>): real
  {
    if |s| == 0 then 0.0 else Sum(s[..|s| - 1]) + s[|s| - 1]
  }

  /** The sum of n copies of c is n * c. */
  lemma {:induction false} SumConstant(s: seq<real>, c: real)
    requires forall k :: 0 <= k < |s| ==> s[k] == c
    ensures Sum(s) == |s| as real * c
  {
    if |s| > 0 {
      SumConstant(s[..|s| - 1], c);
    }
  }

  /** Every term in [lo, hi] puts the sum in [n * lo, n * hi]. */
  lemma {:induction false} SumBounds(s: seq<real>, lo: real, hi: real)
    requires forall k :: 0 <= k < |s| ==> lo <= s[k] <= hi
    ensures |s| as real * lo <= Sum(s) <= |s| as real * hi
  {
    if |s| > 0 {
      SumBounds(s[..|s| - 1], lo, hi);
    }
  }

  /** Sum distributes over concatenation. */
  lemma {:induction false} SumAppend(a: seq<real>, b: seq<real>)
    ensures Sum(a + b) == Sum(a) + Sum(b)
  {
    if |b| > 0 {
      assert (a + b)[..|a + b| - 1] == a + b[..|b| - 1];
      SumAppend(a, b[..|b| - 1]);
    } else {
      assert a + b == a;
    }
  }

  lemma MulNonneg(a: real, b: real)
    requires a >= 0.0 && b >= 0.0
    ensures a * b >= 0.0
  {
  }

  /** A convex combination of two values at least lo is at least lo. */
  lemma ConvexLower(alpha: real, x: real, y: real, lo: real)
    requires 0.0 <= alpha <= 1.0
    requires lo <= x && lo <= y
    ensures lo <= alpha * x + (1.0 - alpha) * y
  {
    var beta := 1.0 - alpha;
    MulNonneg(alpha, x - lo);
    MulNonneg(beta, y - lo);
    assert alpha * x + beta * y - lo == alpha * (x - lo) + beta * (y - lo);
  }

  /** A convex combination of two values at most hi is at most hi. */
  lemma ConvexUpper(alpha: real, x: real, y: real, hi: real)
    requires 0.0 <= alpha <= 1.0
    requires x <= hi && y <= hi
    ensures alpha * x + (1.0 - alpha) * y <= hi
  {
    var beta := 1.0 - alpha;
    MulNonneg(alpha, hi - x);
    MulNonneg(beta, hi - y);
    assert hi - (alpha * x + beta * y) == alpha * (hi - x) + beta * (hi - y);
  }
}
