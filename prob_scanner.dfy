/** The 2025 probabilistic scanner (services/scanners/scanner_test.py):
    three features computed on each daily row, and each daily row labelled
    with the outcome of the same symbol's following calendar month. */
module ProbScanner {
  import opened Base
  import opened Calendar
  import opened Float

  /** A row of the daily query. */
  datatype DailyRow = DailyRow(symbolId: int, symbol: string, date: Date,
                               rsi3: Option<real>, rsi9: Option<real>, rsi14: Option<real>,
                               emaRsi93: Option<real>, wmaRsi921: Option<real>)

  /** A daily row with the columns `add_features` adds. */
  datatype Featured = Featured(row: DailyRow, rsi3Rsi9: Ext, orderLock: bool, acceleration: bool)

  /** `a > b` between two columns, false when either is NaN. */
  predicate GtOpt(a: Option<real>, b: Option<real>) {
    a.Some? && b.Some? && a.value > b.value
  }

  /** `add_features` on one row. */
  function Features(r: DailyRow): Featured
  {
    Featured(r,
      DivOpt(r.rsi3, r.rsi9),
      GtOpt(r.rsi3, r.rsi9) && GtOpt(r.rsi9, r.emaRsi93) && GtOpt(r.emaRsi93, r.wmaRsi921),
      r.rsi3.Some? && r.rsi9.Some? && r.emaRsi93.Some?
        && r.rsi3.value - r.rsi9.value > r.rsi9.value - r.emaRsi93.value)
  }

  /** `add_features(df)` on a copy of the frame. */
  function AddFeatures(rows: seq<DailyRow>): (r: seq<Featured>)
    ensures |r| == |rows| && forall i :: 0 <= i < |rows| ==> r[i].row == rows[i]
  {
    seq(|rows|, i requires 0 <= i < |rows| => Features(rows[i]))
  }

  /** Order lock: the four averages stand strictly in order, so rsi_3 is
      above the WMA too. */
  lemma OrderLockChain(r: DailyRow)
    ensures Features(r).orderLock ==>
      && r.rsi3.Some? && r.rsi9.Some? && r.emaRsi93.Some? && r.wmaRsi921.Some?
      && r.wmaRsi921.value < r.emaRsi93.value < r.rsi9.value < r.rsi3.value
    ensures (&& r.rsi3.Some? && r.rsi9.Some? && r.emaRsi93.Some? && r.wmaRsi921.Some?
             && r.wmaRsi921.value < r.emaRsi93.value < r.rsi9.value < r.rsi3.value) ==> Features(r).orderLock
  {
  }

  /** Acceleration: rsi_3 is further above rsi_9 than rsi_9 is above its
      EMA, that is rsi_3 + EMA exceeds twice rsi_9. */
  lemma AccelerationMeaning(r: DailyRow)
    ensures Features(r).acceleration <==>
      r.rsi3.Some? && r.rsi9.Some? && r.emaRsi93.Some?
      && r.rsi3.value + r.emaRsi93.value > 2.0 * r.rsi9.value
  {
  }

  /** With a positive rsi_9 the ratio clears 1 exactly when rsi_3 exceeds
      rsi_9. */
  lemma RatioAboveOne(r: DailyRow)
    requires r.rsi3.Some? && r.rsi9.Some? && r.rsi9.value > 0.0
    ensures Above(Features(r).rsi3Rsi9, 1.0) <==> r.rsi3.value > r.rsi9.value
  {
    DivAtLeast(r.rsi3.value, r.rsi9.value, 1.0);
  }

  // ---------------------------------------------------------------------
  // map_future_success

  /** A monthly row: its date is the month's end. */
  datatype Outcome = Outcome(symbolId: int, monthEnd: Date, pct: Option<real>)

  /** A calendar month, `to_period("M")`. */
  datatype Month = Month(year: int, month: int)

  function MonthOf(d: Date): Month { Month(d.year, d.month) }

  /** The period one month on; December runs into the next January. */
  function NextMonth(m: Month): (r: Month)
    requires 1 <= m.month <= 12
    ensures 1 <= r.month <= 12
  {
    if m.month == 12 then Month(m.year + 1, 1) else Month(m.year, m.month + 1)
  }

  /** Months counted from year 0. */
  function MonthIndex(m: Month): int { 12 * m.year + m.month - 1 }

  /** `+ 1` on a monthly period is the next month on the month count. */
  lemma NextMonthIsNext(m: Month)
    requires 1 <= m.month <= 12
    ensures MonthIndex(NextMonth(m)) == MonthIndex(m) + 1
    ensures m.month == 12 ==> NextMonth(m) == Month(m.year + 1, 1)
  {
  }

  /** A daily row with its outcome column and label. */
  datatype Labeled = Labeled(f: Featured, pct: Option<real>, success: int)

  /** `(pct_price_change >= 50).astype(int)`: NaN gives 0. */
  function Success(pct: Option<real>): int
  {
    if pct.Some? && pct.value >= 50.0 then 1 else 0
  }

  /** The merge key: same symbol, and the month after the daily row's. */
  predicate Matches(f: Featured, o: Outcome)
    requires Valid(f.row.date)
  {
    o.symbolId == f.row.symbolId && MonthOf(o.monthEnd) == NextMonth(MonthOf(f.row.date))
  }

  /** The monthly rows of the symbol for the month after the daily row's. */
  function NextMonthOutcomes(f: Featured, monthly: seq<Outcome>): (r: seq<Outcome>)
    requires Valid(f.row.date)
    ensures forall o :: o in r <==> o in monthly && Matches(f, o)
  {
    if |monthly| == 0 then []
    else
      var rest := NextMonthOutcomes(f, monthly[..|monthly| - 1]);
      var o := monthly[|monthly| - 1];
      assert forall x :: x in monthly <==> x in monthly[..|monthly| - 1] || x == o;
      if Matches(f, o) then rest + [o] else rest
  }

  /** The rows the left merge makes of one daily row: one per matching
      monthly row, or one with NaN when none matches. */
  function MergedRows(f: Featured, monthly: seq<Outcome>): (r: seq<Labeled>)
    requires Valid(f.row.date)
    ensures |r| >= 1
  {
    var ms := NextMonthOutcomes(f, monthly);
    if |ms| == 0 then [Labeled(f, None, 0)]
    else seq(|ms|, k requires 0 <= k < |ms| => Labeled(f, ms[k].pct, Success(ms[k].pct)))
  }

  predicate AllValid(daily: seq<Featured>) {
    forall i :: 0 <= i < |daily| ==> Valid(daily[i].row.date)
  }

  /** `map_future_success(daily, monthly)`: the left merge on (symbol_id,
      month) with the helper month column dropped. */
  function MapFutureSuccess(daily: seq<Featured>, monthly: seq<Outcome>): (r: seq<Labeled>)
    requires AllValid(daily)
    ensures |r| >= |daily|
  {
    if |daily| == 0 then []
    else MapFutureSuccess(daily[..|daily| - 1], monthly) + MergedRows(daily[|daily| - 1], monthly)
  }

  predicate LabelsAgree(r: seq<Labeled>) {
    forall k :: 0 <= k < |r| ==> r[k].success == Success(r[k].pct)
  }

  /** Every label is 1 exactly when the attached month rose by 50% or
      more. */
  lemma {:induction false} LabelsMeaning(daily: seq<Featured>, monthly: seq<Outcome>)
    requires AllValid(daily)
    ensures LabelsAgree(MapFutureSuccess(daily, monthly))
  {
    if |daily| > 0 {
      var init := daily[..|daily| - 1];
      LabelsMeaning(init, monthly);
      var f := daily[|daily| - 1];
      var m := MergedRows(f, monthly);
      assert forall k :: 0 <= k < |m| ==> m[k].success == Success(m[k].pct);
      var r := MapFutureSuccess(daily, monthly);
      var r1 := MapFutureSuccess(init, monthly);
      assert r == r1 + m;
      forall k | 0 <= k < |r|
        ensures r[k].success == Success(r[k].pct)
      {
        if k < |r1| {
          assert r[k] == r1[k];
        } else {
          assert r[k] == m[k - |r1|];
        }
      }
    }
  }

  /** At most one monthly row per (symbol_id, month). */
  predicate UniqueMonths(monthly: seq<Outcome>) {
    forall i, j :: 0 <= i < j < |monthly| ==>
      (monthly[i].symbolId, MonthOf(monthly[i].monthEnd)) != (monthly[j].symbolId, MonthOf(monthly[j].monthEnd))
  }

  lemma {:induction false} AtMostOneOutcome(f: Featured, monthly: seq<Outcome>)
    requires Valid(f.row.date) && UniqueMonths(monthly)
    ensures |NextMonthOutcomes(f, monthly)| <= 1
  {
    if |monthly| > 0 {
      var init := monthly[..|monthly| - 1];
      assert UniqueMonths(init) by {
        forall i, j | 0 <= i < j < |init|
          ensures (init[i].symbolId, MonthOf(init[i].monthEnd)) != (init[j].symbolId, MonthOf(init[j].monthEnd))
        {
          assert init[i] == monthly[i] && init[j] == monthly[j];
        }
      }
      AtMostOneOutcome(f, init);
      var rest := NextMonthOutcomes(f, init);
      var o := monthly[|monthly| - 1];
      if |rest| == 1 {
        assert rest[0] in init;
        var i :| 0 <= i < |init| && init[i] == rest[0];
        assert monthly[i] == rest[0];
      }
    }
  }

  /** The attached change of a daily row: its next month's, or NaN. */
  function NextPct(f: Featured, monthly: seq<Outcome>): Option<real>
    requires Valid(f.row.date)
  {
    var ms := NextMonthOutcomes(f, monthly);
    if |ms| == 0 then None else ms[0].pct
  }

  lemma MergedRowsSingle(f: Featured, monthly: seq<Outcome>)
    requires Valid(f.row.date) && UniqueMonths(monthly)
    ensures MergedRows(f, monthly) == [Labeled(f, NextPct(f, monthly), Success(NextPct(f, monthly)))]
  {
    AtMostOneOutcome(f, monthly);
  }

  /** With one monthly row per (symbol_id, month) the merge keeps the
      daily rows one for one, in order, each with its next month's change,
      or NaN and label 0 when there is none. */
  lemma {:induction false} MergeOneForOne(daily: seq<Featured>, monthly: seq<Outcome>)
    requires AllValid(daily) && UniqueMonths(monthly)
    ensures var r := MapFutureSuccess(daily, monthly);
      && |r| == |daily|
      && forall i :: 0 <= i < |daily| ==> r[i].f == daily[i] && r[i].pct == NextPct(daily[i], monthly)
  {
    if |daily| > 0 {
      var init := daily[..|daily| - 1];
      var last := daily[|daily| - 1];
      MergeOneForOne(init, monthly);
      MergedRowsSingle(last, monthly);
      var r := MapFutureSuccess(daily, monthly);
      var r1 := MapFutureSuccess(init, monthly);
      assert r == r1 + [Labeled(last, NextPct(last, monthly), Success(NextPct(last, monthly)))];
      forall i | 0 <= i < |daily|
        ensures r[i].f == daily[i] && r[i].pct == NextPct(daily[i], monthly)
      {
        if i < |init| {
          assert r[i] == r1[i] && daily[i] == init[i];
        }
      }
    }
  }

  /** A daily row that no monthly row matches gets no outcome. */
  lemma {:induction false} NoMatchNoOutcome(f: Featured, monthly: seq<Outcome>)
    requires Valid(f.row.date)
    requires forall o :: o in monthly ==> !Matches(f, o)
    ensures NextMonthOutcomes(f, monthly) == []
  {
    if |monthly| > 0 {
      var init := monthly[..|monthly| - 1];
      assert forall o :: o in init ==> o in monthly;
      NoMatchNoOutcome(f, init);
      assert monthly[|monthly| - 1] in monthly;
    }
  }

  /** The monthly query stops at the end of the year, so a December row
      of that year has no next-month outcome and is labelled 0. */
  lemma DecemberHasNoOutcome(f: Featured, monthly: seq<Outcome>, year: int)
    requires Valid(f.row.date) && f.row.date.year == year && f.row.date.month == 12
    requires forall o :: o in monthly ==> o.monthEnd.year <= year
    ensures MergedRows(f, monthly) == [Labeled(f, None, 0)]
  {
    forall o | o in monthly
      ensures !Matches(f, o)
    {
      assert o.monthEnd.year <= year;
    }
    NoMatchNoOutcome(f, monthly);
  }
}
