/** `get_base_data`, the frame every scanner filters
    (services/scanners/data_service.py, and its older copy in
    archive/scanners.py): the daily indicator rows of a date window,
    sorted by (symbol_id, date), each with the previous day's rsi_3 of its
    symbol, and the rsi_3 of the latest weekly and monthly rows on or
    before its date attached as of that date. A daily row with no such weekly or monthly row is dropped. */
module ScanData {
  import opened Base
  import opened Calendar
  import opened Frames

  /** One row of the daily query: indicators joined with the price row
      and the symbol of the same (symbol_id, date). */
  datatype DailyRow = DailyRow(
    symbolId: int, symbol: string, date: Date,
    adjClose: Option<real>, rsi3: Option<real>, rsi9: Option<real>,
    emaRsi93: Option<real>, wmaRsi921: Option<real>,
    pctChange: Option<real>, delvPct: Option<real>, sma20: Option<real>)

  /** One row of the weekly or monthly query. */
  datatype PeriodRow = PeriodRow(symbolId: int, date: Date, rsi3: Option<real>)

  /** A row of the frame the scanners read. */
  datatype BaseRow = BaseRow(daily: DailyRow, prevRsi3: Option<real>,
                             weeklyRsi3: Option<real>, monthlyRsi3: Option<real>)

  /** The (symbol_id, date) order both queries return their rows in. */
  predicate KeyLess(id: int, d: Date, id': int, d': Date) {
    id < id' || (id == id' && Less(d, d'))
  }

  predicate DailyLess(a: DailyRow, b: DailyRow) {
    KeyLess(a.symbolId, a.date, b.symbolId, b.date)
  }

  predicate PeriodLess(a: PeriodRow, b: PeriodRow) {
    KeyLess(a.symbolId, a.date, b.symbolId, b.date)
  }

  predicate BaseLess(a: BaseRow, b: BaseRow) {
    DailyLess(a.daily, b.daily)
  }

  /** The same order with ties allowed: the key `sort_values` and
      `ORDER BY symbol_id, date` sort on. */
  predicate DailyLe(a: DailyRow, b: DailyRow) {
    !DailyLess(b, a)
  }

  predicate PeriodLe(a: PeriodRow, b: PeriodRow) {
    !PeriodLess(b, a)
  }

  /** Two rows with different (symbol_id, date) keys: the tables' primary
      key makes any two rows of one timeframe differ so. */
  predicate DailyApart(a: DailyRow, b: DailyRow) {
    (a.symbolId, a.date) != (b.symbolId, b.date)
  }

  predicate PeriodApart(a: PeriodRow, b: PeriodRow) {
    (a.symbolId, a.date) != (b.symbolId, b.date)
  }

  /** `BETWEEN lo AND hi` on the date column. */
  predicate InWindow(d: Date, lo: Date, hi: Date) {
    LessEq(lo, d) && LessEq(d, hi)
  }

  /** `groupby('symbol_id')['rsi_3'].shift(1)` on rows in key order. */
  function PrevRsi(rows: seq<DailyRow>, i: nat): Option<real>
    requires i < |rows|
  {
    if i > 0 && rows[i - 1].symbolId == rows[i].symbolId then rows[i - 1].rsi3 else None
  }

  /** The daily rows with prev_rsi_3; the weekly and monthly columns are
      still empty. */
  function Shift(rows: seq<DailyRow>): (r: seq<BaseRow>)
    ensures |r| == |rows|
    ensures forall i :: 0 <= i < |rows| ==> r[i].daily == rows[i]
  {
    seq(|rows|, i requires 0 <= i < |rows| => BaseRow(rows[i], PrevRsi(rows, i), None, None))
  }

  /** The weekly (or monthly) rows of the symbol dated on or before d,
      as the merge on symbol_id and the `<= date` filter leave them. */
  function Matches(ps: seq<PeriodRow>, id: int, d: Date): seq<PeriodRow>
  {
    Filter(ps, (p: PeriodRow) => p.symbolId == id && LessEq(p.date, d))
  }

  /** `groupby(...).last()` on the rsi_3 column: the last value that is
      not NaN. */
  function LastDefined(ps: seq<PeriodRow>): (v: Option<real>)
    ensures v.Some? ==> exists p :: p in ps && p.rsi3 == v
  {
    if |ps| == 0 then None
    else if ps[|ps| - 1].rsi3.Some? then ps[|ps| - 1].rsi3
    else LastDefined(ps[..|ps| - 1])
  }

  predicate HasMatch(ps: seq<PeriodRow>, r: BaseRow) {
    |Matches(ps, r.daily.symbolId, r.daily.date)| > 0
  }

  function Joined(r: BaseRow, ps: seq<PeriodRow>, weekly: bool): BaseRow {
    var v := LastDefined(Matches(ps, r.daily.symbolId, r.daily.date));
    if weekly then r.(weeklyRsi3 := v) else r.(monthlyRsi3 := v)
  }

  /** Merge, `<= date` filter and group-by-last for one period. */
  function Attach(rows: seq<BaseRow>, ps: seq<PeriodRow>, weekly: bool): (r: seq<BaseRow>)
  {
    var kept := Filter(rows, (x: BaseRow) => HasMatch(ps, x));
    seq(|kept|, i requires 0 <= i < |kept| => Joined(kept[i], ps, weekly))
  }

  /** The rest of `get_base_data` once the three queries have run: the
      daily rows are sorted by (symbol_id, date) and shifted, and each
      period's rows, sorted the same way, are joined as of the day. */
  function Assemble(d: seq<DailyRow>, w: seq<PeriodRow>, m: seq<PeriodRow>): seq<BaseRow>
  {
    Attach(Attach(Shift(Sort(d, DailyLe)), Sort(w, PeriodLe), true), Sort(m, PeriodLe), false)
  }

  /** Which date `get_base_data` counts back from: the start text parsed
      as YYYY-MM-DD, or today; None when the text does not parse, which
      raises inside the `try`. */
  function StartOf(start: Option<string>, today: Date): Option<Date>
  {
    if start.Some? then ParseIso(start.value) else Some(today)
  }

  /** `get_base_data(lookback_days, start_date)` over the contents of the
      daily, weekly and monthly queries' tables. A start text that does
      not parse ends in the `except`, which returns the still-empty
      frame. */
  function BaseData(lookback: nat, start: Option<string>, today: Date,
                    daily: seq<DailyRow>, weekly: seq<PeriodRow>, monthly: seq<PeriodRow>): seq<BaseRow>
    requires Valid(today)
  {
    var s := StartOf(start, today);
    if s.None? then []
    else
      var hi := s.value;
      var lo := SubDays(hi, lookback);
      var d := Filter(daily, (r: DailyRow) => InWindow(r.date, lo, hi));
      var w := Filter(weekly, (p: PeriodRow) => InWindow(p.date, lo, hi));
      var m := Filter(monthly, (p: PeriodRow) => InWindow(p.date, lo, hi));
      Assemble(d, w, m)
  }

  /** The older `get_base_data(lookback_days)`: the window has no upper
      end (`date >= date('now', '-N days')`) and there is no start date. */
  function ArchiveBaseData(lookback: nat, today: Date,
                           daily: seq<DailyRow>, weekly: seq<PeriodRow>, monthly: seq<PeriodRow>): seq<BaseRow>
    requires Valid(today)
  {
    var lo := SubDays(today, lookback);
    var d := Filter(daily, (r: DailyRow) => LessEq(lo, r.date));
    var w := Filter(weekly, (p: PeriodRow) => LessEq(lo, p.date));
    var m := Filter(monthly, (p: PeriodRow) => LessEq(lo, p.date));
    Assemble(d, w, m)
  }

  // ---------------------------------------------------------------------
  // What the frame holds

  /** A row of the attached frame is a row it was given, with a match,
      and with the period's last defined rsi_3 attached; and every row
      with a match is there. */
  lemma AttachMembers(rows: seq<BaseRow>, ps: seq<PeriodRow>, weekly: bool, r: BaseRow)
    ensures r in rows && HasMatch(ps, r) ==> Joined(r, ps, weekly) in Attach(rows, ps, weekly)
    ensures forall y :: y in Attach(rows, ps, weekly) ==>
      exists x :: x in rows && HasMatch(ps, x) && y == Joined(x, ps, weekly)
  {
    var kept := Filter(rows, (x: BaseRow) => HasMatch(ps, x));
    var a := Attach(rows, ps, weekly);
    if r in rows && HasMatch(ps, r) {
      var i :| 0 <= i < |kept| && kept[i] == r;
      assert a[i] == Joined(r, ps, weekly);
    }
    forall y | y in a
      ensures exists x :: x in rows && HasMatch(ps, x) && y == Joined(x, ps, weekly)
    {
      var i :| 0 <= i < |a| && a[i] == y;
      assert kept[i] in kept;
    }
  }

  /** Attaching keeps the (symbol_id, date) order of the rows. */
  lemma AttachOrdered(rows: seq<BaseRow>, ps: seq<PeriodRow>, weekly: bool)
    requires Pairwise(rows, BaseLess)
    ensures Pairwise(Attach(rows, ps, weekly), BaseLess)
  {
    var kept := Filter(rows, (x: BaseRow) => HasMatch(ps, x));
    FilterPairwise(rows, (x: BaseRow) => HasMatch(ps, x), BaseLess);
    var a := Attach(rows, ps, weekly);
    forall i, j | 0 <= i < j < |a|
      ensures BaseLess(a[i], a[j])
    {
      assert BaseLess(kept[i], kept[j]);
    }
  }

  /** Shifting keeps the order of the daily rows. */
  lemma ShiftOrdered(rows: seq<DailyRow>)
    requires Pairwise(rows, DailyLess)
    ensures Pairwise(Shift(rows), BaseLess)
  {
  }

  /** Sorting rows with distinct keys puts them in strict key order, the
      order the shift and the as-of join rely on. */
  lemma SortedDaily(d: seq<DailyRow>)
    requires Pairwise(d, DailyApart)
    ensures Pairwise(Sort(d, DailyLe), DailyLess)
  {
    assert Total(DailyLe);
    SortSorted(d, DailyLe);
    assert Symmetric(DailyApart);
    SortApart(d, DailyLe, DailyApart);
    assert Transitive(DailyLess);
    SortedStrict(Sort(d, DailyLe), DailyLe, DailyApart, DailyLess);
  }

  lemma SortedPeriod(ps: seq<PeriodRow>)
    requires Pairwise(ps, PeriodApart)
    ensures Pairwise(Sort(ps, PeriodLe), PeriodLess)
  {
    assert Total(PeriodLe);
    SortSorted(ps, PeriodLe);
    assert Symmetric(PeriodApart);
    SortApart(ps, PeriodLe, PeriodApart);
    assert Transitive(PeriodLess);
    SortedStrict(Sort(ps, PeriodLe), PeriodLe, PeriodApart, PeriodLess);
  }

  /** Sorting the period rows changes which rows match, not whether one
      does. */
  lemma MatchesSort(ps: seq<PeriodRow>, id: int, d: Date)
    ensures |Matches(Sort(ps, PeriodLe), id, d)| > 0 <==> |Matches(ps, id, d)| > 0
  {
    SortMembers(ps, PeriodLe);
    var a, b := Matches(Sort(ps, PeriodLe), id, d), Matches(ps, id, d);
    if |a| > 0 {
      assert a[0] in a && a[0] in b;
    }
    if |b| > 0 {
      assert b[0] in b && b[0] in a;
    }
  }

  /** With one daily row per (symbol_id, date), as the primary key has it,
      the frame is in strict (symbol_id, date) order, so it too has at most
      one row per key. */
  lemma BaseDataOrdered(lookback: nat, start: Option<string>, today: Date,
                        daily: seq<DailyRow>, weekly: seq<PeriodRow>, monthly: seq<PeriodRow>)
    requires Valid(today) && Pairwise(daily, DailyApart)
    ensures Pairwise(BaseData(lookback, start, today, daily, weekly, monthly), BaseLess)
    ensures var r := BaseData(lookback, start, today, daily, weekly, monthly);
      forall i, j :: 0 <= i < j < |r| ==>
        (r[i].daily.symbolId, r[i].daily.date) != (r[j].daily.symbolId, r[j].daily.date)
  {
    var s := StartOf(start, today);
    if s.Some? {
      var hi := s.value;
      var lo := SubDays(hi, lookback);
      var f := (r: DailyRow) => InWindow(r.date, lo, hi);
      var d := Filter(daily, f);
      var w := Filter(weekly, (p: PeriodRow) => InWindow(p.date, lo, hi));
      var m := Filter(monthly, (p: PeriodRow) => InWindow(p.date, lo, hi));
      FilterPairwise(daily, f, DailyApart);
      SortedDaily(d);
      var sd, sw, sm := Sort(d, DailyLe), Sort(w, PeriodLe), Sort(m, PeriodLe);
      ShiftOrdered(sd);
      AttachOrdered(Shift(sd), sw, true);
      AttachOrdered(Attach(Shift(sd), sw, true), sm, false);
      var r := BaseData(lookback, start, today, daily, weekly, monthly);
      forall i, j | 0 <= i < j < |r|
        ensures (r[i].daily.symbolId, r[i].daily.date) != (r[j].daily.symbolId, r[j].daily.date)
      {
        assert BaseLess(r[i], r[j]);
      }
    }
  }

  /** A start text that is not a YYYY-MM-DD date gives the empty frame. */
  lemma BadStartEmpty(lookback: nat, s: string, today: Date,
                      daily: seq<DailyRow>, weekly: seq<PeriodRow>, monthly: seq<PeriodRow>)
    requires Valid(today) && ParseIso(s).None?
    ensures BaseData(lookback, Some(s), today, daily, weekly, monthly) == []
  {
  }

  // ---------------------------------------------------------------------
  // The previous day's rsi_3

  /** prev_rsi_3 is the rsi_3 of the symbol's latest earlier row, and
      undefined on the symbol's first row. */
  lemma PrevIsLatestEarlier(rows: seq<DailyRow>, i: nat)
    requires Pairwise(rows, DailyLess) && i < |rows|
    ensures (forall k :: 0 <= k < i ==> rows[k].symbolId != rows[i].symbolId) ==>
      Shift(rows)[i].prevRsi3 == None
    ensures (exists k :: 0 <= k < i && rows[k].symbolId == rows[i].symbolId) ==>
      && rows[i - 1].symbolId == rows[i].symbolId
      && Less(rows[i - 1].date, rows[i].date)
      && Shift(rows)[i].prevRsi3 == rows[i - 1].rsi3
      && forall k :: 0 <= k < i && rows[k].symbolId == rows[i].symbolId ==>
        LessEq(rows[k].date, rows[i - 1].date)
  {
    if exists k :: 0 <= k < i && rows[k].symbolId == rows[i].symbolId {
      var k :| 0 <= k < i && rows[k].symbolId == rows[i].symbolId;
      assert DailyLess(rows[i - 1], rows[i]);
      if k < i - 1 {
        assert DailyLess(rows[k], rows[i - 1]);
      }
      forall k' | 0 <= k' < i && rows[k'].symbolId == rows[i].symbolId
        ensures LessEq(rows[k'].date, rows[i - 1].date)
      {
        if k' < i - 1 {
          assert DailyLess(rows[k'], rows[i - 1]);
        }
      }
    }
  }

  // ---------------------------------------------------------------------
  // The as-of join

  /** The matches come in date order, so the last one is the latest
      period row on or before the date. */
  lemma LastMatchIsLatest(ps: seq<PeriodRow>, id: int, d: Date)
    requires Pairwise(ps, PeriodLess)
    ensures var m := Matches(ps, id, d);
      |m| > 0 ==>
        && m[|m| - 1].symbolId == id && LessEq(m[|m| - 1].date, d)
        && forall p :: p in ps && p.symbolId == id && LessEq(p.date, d) ==>
          LessEq(p.date, m[|m| - 1].date)
  {
    var f := (p: PeriodRow) => p.symbolId == id && LessEq(p.date, d);
    var m := Matches(ps, id, d);
    FilterPairwise(ps, f, PeriodLess);
    if |m| > 0 {
      var last := m[|m| - 1];
      assert last in m;
      forall p | p in ps && p.symbolId == id && LessEq(p.date, d)
        ensures LessEq(p.date, last.date)
      {
        assert p in m;
        var k :| 0 <= k < |m| && m[k] == p;
        if k < |m| - 1 {
          assert PeriodLess(m[k], last);
        }
      }
    }
  }

  /** The attached value is the latest row's rsi_3 when that is defined;
      when it is NaN, group-by-last falls back to an earlier row's. */
  lemma LastDefinedOfLatest(ps: seq<PeriodRow>)
    ensures |ps| > 0 && ps[|ps| - 1].rsi3.Some? ==> LastDefined(ps) == ps[|ps| - 1].rsi3
    ensures (forall p :: p in ps ==> p.rsi3.None?) ==> LastDefined(ps) == None
  {
  }

  /** Joining keeps the daily part of a row. */
  lemma JoinedDaily(r: BaseRow, ps: seq<PeriodRow>, weekly: bool)
    ensures Joined(r, ps, weekly).daily == r.daily
  {
  }

  /** After both joins, a daily row is there exactly when it was there
      before and has a weekly and a monthly match. */
  lemma TwoJoinsKeep(s: seq<BaseRow>, w: seq<PeriodRow>, m: seq<PeriodRow>, x: DailyRow)
    ensures (exists r :: r in Attach(Attach(s, w, true), m, false) && r.daily == x)
      <==> ((exists y :: y in s && y.daily == x)
            && |Matches(w, x.symbolId, x.date)| > 0 && |Matches(m, x.symbolId, x.date)| > 0)
  {
    if exists r :: r in Attach(Attach(s, w, true), m, false) && r.daily == x {
      TwoJoinsSource(s, w, m, x);
    }
    if (exists y :: y in s && y.daily == x) && |Matches(w, x.symbolId, x.date)| > 0 && |Matches(m, x.symbolId, x.date)| > 0 {
      TwoJoinsReach(s, w, m, x);
    }
  }

  /** A row that survives both joins came from a base row with both
      matches. */
  lemma TwoJoinsSource(s: seq<BaseRow>, w: seq<PeriodRow>, m: seq<PeriodRow>, x: DailyRow)
    requires exists r :: r in Attach(Attach(s, w, true), m, false) && r.daily == x
    ensures (exists y :: y in s && y.daily == x)
    ensures |Matches(w, x.symbolId, x.date)| > 0 && |Matches(m, x.symbolId, x.date)| > 0
  {
    var a1 := Attach(s, w, true);
    var a2 := Attach(a1, m, false);
    var r :| r in a2 && r.daily == x;
    AttachMembers(a1, m, false, r);
    var y1 :| y1 in a1 && HasMatch(m, y1) && r == Joined(y1, m, false);
    AttachMembers(s, w, true, y1);
    var y0 :| y0 in s && HasMatch(w, y0) && y1 == Joined(y0, w, true);
    assert y0.daily == x;
  }

  /** A base row with both matches survives both joins. */
  lemma TwoJoinsReach(s: seq<BaseRow>, w: seq<PeriodRow>, m: seq<PeriodRow>, x: DailyRow)
    requires exists y :: y in s && y.daily == x
    requires |Matches(w, x.symbolId, x.date)| > 0 && |Matches(m, x.symbolId, x.date)| > 0
    ensures exists r :: r in Attach(Attach(s, w, true), m, false) && r.daily == x
  {
    var y :| y in s && y.daily == x;
    var a1 := Attach(s, w, true);
    AttachMembers(s, w, true, y);
    var y1 := Joined(y, w, true);
    assert HasMatch(m, y1);
    AttachMembers(a1, m, false, y1);
    assert Joined(y1, m, false) in Attach(a1, m, false) && Joined(y1, m, false).daily == x;
  }

  /** The shifted rows are the daily rows. */
  lemma ShiftMembers(d: seq<DailyRow>, x: DailyRow)
    ensures (exists y :: y in Shift(d) && y.daily == x) <==> x in d
  {
    if x in d {
      var i :| 0 <= i < |d| && d[i] == x;
      assert Shift(d)[i] in Shift(d);
    }
  }

  /** A daily row is in the frame exactly when it lies in the window and
      its symbol has a weekly and a monthly row on or before its date. */
  lemma BaseDataKeeps(lookback: nat, today: Date, daily: seq<DailyRow>,
                      weekly: seq<PeriodRow>, monthly: seq<PeriodRow>, x: DailyRow)
    requires Valid(today)
    ensures var lo := SubDays(today, lookback);
      var w := Filter(weekly, (p: PeriodRow) => InWindow(p.date, lo, today));
      var m := Filter(monthly, (p: PeriodRow) => InWindow(p.date, lo, today));
      (exists r :: r in BaseData(lookback, None, today, daily, weekly, monthly) && r.daily == x)
      <==>
      (x in daily && InWindow(x.date, lo, today)
        && |Matches(w, x.symbolId, x.date)| > 0 && |Matches(m, x.symbolId, x.date)| > 0)
  {
    var lo := SubDays(today, lookback);
    var d := Filter(daily, (r: DailyRow) => InWindow(r.date, lo, today));
    var w := Filter(weekly, (p: PeriodRow) => InWindow(p.date, lo, today));
    var m := Filter(monthly, (p: PeriodRow) => InWindow(p.date, lo, today));
    assert Assemble(d, w, m) == BaseData(lookback, None, today, daily, weekly, monthly);
    TwoJoinsKeep(Shift(Sort(d, DailyLe)), Sort(w, PeriodLe), Sort(m, PeriodLe), x);
    ShiftMembers(Sort(d, DailyLe), x);
    SortMembers(d, DailyLe);
    MatchesSort(w, x.symbolId, x.date);
    MatchesSort(m, x.symbolId, x.date);
  }

  /** The older query ends nowhere, so on tables with no row dated after
      today it returns what the newer one returns for today. */
  lemma ArchiveAgrees(lookback: nat, today: Date,
                      daily: seq<DailyRow>, weekly: seq<PeriodRow>, monthly: seq<PeriodRow>)
    requires Valid(today)
    requires forall r :: r in daily ==> LessEq(r.date, today)
    requires forall p :: p in weekly ==> LessEq(p.date, today)
    requires forall p :: p in monthly ==> LessEq(p.date, today)
    ensures ArchiveBaseData(lookback, today, daily, weekly, monthly)
         == BaseData(lookback, None, today, daily, weekly, monthly)
  {
    var lo := SubDays(today, lookback);
    FilterCongruent(daily, (r: DailyRow) => LessEq(lo, r.date), (r: DailyRow) => InWindow(r.date, lo, today));
    FilterCongruent(weekly, (p: PeriodRow) => LessEq(lo, p.date), (p: PeriodRow) => InWindow(p.date, lo, today));
    FilterCongruent(monthly, (p: PeriodRow) => LessEq(lo, p.date), (p: PeriodRow) => InWindow(p.date, lo, today));
  }
}
