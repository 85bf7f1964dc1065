/** Removal of weekly and monthly rows that are not dated on a period
    start: `1wk` rows must fall on a Monday and `1mo` rows on the 1st. The
    rule is SQLite's `strftime` text compared with `<>`. SQLite reads a
    month from 1 to 12 and a day from 1 to 31, counting a day past the
    month's end on into the next month; a date it cannot read (NULL) is
    never deleted. */
module Cleanup {
  import opened Base
  import opened Calendar
  import WeeklyMonthly

  /** The key columns of a price or indicator row; deleting removes whole
      rows, so the other columns play no part. */
  datatype Row = Row(id: int, timeframe: string, date: Date)

  // ---------------------------------------------------------------------
  // Table and rule selection

  datatype Selection = BadDataType | BadTimeframe | Chosen(table: string)

  /** The table the two flags name: one of the four tables, an index
      table exactly for `is_index`, a price table exactly for `price`. */
  function TableFor(dataType: string, isIndex: bool): (t: string)
    requires dataType in {"price", "indicator"}
    ensures t in {"equity_price_data", "index_price_data", "equity_indicators", "index_indicators"}
    ensures t in {"index_price_data", "index_indicators"} <==> isIndex
    ensures t in {"equity_price_data", "index_price_data"} <==> dataType == "price"
  {
    if dataType == "price" then
      (if isIndex then "index_price_data" else "equity_price_data")
    else
      (if isIndex then "index_indicators" else "equity_indicators")
  }

  /** The data type is checked first, then the timeframe; both checks come
      before any database access. */
  function Select(timeframe: string, dataType: string, isIndex: bool): (s: Selection)
    ensures s == BadDataType <==> dataType !in {"price", "indicator"}
    ensures s == BadTimeframe <==> dataType in {"price", "indicator"} && timeframe !in {"1wk", "1mo"}
    ensures s.Chosen? ==> s.table in {"equity_price_data", "index_price_data", "equity_indicators", "index_indicators"}
    ensures s.Chosen? ==> (s.table in {"index_price_data", "index_indicators"} <==> isIndex)
    ensures s.Chosen? ==> (s.table in {"equity_price_data", "index_price_data"} <==> dataType == "price")
  {
    if dataType !in {"price", "indicator"} then BadDataType
    else if timeframe !in {"1wk", "1mo"} then BadTimeframe
    else Chosen(TableFor(dataType, isIndex))
  }

  // ---------------------------------------------------------------------
  // The SQLite rule

  /** The dates SQLite's date functions read: month 1 to 12, day 1 to 31,
      whether or not the month has that many days. */
  predicate SqlReadable(d: Date) {
    1 <= d.month <= 12 && 1 <= d.day <= 31
  }

  /** The day SQLite takes a readable date for: `day - 1` days after the
      1st of its month. */
  function SqlDay(d: Date): (r: Date)
    requires SqlReadable(d)
    ensures Valid(r)
  {
    AddDays(Date(d.year, d.month, 1), d.day - 1)
  }

  /** A calendar date is read as itself. */
  lemma SqlDayOfValid(d: Date)
    requires Valid(d)
    ensures SqlReadable(d) && SqlDay(d) == d
  {
    AddDaysOrdinal(Date(d.year, d.month, 1), d.day - 1);
    OrdinalInjective(SqlDay(d), d);
  }

  /** A day past the month's end is read as the day that many days into
      the next month (`2025-02-30` as `2025-03-02`); only the short months
      have such days, so the next month is in the same year. */
  lemma SqlDayOverflow(d: Date)
    requires SqlReadable(d) && !Valid(d)
    ensures d.month < 12
    ensures SqlDay(d) == Date(d.year, d.month + 1, d.day - DaysInMonth(d.year, d.month))
  {
    var e := Date(d.year, d.month + 1, d.day - DaysInMonth(d.year, d.month));
    AddDaysOrdinal(Date(d.year, d.month, 1), d.day - 1);
    OrdinalInjective(SqlDay(d), e);
  }

  /** `strftime('%w', date)`: Sunday is 0, Monday 1, of the day SQLite
      reads; NULL for a date it cannot read. */
  function StrftimeWeekday(d: Date): Option<string> {
    if SqlReadable(d) then Some([DigitChar((Weekday(SqlDay(d)) + 1) % 7)]) else None
  }

  /** `strftime('%d', date)`: the zero-padded day of the month of the day
      SQLite reads. */
  function StrftimeDay(d: Date): Option<string> {
    if SqlReadable(d) then Some(Pad(SqlDay(d).day, 2)) else None
  }

  /** SQL `a <> b`: NULL, hence not true, when a is NULL. */
  predicate SqlDiffers(a: Option<string>, b: string) {
    a.Some? && a.value != b
  }

  /** The WHERE clause: the timeframe matches and the date breaks the rule
      of that timeframe. */
  predicate Doomed(r: Row, timeframe: string) {
    r.timeframe == timeframe
    && ((timeframe == "1wk" && SqlDiffers(StrftimeWeekday(r.date), "1"))
        || (timeframe == "1mo" && SqlDiffers(StrftimeDay(r.date), "01")))
  }

  /** In calendar terms the weekly rule deletes exactly the readable dates
      SQLite does not take for a Monday. */
  lemma WeeklyRuleIsNotMonday(r: Row)
    ensures Doomed(r, "1wk") <==> r.timeframe == "1wk" && SqlReadable(r.date) && Weekday(SqlDay(r.date)) != Monday
  {
    if SqlReadable(r.date) {
      var d := SqlDay(r.date);
      WeekdayRange(d);
      MondayDigit(Weekday(d));
    }
  }

  /** `%w` prints "1" exactly for Monday. */
  lemma MondayDigit(w: int)
    requires 0 <= w < 7
    ensures [DigitChar((w + 1) % 7)] == "1" <==> w == Monday
  {
    assert [DigitChar((w + 1) % 7)] == "1" <==> DigitChar((w + 1) % 7) == '1';
  }

  /** In calendar terms the monthly rule deletes exactly the readable
      dates SQLite does not take for a 1st. */
  lemma MonthlyRuleIsNotFirst(r: Row)
    ensures Doomed(r, "1mo") <==> r.timeframe == "1mo" && SqlReadable(r.date) && SqlDay(r.date).day != 1
  {
    if SqlReadable(r.date) {
      var s := Pad(SqlDay(r.date).day, 2);
      PadRoundTrip(SqlDay(r.date).day, 2);
      PadRoundTrip(1, 2);
      assert Pad(1, 2) == "01";
      if s == "01" {
        assert DigitsValue(s) == DigitsValue(Pad(1, 2));
      }
    }
  }

  /** On a calendar date the weekly rule deletes exactly the non-Mondays
      and the monthly rule exactly the days other than the 1st. */
  lemma CalendarRules(r: Row)
    requires Valid(r.date)
    ensures Doomed(r, "1wk") <==> r.timeframe == "1wk" && Weekday(r.date) != Monday
    ensures Doomed(r, "1mo") <==> r.timeframe == "1mo" && r.date.day != 1
  {
    SqlDayOfValid(r.date);
    WeeklyRuleIsNotMonday(r);
    MonthlyRuleIsNotFirst(r);
  }

  /** A readable date past its month's end is deleted from `1mo` unless it
      is exactly one day past the end, which SQLite reads as the next 1st. */
  lemma OffCalendarMonthly(r: Row)
    requires SqlReadable(r.date) && !Valid(r.date)
    ensures Doomed(r, "1mo") <==> r.timeframe == "1mo" && r.date.day != DaysInMonth(r.date.year, r.date.month) + 1
  {
    SqlDayOverflow(r.date);
    MonthlyRuleIsNotFirst(r);
  }

  // ---------------------------------------------------------------------
  // The rows a DELETE leaves

  /** The rows not matched by the WHERE clause, in table order. */
  function Kept(rows: seq<Row>, timeframe: string): (r: seq<Row>)
    ensures |r| <= |rows|
  {
    if |rows| == 0 then []
    else
      var last := rows[|rows| - 1];
      Kept(rows[..|rows| - 1], timeframe) + (if Doomed(last, timeframe) then [] else [last])
  }

  /** The kept rows are exactly the rows the WHERE clause does not match. */
  lemma {:induction false} KeptMembers(rows: seq<Row>, timeframe: string)
    ensures forall x :: x in Kept(rows, timeframe) <==> x in rows && !Doomed(x, timeframe)
  {
    if |rows| > 0 {
      var init, last := rows[..|rows| - 1], rows[|rows| - 1];
      KeptMembers(init, timeframe);
      assert rows == init + [last];
    }
  }

  /** After the delete, a row of the cleaned timeframe with a calendar date
      is on a Monday (`1wk`) or on the 1st (`1mo`). */
  lemma KeptConforms(rows: seq<Row>, timeframe: string)
    requires timeframe in {"1wk", "1mo"}
    ensures forall x :: x in Kept(rows, timeframe) && x.timeframe == timeframe && Valid(x.date) ==>
      (timeframe == "1wk" ==> Weekday(x.date) == Monday) && (timeframe == "1mo" ==> x.date.day == 1)
  {
    KeptMembers(rows, timeframe);
    forall x | x in Kept(rows, timeframe) && x.timeframe == timeframe && Valid(x.date)
      ensures (timeframe == "1wk" ==> Weekday(x.date) == Monday) && (timeframe == "1mo" ==> x.date.day == 1)
    {
      CalendarRules(x);
    }
  }

  /** The rows of one timeframe, in table order. */
  function OfTimeframe(rows: seq<Row>, timeframe: string): (r: seq<Row>)
    ensures forall x :: x in r <==> x in rows && x.timeframe == timeframe
  {
    if |rows| == 0 then []
    else
      var last := rows[|rows| - 1];
      OfTimeframe(rows[..|rows| - 1], timeframe) + (if last.timeframe == timeframe then [last] else [])
  }

  /** The rows of every other timeframe are untouched, in order. */
  lemma {:induction false} OtherTimeframesUntouched(rows: seq<Row>, timeframe: string, other: string)
    requires other != timeframe
    ensures OfTimeframe(Kept(rows, timeframe), other) == OfTimeframe(rows, other)
  {
    if |rows| > 0 {
      var init := rows[..|rows| - 1];
      var last := rows[|rows| - 1];
      OtherTimeframesUntouched(init, timeframe, other);
      var k := Kept(init, timeframe);
      if Doomed(last, timeframe) {
        assert Kept(rows, timeframe) == k;
      } else {
        var k' := k + [last];
        assert Kept(rows, timeframe) == k';
        assert k'[..|k'| - 1] == k;
      }
    }
  }

  /** A table in which every row already conforms is left as it is. */
  lemma {:induction false} KeptAllConform(rows: seq<Row>, timeframe: string)
    requires forall i :: 0 <= i < |rows| ==> !Doomed(rows[i], timeframe)
    ensures Kept(rows, timeframe) == rows
  {
    if |rows| > 0 {
      var init := rows[..|rows| - 1];
      assert forall i :: 0 <= i < |init| ==> init[i] == rows[i];
      KeptAllConform(init, timeframe);
      KeptConformingLast(rows, timeframe);
    }
  }

  /** A conforming last row is kept after an unchanged prefix. */
  lemma KeptConformingLast(rows: seq<Row>, timeframe: string)
    requires |rows| > 0 && !Doomed(rows[|rows| - 1], timeframe)
    requires Kept(rows[..|rows| - 1], timeframe) == rows[..|rows| - 1]
    ensures Kept(rows, timeframe) == rows
  {
    assert rows[..|rows| - 1] + [rows[|rows| - 1]] == rows;
  }

  /** A second delete finds nothing to remove. */
  lemma KeptIdempotent(rows: seq<Row>, timeframe: string)
    ensures Kept(Kept(rows, timeframe), timeframe) == Kept(rows, timeframe)
  {
    var k := Kept(rows, timeframe);
    KeptMembers(rows, timeframe);
    assert forall i :: 0 <= i < |k| ==> k[i] in k;
    KeptAllConform(k, timeframe);
  }

  /** The rows the weekly/monthly job writes never survive the rule: a
      weekly candle is dated on the Friday of a Monday bar, a monthly candle
      on a month's last day. */
  lemma GeneratedRowsDoomed(symbolId: int, b: WeeklyMonthly.Bar, m: WeeklyMonthly.Candle)
    requires Valid(b.date) && Weekday(b.date) == Monday
    requires m.timeframe == "1mo" && Valid(m.date) && Next(m.date).day == 1
    ensures var c := WeeklyMonthly.MondayCandle(symbolId, b);
      Doomed(Row(c.symbolId, c.timeframe, c.date), "1wk")
    ensures Doomed(Row(m.symbolId, m.timeframe, m.date), "1mo")
  {
    var c := WeeklyMonthly.MondayCandle(symbolId, b);
    AddDaysWeekday(b.date, 4);
    CalendarRules(Row(c.symbolId, c.timeframe, c.date));
    CalendarRules(Row(m.symbolId, m.timeframe, m.date));
    NextIsNextDay(m.date);
  }

  // ---------------------------------------------------------------------
  // The database

  datatype Outcome =
    | DataTypeError          // ValueError raised for the data type
    | TimeframeError         // ValueError raised for the timeframe
    | Failed(table: string)  // the statement failed; logged, nothing deleted
    | Deleted(table: string, count: nat)

  class Database {
    var tables: map<string, seq<Row>>

    constructor (initial: map<string, seq<Row>>)
      ensures tables == initial
    {
      tables := initial;
    }

    /** `DELETE FROM table WHERE timeframe = ? AND <rule>` followed by a
        commit; a missing table makes the statement fail and is logged. */
    method DeleteWhere(table: string, timeframe: string) returns (outcome: Outcome)
      modifies this
      ensures table !in old(tables) ==> outcome == Failed(table) && tables == old(tables)
      ensures table in old(tables) ==>
        tables == old(tables)[table := Kept(old(tables)[table], timeframe)]
        && outcome == Deleted(table, |old(tables)[table]| - |Kept(old(tables)[table], timeframe)|)
    {
      if table !in tables {
        return Failed(table);
      }
      var rows := tables[table];
      var kept := [];
      for i := 0 to |rows|
        invariant kept == Kept(rows[..i], timeframe)
      {
        assert rows[..i + 1][..i] == rows[..i];
        if !Doomed(rows[i], timeframe) {
          kept := kept + [rows[i]];
        }
      }
      assert rows[..|rows|] == rows;
      tables := tables[table := kept];
      outcome := Deleted(table, |rows| - |kept|);
    }

    /** `delete_invalid_timeframe_rows(timeframe, data_type, is_index)`. */
    method DeleteInvalidTimeframeRows(timeframe: string, dataType: string, isIndex: bool)
      returns (outcome: Outcome)
      modifies this
      ensures Select(timeframe, dataType, isIndex) == BadDataType ==>
        outcome == DataTypeError && tables == old(tables)
      ensures Select(timeframe, dataType, isIndex) == BadTimeframe ==>
        outcome == TimeframeError && tables == old(tables)
      ensures Select(timeframe, dataType, isIndex).Chosen? ==>
        var table := Select(timeframe, dataType, isIndex).table;
        if table in old(tables) then
          tables == old(tables)[table := Kept(old(tables)[table], timeframe)]
          && outcome == Deleted(table, |old(tables)[table]| - |Kept(old(tables)[table], timeframe)|)
        else
          tables == old(tables) && outcome == Failed(table)
    {
      var s := Select(timeframe, dataType, isIndex);
      match s {
        case BadDataType => outcome := DataTypeError;
        case BadTimeframe => outcome := TimeframeError;
        case Chosen(table) => outcome := DeleteWhere(table, timeframe);
      }
    }

    /** The earlier `delete_non_monday_weekly(is_index)`: the weekly rule on
        a price table, with no argument checks. */
    method DeleteNonMondayWeekly(isIndex: bool) returns (outcome: Outcome)
      modifies this
      ensures var table := if isIndex then "index_price_data" else "equity_price_data";
        if table in old(tables) then
          tables == old(tables)[table := Kept(old(tables)[table], "1wk")]
          && outcome == Deleted(table, |old(tables)[table]| - |Kept(old(tables)[table], "1wk")|)
        else
          tables == old(tables) && outcome == Failed(table)
    {
      var table := if isIndex then "index_price_data" else "equity_price_data";
      outcome := DeleteWhere(table, "1wk");
    }
  }
}
