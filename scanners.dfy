/** The scanners: a boolean mask over the base frame, sorted by date
    (newest first) and then symbol, and exported as CSV
    (services/scanners/scanner_HM.py, scanner_WIP.py, scanner_play.py and
    the older archive/scanners.py). */
module Scanners {
  import opened Base
  import opened Calendar
  import opened Text
  import opened Float
  import opened Frames
  import opened ScanData

  // ---------------------------------------------------------------------
  // The masks

  /** The "hilega milega" mask of services/scanners/scanner_HM.py. */
  predicate HilegaMilega(r: BaseRow) {
    var d := r.daily;
    && GeConst(d.adjClose, 100.0)
    && AtLeast(DivOpt(d.rsi3, d.rsi9), 1.15)
    && AtLeast(DivOpt(d.rsi9, d.emaRsi93), 1.05)
    && AtLeast(DivOpt(d.emaRsi93, d.wmaRsi921), 1.0)
    && LtConst(d.rsi3, 60.0)
    && GtConst(r.weeklyRsi3, 50.0)
    && GtConst(r.monthlyRsi3, 50.0)
    && LeConst(d.pctChange, 5.0)
  }

  /** The work-in-progress mask of services/scanners/scanner_WIP.py: an
      upward crossing of rsi_3 through 55. */
  predicate Wip(r: BaseRow) {
    var d := r.daily;
    && GeConst(d.adjClose, 100.0)
    && Above(DivOpt(d.rsi9, d.emaRsi93), 1.1)
    && Above(DivOpt(d.emaRsi93, d.wmaRsi921), 1.1)
    && LeConst(r.prevRsi3, 55.0)
    && GtConst(d.rsi3, 55.0)
    && LtConst(d.rsi3, 80.0)
    && GtConst(r.weeklyRsi3, 50.0)
    && GtConst(r.monthlyRsi3, 50.0)
    && LeConst(d.pctChange, 5.0)
  }

  /** The mask of `scanner` in services/scanners/scanner_play.py; its
      pct_price_change and delv_pct clauses are commented out. */
  predicate Play(r: BaseRow) {
    var d := r.daily;
    && GeConst(d.adjClose, 100.0)
    && AtLeast(DivOpt(d.rsi3, d.rsi9), 1.15)
    && AtLeast(DivOpt(d.rsi9, d.emaRsi93), 1.04)
    && AtLeast(DivOpt(d.emaRsi93, d.wmaRsi921), 1.0)
    && LtConst(d.rsi3, 60.0)
    && GtConst(r.weeklyRsi3, 50.0)
    && GtConst(r.monthlyRsi3, 50.0)
  }

  /** archive/scanners.py calls "hilega milega" the mask the services
      call work-in-progress, and the other way round. */
  predicate ArchiveHilegaMilega(r: BaseRow) { Wip(r) }
  predicate ArchiveWip(r: BaseRow) { HilegaMilega(r) }

  // ---------------------------------------------------------------------
  // Filter and sort

  /** `sort_values(['date', 'symbol'], ascending=[False, True])`. */
  predicate ScanLe(a: BaseRow, b: BaseRow) {
    Less(b.daily.date, a.daily.date)
    || (a.daily.date == b.daily.date && StrLe(a.daily.symbol, b.daily.symbol))
  }

  lemma ScanLeTotal()
    ensures Total(ScanLe)
  {
    forall a: BaseRow, b: BaseRow
      ensures ScanLe(a, b) || ScanLe(b, a)
    {
      StrLeTotal(a.daily.symbol, b.daily.symbol);
    }
  }

  /** The masked rows, newest date first and then by symbol. */
  function Scan(rows: seq<BaseRow>, keep: BaseRow -> bool): (r: seq<BaseRow>)
    ensures Sorted(r, ScanLe)
    ensures forall x :: x in r <==> x in rows && keep(x)
    ensures multiset(r) == multiset(Filter(rows, keep))
  {
    ScanLeTotal();
    SortSorted(Filter(rows, keep), ScanLe);
    SortMembers(Filter(rows, keep), ScanLe);
    Sort(Filter(rows, keep), ScanLe)
  }

  /** services/scanners/export_service.py's `export_to_csv(df, folder,
      base_name)` takes three arguments. */
  const ExportArity := 3

  /** Mask, sort and export inside the scanner's `try`: a call to the
      exporter with the wrong number of arguments raises TypeError and the
      `except` returns an empty frame; the exporter catches its own I/O
      errors, so otherwise the sorted rows are returned. */
  function RunScan(rows: seq<BaseRow>, keep: BaseRow -> bool, exportArgs: nat): (r: seq<BaseRow>)
    ensures exportArgs != ExportArity ==> r == []
    ensures exportArgs == ExportArity ==> Sorted(r, ScanLe) && forall x :: x in r <==> x in rows && keep(x)
  {
    var filtered := Scan(rows, keep);
    if exportArgs != ExportArity then [] else filtered
  }

  /** `scanner_hilega_milega()` of the services: it calls
      `export_to_csv(df_filtered, "HM")`. */
  function ScannerHilegaMilega(rows: seq<BaseRow>): seq<BaseRow>
  {
    RunScan(rows, HilegaMilega, 2)
  }

  /** `scanner_WIP()` of the services: it calls
      `export_to_csv(df_filtered, "WIP")`. */
  function ScannerWip(rows: seq<BaseRow>): seq<BaseRow>
  {
    RunScan(rows, Wip, 2)
  }

  /** Both service scanners always end in the `except`. */
  lemma ServiceScannersEmpty(rows: seq<BaseRow>)
    ensures ScannerHilegaMilega(rows) == [] && ScannerWip(rows) == []
  {
  }

  /** `scanner(start_date, file_name)` of scanner_play.py over a 365-day
      window ending at start_date. */
  function PlayScan(start: Option<string>, today: Date,
                    daily: seq<DailyRow>, weekly: seq<PeriodRow>, monthly: seq<PeriodRow>): (r: seq<BaseRow>)
    requires Valid(today)
    ensures forall x :: x in r <==> x in BaseData(365, start, today, daily, weekly, monthly) && Play(x)
    ensures Sorted(r, ScanLe)
  {
    RunScan(BaseData(365, start, today, daily, weekly, monthly), Play, ExportArity)
  }

  /** The archive scanners export with the archive's own two-argument
      `export_to_csv(df, name)`, so they return their rows. */
  function ArchiveScanHilegaMilega(rows: seq<BaseRow>): (r: seq<BaseRow>)
    ensures forall x :: x in r <==> x in rows && Wip(x)
    ensures Sorted(r, ScanLe)
  {
    Scan(rows, ArchiveHilegaMilega)
  }

  function ArchiveScanWip(rows: seq<BaseRow>): (r: seq<BaseRow>)
    ensures forall x :: x in r <==> x in rows && HilegaMilega(x)
    ensures Sorted(r, ScanLe)
  {
    Scan(rows, ArchiveWip)
  }

  // ---------------------------------------------------------------------
  // What the masks mean

  /** Every comparison with NaN is false, so a row the HM mask keeps has
      every column it reads defined. */
  lemma HilegaMilegaDefined(r: BaseRow)
    requires HilegaMilega(r)
    ensures r.daily.adjClose.Some? && r.daily.rsi3.Some? && r.daily.rsi9.Some?
    ensures r.daily.emaRsi93.Some? && r.daily.wmaRsi921.Some? && r.daily.pctChange.Some?
    ensures r.weeklyRsi3.Some? && r.monthlyRsi3.Some?
  {
  }

  /** With positive rsi_9, EMA and WMA, the HM mask is its ratio bounds
      read as products. */
  lemma HilegaMilegaPositive(r: BaseRow)
    requires r.daily.rsi3.Some? && r.daily.rsi9.Some? && r.daily.emaRsi93.Some? && r.daily.wmaRsi921.Some?
    requires r.daily.rsi9.value > 0.0 && r.daily.emaRsi93.value > 0.0 && r.daily.wmaRsi921.value > 0.0
    ensures var d := r.daily;
      HilegaMilega(r) <==>
        && GeConst(d.adjClose, 100.0)
        && d.rsi3.value >= 1.15 * d.rsi9.value
        && d.rsi9.value >= 1.05 * d.emaRsi93.value
        && d.emaRsi93.value >= d.wmaRsi921.value
        && d.rsi3.value < 60.0
        && GtConst(r.weeklyRsi3, 50.0) && GtConst(r.monthlyRsi3, 50.0)
        && LeConst(d.pctChange, 5.0)
  {
    var d := r.daily;
    DivAtLeast(d.rsi3.value, d.rsi9.value, 1.15);
    DivAtLeast(d.rsi9.value, d.emaRsi93.value, 1.05);
    DivAtLeast(d.emaRsi93.value, d.wmaRsi921.value, 1.0);
  }

  /** A row the WIP mask keeps has rsi_3 crossing 55 upward from a
      defined previous value, so a symbol's first row is never kept. */
  lemma WipCrossing(r: BaseRow)
    requires Wip(r)
    ensures r.prevRsi3.Some? && r.daily.rsi3.Some?
    ensures r.prevRsi3.value <= 55.0 < r.daily.rsi3.value < 80.0
  {
  }

  /** On the shifted daily rows, the first row of each symbol fails the
      WIP mask whatever its other columns hold. */
  lemma WipSkipsFirstRow(rows: seq<DailyRow>, i: nat, w: Option<real>, m: Option<real>)
    requires Pairwise(rows, DailyLess) && i < |rows|
    requires forall k :: 0 <= k < i ==> rows[k].symbolId != rows[i].symbolId
    ensures !Wip(Shift(rows)[i].(weeklyRsi3 := w, monthlyRsi3 := m))
  {
    PrevIsLatestEarlier(rows, i);
  }

  /** The play mask drops the HM mask's price-change clause and relaxes
      its 1.05 to 1.04, so it keeps every row HM keeps. */
  lemma HilegaMilegaIsPlay(r: BaseRow)
    requires HilegaMilega(r)
    ensures Play(r)
  {
  }

  // ---------------------------------------------------------------------
  // scanner_play_multi_years

  /** `int(s)` on a base-ten integer: surrounding white space, an
      optional sign and at least one digit. */
  function ParseInt(s: string): (r: Option<int>)
    ensures r.Some? ==> |Strip(s)| > 0
  {
    var t := Strip(s);
    if |t| > 0 && (t[0] == '-' || t[0] == '+') && |t| > 1 && AllDigits(t[1..]) then
      Some(if t[0] == '-' then -(DigitsValue(t[1..]) as int) else DigitsValue(t[1..]) as int)
    else if |t| > 0 && AllDigits(t) then Some(DigitsValue(t) as int)
    else None
  }

  /** The year the loop counts back from: 2025 when the text is not an
      integer. */
  function StartYear(s: string): int
  {
    var y := ParseInt(s);
    if y.Some? then y.value else 2025
  }

  /** The years scanned: start, start - 1, ... for `lookback` years,
      cut short at the first year `datetime(year, 12, 31)` rejects, whose
      ValueError leaves the loop for the outer `except`. */
  function Years(start: int, lookback: int): (ys: seq<int>)
    ensures |ys| <= if lookback < 0 then 0 else lookback
    ensures forall k :: 0 <= k < |ys| ==> 1 <= ys[k] <= 9999
  {
    if lookback <= 0 || start < 1 || start > 9999 then []
    else [start] + Years(start - 1, lookback - 1)
  }

  lemma {:induction false} YearsSpec(start: int, lookback: int)
    ensures var ys := Years(start, lookback);
      && (lookback <= 0 ==> ys == [])
      && (forall k :: 0 <= k < |ys| ==> ys[k] == start - k && 1 <= ys[k] <= 9999)
      && (1 <= start <= 9999 && lookback > 0 ==> |ys| == if lookback < start then lookback else start)
  {
    if lookback > 0 && 1 <= start <= 9999 {
      YearsSpec(start - 1, lookback - 1);
    }
  }

  /** What one year's scan wrote: the file name is the year. */
  datatype Export = Export(year: int, rows: seq<BaseRow>)

  function YearEnd(year: int): Date { Date(year, 12, 31) }

  /** `datetime(year, 12, 31).strftime("%Y-%m-%d")`. */
  function YearEndText(year: int): string
    requires 1 <= year <= 9999
  {
    Pad(year, 4) + "-12-31"
  }

  lemma YearEndTextIso(year: int)
    requires 1 <= year <= 9999
    ensures YearEndText(year) == IsoFormat(YearEnd(year))
  {
    assert Pad(12, 2) == "12" && Pad(31, 2) == "31";
  }

  /** The scan of the year ending on 31 December of that year. */
  function YearScan(year: int, today: Date,
                    daily: seq<DailyRow>, weekly: seq<PeriodRow>, monthly: seq<PeriodRow>): seq<BaseRow>
    requires Valid(today) && 1 <= year <= 9999
  {
    PlayScan(Some(YearEndText(year)), today, daily, weekly, monthly)
  }

  /** The year's scan reads the 365 days up to 31 December of the year. */
  lemma YearScanWindow(year: int, today: Date,
                       daily: seq<DailyRow>, weekly: seq<PeriodRow>, monthly: seq<PeriodRow>)
    requires Valid(today) && 1 <= year <= 9999
    ensures YearScan(year, today, daily, weekly, monthly)
         == Scan(BaseData(365, None, YearEnd(year), daily, weekly, monthly), Play)
  {
    YearEndTextIso(year);
    IsoRoundTrip(YearEnd(year));
  }

  /** Each year's scan, as one value the run applies year by year. */
  function ScanOf(today: Date, daily: seq<DailyRow>, weekly: seq<PeriodRow>, monthly: seq<PeriodRow>): int -> seq<BaseRow>
  {
    (y: int) => if Valid(today) && 1 <= y <= 9999 then YearScan(y, today, daily, weekly, monthly) else []
  }

  /** The exports written for the years ys, in order. */
  function Exports(ys: seq<int>, scan: int -> seq<BaseRow>): seq<Export>
  {
    if |ys| == 0 then [] else Exports(ys[..|ys| - 1], scan) + [Export(ys[|ys| - 1], scan(ys[|ys| - 1]))]
  }

  function YearExports(ys: seq<int>, today: Date,
                       daily: seq<DailyRow>, weekly: seq<PeriodRow>, monthly: seq<PeriodRow>): seq<Export>
  {
    Exports(ys, ScanOf(today, daily, weekly, monthly))
  }

  /** The i-th pass scans year start - i, unless that year is out of
      range, which ends the loop with every year scanned. */
  lemma YearsAt(start: int, lookback: int, i: nat)
    requires i < lookback && i <= |Years(start, lookback)|
    ensures i < |Years(start, lookback)| <==> 1 <= start - i <= 9999
    ensures i < |Years(start, lookback)| ==> Years(start, lookback)[i] == start - i
  {
    YearsSpec(start, lookback);
  }

  lemma YearExportsStep(ys: seq<int>, i: nat, today: Date,
                        daily: seq<DailyRow>, weekly: seq<PeriodRow>, monthly: seq<PeriodRow>)
    requires Valid(today) && i < |ys| && 1 <= ys[i] <= 9999
    ensures YearExports(ys[..i + 1], today, daily, weekly, monthly)
         == YearExports(ys[..i], today, daily, weekly, monthly) + [Export(ys[i], YearScan(ys[i], today, daily, weekly, monthly))]
  {
    var scan := ScanOf(today, daily, weekly, monthly);
    assert ys[..i + 1][..i] == ys[..i];
    assert Exports(ys[..i + 1], scan) == Exports(ys[..i], scan) + [Export(ys[i], scan(ys[i]))];
  }

  /** The scanner folder and what the yearly scans wrote into it. */
  class PlayRunner {
    var cleared: bool
    var exports: seq<Export>

    constructor ()
      ensures !cleared && exports == []
    {
      cleared := false;
      exports := [];
    }

    /** `scanner_play_multi_years(start_year, lookback_years)`: clear the
        folder, then scan each year back from the start year. */
    method PlayMultiYears(startYear: string, lookback: int, today: Date,
                          daily: seq<DailyRow>, weekly: seq<PeriodRow>, monthly: seq<PeriodRow>)
      requires Valid(today)
      modifies this
      ensures cleared
      ensures var ys := Years(StartYear(startYear), lookback);
        exports == YearExports(ys, today, daily, weekly, monthly)
    {
      cleared := true;
      exports := [];
      var start := StartYear(startYear);
      ScanYears(start, lookback, today, daily, weekly, monthly);
    }

    /** The loop over `range(lookback_years)` from the parsed start year. */
    method ScanYears(start: int, lookback: int, today: Date,
                     daily: seq<DailyRow>, weekly: seq<PeriodRow>, monthly: seq<PeriodRow>)
      requires Valid(today) && cleared && exports == []
      modifies this
      ensures cleared
      ensures exports == YearExports(Years(start, lookback), today, daily, weekly, monthly)
    {
      ghost var ys := Years(start, lookback);
      var i := 0;
      while i < lookback
        invariant 0 <= i <= |ys| && cleared
        invariant exports == YearExports(ys[..i], today, daily, weekly, monthly)
        decreases lookback - i
      {
        YearsAt(start, lookback, i);
        var year := start - i;
        if year < 1 || year > 9999 {
          break;
        }
        ScanYearAt(ys, i, year, today, daily, weekly, monthly);
        i := i + 1;
      }
      assert ys[..|ys|] == ys;
    }

    /** One pass of the loop, as a step of the exports of the first `i` years. */
    method ScanYearAt(ghost ys: seq<int>, ghost i: nat, year: int, today: Date,
                      daily: seq<DailyRow>, weekly: seq<PeriodRow>, monthly: seq<PeriodRow>)
      requires Valid(today) && i < |ys| && ys[i] == year && 1 <= year <= 9999
      requires exports == YearExports(ys[..i], today, daily, weekly, monthly)
      modifies this
      ensures cleared == old(cleared)
      ensures exports == YearExports(ys[..i + 1], today, daily, weekly, monthly)
    {
      YearExportsStep(ys, i, today, daily, weekly, monthly);
      ScanYear(year, today, daily, weekly, monthly);
    }

    /** One pass of the loop: scan the year and export under its name. */
    method ScanYear(year: int, today: Date,
                    daily: seq<DailyRow>, weekly: seq<PeriodRow>, monthly: seq<PeriodRow>)
      requires Valid(today) && 1 <= year <= 9999
      modifies this
      ensures cleared == old(cleared)
      ensures exports == old(exports) + [Export(year, YearScan(year, today, daily, weekly, monthly))]
    {
      var rows := YearScan(year, today, daily, weekly, monthly);
      exports := exports + [Export(year, rows)];
    }
  }

  // ---------------------------------------------------------------------
  // The export file name

  const MonthAbbrevs: seq<string> :=
    ["Jan", "Feb", "Mar", "Apr", "May", "Jun", "Jul", "Aug", "Sep", "Oct", "Nov", "Dec"]

  /** `strftime('%d%b%Y')` in the C locale. */
  function DdMonYyyy(d: Date): string
    requires 0 <= d.year && Valid(d)
  {
    Pad(d.day, 2) + MonthAbbrevs[d.month - 1] + Pad(d.year, 4)
  }

  /** The month a three-letter abbreviation names. */
  function MonthOf(a: string): Option<int>
  {
    if a == "Jan" then Some(1) else if a == "Feb" then Some(2)
    else if a == "Mar" then Some(3) else if a == "Apr" then Some(4)
    else if a == "May" then Some(5) else if a == "Jun" then Some(6)
    else if a == "Jul" then Some(7) else if a == "Aug" then Some(8)
    else if a == "Sep" then Some(9) else if a == "Oct" then Some(10)
    else if a == "Nov" then Some(11) else if a == "Dec" then Some(12)
    else None
  }

  /** The file name `export_to_csv` writes: `{base}_{ddMonYYYY}.csv`. */
  function CsvName(base: string, d: Date): string
    requires 0 <= d.year && Valid(d)
  {
    base + "_" + DdMonYyyy(d) + ".csv"
  }

  /** The older exporter prefixes the scanner name with "Scanner_". */
  function ArchiveCsvName(name: string, d: Date): string
    requires 0 <= d.year && Valid(d)
  {
    CsvName("Scanner_" + name, d)
  }

  /** Reads the date back from the last thirteen characters of a file
      name. */
  function NameDate(f: string): Option<Date>
  {
    if |f| < 13 then None
    else
      var t := f[|f| - 13..];
      var mo := MonthOf(t[2..5]);
      if t[9..] == ".csv" && AllDigits(t[0..2]) && AllDigits(t[5..9]) && mo.Some? then
        var d := Date(DigitsValue(t[5..9]), mo.value, DigitsValue(t[0..2]));
        if Valid(d) then Some(d) else None
      else None
  }

  lemma MonthOfAbbrev(m: int)
    requires 1 <= m <= 12
    ensures MonthOf(MonthAbbrevs[m - 1]) == Some(m)
  {
  }

  /** The date in the file name is the export date. */
  lemma CsvNameDate(base: string, d: Date)
    requires Valid(d) && 0 <= d.year <= 9999
    ensures NameDate(CsvName(base, d)) == Some(d)
  {
    var f := CsvName(base, d);
    var t := f[|f| - 13..];
    PadRoundTrip(d.day, 2);
    PadRoundTrip(d.year, 4);
    PadDigits(d.day, 2);
    PadDigits(d.year, 4);
    MonthOfAbbrev(d.month);
    assert t == Pad(d.day, 2) + MonthAbbrevs[d.month - 1] + Pad(d.year, 4) + ".csv";
    assert t[0..2] == Pad(d.day, 2);
    assert t[2..5] == MonthAbbrevs[d.month - 1];
    assert t[5..9] == Pad(d.year, 4);
    assert t[9..] == ".csv";
  }

  /** The older name starts with "Scanner_" and the scanner name. */
  lemma ArchiveCsvNamePrefix(name: string, d: Date)
    requires Valid(d) && 0 <= d.year <= 9999
    ensures var f := ArchiveCsvName(name, d);
      |f| == |name| + 22 && f[..8] == "Scanner_" && f[8..8 + |name|] == name
      && NameDate(f) == Some(d)
  {
    CsvNameDate("Scanner_" + name, d);
  }
}
