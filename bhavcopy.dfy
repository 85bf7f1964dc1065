/** NSE daily bhavcopy files: the file name of a trading day, the range of
    days downloaded after the latest stored date, the date read back from a
    file name, and the upsert of each symbol's first matching row into
    `equity_price_data` as a `1d` bar. */
module Bhavcopy {
  import opened Base
  import opened Calendar
  import opened Text

  // ---------------------------------------------------------------------
  // File names

  const FilePrefix: string := "sec_bhavdata_full_"

  /** `sec_bhavdata_full_{date_str}.csv` */
  function FileName(dateStr: string): string {
    FilePrefix + dateStr + ".csv"
  }

  /** The outcome of the HTTP request: a status code, or an exception. */
  datatype Response = Status(code: int) | Unreachable

  /** `download_bhavcopy(date_str)`: the saved file's name when the server
      answers 200, otherwise None; no date means today's. The loader lists
      every saved file, and reads back the date it was saved for. */
  function DownloadBhavcopy(dateStr: Option<string>, today: Date, response: Response): (r: Option<string>)
    requires Valid(today) && 0 <= today.year
    ensures r.Some? <==> response == Status(200)
    ensures r.Some? ==> IsBhavcopy(BhavFile(r.value, true, [], []))
    ensures r.Some? && dateStr.Some? && '_' !in dateStr.value && '.' !in dateStr.value ==>
      FileDate(r.value) == ParseDdMmYyyy(dateStr.value)
    ensures r.Some? && dateStr.None? && 1 <= today.year <= 9999 ==> FileDate(r.value) == Some(today)
  {
    var ds := if dateStr.Some? then dateStr.value else DdMmYyyy(today);
    FileNameListed(ds);
    assert '_' !in ds && '.' !in ds ==> FileDate(FileName(ds)) == ParseDdMmYyyy(ds) by {
      if '_' !in ds && '.' !in ds { FileNameDate(ds); }
    }
    assert dateStr.None? && 1 <= today.year <= 9999 ==> FileDate(FileName(ds)) == Some(today) by {
      if dateStr.None? && 1 <= today.year <= 9999 { FileDateRoundTrip(today); }
    }
    if response == Status(200) then Some(FileName(ds)) else None
  }

  /** Every name the download saves is one the loader's listing keeps. */
  lemma FileNameListed(dateStr: string)
    ensures IsBhavcopy(BhavFile(FileName(dateStr), true, [], []))
  {
    var n := FileName(dateStr);
    assert Slice(n, 0, |FilePrefix|) == FilePrefix;
    assert n[|n| - 4..] == ".csv";
  }

  /** A date text without `_` or `.` is read back from the file name. */
  lemma FileNameDate(dateStr: string)
    requires '_' !in dateStr && '.' !in dateStr
    ensures FileDate(FileName(dateStr)) == ParseDdMmYyyy(dateStr)
  {
    var tail := dateStr + ".csv";
    assert FileName(dateStr) == "sec_bhavdata_full" + ['_'] + tail;
    SplitLast("sec_bhavdata_full", tail, '_');
    assert tail == dateStr + ['.'] + "csv";
    SplitFirst(dateStr, "csv", '.');
  }

  /** The trading date of a file: the last `_` piece of its name, up to the
      first `.`, read as ddmmyyyy. */
  function FileDate(name: string): Option<Date> {
    var parts := Split(name, '_');
    var stem := Split(parts[|parts| - 1], '.')[0];
    ParseDdMmYyyy(stem)
  }

  /** The date of a downloaded file reads back as the day it was
      downloaded for. */
  lemma FileDateRoundTrip(d: Date)
    requires Valid(d) && 1 <= d.year <= 9999
    ensures FileDate(FileName(DdMmYyyy(d))) == Some(d)
  {
    var digits := DdMmYyyy(d);
    PadDigits(d.day, 2);
    PadDigits(d.month, 2);
    PadDigits(d.year, 4);
    assert AllDigits(digits);
    assert '_' !in digits && '.' !in digits by {
      forall i | 0 <= i < |digits|
        ensures digits[i] != '_' && digits[i] != '.'
      {
        assert IsDigit(digits[i]);
      }
    }
    StemOfFileName(digits);
    DdMmYyyyRoundTrip(d);
  }

  lemma StemOfFileName(digits: string)
    requires '_' !in digits && '.' !in digits
    ensures var parts := Split(FileName(digits), '_');
      Split(parts[|parts| - 1], '.')[0] == digits
  {
    var y := digits + ".csv";
    assert FileName(digits) == "sec_bhavdata_full" + ['_'] + y;
    SplitLast("sec_bhavdata_full", y, '_');
    assert y == digits + ['.'] + "csv";
    SplitFirst(digits, "csv", '.');
  }

  // ---------------------------------------------------------------------
  // The range of days to download

  /** The day after the latest known date: the override when one is given
      (None when it is not a 'YYYY-MM-DD' date, which raises), else the
      stored maximum, else 30 days before today. */
  function StartDate(override: Option<string>, stored: Option<Date>, today: Date): (r: Option<Date>)
    requires Valid(today)
    requires stored.Some? ==> Valid(stored.value)
    ensures r.Some? ==> Valid(r.value)
    ensures override.Some? && override.value != "" ==>
      (r.Some? <==> ParseIso(override.value).Some?)
      && (r.Some? ==> r.value == Next(ParseIso(override.value).value))
    ensures (override.None? || override.value == "") && stored.Some? ==> r == Some(Next(stored.value))
    ensures (override.None? || override.value == "") && stored.None? ==> r == Some(Next(SubDays(today, 30)))
  {
    var latest := if override.Some? && override.value != "" then ParseIso(override.value) else stored;
    if override.Some? && override.value != "" && latest.None? then None
    else if latest.None? then Some(Next(SubDays(today, 30)))
    else Some(Next(latest.value))
  }

  /** The n days from start on. */
  function Days(start: Date, n: nat): (r: seq<Date>)
    requires Valid(start)
    ensures |r| == n && forall i :: 0 <= i < n ==> Valid(r[i])
  {
    if n == 0 then [] else Days(start, n - 1) + [AddDays(start, n - 1)]
  }

  /** The i-th day is i days after start, so the days are consecutive and
      distinct. */
  lemma {:induction false} DaysOrdinals(start: Date, n: nat)
    requires Valid(start)
    ensures forall i :: 0 <= i < n ==> Ordinal(Days(start, n)[i]) == Ordinal(start) + i
  {
    if n > 0 {
      DaysOrdinals(start, n - 1);
      AddDaysOrdinal(start, n - 1);
    }
  }

  /** The days from start to today are each downloaded once: every date in
      that interval is one of them, at the position of its distance from
      start. */
  lemma DaysCoverRange(start: Date, today: Date, e: Date)
    requires Valid(start) && Valid(today) && Valid(e)
    requires LessEq(start, e) && LessEq(e, today)
    ensures var n := Ordinal(today) - Ordinal(start) + 1;
      0 <= Ordinal(e) - Ordinal(start) < n && Days(start, n)[Ordinal(e) - Ordinal(start)] == e
  {
    LessIsOrdinalOrder(start, e);
    LessIsOrdinalOrder(e, today);
    DayAtDistance(start, Ordinal(today) - Ordinal(start) + 1, Ordinal(e) - Ordinal(start), e);
  }

  /** The day k days after start is the k-th of the days from start. */
  lemma DayAtDistance(start: Date, n: nat, k: nat, e: Date)
    requires Valid(start) && Valid(e) && k < n && Ordinal(e) == Ordinal(start) + k
    ensures Days(start, n)[k] == e
  {
    DaysOrdinals(start, n);
    OrdinalInjective(Days(start, n)[k], e);
  }

  lemma AddDaysNext(d: Date, n: nat)
    requires Valid(d)
    ensures AddDays(d, n + 1) == Next(AddDays(d, n))
  {
    AddDaysOrdinal(d, n + 1);
    AddDaysOrdinal(d, n);
    NextOrdinal(AddDays(d, n));
    OrdinalInjective(AddDays(d, n + 1), Next(AddDays(d, n)));
  }

  /** One turn of the day loop: the next day is one further from start,
      at most one past today, and the requested days grow by the current
      one. */
  lemma DayLoopStep(start: Date, count: nat, curr: Date, today: Date)
    requires Valid(start) && Valid(today) && Valid(curr)
    requires curr == AddDays(start, count) && Ordinal(curr) == Ordinal(start) + count
    requires LessEq(curr, today)
    ensures Valid(Next(curr)) && Next(curr) == AddDays(start, count + 1)
    ensures Ordinal(Next(curr)) == Ordinal(start) + count + 1 <= Ordinal(today) + 1
    ensures Days(start, count + 1) == Days(start, count) + [curr]
  {
    AddDaysNext(start, count);
    NextOrdinal(curr);
    LessIsOrdinalOrder(curr, today);
  }

  /** An entry of the download folder. */
  datatype Entry = Entry(name: string, isDirectory: bool)

  datatype DownloadOutcome = BadOverride | UpToDate | Downloaded(count: nat)

  class BhavcopyFolder {
    var entries: seq<Entry>
    /** The days `download_bhavcopy` was called for, each as ddmmyyyy. */
    var requested: seq<Date>

    constructor (initial: seq<Entry>)
      ensures entries == initial && requested == []
    {
      entries := initial;
      requested := [];
    }

    /** Clearing the folder: every file goes; a directory goes only where
        `shutil` is imported (it is not in the services version, so the
        `rmtree` call fails and is logged). */
    method Clear(removesDirectories: bool)
      modifies this
      ensures requested == old(requested)
      ensures entries == if removesDirectories then [] else DirectoriesOf(old(entries))
    {
      var kept := [];
      for i := 0 to |entries|
        invariant kept == if removesDirectories then [] else DirectoriesOf(entries[..i])
      {
        assert entries[..i + 1][..i] == entries[..i];
        if entries[i].isDirectory && !removesDirectories {
          kept := kept + [entries[i]];
        }
      }
      assert entries[..|entries|] == entries;
      entries := kept;
    }

    /** `download_missing_bhavcopies(override_date)` with the clock read
        as `today` and the stored maximum as `stored`. */
    method DownloadMissing(override: Option<string>, stored: Option<Date>, today: Date, removesDirectories: bool)
      returns (outcome: DownloadOutcome)
      requires Valid(today)
      requires stored.Some? ==> Valid(stored.value)
      modifies this
      ensures var s := StartDate(override, stored, today);
        if s.None? then outcome == BadOverride && entries == old(entries) && requested == old(requested)
        else if Less(today, s.value) then outcome == UpToDate && entries == old(entries) && requested == old(requested)
        else
          outcome.Downloaded? && outcome.count == Ordinal(today) - Ordinal(s.value) + 1
          && requested == old(requested) + Days(s.value, outcome.count)
          && entries == if removesDirectories then [] else DirectoriesOf(old(entries))
    {
      var s := StartDate(override, stored, today);
      if s.None? {
        return BadOverride;
      }
      var start := s.value;
      if Less(today, start) {
        return UpToDate;
      }
      Clear(removesDirectories);
      LessIsOrdinalOrder(today, start);
      LessIsOrdinalOrder(start, today);
      ghost var before := requested;
      ghost var cleared := entries;
      var count := 0;
      var curr := start;
      while LessEq(curr, today)
        invariant Valid(curr) && curr == AddDays(start, count)
        invariant Ordinal(curr) == Ordinal(start) + count <= Ordinal(today) + 1
        invariant requested == before + Days(start, count)
        invariant entries == cleared
        decreases Ordinal(today) - Ordinal(curr)
      {
        requested := requested + [curr];
        DayLoopStep(start, count, curr, today);
        count := count + 1;
        curr := Next(curr);
      }
      LessIsOrdinalOrder(today, curr);
      outcome := Downloaded(count);
    }
  }

  /** The directories among the entries, in order. */
  function DirectoriesOf(es: seq<Entry>): (r: seq<Entry>)
    ensures forall e :: e in r <==> e in es && e.isDirectory
  {
    if |es| == 0 then []
    else DirectoriesOf(es[..|es| - 1]) + (if es[|es| - 1].isDirectory then [es[|es| - 1]] else [])
  }

  // ---------------------------------------------------------------------
  // Loading the files into equity_price_data

  /** A cell of a bhavcopy file; NaN is an empty cell and is stored as
      NULL. */
  datatype CsvCell = Str(s: string) | Num(r: real) | NaN

  datatype BhavFile = BhavFile(name: string, readable: bool, header: seq<string>, rows: seq<seq<CsvCell>>)

  datatype DailyKey = DailyKey(symbolId: int, timeframe: string, date: Date)

  /** The columns the upsert writes; `is_final` is 1 on insert and kept on
      update. */
  datatype DailyRow = DailyRow(open: CsvCell, high: CsvCell, low: CsvCell, close: CsvCell,
                               adjClose: CsvCell, volume: CsvCell, delvPct: CsvCell, isFinal: int)

  type DailyTable = map<DailyKey, DailyRow>

  /** A symbol to load: its id and its text. */
  datatype Listed = Listed(id: int, symbol: string)

  /** The files the folder listing keeps: `.csv` names containing the
      bhavcopy prefix. */
  predicate IsBhavcopy(f: BhavFile) {
    |f.name| >= 4 && f.name[|f.name| - 4..] == ".csv" && Contains(f.name, FilePrefix)
  }

  /** `df.columns.str.strip().str.upper()`: one name per column, each
      stripped and upper-case. */
  function NormalizeHeader(header: seq<string>): (r: seq<string>)
    ensures |r| == |header|
    ensures forall i :: 0 <= i < |r| ==> Strip(r[i]) == r[i] && Upper(r[i]) == r[i]
  {
    var r := seq(|header|, i requires 0 <= i < |header| => Upper(Strip(header[i])));
    forall i | 0 <= i < |r|
      ensures Strip(r[i]) == r[i] && Upper(r[i]) == r[i]
    {
      UpperStrip(Strip(header[i]));
      StripIdempotent(header[i]);
      UpperIdempotent(Strip(header[i]));
    }
    r
  }

  /** The position of a column; the first one wins. */
  function ColumnIndex(header: seq<string>, name: string): (r: Option<nat>)
    ensures r.Some? ==> r.value < |header| && header[r.value] == name
    ensures r.Some? ==> name !in header[..r.value]
    ensures r.None? <==> name !in header
  {
    if |header| == 0 then None
    else if header[0] == name then Some(0)
    else
      var rest := ColumnIndex(header[1..], name);
      assert header == [header[0]] + header[1..];
      if rest.Some? then
        assert header[..rest.value + 1] == [header[0]] + header[1..][..rest.value];
        Some(rest.value + 1)
      else None
  }

  function CellAt(row: seq<CsvCell>, i: nat): CsvCell {
    if i < |row| then row[i] else NaN
  }

  /** `row.get(name, None)`: the cell, or NULL when the column is absent. */
  function Field(header: seq<string>, row: seq<CsvCell>, name: string): CsvCell {
    var c := ColumnIndex(header, name);
    if c.Some? then CellAt(row, c.value) else NaN
  }

  /** The first row whose SYMBOL cell is the symbol. */
  function FirstMatch(rows: seq<seq<CsvCell>>, col: nat, symbol: string): (r: Option<nat>)
    ensures r.Some? ==> r.value < |rows| && CellAt(rows[r.value], col) == Str(symbol)
    ensures r.Some? ==> forall j :: 0 <= j < r.value ==> CellAt(rows[j], col) != Str(symbol)
    ensures r.None? ==> forall j :: 0 <= j < |rows| ==> CellAt(rows[j], col) != Str(symbol)
  {
    if |rows| == 0 then None
    else if CellAt(rows[0], col) == Str(symbol) then Some(0)
    else
      var rest := FirstMatch(rows[1..], col, symbol);
      if rest.Some? then Some(rest.value + 1) else None
  }

  /** The bar a matching row gives: LAST_PRICE is the close, CLOSE_PRICE
      the adjusted close and DELIV_PER the delivery percentage. */
  function BarOf(header: seq<string>, row: seq<CsvCell>): DailyRow {
    DailyRow(Field(header, row, "OPEN_PRICE"), Field(header, row, "HIGH_PRICE"),
             Field(header, row, "LOW_PRICE"), Field(header, row, "LAST_PRICE"),
             Field(header, row, "CLOSE_PRICE"), Field(header, row, "TTL_TRD_QNTY"),
             Field(header, row, "DELIV_PER"), 1)
  }

  /** `INSERT … ON CONFLICT(symbol_id, timeframe, date) DO UPDATE`: the
      seven price columns are replaced, `is_final` is kept. */
  function Upsert(t: DailyTable, k: DailyKey, b: DailyRow): (r: DailyTable)
    ensures r.Keys == t.Keys + {k}
    ensures forall k' :: k' in t && k' != k ==> r[k'] == t[k']
    ensures r[k].(isFinal := b.isFinal) == b
    ensures r[k].isFinal == if k in t then t[k].isFinal else b.isFinal
  {
    if k in t then t[k := b.(isFinal := t[k].isFinal)] else t[k := b]
  }

  /** One file's upserts for the listed symbols, in order, with the number
      of rows written. */
  function LoadFile(t: DailyTable, symbols: seq<Listed>, date: Date, header: seq<string>,
                    rows: seq<seq<CsvCell>>, col: nat): (r: (DailyTable, nat))
    ensures r.1 <= |symbols|
    ensures r.0.Keys >= t.Keys
    ensures forall k :: k in t && (k.timeframe != "1d" || k.date != date) ==> r.0[k] == t[k]
    ensures forall k :: k in t ==> r.0[k].isFinal == t[k].isFinal
  {
    if |symbols| == 0 then (t, 0)
    else
      var (t', n) := LoadFile(t, symbols[..|symbols| - 1], date, header, rows, col);
      var s := symbols[|symbols| - 1];
      var m := FirstMatch(rows, col, s.symbol);
      if m.None? then (t', n)
      else (Upsert(t', DailyKey(s.id, "1d", date), BarOf(header, rows[m.value])), n + 1)
  }

  predicate DistinctIds(symbols: seq<Listed>) {
    forall i, j :: 0 <= i < j < |symbols| ==> symbols[i].id != symbols[j].id
  }

  /** After a file, each listed symbol with a matching row has the bar of
      its first matching row under (id, 1d, file date). */
  lemma {:induction false} LoadFileWritesFirstMatch(t: DailyTable, symbols: seq<Listed>, date: Date,
                                                     header: seq<string>, rows: seq<seq<CsvCell>>, col: nat, i: nat)
    requires DistinctIds(symbols) && i < |symbols|
    requires FirstMatch(rows, col, symbols[i].symbol).Some?
    ensures var k := DailyKey(symbols[i].id, "1d", date);
      var r := LoadFile(t, symbols, date, header, rows, col).0;
      k in r && r[k].(isFinal := 1) == BarOf(header, rows[FirstMatch(rows, col, symbols[i].symbol).value])
  {
    var k := DailyKey(symbols[i].id, "1d", date);
    var init := symbols[..|symbols| - 1];
    var s := symbols[|symbols| - 1];
    var t' := LoadFile(t, init, date, header, rows, col).0;
    var r := LoadFile(t, symbols, date, header, rows, col).0;
    if i < |symbols| - 1 {
      assert init[i] == symbols[i];
      LoadFileWritesFirstMatch(t, init, date, header, rows, col, i);
      assert symbols[i].id != s.id;
      assert r[k] == t'[k];
    } else {
      assert r == Upsert(t', k, BarOf(header, rows[FirstMatch(rows, col, s.symbol).value]));
    }
  }

  /** What one file contributes: None when it raises. */
  function FileStep(t: DailyTable, symbols: seq<Listed>, f: BhavFile): Option<(DailyTable, nat)>
    requires |symbols| > 0
  {
    var d := FileDate(f.name);
    if d.None? || !f.readable || |f.rows| == 0 || |f.header| == 0 then Some((t, 0))
    else
      var header := NormalizeHeader(f.header);
      var col := ColumnIndex(header, "SYMBOL");
      if col.None? then None
      else Some(LoadFile(t, symbols, d.value, header, f.rows, col.value))
  }

  /** The files in listing order; None as soon as one raises. */
  function LoadAll(t: DailyTable, symbols: seq<Listed>, files: seq<BhavFile>): Option<(DailyTable, nat)>
    requires |symbols| > 0
  {
    if |files| == 0 then Some((t, 0))
    else
      var r := LoadAll(t, symbols, files[..|files| - 1]);
      if r.None? then None else Step(r.value, symbols, files[|files| - 1])
  }

  /** The listed bhavcopy files, in the sorted listing's order. */
  function Bhavcopies(files: seq<BhavFile>): (r: seq<BhavFile>)
    ensures forall f :: f in r <==> f in files && IsBhavcopy(f)
  {
    if |files| == 0 then []
    else Bhavcopies(files[..|files| - 1]) + (if IsBhavcopy(files[|files| - 1]) then [files[|files| - 1]] else [])
  }

  datatype UpdateOutcome = NoSymbols | NoFiles | RolledBack | Committed(total: nat)

  /** The outcome and the table after a run: nothing changes unless every
      file loads, in which case the run commits. */
  function Update(t: DailyTable, symbols: seq<Listed>, listing: seq<BhavFile>): (r: (UpdateOutcome, DailyTable))
    ensures !r.0.Committed? ==> r.1 == t
    ensures r.0 == NoSymbols <==> |symbols| == 0
    ensures r.0 == NoFiles <==> |symbols| > 0 && forall f :: f in listing ==> !IsBhavcopy(f)
  {
    if |symbols| == 0 then (NoSymbols, t)
    else
      var files := Bhavcopies(listing);
      if |files| == 0 then (NoFiles, t)
      else
        assert files[0] in listing && IsBhavcopy(files[0]);
        var l := LoadAll(t, symbols, files);
        if l.None? then (RolledBack, t) else (Committed(l.value.1), l.value.0)
  }

  /** The loop over the files, stopping at the first that raises. */
  method LoadFiles(t: DailyTable, symbols: seq<Listed>, files: seq<BhavFile>) returns (r: Option<(DailyTable, nat)>)
    requires |symbols| > 0
    ensures r == LoadAll(t, symbols, files)
  {
    r := Some((t, 0));
    var i := 0;
    while i < |files| && r.Some?
      invariant i <= |files|
      invariant r == LoadAll(t, symbols, files[..i])
    {
      LoadAllStep(t, symbols, files, i);
      r := Step(r.value, symbols, files[i]);
      i := i + 1;
    }
    if r.None? {
      NoneStaysNone(t, symbols, files, i);
    } else {
      assert files[..i] == files;
    }
  }

  /** One file's step, added to the count so far. */
  function Step(acc: (DailyTable, nat), symbols: seq<Listed>, f: BhavFile): Option<(DailyTable, nat)>
    requires |symbols| > 0
  {
    var s := FileStep(acc.0, symbols, f);
    if s.None? then None else Some((s.value.0, acc.1 + s.value.1))
  }

  class PriceData {
    var rows: DailyTable

    constructor (initial: DailyTable)
      ensures rows == initial
    {
      rows := initial;
    }

    /** The earlier `update_equity_price_from_bhavcopy(symbol)`, in which
        every name it uses is imported: the symbols come from the symbol
        query, the files from the sorted folder listing. */
    method UpdateFromBhavcopyEarlier(symbols: seq<Listed>, listing: seq<BhavFile>) returns (outcome: UpdateOutcome)
      modifies this
      ensures (outcome, rows) == Update(old(rows), symbols, listing)
    {
      if |symbols| == 0 {
        return NoSymbols;
      }
      var files := Bhavcopies(listing);
      if |files| == 0 {
        return NoFiles;
      }
      var r := LoadFiles(rows, symbols, files);
      if r.None? {
        return RolledBack;
      }
      rows := r.value.0;
      outcome := Committed(r.value.1);
    }

    /** `update_equity_price_from_bhavcopy(symbol)` as the services module
        has it: `NSE_BHAVCOPY_DAILY` is never imported, so listing the
        folder raises NameError once symbols are found, and the handler
        rolls back. */
    method UpdateFromBhavcopy(symbols: seq<Listed>) returns (outcome: UpdateOutcome)
      modifies this
      ensures rows == old(rows)
      ensures outcome == if |symbols| == 0 then NoSymbols else RolledBack
    {
      if |symbols| == 0 {
        return NoSymbols;
      }
      outcome := RolledBack;
    }
  }

  lemma LoadAllStep(t: DailyTable, symbols: seq<Listed>, files: seq<BhavFile>, i: nat)
    requires |symbols| > 0 && i < |files| && LoadAll(t, symbols, files[..i]).Some?
    ensures LoadAll(t, symbols, files[..i + 1]) == Step(LoadAll(t, symbols, files[..i]).value, symbols, files[i])
  {
    assert files[..i + 1][..i] == files[..i];
  }

  /** Once a file raises, the run raises. */
  lemma {:induction false} NoneStaysNone(t: DailyTable, symbols: seq<Listed>, files: seq<BhavFile>, n: nat)
    requires |symbols| > 0 && n <= |files| && LoadAll(t, symbols, files[..n]).None?
    ensures LoadAll(t, symbols, files).None?
    decreases |files| - n
  {
    if n < |files| {
      assert files[..n + 1][..n] == files[..n];
      NoneStaysNone(t, symbols, files, n + 1);
    } else {
      assert files[..n] == files;
    }
  }

  /** A committed load never changes a row of another timeframe and never
      changes `is_final` of a stored row. */
  lemma {:induction false} LoadAllKeeps(t: DailyTable, symbols: seq<Listed>, files: seq<BhavFile>)
    requires |symbols| > 0 && LoadAll(t, symbols, files).Some?
    ensures var r := LoadAll(t, symbols, files).value.0;
      t.Keys <= r.Keys
      && (forall k :: k in t && k.timeframe != "1d" ==> r[k] == t[k])
      && (forall k :: k in t ==> r[k].isFinal == t[k].isFinal)
  {
    if |files| > 0 {
      LoadAllKeeps(t, symbols, files[..|files| - 1]);
    }
  }
}
