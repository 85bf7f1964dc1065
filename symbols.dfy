/** The symbol master: cleaning the equity master file into records, the
    insert-or-ignore and fill-only-if-empty merge into `equity_symbols`, the
    refresh of `index_symbols` from the configured index list, the parsing
    of a symbol argument, and the latest-date queries over
    `equity_price_data`. */
module Symbols {
  import opened Base
  import opened Calendar
  import opened Text

  // ---------------------------------------------------------------------
  // Column detection

  /** The first column satisfying p, in header order. */
  function FirstColumn(header: seq<string>, p: string -> bool): (r: Option<string>)
    ensures r.Some? ==> r.value in header && p(r.value)
    ensures r.Some? ==> exists i :: 0 <= i < |header| && header[i] == r.value && forall j :: 0 <= j < i ==> !p(header[j])
    ensures r.None? <==> forall c :: c in header ==> !p(c)
  {
    if |header| == 0 then None
    else if p(header[0]) then Some(header[0])
    else
      var rest := FirstColumn(header[1..], p);
      if rest.Some? then
        var i :| 0 <= i < |header[1..]| && header[1..][i] == rest.value && forall j :: 0 <= j < i ==> !p(header[1..][j]);
        assert header[i + 1] == rest.value;
        Some(rest.value)
      else rest
  }

  datatype Columns = Columns(symbol: string, name: string,
                             series: Option<string>, listing: Option<string>, isin: Option<string>)

  function OrDefault(c: Option<string>, d: string): string {
    if c.Some? then c.value else d
  }

  /** The symbol column is the one named `symbol` in any case, the name
      column `stock name` or `name`; series, listing date and ISIN are the
      first columns whose lower-cased names contain those words. */
  function DetectColumns(header: seq<string>): Columns {
    Columns(
      OrDefault(FirstColumn(header, c => Lower(c) == "symbol"), "Symbol"),
      OrDefault(FirstColumn(header, c => Lower(c) in {"stock name", "name"}), "Stock Name"),
      FirstColumn(header, c => Contains(Lower(c), "series")),
      FirstColumn(header, c => Contains(Lower(c), "list") && Contains(Lower(c), "date")),
      FirstColumn(header, c => Contains(Lower(c), "isin")))
  }

  function Selected(cols: Columns): seq<string> {
    [cols.symbol, cols.name]
      + (if cols.series.Some? then [cols.series.value] else [])
      + (if cols.listing.Some? then [cols.listing.value] else [])
      + (if cols.isin.Some? then [cols.isin.value] else [])
  }

  // ---------------------------------------------------------------------
  // Row cleaning

  /** A master-file row restricted to the selected columns; None is a
      missing cell. */
  type CsvRow = map<string, Option<string>>

  /** Calendar dates pandas can represent, as `to_datetime` returns them. */
  type ParsedDate = d: Date | Valid(d) && 1 <= d.year <= 9999 witness Date(2000, 1, 1)

  /** A row of `equity_symbols` as written by the refresh. */
  datatype Record = Record(symbol: string, name: string, exchange: string,
                           series: Option<string>, listingDate: Option<string>, isin: Option<string>)

  /** Series and ISIN: missing, blank after stripping, or one of the NA
      placeholders become NULL; anything else is stripped and upper-cased. */
  function CleanCode(raw: Option<string>): (r: Option<string>)
    ensures r.Some? ==> r.value != "" && r.value !in {"NA", "N/A", "-"}
    ensures r.Some? ==> Strip(r.value) == r.value && Upper(r.value) == r.value
    ensures r.None? <==> raw.None? || Upper(Strip(raw.value)) in {"", "NA", "N/A", "-"}
  {
    if raw.None? then None
    else
      var s := Upper(Strip(raw.value));
      if s == "" || s in {"NA", "N/A", "-"} then None
      else
        UpperStrip(raw.value);
        StripIdempotent(raw.value);
        UpperIdempotent(Strip(raw.value));
        Some(s)
  }

  /** The listing date: an ISO 8601 extended calendar date (YYYY-MM-DD) of
      what `to_datetime(errors='coerce')` reads, or NULL. */
  function CleanListing(raw: Option<string>, toDatetime: string -> Option<ParsedDate>): (r: Option<string>)
    ensures r.Some? ==> |r.value| == 10 && ParseIso(r.value).Some?
    ensures r.Some? <==> raw.Some? && toDatetime(raw.value).Some?
    ensures r.Some? ==> ParseIso(r.value) == Some(toDatetime(raw.value).value)
  {
    if raw.None? then None
    else
      var dt := toDatetime(raw.value);
      if dt.None? then None
      else
        IsoRoundTrip(dt.value);
        Some(IsoFormat(dt.value))
  }

  function Cell(row: CsvRow, c: Option<string>): Option<string> {
    if c.Some? && c.value in row then row[c.value] else None
  }

  predicate HasKeyCells(row: CsvRow, cols: Columns) {
    cols.symbol in row && cols.name in row && row[cols.symbol].Some? && row[cols.name].Some?
  }

  /** One kept row becomes one record. */
  function CleanRow(row: CsvRow, cols: Columns, toDatetime: string -> Option<ParsedDate>): (r: Record)
    requires HasKeyCells(row, cols)
  {
    Record(Upper(Strip(row[cols.symbol].value)), Strip(row[cols.name].value), "NSE",
           CleanCode(Cell(row, cols.series)), CleanListing(Cell(row, cols.listing), toDatetime),
           CleanCode(Cell(row, cols.isin)))
  }

  /** `dropna(subset=[symbol, name])` then `drop_duplicates()`: rows with
      both key cells, first occurrence of each exact row, in file order. */
  function Kept(rows: seq<CsvRow>, cols: Columns): (r: seq<CsvRow>)
    ensures forall i :: 0 <= i < |r| ==> HasKeyCells(r[i], cols)
    ensures forall i, j :: 0 <= i < j < |r| ==> r[i] != r[j]
    ensures forall x :: x in r <==> x in rows && HasKeyCells(x, cols)
  {
    if |rows| == 0 then []
    else
      var init := Kept(rows[..|rows| - 1], cols);
      var last := rows[|rows| - 1];
      if HasKeyCells(last, cols) && last !in init then init + [last] else init
  }

  /** The records, in the order of the kept rows. */
  function Records(rows: seq<CsvRow>, cols: Columns, toDatetime: string -> Option<ParsedDate>): (r: seq<Record>)
    requires forall i :: 0 <= i < |rows| ==> HasKeyCells(rows[i], cols)
    ensures |r| == |rows|
  {
    if |rows| == 0 then []
    else Records(rows[..|rows| - 1], cols, toDatetime) + [CleanRow(rows[|rows| - 1], cols, toDatetime)]
  }

  /** A pending `UPDATE … SET field = value WHERE symbol = symbol`. */
  datatype Update = Update(value: string, symbol: string)

  datatype Field = Series | Listing | Isin

  function Get(r: Record, f: Field): Option<string> {
    match f
    case Series => r.series
    case Listing => r.listingDate
    case Isin => r.isin
  }

  /** The update list of one field: one entry per record whose cleaned
      value is present, in record order. */
  function Updates(recs: seq<Record>, f: Field): (r: seq<Update>)
    ensures |r| <= |recs|
  {
    if |recs| == 0 then []
    else
      var init := Updates(recs[..|recs| - 1], f);
      var last := recs[|recs| - 1];
      init + UpdateOf(last, f)
  }

  /** Every update carries a record's present value for its symbol. */
  lemma {:induction false} UpdatesFromRecords(recs: seq<Record>, f: Field)
    ensures forall u :: u in Updates(recs, f) ==>
      exists i :: 0 <= i < |recs| && Get(recs[i], f) == Some(u.value) && recs[i].symbol == u.symbol
  {
    if |recs| > 0 {
      var init := recs[..|recs| - 1];
      UpdatesFromRecords(init, f);
      forall u | u in Updates(init, f)
        ensures exists i :: 0 <= i < |recs| && Get(recs[i], f) == Some(u.value) && recs[i].symbol == u.symbol
      {
        var i :| 0 <= i < |init| && Get(init[i], f) == Some(u.value) && init[i].symbol == u.symbol;
        assert recs[i] == init[i];
      }
    }
  }

  lemma RecordsStep(rows: seq<CsvRow>, cols: Columns, toDatetime: string -> Option<ParsedDate>, i: nat)
    requires i < |rows| && forall k :: 0 <= k < |rows| ==> HasKeyCells(rows[k], cols)
    ensures Records(rows[..i + 1], cols, toDatetime) == Records(rows[..i], cols, toDatetime) + [CleanRow(rows[i], cols, toDatetime)]
  {
    assert rows[..i + 1][..i] == rows[..i];
  }

  /** The update one record contributes to a field's list, if any. */
  function UpdateOf(rec: Record, f: Field): seq<Update> {
    if Get(rec, f).Some? then [Update(Get(rec, f).value, rec.symbol)] else []
  }

  lemma UpdatesStep(recs: seq<Record>, rec: Record, f: Field)
    ensures Updates(recs + [rec], f) == Updates(recs, f) + UpdateOf(rec, f)
  {
    assert (recs + [rec])[..|recs|] == recs;
  }

  /** The loop over the kept rows: the records and the three update lists
      it appends to. */
  method CollectRecords(rows: seq<CsvRow>, cols: Columns, toDatetime: string -> Option<ParsedDate>)
    returns (records: seq<Record>, series: seq<Update>, listing: seq<Update>, isin: seq<Update>)
    requires forall i :: 0 <= i < |rows| ==> HasKeyCells(rows[i], cols)
    ensures records == Records(rows, cols, toDatetime)
    ensures series == Updates(records, Series) && listing == Updates(records, Listing) && isin == Updates(records, Isin)
  {
    records, series, listing, isin := [], [], [], [];
    for i := 0 to |rows|
      invariant records == Records(rows[..i], cols, toDatetime)
      invariant series == Updates(records, Series) && listing == Updates(records, Listing)
      invariant isin == Updates(records, Isin)
    {
      var rec := CleanRow(rows[i], cols, toDatetime);
      RecordsStep(rows, cols, toDatetime, i);
      UpdatesStep(records, rec, Series);
      UpdatesStep(records, rec, Listing);
      UpdatesStep(records, rec, Isin);
      series := series + UpdateOf(rec, Series);
      listing := listing + UpdateOf(rec, Listing);
      isin := isin + UpdateOf(rec, Isin);
      records := records + [rec];
    }
    assert rows[..|rows|] == rows;
  }

  // ---------------------------------------------------------------------
  // The equity_symbols table

  /** A stored row, keyed by its UNIQUE symbol; None is NULL. */
  datatype SymbolRow = SymbolRow(name: string, exchange: string,
                                 series: Option<string>, listingDate: Option<string>, isin: Option<string>)

  type SymbolTable = map<string, SymbolRow>

  function RowOf(r: Record): SymbolRow {
    SymbolRow(r.name, r.exchange, r.series, r.listingDate, r.isin)
  }

  predicate Mentions(recs: seq<Record>, k: string) {
    exists i :: 0 <= i < |recs| && recs[i].symbol == k
  }

  /** `INSERT OR IGNORE` of each record in turn: a symbol already stored,
      or inserted by an earlier record, is left as it is. */
  function InsertOrIgnore(t: SymbolTable, recs: seq<Record>): (r: SymbolTable)
    ensures forall k :: k in t ==> k in r && r[k] == t[k]
    ensures forall k :: k in r <==> k in t || Mentions(recs, k)
  {
    if |recs| == 0 then t
    else
      var init := recs[..|recs| - 1];
      var last := recs[|recs| - 1];
      var t' := InsertOrIgnore(t, init);
      assert forall k :: Mentions(init, k) ==> Mentions(recs, k);
      assert forall k :: Mentions(recs, k) && k != last.symbol ==> Mentions(init, k);
      if last.symbol in t' then t' else t'[last.symbol := RowOf(last)]
  }

  /** A symbol new to the table gets the row of its first record. */
  lemma {:induction false} InsertOrIgnoreFirstWins(t: SymbolTable, recs: seq<Record>, i: nat)
    requires i < |recs| && recs[i].symbol !in t
    requires forall j :: 0 <= j < i ==> recs[j].symbol != recs[i].symbol
    ensures InsertOrIgnore(t, recs)[recs[i].symbol] == RowOf(recs[i])
  {
    var k := recs[i].symbol;
    var init := recs[..|recs| - 1];
    if i < |recs| - 1 {
      InsertOrIgnoreFirstWins(t, init, i);
    } else {
      assert !Mentions(init, k);
    }
  }

  function GetStored(r: SymbolRow, f: Field): Option<string> {
    match f
    case Series => r.series
    case Listing => r.listingDate
    case Isin => r.isin
  }

  function SetStored(r: SymbolRow, f: Field, v: Option<string>): SymbolRow {
    match f
    case Series => r.(series := v)
    case Listing => r.(listingDate := v)
    case Isin => r.(isin := v)
  }

  /** The guard of each fill: `series`/`isin` IS NULL OR = '', and
      `listing_date` IS NULL. */
  predicate Fillable(f: Field, v: Option<string>) {
    v.None? || (f != Listing && v.value == "")
  }

  /** One `executemany` of fill updates, in list order. */
  function Fill(t: SymbolTable, f: Field, ups: seq<Update>): (r: SymbolTable)
    ensures r.Keys == t.Keys
    ensures forall k :: k in t ==> SetStored(r[k], f, GetStored(t[k], f)) == t[k]
    ensures forall k :: k in t && !Fillable(f, GetStored(t[k], f)) ==> r[k] == t[k]
  {
    if |ups| == 0 then t
    else
      var t' := Fill(t, f, ups[..|ups| - 1]);
      var u := ups[|ups| - 1];
      if u.symbol in t' && Fillable(f, GetStored(t'[u.symbol], f)) then
        t'[u.symbol := SetStored(t'[u.symbol], f, Some(u.value))]
      else t'
  }

  predicate UpdatesFor(ups: seq<Update>, k: string) {
    exists i :: 0 <= i < |ups| && ups[i].symbol == k
  }

  /** An empty stored value takes the value of the first update naming its
      symbol (the values are never blank, so later ones find it filled);
      with no update naming it, it stays as it was. */
  lemma GetSet(r: SymbolRow, f: Field, v: Option<string>)
    ensures GetStored(SetStored(r, f, v), f) == v
  {
  }

  /** What the last update of a list does to one symbol's row. */
  lemma FillLast(t: SymbolTable, f: Field, ups: seq<Update>, k: string)
    requires |ups| > 0 && k in t
    ensures var t' := Fill(t, f, ups[..|ups| - 1]);
      var u := ups[|ups| - 1];
      Fill(t, f, ups)[k] == if u.symbol == k && Fillable(f, GetStored(t'[k], f)) then SetStored(t'[k], f, Some(u.value)) else t'[k]
  {
  }

  lemma {:induction false} FillFirstWins(t: SymbolTable, f: Field, ups: seq<Update>, k: string)
    requires k in t && Fillable(f, GetStored(t[k], f))
    requires forall i :: 0 <= i < |ups| ==> ups[i].value != ""
    ensures UpdatesFor(ups, k) ==>
      exists i :: 0 <= i < |ups| && ups[i].symbol == k
        && (forall j :: 0 <= j < i ==> ups[j].symbol != k)
        && GetStored(Fill(t, f, ups)[k], f) == Some(ups[i].value)
    ensures !UpdatesFor(ups, k) ==> Fill(t, f, ups)[k] == t[k]
  {
    if |ups| > 0 {
      var init := ups[..|ups| - 1];
      FillFirstWins(t, f, init, k);
      assert forall j :: 0 <= j < |init| ==> ups[j] == init[j];
      if UpdatesFor(init, k) {
        var i :| 0 <= i < |init| && init[i].symbol == k
          && (forall j :: 0 <= j < i ==> init[j].symbol != k)
          && GetStored(Fill(t, f, init)[k], f) == Some(init[i].value);
        FirstWinsEarlier(t, f, ups, k, i);
      } else if ups[|ups| - 1].symbol == k {
        FirstWinsLast(t, f, ups, k);
      } else {
        FillLast(t, f, ups, k);
        NoUpdatesFor(ups, k);
      }
    }
  }

  /** No update names k when none before the last does and the last does
      not. */
  lemma NoUpdatesFor(ups: seq<Update>, k: string)
    requires |ups| > 0 && !UpdatesFor(ups[..|ups| - 1], k) && ups[|ups| - 1].symbol != k
    ensures !UpdatesFor(ups, k)
  {
    forall i | 0 <= i < |ups|
      ensures ups[i].symbol != k
    {
      if i < |ups| - 1 {
        assert ups[..|ups| - 1][i] == ups[i];
      }
    }
  }

  /** A value filled by an earlier update stays: the guard refuses the
      last one. */
  lemma FirstWinsEarlier(t: SymbolTable, f: Field, ups: seq<Update>, k: string, i: nat)
    requires |ups| > 0 && k in t && i < |ups| - 1 && ups[i].value != ""
    requires GetStored(Fill(t, f, ups[..|ups| - 1])[k], f) == Some(ups[i].value)
    ensures GetStored(Fill(t, f, ups)[k], f) == Some(ups[i].value)
  {
    FillLast(t, f, ups, k);
  }

  /** The last update fills a value that no earlier update touched. */
  lemma FirstWinsLast(t: SymbolTable, f: Field, ups: seq<Update>, k: string)
    requires |ups| > 0 && k in t && ups[|ups| - 1].symbol == k
    requires Fill(t, f, ups[..|ups| - 1])[k] == t[k] && Fillable(f, GetStored(t[k], f))
    ensures GetStored(Fill(t, f, ups)[k], f) == Some(ups[|ups| - 1].value)
  {
    FillLast(t, f, ups, k);
    GetSet(t[k], f, Some(ups[|ups| - 1].value));
  }

  /** An empty update list changes nothing; the refresh skips it. */
  lemma FillNothing(t: SymbolTable, f: Field, ups: seq<Update>)
    requires |ups| == 0
    ensures Fill(t, f, ups) == t
  {
  }

  /** The whole write: insert-or-ignore, then the three fills. */
  function Merge(t: SymbolTable, recs: seq<Record>): (r: SymbolTable)
    ensures forall k :: k in r <==> k in t || Mentions(recs, k)
  {
    var t1 := InsertOrIgnore(t, recs);
    Fill(Fill(Fill(t1, Series, Updates(recs, Series)), Listing, Updates(recs, Listing)), Isin, Updates(recs, Isin))
  }

  /** A symbol already stored keeps its name and exchange, and every one of
      its non-empty series, listing date and ISIN values. */
  lemma MergeKeepsStored(t: SymbolTable, recs: seq<Record>, k: string)
    requires k in t
    ensures var r := Merge(t, recs)[k];
      r.name == t[k].name && r.exchange == t[k].exchange
      && (!Fillable(Series, t[k].series) ==> r.series == t[k].series)
      && (!Fillable(Listing, t[k].listingDate) ==> r.listingDate == t[k].listingDate)
      && (!Fillable(Isin, t[k].isin) ==> r.isin == t[k].isin)
  {
    var t1 := InsertOrIgnore(t, recs);
    var t2 := Fill(t1, Series, Updates(recs, Series));
    var t3 := Fill(t2, Listing, Updates(recs, Listing));
    var t4 := Fill(t3, Isin, Updates(recs, Isin));
    assert t1[k] == t[k];
    assert SetStored(t2[k], Series, t1[k].series) == t1[k];
    assert SetStored(t3[k], Listing, t2[k].listingDate) == t2[k];
    assert SetStored(t4[k], Isin, t3[k].isin) == t3[k];
  }

  /** Every selected column is in the file; otherwise selecting them
      raises KeyError. */
  predicate Readable(header: seq<string>) {
    forall c :: c in Selected(DetectColumns(header)) ==> c in header
  }

  /** The records the refresh builds from a file. */
  function FileRecords(header: seq<string>, file: seq<CsvRow>, toDatetime: string -> Option<ParsedDate>): seq<Record> {
    var cols := DetectColumns(header);
    Records(Kept(file, cols), cols, toDatetime)
  }

  /** What the refresh did. */
  datatype RefreshOutcome =
    | MissingColumn          // the selected columns are not all in the file: KeyError, re-raised
    | NoRecords              // nothing left after cleaning; nothing written
    | Merged(records: nat)   // the merge ran and was committed

  class EquitySymbols {
    var rows: SymbolTable

    constructor (initial: SymbolTable)
      ensures rows == initial
    {
      rows := initial;
    }

    /** `refresh_equity()` over a master file given by its header and
        rows. */
    method RefreshEquity(header: seq<string>, file: seq<CsvRow>, toDatetime: string -> Option<ParsedDate>)
      returns (outcome: RefreshOutcome)
      modifies this
      ensures !Readable(header) ==> outcome == MissingColumn && rows == old(rows)
      ensures Readable(header) && |FileRecords(header, file, toDatetime)| == 0 ==>
        outcome == NoRecords && rows == old(rows)
      ensures Readable(header) && |FileRecords(header, file, toDatetime)| > 0 ==>
        outcome == Merged(|FileRecords(header, file, toDatetime)|)
        && rows == Merge(old(rows), FileRecords(header, file, toDatetime))
    {
      var cols := DetectColumns(header);
      if !Readable(header) {
        return MissingColumn;
      }
      var records, series, listing, isin := CollectRecords(Kept(file, cols), cols, toDatetime);
      assert records == FileRecords(header, file, toDatetime);
      if |records| == 0 {
        return NoRecords;
      }
      Write(records, series, listing, isin);
      outcome := Merged(|records|);
    }

    /** The insert-or-ignore, each non-empty list of fills, the commit. */
    method Write(records: seq<Record>, series: seq<Update>, listing: seq<Update>, isin: seq<Update>)
      requires series == Updates(records, Series) && listing == Updates(records, Listing)
      requires isin == Updates(records, Isin)
      modifies this
      ensures rows == Merge(old(rows), records)
    {
      var t := InsertOrIgnore(rows, records);
      t := FillIfAny(t, Series, series);
      t := FillIfAny(t, Listing, listing);
      t := FillIfAny(t, Isin, isin);
      rows := t;
    }

    /** `if updates: cur.executemany(...)` for one column. */
    static method FillIfAny(t: SymbolTable, f: Field, ups: seq<Update>) returns (r: SymbolTable)
      ensures r == Fill(t, f, ups)
    {
      r := t;
      if |ups| > 0 {
        r := Fill(t, f, ups);
      } else {
        FillNothing(t, f, ups);
      }
    }
  }

  // ---------------------------------------------------------------------
  // The index_symbols table

  /** An entry of the configured index list. */
  datatype IndexConfig = IndexConfig(code: string, name: string, exchange: string, yahoo: string, category: string)

  /** A stored row, keyed by its UNIQUE index code; yahoo_symbol is UNIQUE
      as well. */
  datatype IndexRow = IndexRow(name: string, exchange: string, yahoo: string, category: string, isActive: int)

  type IndexTable = map<string, IndexRow>

  const RequiredIndexColumns: set<string> :=
    {"index_id", "index_code", "index_name", "exchange", "yahoo_symbol", "category", "is_active"}

  predicate YahooTaken(t: IndexTable, yahoo: string) {
    exists k :: k in t && t[k].yahoo == yahoo
  }

  /** `INSERT OR IGNORE` of the configured entries with is_active 1: an
      entry whose code or Yahoo symbol is already stored is ignored. */
  function InsertIndices(t: IndexTable, cfg: seq<IndexConfig>): (r: IndexTable)
    ensures forall k :: k in t ==> k in r && r[k] == t[k]
    ensures forall i :: 0 <= i < |cfg| ==> cfg[i].code in r || YahooTaken(r, cfg[i].yahoo)
  {
    if |cfg| == 0 then t
    else
      var init := cfg[..|cfg| - 1];
      var c := cfg[|cfg| - 1];
      var t' := InsertIndices(t, init);
      assert forall i :: 0 <= i < |init| ==> cfg[i] == init[i];
      if c.code in t' || YahooTaken(t', c.yahoo) then t'
      else
        var r := t'[c.code := IndexRow(c.name, c.exchange, c.yahoo, c.category, 1)];
        forall i | 0 <= i < |init| && cfg[i].code !in r
          ensures YahooTaken(r, cfg[i].yahoo)
        {
          var k :| k in t' && t'[k].yahoo == cfg[i].yahoo;
          assert k in r && r[k].yahoo == cfg[i].yahoo;
        }
        assert r[c.code].yahoo == c.yahoo;
        r
  }

  /** A row the insert adds is a configured entry, active. */
  lemma {:induction false} InsertIndicesNew(t: IndexTable, cfg: seq<IndexConfig>, k: string)
    requires k in InsertIndices(t, cfg) && k !in t
    ensures exists i :: 0 <= i < |cfg| && cfg[i].code == k
              && InsertIndices(t, cfg)[k] == IndexRow(cfg[i].name, cfg[i].exchange, cfg[i].yahoo, cfg[i].category, 1)
  {
    var init := cfg[..|cfg| - 1];
    var c := cfg[|cfg| - 1];
    var t' := InsertIndices(t, init);
    if k in t' {
      InsertIndicesNew(t, init, k);
      var i :| 0 <= i < |init| && init[i].code == k
        && t'[k] == IndexRow(init[i].name, init[i].exchange, init[i].yahoo, init[i].category, 1);
      assert cfg[i] == init[i];
    } else {
      assert k == c.code;
    }
  }

  predicate Configured(cfg: seq<IndexConfig>, k: string) {
    exists i :: 0 <= i < |cfg| && cfg[i].code == k
  }

  /** `UPDATE index_symbols SET is_active = 1 WHERE index_code = ?` for
      every configured code. */
  function Reactivate(t: IndexTable, cfg: seq<IndexConfig>): (r: IndexTable)
    ensures r.Keys == t.Keys
    ensures forall k :: k in t ==> r[k] == if Configured(cfg, k) then t[k].(isActive := 1) else t[k]
  {
    map k | k in t :: if Configured(cfg, k) then t[k].(isActive := 1) else t[k]
  }

  datatype IndexOutcome = SchemaMismatch | Refreshed(count: nat)

  class IndexSymbols {
    var rows: IndexTable

    constructor (initial: IndexTable)
      ensures rows == initial
    {
      rows := initial;
    }

    /** `refresh_indices()`: check the schema, insert the configured
        indices that are missing, then mark every configured code active. */
    method RefreshIndices(columns: set<string>, cfg: seq<IndexConfig>) returns (outcome: IndexOutcome)
      modifies this
      ensures !(RequiredIndexColumns <= columns) ==> outcome == SchemaMismatch && rows == old(rows)
      ensures RequiredIndexColumns <= columns ==>
        outcome == Refreshed(|cfg|) && rows == Reactivate(InsertIndices(old(rows), cfg), cfg)
    {
      if !(RequiredIndexColumns <= columns) {
        return SchemaMismatch;
      }
      rows := Reactivate(InsertIndices(rows, cfg), cfg);
      outcome := Refreshed(|cfg|);
    }
  }

  /** After the refresh every configured code that is stored is active,
      rows of codes not configured are untouched, and a configured code is
      missing only when its Yahoo symbol belongs to another stored row. */
  lemma RefreshIndicesEffect(t: IndexTable, cfg: seq<IndexConfig>)
    ensures var r := Reactivate(InsertIndices(t, cfg), cfg);
      (forall i :: 0 <= i < |cfg| && cfg[i].code in r ==> r[cfg[i].code].isActive == 1)
      && (forall k :: k in t && !Configured(cfg, k) ==> k in r && r[k] == t[k])
      && (forall k :: k in t ==> k in r && r[k].(isActive := t[k].isActive) == t[k])
      && (forall i :: 0 <= i < |cfg| && cfg[i].code !in r ==> YahooTaken(r, cfg[i].yahoo))
  {
    var t1 := InsertIndices(t, cfg);
    var r := Reactivate(t1, cfg);
    forall i | 0 <= i < |cfg| && cfg[i].code !in r
      ensures YahooTaken(r, cfg[i].yahoo)
    {
      var k :| k in t1 && t1[k].yahoo == cfg[i].yahoo;
      assert r[k].yahoo == cfg[i].yahoo;
    }
  }

  // ---------------------------------------------------------------------
  // The symbol argument

  datatype SymbolQuery = NoSymbols | AllSymbols | Among(symbols: set<string>)

  /** The pieces of a comma-separated list, stripped and upper-cased, with
      the blank ones dropped: every non-blank piece is there, and every
      symbol is non-empty, stripped, upper-case and free of commas. */
  function Pieces(arg: string): (r: set<string>)
    ensures forall p :: p in Split(arg, ',') && Strip(p) != "" ==> Upper(Strip(p)) in r
    ensures forall x :: x in r ==> x != "" && Strip(x) == x && Upper(x) == x && ',' !in x
  {
    var r := set p | p in Split(arg, ',') && Strip(p) != "" :: Upper(Strip(p));
    forall x | x in r
      ensures x != "" && Strip(x) == x && Upper(x) == x && ',' !in x
    {
      var p :| p in Split(arg, ',') && Strip(p) != "" && x == Upper(Strip(p));
      UpperStrip(Strip(p));
      StripIdempotent(p);
      UpperIdempotent(Strip(p));
      UpperKeepsComma(Strip(p));
      StripInside(p);
    }
    r
  }

  /** `retrieve_equity_symbol(symbol, conn)`: no argument or a blank one
      selects nothing; `ALL` in any case and padding selects every symbol;
      otherwise the distinct non-blank pieces of the comma list. */
  function ParseSymbolArg(arg: Option<string>): (q: SymbolQuery)
    ensures arg.None? || Strip(arg.value) == "" ==> q == NoSymbols
    ensures q == AllSymbols <==> arg.Some? && Upper(Strip(arg.value)) == "ALL"
    ensures q.Among? ==> q.symbols == Pieces(arg.value) && q.symbols != {}
    ensures q.Among? ==> forall x :: x in q.symbols ==> x != "" && Strip(x) == x && Upper(x) == x && ',' !in x
  {
    if arg.None? || Strip(arg.value) == "" then NoSymbols
    else if Upper(Strip(arg.value)) == "ALL" then AllSymbols
    else
      var ps := Pieces(arg.value);
      if ps == {} then NoSymbols
      else Among(ps)
  }

  /** Stripping never adds a character. */
  lemma StripInside(s: string)
    ensures forall c :: c in Strip(s) ==> c in s
  {
    var l := TrimLeft(s);
    assert forall c :: c in l ==> c in s;
  }

  lemma UpperKeepsComma(s: string)
    ensures ',' in Upper(s) ==> ',' in s
  {
    if ',' in Upper(s) {
      var i :| 0 <= i < |s| && Upper(s)[i] == ',';
      assert s[i] == ',';
    }
  }

  /** The symbols the query returns from a table of symbol ids: a stored
      symbol is returned exactly when the query selects all symbols or
      names it. */
  function Retrieve(symbolIds: map<string, int>, q: SymbolQuery): (r: set<string>)
    ensures forall s :: s in r <==> s in symbolIds && (q.AllSymbols? || (q.Among? && s in q.symbols))
  {
    match q
    case NoSymbols => {}
    case AllSymbols => symbolIds.Keys
    case Among(s) => symbolIds.Keys * s
  }

  // ---------------------------------------------------------------------
  // Latest dates

  /** A stored `date` cell: the ISO text the pipeline writes, or the empty
      string. */
  datatype DateText = Iso(d: ParsedDate) | Blank

  datatype PriceRow = PriceRow(timeframe: string, date: DateText, delvPct: Option<real>)

  /** SQL `MAX(date)` over text: NULL with no rows; the empty string sorts
      before every ISO date. */
  function MaxDate(rows: seq<PriceRow>, timeframe: string): (r: Option<DateText>)
    ensures r.None? <==> forall i :: 0 <= i < |rows| ==> rows[i].timeframe != timeframe
    ensures r.Some? ==> exists i :: 0 <= i < |rows| && rows[i].timeframe == timeframe && rows[i].date == r.value
    ensures r == Some(Blank) ==> forall i :: 0 <= i < |rows| && rows[i].timeframe == timeframe ==> rows[i].date == Blank
    ensures r.Some? && r.value.Iso? ==> NoLaterRow(rows, timeframe, r.value.d)
  {
    if |rows| == 0 then None
    else
      var init := rows[..|rows| - 1];
      var last := rows[|rows| - 1];
      var m := MaxDate(init, timeframe);
      assert forall i :: 0 <= i < |init| ==> rows[i] == init[i];
      if last.timeframe != timeframe then
        if m.Some? && m.value.Iso? then NoLaterRowExtend(rows, timeframe, m.value.d); m else m
      else if m.None? then
        if last.date.Iso? then NoLaterRowExtend(rows, timeframe, last.date.d); Some(last.date) else Some(last.date)
      else if last.date.Blank? then
        if m.value.Iso? then NoLaterRowExtend(rows, timeframe, m.value.d); m else m
      else if m.value.Blank? then
        NoLaterRowExtend(rows, timeframe, last.date.d);
        Some(last.date)
      else
        LessIsOrdinalOrder(m.value.d, last.date.d);
        LessIsOrdinalOrder(last.date.d, m.value.d);
        if Less(m.value.d, last.date.d) then
          NoLaterRowRaise(init, timeframe, m.value.d, last.date.d);
          NoLaterRowExtend(rows, timeframe, last.date.d);
          Some(last.date)
        else
          NoLaterRowExtend(rows, timeframe, m.value.d);
          m
  }

  /** Every ISO-dated row of the timeframe is on or before d. */
  ghost predicate NoLaterRow(rows: seq<PriceRow>, timeframe: string, d: ParsedDate) {
    forall i :: 0 <= i < |rows| && rows[i].timeframe == timeframe && rows[i].date.Iso? ==> LessEq(rows[i].date.d, d)
  }

  lemma NoLaterRowExtend(rows: seq<PriceRow>, timeframe: string, d: ParsedDate)
    requires |rows| > 0 && NoLaterRow(rows[..|rows| - 1], timeframe, d)
    requires var last := rows[|rows| - 1];
      last.timeframe == timeframe && last.date.Iso? ==> LessEq(last.date.d, d)
    ensures NoLaterRow(rows, timeframe, d)
  {
    var init := rows[..|rows| - 1];
    assert forall i :: 0 <= i < |init| ==> rows[i] == init[i];
  }

  lemma NoLaterRowRaise(rows: seq<PriceRow>, timeframe: string, d: ParsedDate, e: ParsedDate)
    requires NoLaterRow(rows, timeframe, d) && Less(d, e)
    ensures NoLaterRow(rows, timeframe, e)
  {
    LessIsOrdinalOrder(d, e);
    forall i | 0 <= i < |rows| && rows[i].timeframe == timeframe && rows[i].date.Iso?
      ensures LessEq(rows[i].date.d, e)
    {
      LessIsOrdinalOrder(rows[i].date.d, d);
      LessIsOrdinalOrder(rows[i].date.d, e);
    }
  }

  function StoredText(c: DateText): string {
    if c.Iso? then IsoFormat(c.d) else ""
  }

  /** `get_latest_equity_date(timeframe)`: NULL or '' give None, anything
      else is read back with `strptime` (a failure is logged and gives
      None). */
  function LatestEquityDate(rows: seq<PriceRow>, timeframe: string): (r: Option<Date>)
    ensures r.Some? <==> exists i :: 0 <= i < |rows| && rows[i].timeframe == timeframe && rows[i].date.Iso?
    ensures r.Some? ==> forall i :: 0 <= i < |rows| && rows[i].timeframe == timeframe && rows[i].date.Iso? ==>
      LessEq(rows[i].date.d, r.value)
  {
    var m := MaxDate(rows, timeframe);
    if m.None? || StoredText(m.value) == "" then None
    else
      IsoRoundTrip(m.value.d);
      ParseIso(StoredText(m.value))
  }

  /** The earlier version: only NULL is checked before `strptime`. */
  function LatestEquityDateEarlier(rows: seq<PriceRow>, timeframe: string): Option<Date> {
    var m := MaxDate(rows, timeframe);
    if m.None? then None else ParseIso(StoredText(m.value))
  }

  /** The two versions agree: `strptime('')` raises, and the handler also
      returns None. */
  lemma LatestVersionsAgree(rows: seq<PriceRow>, timeframe: string)
    ensures LatestEquityDate(rows, timeframe) == LatestEquityDateEarlier(rows, timeframe)
  {
    var m := MaxDate(rows, timeframe);
    if m.Some? && m.value.Iso? {
      IsoRoundTrip(m.value.d);
    }
  }

  /** A date on which every row of the timeframe has a delivery
      percentage. */
  predicate Complete(rows: seq<PriceRow>, timeframe: string, d: DateText) {
    forall i :: 0 <= i < |rows| && rows[i].timeframe == timeframe && rows[i].date == d ==> rows[i].delvPct.Some?
  }

  /** `get_latest_equity_date_no_delv(timeframe)`: the latest stored date
      with no NULL delivery percentage in that timeframe. */
  function LatestCompleteDate(rows: seq<PriceRow>, timeframe: string): (r: Option<Date>)
    ensures r.Some? ==>
      exists i :: 0 <= i < |rows| && rows[i].timeframe == timeframe
        && rows[i].date.Iso? && rows[i].date.d == r.value && Complete(rows, timeframe, rows[i].date)
    ensures r.Some? ==>
      forall i :: (0 <= i < |rows| && rows[i].timeframe == timeframe && rows[i].date.Iso?
                   && Complete(rows, timeframe, rows[i].date)) ==> LessEq(rows[i].date.d, r.value)
    ensures r.None? ==>
      forall i :: 0 <= i < |rows| && rows[i].timeframe == timeframe && rows[i].date.Iso?
        ==> !Complete(rows, timeframe, rows[i].date)
  {
    var complete := Filter(rows, rows, timeframe);
    var m := MaxDate(complete, timeframe);
    if m.None? || StoredText(m.value) == "" then None
    else
      IsoRoundTrip(m.value.d);
      ParseIso(StoredText(m.value))
  }

  /** The rows of `part` whose date group in `rows` is complete. */
  function Filter(part: seq<PriceRow>, rows: seq<PriceRow>, timeframe: string): (r: seq<PriceRow>)
    ensures forall x :: x in r <==> x in part && Complete(rows, timeframe, x.date)
    ensures forall i :: 0 <= i < |r| ==> r[i] in part
  {
    if |part| == 0 then []
    else
      var init := Filter(part[..|part| - 1], rows, timeframe);
      var last := part[|part| - 1];
      if Complete(rows, timeframe, last.date) then init + [last] else init
  }
}
