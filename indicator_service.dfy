/** The indicator job: `calculate_indicators` adds the indicator columns
    to a frame of bars, `refresh_indicators` recomputes every (id,
    timeframe) series from scratch and upserts one row per bar, and
    `refresh_52week_stats` keeps each id's 52-week high and low. */
module IndicatorService {
  import opened Base
  import opened Rolling
  import H = IndicatorsHelper
  import opened Sql

  /** A price bar as the refresh reads it, in date order. `isFinal` is
      only selected for equities. `std20` is the 20-bar rolling standard
      deviation of the close at this bar (undefined on the first 19 bars),
      which needs a square root and so is supplied with the bar. */
  datatype Bar = Bar(date: string, open: real, high: real, low: real, close: real, adjClose: real, isFinal: Cell,
                     std20: Option<real>)

  /** The 17 indicator columns `calculate_indicators` adds to a bar. */
  datatype Row = Row(
    sma20: Option<real>, sma50: Option<real>, sma200: Option<real>,
    rsi3: real, rsi9: real, rsi14: real,
    bbUpper: Option<real>, bbMiddle: Option<real>, bbLower: Option<real>,
    atr14: Option<real>, supertrend: Option<real>, supertrendDir: int,
    emaRsi93: real, wmaRsi921: Option<real>, pctPriceChange: Option<real>,
    macd: real, macdSignal: real)

  function Closes(bars: seq<Bar>): (c: seq<real>)
    ensures |c| == |bars| && forall t :: 0 <= t < |bars| ==> c[t] == bars[t].close
  {
    seq(|bars|, t requires 0 <= t < |bars| => bars[t].close)
  }

  function AdjCloses(bars: seq<Bar>): (c: seq<real>)
    ensures |c| == |bars| && forall t :: 0 <= t < |bars| ==> c[t] == bars[t].adjClose
  {
    seq(|bars|, t requires 0 <= t < |bars| => bars[t].adjClose)
  }

  function Highs(bars: seq<Bar>): (c: seq<real>)
    ensures |c| == |bars| && forall t :: 0 <= t < |bars| ==> c[t] == bars[t].high
  {
    seq(|bars|, t requires 0 <= t < |bars| => bars[t].high)
  }

  function Lows(bars: seq<Bar>): (c: seq<real>)
    ensures |c| == |bars| && forall t :: 0 <= t < |bars| ==> c[t] == bars[t].low
  {
    seq(|bars|, t requires 0 <= t < |bars| => bars[t].low)
  }

  function Stds(bars: seq<Bar>): (c: seq<Option<real>>)
    ensures |c| == |bars| && forall t :: 0 <= t < |bars| ==> c[t] == bars[t].std20
  {
    seq(|bars|, t requires 0 <= t < |bars| => bars[t].std20)
  }

  /** `(adj_close.pct_change() * 100).round(2)` at bar t: undefined on the
      first bar (and where the previous value is zero). */
  function PctChangeAt(adj: seq<real>, t: nat): (r: Option<real>)
    requires t < |adj|
    ensures r.Some? <==> t > 0 && adj[t - 1] != 0.0
  {
    if t == 0 || adj[t - 1] == 0.0 then None
    else Some(Round2((adj[t] / adj[t - 1] - 1.0) * 100.0))
  }

  /** The indicator columns of bar t. */
  function RowAt(bars: seq<Bar>, t: nat): Row
    requires t < |bars|
  {
    var c := Closes(bars);
    var a := AdjCloses(bars);
    var hi := Highs(bars);
    var lo := Lows(bars);
    var bb := H.BollingerAt(c, Stds(bars), 20, 2.0, t);
    var st := H.SupertrendAt(hi, lo, c, 10, 3.0, t);
    var m := H.MacdAt(c, t);
    Row(RoundOpt(SmaAt(a, 20, t)), RoundOpt(SmaAt(a, 50, t)), RoundOpt(SmaAt(a, 200, t)),
        H.RsiAt(c, 3, t), H.RsiAt(c, 9, t), H.RsiAt(c, 14, t),
        bb.upper, bb.middle, bb.lower,
        H.AtrAt(hi, lo, c, 14, t), RoundOpt(st.1), st.0,
        H.EmaAt(H.Rsi(c, 9), 3, t), H.WmaRoundedAt(H.Rsi(c, 9), 21, t), PctChangeAt(a, t),
        m.0, m.1)
  }

  /** A frame: the bars and, aligned with them, their indicator columns. */
  datatype Frame = Frame(bars: seq<Bar>, rows: seq<Row>)

  /** What `calculate_indicators` ends in: a frame, or the `NameError`
      its failure path raises (it calls `sys._getframe` without importing
      `sys`). */
  datatype Outcome = Computed(frame: Frame) | NameErrorRaised

  function Rows(bars: seq<Bar>): (rows: seq<Row>)
    ensures |rows| == |bars|
  {
    seq(|bars|, t requires 0 <= t < |bars| => RowAt(bars, t))
  }

  /** `calculate_indicators(df, latest_only)`. With `latest_only` on an
      empty frame, taking the last row fails and the handler itself
      raises. */
  function CalculateIndicators(bars: seq<Bar>, latestOnly: bool): Outcome
  {
    var rows := Rows(bars);
    if !latestOnly then Computed(Frame(bars, rows))
    else if |bars| == 0 then NameErrorRaised
    else Computed(Frame([bars[|bars| - 1]], [rows[|rows| - 1]]))
  }

  /** The bars come back unchanged with one indicator row each; with
      `latest_only`, exactly the last bar and its row. */
  lemma CalculateIndicatorsShape(bars: seq<Bar>, latestOnly: bool)
    ensures var o := CalculateIndicators(bars, latestOnly);
      (o.NameErrorRaised? <==> latestOnly && |bars| == 0)
      && (o.Computed? && !latestOnly ==> o.frame.bars == bars && |o.frame.rows| == |bars|)
      && (o.Computed? && latestOnly ==>
            o.frame.bars == [bars[|bars| - 1]] && o.frame.rows == [RowAt(bars, |bars| - 1)])
  {
  }

  /** `calculate_indicators` of archive/data_manager.py: the same steps,
      but that module imports `sys`, so its handler logs and returns the
      frame it was given, with the indicator columns already added. */
  function ArchiveCalculateIndicators(bars: seq<Bar>, latestOnly: bool): (f: Frame)
    ensures CalculateIndicators(bars, latestOnly).Computed? ==> f == CalculateIndicators(bars, latestOnly).frame
    ensures CalculateIndicators(bars, latestOnly).NameErrorRaised? ==> f.bars == bars == [] && f.rows == []
  {
    if latestOnly && |bars| == 0 then Frame(bars, Rows(bars))
    else CalculateIndicators(bars, latestOnly).frame
  }

  /** What every computed row satisfies:
      - the three RSIs and the EMA of RSI(9) are on the 0..100 scale, and
        the EMA starts at 100 because RSI(9) is filled with 100;
      - SMA(20), WMA(RSI(9), 21) and ATR(14) are undefined exactly on
        their warm-up bars, and the price change on the first bar;
      - the Supertrend is never defined and its direction is always -1;
      - the Bollinger bands are ordered where defined. */
  lemma RowFacts(bars: seq<Bar>, t: nat)
    requires t < |bars|
    requires forall k :: 0 <= k < |bars| ==> bars[k].low <= bars[k].high
    requires forall k :: 0 <= k < |bars| ==> bars[k].std20.Some? ==> bars[k].std20.value >= 0.0
    ensures var r := RowAt(bars, t);
      0.0 <= r.rsi3 <= 100.0 && 0.0 <= r.rsi9 <= 100.0 && 0.0 <= r.rsi14 <= 100.0
      && 0.0 <= r.emaRsi93 <= 100.0
      && (t == 0 ==> r.emaRsi93 == 100.0 && r.pctPriceChange.None?)
      && (r.sma20.Some? <==> t >= 19)
      && (r.wmaRsi921.Some? <==> t >= 20)
      && (r.atr14.Some? <==> t >= 13)
      && r.supertrend.None? && r.supertrendDir == -1
      && (r.bbUpper.Some? ==> r.bbLower.value <= r.bbMiddle.value <= r.bbUpper.value)
  {
    var c := Closes(bars);
    var r9 := H.Rsi(c, 9);
    H.RsiRange(c, 3, t);
    H.RsiRange(c, 9, t);
    H.RsiRange(c, 14, t);
    forall k | 0 <= k < |r9|
      ensures 0.0 <= r9[k] <= 100.0
    {
      H.RsiRange(c, 9, k);
    }
    H.SmoothedPercentRange(r9, 3, 21, t);
    if t == 0 {
      H.RsiWarmup(c, 9, 0);
      Round2Hundred();
    }
    SmaWarmup(AdjCloses(bars), 20, t);
    H.AtrWarmupAndSign(Highs(bars), Lows(bars), c, 14, t);
    H.SupertrendNeverDefined(Highs(bars), Lows(bars), c, 10, 3.0, t);
    H.BollingerOrdered(c, Stds(bars), 20, 2.0, t);
  }

  // ---------------------------------------------------------------------
  // Records and the refresh loop

  datatype Kind = Equity | Index

  /** `FREQUENCIES`. */
  const Frequencies: seq<string> := ["1d", "1wk", "1mo"]

  function OptCell(x: Option<real>): Cell {
    if x.Some? then Num(x.value) else Null
  }

  /** The 17 indicator values in template order. */
  function IndicatorCells(r: Row): (c: seq<Cell>)
    ensures |c| == 17
  {
    [OptCell(r.sma20), OptCell(r.sma50), OptCell(r.sma200),
     Num(r.rsi3), Num(r.rsi9), Num(r.rsi14),
     OptCell(r.bbUpper), OptCell(r.bbMiddle), OptCell(r.bbLower),
     OptCell(r.atr14), OptCell(r.supertrend), Int(r.supertrendDir),
     Num(r.emaRsi93), OptCell(r.wmaRsi921), OptCell(r.pctPriceChange),
     Num(r.macd), Num(r.macdSignal)]
  }

  /** The record built for a bar: for equities it carries `is_final`
      fourth, so it has 21 values; for indices it has the 20 the template
      expects. */
  function Record(kind: Kind, id: int, tf: string, b: Bar, r: Row): (rec: seq<Cell>)
    ensures |rec| == (if kind == Equity then 21 else 20)
    ensures rec[..3] == [Int(id), Text(tf), Text(b.date)]
    ensures rec[|rec| - 17..] == IndicatorCells(r)
  {
    if kind == Equity then [Int(id), Text(tf), Text(b.date), b.isFinal] + IndicatorCells(r)
    else [Int(id), Text(tf), Text(b.date)] + IndicatorCells(r)
  }

  function Records(kind: Kind, id: int, tf: string, bars: seq<Bar>, rows: seq<Row>): (recs: seq<seq<Cell>>)
    requires |rows| == |bars|
    ensures |recs| == |bars|
  {
    seq(|bars|, t requires 0 <= t < |bars| => Record(kind, id, tf, bars[t], rows[t]))
  }

  /** `compute` stands for `calculate_indicators`, which gives one row per
      bar (`Rows` is one). */
  ghost predicate Aligned(compute: seq<Bar> -> seq<Row>) {
    forall bars :: |compute(bars)| == |bars|
  }

  lemma RowsAligned()
    ensures Aligned(Rows)
  {
  }

  /** The bars of one series: the query returns none for an absent key. */
  function PricesFor(prices: map<(int, string), seq<Bar>>, id: int, tf: string): seq<Bar> {
    if (id, tf) in prices then prices[(id, tf)] else []
  }

  function SeriesRecords(kind: Kind, id: int, tf: string, prices: map<(int, string), seq<Bar>>, compute: seq<Bar> -> seq<Row>): (recs: seq<seq<Cell>>)
    requires Aligned(compute)
    ensures |recs| == |PricesFor(prices, id, tf)|
  {
    var bars := PricesFor(prices, id, tf);
    Records(kind, id, tf, bars, compute(bars))
  }

  /** The records of every (id, timeframe) series, as the refresh loops
      see them. */
  function SeriesOf(kind: Kind, prices: map<(int, string), seq<Bar>>, compute: seq<Bar> -> seq<Row>): (int, string) -> seq<seq<Cell>>
    requires Aligned(compute)
  {
    (id: int, tf: string) => SeriesRecords(kind, id, tf, prices, compute)
  }

  /** One series: skipped when it has no records; otherwise its records
      are upserted, and it is counted (with its rows) only when that
      raises nothing. Returns the table, the series count and the row
      count. */
  function SeriesRun(t: Table, recs: seq<seq<Cell>>): (Table, nat, nat)
  {
    if |recs| == 0 then (t, 0, 0)
    else
      var r := ExecuteMany(t, recs);
      if r.1 == Done then (r.0, 1, |recs|) else (r.0, 0, 0)
  }

  /** One timeframe: the series of every id in order, with the
      `processed_symbols` and `inserted_rows` counters. */
  function TimeframeRun(t: Table, ids: seq<int>, tf: string, series: (int, string) -> seq<seq<Cell>>): (Table, nat, nat)
    decreases |ids|
  {
    if |ids| == 0 then (t, 0, 0)
    else
      var p := TimeframeRun(t, ids[..|ids| - 1], tf, series);
      var s := SeriesRun(p.0, series(ids[|ids| - 1], tf));
      (s.0, p.1 + s.1, p.2 + s.2)
  }

  /** The timeframes in order. */
  function RefreshRun(t: Table, ids: seq<int>, tfs: seq<string>, series: (int, string) -> seq<seq<Cell>>): Table
    decreases |tfs|
  {
    if |tfs| == 0 then t
    else TimeframeRun(RefreshRun(t, ids, tfs[..|tfs| - 1], series), ids, tfs[|tfs| - 1], series).0
  }

  lemma TimeframeRunStep(t: Table, ids: seq<int>, i: nat, tf: string, series: (int, string) -> seq<seq<Cell>>)
    requires i < |ids|
    ensures var p := TimeframeRun(t, ids[..i], tf, series);
            var s := SeriesRun(p.0, series(ids[i], tf));
            TimeframeRun(t, ids[..i + 1], tf, series) == (s.0, p.1 + s.1, p.2 + s.2)
  {
    assert ids[..i + 1][..i] == ids[..i];
  }

  lemma RefreshRunStep(t: Table, ids: seq<int>, tfs: seq<string>, j: nat, series: (int, string) -> seq<seq<Cell>>)
    requires j < |tfs|
    ensures RefreshRun(t, ids, tfs[..j + 1], series)
         == TimeframeRun(RefreshRun(t, ids, tfs[..j], series), ids, tfs[j], series).0
  {
    assert tfs[..j + 1][..j] == tfs[..j];
  }

  /** The body of the inner loop: one series, read, recomputed and
      upserted, with the exception that refuses it caught. `series`
      stands for reading the bars, `calculate_indicators` and building
      the records (`SeriesOf`). */
  method RefreshSeries(table: IndicatorTable, id: int, tf: string, series: (int, string) -> seq<seq<Cell>>)
    returns (processed: nat, inserted: nat)
    modifies table
    ensures (table.rows, processed, inserted) == SeriesRun(old(table.rows), series(id, tf))
  {
    processed, inserted := 0, 0;
    var recs := series(id, tf);
    if |recs| > 0 {
      var status := table.ExecuteManyInPlace(recs);
      if status == Done {
        processed, inserted := 1, |recs|;
      }
    }
  }

  /** The inner loop of `refresh_indicators` for one timeframe. */
  method RefreshTimeframe(table: IndicatorTable, ids: seq<int>, tf: string, series: (int, string) -> seq<seq<Cell>>)
    returns (processed: nat, inserted: nat)
    modifies table
    ensures (table.rows, processed, inserted) == TimeframeRun(old(table.rows), ids, tf, series)
  {
    processed, inserted := 0, 0;
    var i := 0;
    while i < |ids|
      invariant 0 <= i <= |ids|
      invariant (table.rows, processed, inserted) == TimeframeRun(old(table.rows), ids[..i], tf, series)
    {
      TimeframeRunStep(old(table.rows), ids, i, tf, series);
      var p, n := RefreshSeries(table, ids[i], tf, series);
      processed, inserted := processed + p, inserted + n;
      i := i + 1;
    }
    assert ids[..i] == ids;
  }

  /** The outer loop over `FREQUENCIES`, with the counters each
      timeframe reports. */
  method RefreshFrequencies(table: IndicatorTable, ids: seq<int>, series: (int, string) -> seq<seq<Cell>>)
    returns (processed: seq<nat>, inserted: seq<nat>)
    modifies table
    ensures table.rows == RefreshRun(old(table.rows), ids, Frequencies, series)
    ensures |processed| == |Frequencies| && |inserted| == |Frequencies|
    ensures forall j :: 0 <= j < |Frequencies| ==>
      var r := TimeframeRun(RefreshRun(old(table.rows), ids, Frequencies[..j], series), ids, Frequencies[j], series);
      processed[j] == r.1 && inserted[j] == r.2
  {
    processed, inserted := [], [];
    var j := 0;
    while j < |Frequencies|
      invariant 0 <= j <= |Frequencies| && |processed| == j && |inserted| == j
      invariant table.rows == RefreshRun(old(table.rows), ids, Frequencies[..j], series)
      invariant forall k :: 0 <= k < j ==>
        var r := TimeframeRun(RefreshRun(old(table.rows), ids, Frequencies[..k], series), ids, Frequencies[k], series);
        processed[k] == r.1 && inserted[k] == r.2
    {
      RefreshRunStep(old(table.rows), ids, Frequencies, j, series);
      var p, n := RefreshTimeframe(table, ids, Frequencies[j], series);
      processed := processed + [p];
      inserted := inserted + [n];
      j := j + 1;
    }
    assert Frequencies[..j] == Frequencies;
  }

  /** `refresh_indicators` for one kind of instrument: every timeframe of
      `FREQUENCIES`, every id, a full recompute each time. Returns the
      per-timeframe counters it reports. */
  method RefreshIndicators(table: IndicatorTable, kind: Kind, ids: seq<int>,
                           prices: map<(int, string), seq<Bar>>, compute: seq<Bar> -> seq<Row>)
    returns (processed: seq<nat>, inserted: seq<nat>)
    requires Aligned(compute)
    modifies table
    ensures table.rows == RefreshRun(old(table.rows), ids, Frequencies, SeriesOf(kind, prices, compute))
    ensures |processed| == |Frequencies| && |inserted| == |Frequencies|
    ensures forall j :: 0 <= j < |Frequencies| ==>
      var series := SeriesOf(kind, prices, compute);
      var r := TimeframeRun(RefreshRun(old(table.rows), ids, Frequencies[..j], series), ids, Frequencies[j], series);
      processed[j] == r.1 && inserted[j] == r.2
  {
    processed, inserted := RefreshFrequencies(table, ids, SeriesOf(kind, prices, compute));
  }

  /** Equities: every non-empty series is refused at its first record
      (21 values for 20 placeholders), so a timeframe counts nothing and
      leaves the table as it was. */
  lemma {:induction false} EquityTimeframeWritesNothing(t: Table, ids: seq<int>, tf: string,
                                                        prices: map<(int, string), seq<Bar>>, compute: seq<Bar> -> seq<Row>)
    requires Aligned(compute)
    ensures TimeframeRun(t, ids, tf, SeriesOf(Equity, prices, compute)) == (t, 0, 0)
    decreases |ids|
  {
    if |ids| > 0 {
      EquityTimeframeWritesNothing(t, ids[..|ids| - 1], tf, prices, compute);
      var recs := SeriesRecords(Equity, ids[|ids| - 1], tf, prices, compute);
      if |recs| > 0 {
        ExecuteManyRefusedFirst(t, recs);
      }
    }
  }

  /** The whole equity refresh leaves the equity indicator table
      unchanged. */
  lemma {:induction false} EquityRefreshWritesNothing(t: Table, ids: seq<int>, tfs: seq<string>,
                                                      prices: map<(int, string), seq<Bar>>, compute: seq<Bar> -> seq<Row>)
    requires Aligned(compute)
    ensures RefreshRun(t, ids, tfs, SeriesOf(Equity, prices, compute)) == t
    decreases |tfs|
  {
    if |tfs| > 0 {
      EquityRefreshWritesNothing(t, ids, tfs[..|tfs| - 1], prices, compute);
      EquityTimeframeWritesNothing(t, ids, tfs[|tfs| - 1], prices, compute);
    }
  }

  /** Every index record fits the template. */
  lemma IndexRecordsWellFormed(id: int, tf: string, prices: map<(int, string), seq<Bar>>, compute: seq<Bar> -> seq<Row>)
    requires Aligned(compute)
    ensures WellFormed(SeriesRecords(Index, id, tf, prices, compute))
  {
  }

  /** All index records of one timeframe, in the order they are written. */
  function TimeframeRecords(ids: seq<int>, tf: string, prices: map<(int, string), seq<Bar>>, compute: seq<Bar> -> seq<Row>): (recs: seq<seq<Cell>>)
    requires Aligned(compute)
    ensures WellFormed(recs)
    decreases |ids|
  {
    if |ids| == 0 then []
    else
      var init := TimeframeRecords(ids[..|ids| - 1], tf, prices, compute);
      var last := SeriesRecords(Index, ids[|ids| - 1], tf, prices, compute);
      IndexRecordsWellFormed(ids[|ids| - 1], tf, prices, compute);
      assert forall j :: 0 <= j < |init + last| ==>
        (init + last)[j] == if j < |init| then init[j] else last[j - |init|];
      init + last
  }

  /** All index records of a refresh, in the order they are written. */
  function RefreshRecords(ids: seq<int>, tfs: seq<string>, prices: map<(int, string), seq<Bar>>, compute: seq<Bar> -> seq<Row>): (recs: seq<seq<Cell>>)
    requires Aligned(compute)
    ensures WellFormed(recs)
    decreases |tfs|
  {
    if |tfs| == 0 then []
    else
      var init := RefreshRecords(ids, tfs[..|tfs| - 1], prices, compute);
      var last := TimeframeRecords(ids, tfs[|tfs| - 1], prices, compute);
      assert forall j :: 0 <= j < |init + last| ==>
        (init + last)[j] == if j < |init| then init[j] else last[j - |init|];
      init + last
  }

  /** Two batches in a row are one batch, once the first cannot fail. */
  lemma {:induction false} ExecuteManyConcat(t: Table, a: seq<seq<Cell>>, b: seq<seq<Cell>>)
    requires WellFormed(a)
    ensures ExecuteMany(t, a).1 == Done
    ensures ExecuteMany(ExecuteMany(t, a).0, b) == ExecuteMany(t, a + b)
    decreases |b|
  {
    ExecuteManyAt(t, a, Key(Null, Null, Null));
    if |b| == 0 {
      assert a + b == a;
    } else {
      ExecuteManyConcat(t, a, b[..|b| - 1]);
      assert (a + b)[..|a + b| - 1] == a + b[..|b| - 1];
    }
  }

  /** An index timeframe writes exactly its records as one batch. */
  lemma {:induction false} IndexTimeframeIsOneBatch(t: Table, ids: seq<int>, tf: string,
                                                    prices: map<(int, string), seq<Bar>>, compute: seq<Bar> -> seq<Row>)
    requires Aligned(compute)
    ensures TimeframeRun(t, ids, tf, SeriesOf(Index, prices, compute)).0 == ExecuteMany(t, TimeframeRecords(ids, tf, prices, compute)).0
    decreases |ids|
  {
    if |ids| > 0 {
      var init := TimeframeRecords(ids[..|ids| - 1], tf, prices, compute);
      var last := SeriesRecords(Index, ids[|ids| - 1], tf, prices, compute);
      IndexTimeframeIsOneBatch(t, ids[..|ids| - 1], tf, prices, compute);
      IndexRecordsWellFormed(ids[|ids| - 1], tf, prices, compute);
      ExecuteManyConcat(t, init, last);
      ExecuteManyAt(ExecuteMany(t, init).0, last, Key(Null, Null, Null));
    }
  }

  /** An index refresh writes exactly its records as one batch. */
  lemma {:induction false} IndexRefreshIsOneBatch(t: Table, ids: seq<int>, tfs: seq<string>,
                                                  prices: map<(int, string), seq<Bar>>, compute: seq<Bar> -> seq<Row>)
    requires Aligned(compute)
    ensures RefreshRun(t, ids, tfs, SeriesOf(Index, prices, compute)) == ExecuteMany(t, RefreshRecords(ids, tfs, prices, compute)).0
    decreases |tfs|
  {
    if |tfs| > 0 {
      var init := RefreshRecords(ids, tfs[..|tfs| - 1], prices, compute);
      var last := TimeframeRecords(ids, tfs[|tfs| - 1], prices, compute);
      IndexRefreshIsOneBatch(t, ids, tfs[..|tfs| - 1], prices, compute);
      IndexTimeframeIsOneBatch(ExecuteMany(t, init).0, ids, tfs[|tfs| - 1], prices, compute);
      ExecuteManyConcat(t, init, last);
    }
  }

  /** Re-running the index refresh over the same bars leaves the table as
      the first run left it. */
  lemma IndexRefreshIdempotent(t: Table, ids: seq<int>, prices: map<(int, string), seq<Bar>>, compute: seq<Bar> -> seq<Row>)
    requires Aligned(compute)
    ensures var once := RefreshRun(t, ids, Frequencies, SeriesOf(Index, prices, compute));
      RefreshRun(once, ids, Frequencies, SeriesOf(Index, prices, compute)) == once
  {
    var recs := RefreshRecords(ids, Frequencies, prices, compute);
    var once := RefreshRun(t, ids, Frequencies, SeriesOf(Index, prices, compute));
    IndexRefreshIsOneBatch(t, ids, Frequencies, prices, compute);
    IndexRefreshIsOneBatch(once, ids, Frequencies, prices, compute);
    ExecuteManyIdempotent(t, recs);
  }

  // ---------------------------------------------------------------------
  // 52-week statistics

  /** SQLite's default BINARY collation on text: code unit by code unit,
      a proper prefix first. */
  predicate TextLessEq(a: string, b: string)
    decreases |a|
  {
    |a| == 0 || (|b| > 0 && (a[0] < b[0] || (a[0] == b[0] && TextLessEq(a[1..], b[1..]))))
  }

  function MaxHigh(bars: seq<Bar>): real
    requires |bars| > 0
    decreases |bars|
  {
    if |bars| == 1 then bars[0].high else Max(MaxHigh(bars[..|bars| - 1]), bars[|bars| - 1].high)
  }

  function MinLow(bars: seq<Bar>): real
    requires |bars| > 0
    decreases |bars|
  {
    if |bars| == 1 then bars[0].low else Min(MinLow(bars[..|bars| - 1]), bars[|bars| - 1].low)
  }

  /** The daily bars dated on or after the cutoff `date('now', '-1
      year')`. */
  function InWindow(bars: seq<Bar>, cutoff: string): (w: seq<Bar>)
    ensures forall b :: b in w <==> b in bars && TextLessEq(cutoff, b.date)
    decreases |bars|
  {
    if |bars| == 0 then []
    else
      var init := InWindow(bars[..|bars| - 1], cutoff);
      assert forall b :: b in bars <==> b in bars[..|bars| - 1] || b == bars[|bars| - 1];
      if TextLessEq(cutoff, bars[|bars| - 1].date) then init + [bars[|bars| - 1]] else init
  }

  datatype Stats = Stats(week52High: real, week52Low: real, asOfDate: string)

  /** `MAX(high), MIN(low)` over an id's window; no row when the window
      is empty. */
  function Week52(bars: seq<Bar>, cutoff: string): Option<(real, real)> {
    var w := InWindow(bars, cutoff);
    if |w| == 0 then None else Some((MaxHigh(w), MinLow(w)))
  }

  lemma {:induction false} MaxHighIsMax(bars: seq<Bar>)
    requires |bars| > 0
    ensures forall b :: b in bars ==> b.high <= MaxHigh(bars)
    ensures exists b :: b in bars && b.high == MaxHigh(bars)
    decreases |bars|
  {
    if |bars| > 1 {
      MaxHighIsMax(bars[..|bars| - 1]);
      assert forall b :: b in bars ==> b in bars[..|bars| - 1] || b == bars[|bars| - 1];
      var w :| w in bars[..|bars| - 1] && w.high == MaxHigh(bars[..|bars| - 1]);
      assert w in bars;
    } else {
      assert bars[0] in bars;
    }
  }

  lemma {:induction false} MinLowIsMin(bars: seq<Bar>)
    requires |bars| > 0
    ensures forall b :: b in bars ==> MinLow(bars) <= b.low
    ensures exists b :: b in bars && b.low == MinLow(bars)
    decreases |bars|
  {
    if |bars| > 1 {
      MinLowIsMin(bars[..|bars| - 1]);
      assert forall b :: b in bars ==> b in bars[..|bars| - 1] || b == bars[|bars| - 1];
      var w :| w in bars[..|bars| - 1] && w.low == MinLow(bars[..|bars| - 1]);
      assert w in bars;
    } else {
      assert bars[0] in bars;
    }
  }

  /** The 52-week high is the greatest high and the low the least low of
      the bars dated on or after the cutoff, each attained by such a bar;
      there is a result exactly when such a bar exists. */
  lemma Week52IsWindowExtremes(bars: seq<Bar>, cutoff: string)
    ensures Week52(bars, cutoff).Some? <==> exists b :: b in bars && TextLessEq(cutoff, b.date)
    ensures Week52(bars, cutoff).Some? ==>
      var (hi, lo) := Week52(bars, cutoff).value;
      (forall b :: b in bars && TextLessEq(cutoff, b.date) ==> lo <= b.low && b.high <= hi)
      && (exists b :: b in bars && TextLessEq(cutoff, b.date) && b.high == hi)
      && (exists b :: b in bars && TextLessEq(cutoff, b.date) && b.low == lo)
  {
    var w := InWindow(bars, cutoff);
    if |w| > 0 {
      assert w[0] in w;
      MaxHighIsMax(w);
      MinLowIsMin(w);
    } else {
      assert forall b :: b !in w;
    }
  }

  /** The stats of every id, in the order the query returns them. */
  function StatsRun(stats: map<int, Stats>, ids: seq<int>, daily: map<int, seq<Bar>>, cutoff: string, today: string): map<int, Stats>
    decreases |ids|
  {
    if |ids| == 0 then stats
    else
      var prev := StatsRun(stats, ids[..|ids| - 1], daily, cutoff, today);
      var id := ids[|ids| - 1];
      var w := Week52(if id in daily then daily[id] else [], cutoff);
      if w.Some? then prev[id := Stats(w.value.0, w.value.1, today)] else prev
  }

  /** The upsert loop of `refresh_52week_stats` over one price table:
      each id with bars in the window gets its row replaced (keyed by id
      alone); the others are left alone. `cutoff` and `today` stand for
      `date('now', '-1 year')` and `date('now')`. */
  method Refresh52WeekStats(stats: map<int, Stats>, ids: seq<int>, daily: map<int, seq<Bar>>, cutoff: string, today: string)
    returns (updated: map<int, Stats>, count: nat)
    ensures updated == StatsRun(stats, ids, daily, cutoff, today)
    ensures forall id :: id !in ids ==> (id in updated <==> id in stats) && (id in stats ==> updated[id] == stats[id])
    ensures count <= |ids|
  {
    updated, count := stats, 0;
    var i := 0;
    while i < |ids|
      invariant 0 <= i <= |ids| && count <= i
      invariant updated == StatsRun(stats, ids[..i], daily, cutoff, today)
    {
      StatsRunStep(stats, ids, i, daily, cutoff, today);
      var id := ids[i];
      var w := Week52(if id in daily then daily[id] else [], cutoff);
      if w.Some? {
        updated := updated[id := Stats(w.value.0, w.value.1, today)];
        count := count + 1;
      }
      i := i + 1;
    }
    assert ids[..i] == ids;
    forall id | id !in ids
      ensures (id in updated <==> id in stats) && (id in stats ==> updated[id] == stats[id])
    {
      StatsRunKeeps(stats, ids, daily, cutoff, today, id);
    }
  }

  lemma StatsRunStep(stats: map<int, Stats>, ids: seq<int>, i: nat, daily: map<int, seq<Bar>>, cutoff: string, today: string)
    requires i < |ids|
    ensures var prev := StatsRun(stats, ids[..i], daily, cutoff, today);
      var w := Week52(if ids[i] in daily then daily[ids[i]] else [], cutoff);
      StatsRun(stats, ids[..i + 1], daily, cutoff, today)
        == if w.Some? then prev[ids[i] := Stats(w.value.0, w.value.1, today)] else prev
  {
    assert ids[..i + 1][..i] == ids[..i];
  }

  /** An id the query does not return keeps its row, or its absence. */
  lemma {:induction false} StatsRunKeeps(stats: map<int, Stats>, ids: seq<int>, daily: map<int, seq<Bar>>, cutoff: string, today: string, id: int)
    requires id !in ids
    ensures var s := StatsRun(stats, ids, daily, cutoff, today);
      (id in s <==> id in stats) && (id in stats ==> s[id] == stats[id])
    decreases |ids|
  {
    if |ids| > 0 {
      assert forall j :: 0 <= j < |ids| - 1 ==> ids[..|ids| - 1][j] == ids[j];
      StatsRunKeeps(stats, ids[..|ids| - 1], daily, cutoff, today, id);
    }
  }

  /** After the refresh, an id with bars in the window holds its
      window's extremes dated today. */
  lemma {:induction false} StatsRunStores(stats: map<int, Stats>, ids: seq<int>, daily: map<int, seq<Bar>>, cutoff: string, today: string, id: int)
    requires id in ids
    ensures var w := Week52(if id in daily then daily[id] else [], cutoff);
      var s := StatsRun(stats, ids, daily, cutoff, today);
      w.Some? ==> id in s && s[id] == Stats(w.value.0, w.value.1, today)
    decreases |ids|
  {
    if ids[|ids| - 1] != id {
      assert id in ids[..|ids| - 1] by {
        var j :| 0 <= j < |ids| && ids[j] == id;
        assert j < |ids| - 1 && ids[..|ids| - 1][j] == id;
      }
      StatsRunStores(stats, ids[..|ids| - 1], daily, cutoff, today, id);
    }
  }
}
