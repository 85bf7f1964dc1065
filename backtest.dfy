/** The scanner backtest (services/scanners/backtest_service.py and its
    predecessor archive/backtest_service_old.py): each signal of a scanner
    CSV buys at the open of the second daily bar on or after the signal
    date and sells at the close of a later bar; the gains are summarised. */
module Backtest {
  import opened Base
  import opened Calendar
  import opened Text
  import opened Float
  import opened Frames

  /** A row of the scanner CSV. */
  datatype Signal = Signal(symbolId: int, symbol: string, date: Date)

  /** A row of `equity_price_data`, with the columns the backtest reads. */
  datatype PriceRow = PriceRow(symbolId: int, timeframe: string, date: Date, open: real, close: real)

  /** The columns the CSV must carry; a missing one raises ValueError. */
  const RequiredColumns: seq<string> := ["symbol_id", "symbol", "date"]

  predicate HasRequired(columns: seq<string>) {
    forall c :: c in RequiredColumns ==> c in columns
  }

  // ---------------------------------------------------------------------
  // Signal order and the price query

  /** `sort_values(['date', 'symbol'])`. */
  predicate SignalLe(a: Signal, b: Signal) {
    Less(a.date, b.date) || (a.date == b.date && StrLe(a.symbol, b.symbol))
  }

  lemma SignalLeTotal()
    ensures Total(SignalLe)
  {
    forall a: Signal, b: Signal
      ensures SignalLe(a, b) || SignalLe(b, a)
    {
      StrLeTotal(a.symbol, b.symbol);
    }
  }

  /** The signals in the order the backtest visits them. */
  function SortSignals(signals: seq<Signal>): (r: seq<Signal>)
    ensures Sorted(r, SignalLe)
    ensures multiset(r) == multiset(signals)
  {
    SignalLeTotal();
    SortSorted(signals, SignalLe);
    Sort(signals, SignalLe)
  }

  /** `ORDER BY date ASC`. */
  predicate BarLe(a: PriceRow, b: PriceRow) { LessEq(a.date, b.date) }

  /** `WHERE symbol_id = ? AND date >= ? AND timeframe = '1d'`. */
  predicate IsBar(symbolId: int, from: Date, p: PriceRow) {
    p.symbolId == symbolId && p.timeframe == "1d" && LessEq(from, p.date)
  }

  /** SQLite's `LIMIT n`: a negative limit sets no bound. */
  function Limit<T>(s: seq<T>, n: int): (r: seq<T>)
    ensures n < 0 ==> r == s
    ensures n >= 0 ==> |r| == Min(n as real, |s| as real) as int
    ensures forall k :: 0 <= k < |r| ==> k < |s| && r[k] == s[k]
  {
    if n < 0 || n >= |s| then s else s[..n]
  }

  /** The daily bars of a symbol on or after a date, earliest first, at
      most `limit` of them. */
  function Fetch(prices: seq<PriceRow>, symbolId: int, from: Date, limit: int): (r: seq<PriceRow>)
    ensures forall b :: b in r ==> b in prices && IsBar(symbolId, from, b)
    ensures Sorted(r, BarLe)
    ensures limit >= 0 ==> |r| <= limit
  {
    var matching := Filter(prices, p => IsBar(symbolId, from, p));
    var sorted := Sort(matching, BarLe);
    assert Total(BarLe) by {
      forall a: PriceRow, b: PriceRow
        ensures BarLe(a, b) || BarLe(b, a)
      {
      }
    }
    SortSorted(matching, BarLe);
    SortMembers(matching, BarLe);
    var r := Limit(sorted, limit);
    assert forall b :: b in r ==> b in sorted;
    r
  }

  /** The query returns every matching bar when the limit allows. */
  lemma FetchCount(prices: seq<PriceRow>, symbolId: int, from: Date, limit: int)
    ensures var n := |Filter(prices, p => IsBar(symbolId, from, p))|;
      |Fetch(prices, symbolId, from, limit)| == if limit < 0 || limit >= n then n else limit
  {
  }

  // ---------------------------------------------------------------------
  // The gain of one signal

  /** `round((sell - buy) / buy * 100, 2)` on float64 prices. */
  function PctChange(buy: real, sell: real): (g: Ext)
    ensures buy > 0.0 ==> g == Fin(Round2((sell - buy) / buy * 100.0))
  {
    RoundExt(Scale(Div(sell - buy, buy), 100.0))
  }

  /** The close of the sixth bar, or of the last one when there are fewer. */
  function SellPrice(bars: seq<PriceRow>): real
    requires |bars| >= 2
  {
    if |bars| >= 6 then bars[5].close else bars[|bars| - 1].close
  }

  /** The gain of one signal over its fetched bars; None with fewer than
      two bars. */
  function Gain(bars: seq<PriceRow>): (g: Option<Ext>)
    ensures g.None? <==> |bars| < 2
  {
    if |bars| < 2 then None else Some(PctChange(bars[1].open, SellPrice(bars)))
  }

  /** The number of bars the services backtest fetches. */
  const Bars := 6

  /** The gain of one signal in services/scanners/backtest_service.py. */
  function SignalGain(s: Signal, prices: seq<PriceRow>): Option<Ext> {
    Gain(Fetch(prices, s.symbolId, s.date, Bars))
  }

  /** The sell bar is the sixth on or after the signal date, or the last
      one there is; the buy bar is the second. */
  lemma SellBar(prices: seq<PriceRow>, s: Signal)
    ensures var bars := Fetch(prices, s.symbolId, s.date, Bars);
      && (|bars| >= 2 ==> SignalGain(s, prices) == Some(PctChange(bars[1].open, bars[|bars| - 1].close)))
      && (|bars| == 6 <==> |Filter(prices, p => IsBar(s.symbolId, s.date, p))| >= 6)
  {
    FetchCount(prices, s.symbolId, s.date, Bars);
  }

  /** `gain > 0` on the gain column: a missing gain (NaN) is no win. */
  predicate Win(g: Option<Ext>) {
    g.Some? && Above(g.value, 0.0)
  }

  /** Rounding to cents leaves a positive value exactly from half a cent. */
  lemma Round2Positive(x: real)
    ensures Round2(x) > 0.0 <==> x >= 0.005
  {
    var f := (x * 100.0 + 0.5).Floor;
    assert Round2(x) == f as real / 100.0;
    if x >= 0.005 {
      assert x * 100.0 + 0.5 >= 1.0;
    }
  }

  /** With a positive buy price a trade wins exactly when the sell price
      is at least 1/20000 of the buy price above it; a flat or falling
      price is never a win. */
  lemma WinMeaning(buy: real, sell: real)
    requires buy > 0.0
    ensures Win(Some(PctChange(buy, sell))) <==> 20000.0 * (sell - buy) >= buy
    ensures sell <= buy ==> !Win(Some(PctChange(buy, sell)))
  {
    var x := (sell - buy) / buy * 100.0;
    Round2Positive(x);
    assert (sell - buy) / buy * buy == sell - buy;
    if x >= 0.005 {
      assert (sell - buy) / buy >= 0.00005;
      assert (sell - buy) >= 0.00005 * buy;
    }
    if 20000.0 * (sell - buy) >= buy {
      assert sell - buy >= 0.00005 * buy;
      assert (sell - buy) / buy >= 0.00005;
    }
  }

  // ---------------------------------------------------------------------
  // services/scanners/backtest_service.py

  /** A missing gain is NaN in the gain column. */
  function AsFloat(g: Option<Ext>): Ext {
    if g.None? then NaN else g.value
  }

  /** `Series.min()`: the least value, skipping NaN; NaN when every value
      is NaN. */
  function MinSkipNaN(xs: seq<Ext>): (m: Ext)
    ensures m.NaN? <==> forall k :: 0 <= k < |xs| ==> xs[k].NaN?
    ensures !m.NaN? ==> m in xs && forall k :: 0 <= k < |xs| && !xs[k].NaN? ==> ExtLe(m, xs[k])
  {
    if |xs| == 0 then NaN
    else
      var m := MinSkipNaN(xs[..|xs| - 1]);
      var x := xs[|xs| - 1];
      assert forall k :: 0 <= k < |xs| - 1 ==> xs[..|xs| - 1][k] == xs[k];
      if x.NaN? then m
      else if m.NaN? || Below(x, m) then x
      else m
  }

  /** `x <= y` between two float64 values that are not NaN. */
  predicate ExtLe(x: Ext, y: Ext) { x == y || Below(x, y) }

  /** The number of wins. */
  function CountTrue(bs: seq<bool>): (n: nat)
    ensures n <= |bs|
  {
    if |bs| == 0 then 0 else CountTrue(bs[..|bs| - 1]) + (if bs[|bs| - 1] then 1 else 0)
  }

  /** `win.mean() * 100`: NaN for an empty frame. */
  function MeanPercent(bs: seq<bool>): (r: Ext)
    ensures |bs| == 0 <==> r.NaN?
    ensures r.Fin? ==> 0.0 <= r.v <= 100.0
  {
    if |bs| == 0 then NaN else Fin(Percent(CountTrue(bs), |bs|))
  }

  /** count / total * 100. */
  function Percent(count: nat, total: nat): (r: real)
    requires 0 < total && count <= total
    ensures 0.0 <= r <= 100.0
  {
    assert count as real / total as real <= 1.0;
    count as real / total as real * 100.0
  }

  /** What the services backtest reports: the sorted signals with their
      gain and win columns, the printed win rate and the printed max loss. */
  datatype Report = Report(signals: seq<Signal>, gains: seq<Option<Ext>>, wins: seq<bool>,
                           winRate: Ext, maxLoss: Ext)

  /** The gain column as float64: a missing gain is NaN, a present one is
      kept as it is. */
  function GainColumn(gains: seq<Option<Ext>>): (c: seq<Ext>)
    ensures |c| == |gains|
    ensures forall k :: 0 <= k < |gains| && gains[k].None? ==> c[k].NaN?
    ensures forall k :: 0 <= k < |gains| && gains[k].Some? ==> c[k] == gains[k].value
  {
    seq(|gains|, k requires 0 <= k < |gains| => AsFloat(gains[k]))
  }

  /** `df['gain'] > 0` on the float column: NaN compares false, so a
      signal without a gain is never a win. */
  function WinColumn(gains: seq<Option<Ext>>): (w: seq<bool>)
    ensures |w| == |gains|
    ensures forall k :: 0 <= k < |gains| ==> (w[k] <==> Above(GainColumn(gains)[k], 0.0))
    ensures forall k :: 0 <= k < |gains| && w[k] ==> gains[k].Some?
  {
    seq(|gains|, k requires 0 <= k < |gains| => Win(gains[k]))
  }

  /** The loop over the sorted signals, one gain appended per signal. */
  method ComputeGains(rows: seq<Signal>, prices: seq<PriceRow>) returns (gains: seq<Option<Ext>>)
    ensures |gains| == |rows|
    ensures forall k :: 0 <= k < |rows| ==> gains[k] == SignalGain(rows[k], prices)
  {
    gains := [];
    for i := 0 to |rows|
      invariant |gains| == i
      invariant forall k :: 0 <= k < i ==> gains[k] == SignalGain(rows[k], prices)
    {
      var bars := Fetch(prices, rows[i].symbolId, rows[i].date, Bars);
      var g: Option<Ext> := None;
      if |bars| >= 2 {
        var buy := bars[1].open;
        var sell := if |bars| >= 6 then bars[5].close else bars[|bars| - 1].close;
        g := Some(PctChange(buy, sell));
      }
      assert g == SignalGain(rows[i], prices);
      GainsStep(rows, prices, gains, g);
      gains := gains + [g];
    }
  }

  lemma GainsStep(rows: seq<Signal>, prices: seq<PriceRow>, gains: seq<Option<Ext>>, g: Option<Ext>)
    requires |gains| < |rows|
    requires forall k :: 0 <= k < |gains| ==> gains[k] == SignalGain(rows[k], prices)
    requires g == SignalGain(rows[|gains|], prices)
    ensures forall k :: 0 <= k <= |gains| ==> (gains + [g])[k] == SignalGain(rows[k], prices)
  {
  }

  /** `backtest_scanner(file_name)`: None when a required column is
      missing (the error is caught and logged). */
  method BacktestScanner(columns: seq<string>, signals: seq<Signal>, prices: seq<PriceRow>)
    returns (r: Option<Report>)
    ensures r.None? <==> !HasRequired(columns)
    ensures r.Some? ==>
      && r.value.signals == SortSignals(signals)
      && |r.value.gains| == |signals| == |r.value.wins|
      && (forall k :: 0 <= k < |signals| ==>
            && r.value.gains[k] == SignalGain(r.value.signals[k], prices)
            && r.value.wins[k] == Win(r.value.gains[k]))
      && r.value.winRate == MeanPercent(r.value.wins)
      && r.value.maxLoss == MinSkipNaN(GainColumn(r.value.gains))
  {
    if !HasRequired(columns) {
      return None;
    }
    var rows := SortSignals(signals);
    var gains := ComputeGains(rows, prices);
    var wins := WinColumn(gains);
    r := Some(Report(rows, gains, wins, MeanPercent(wins), MinSkipNaN(GainColumn(gains))));
  }

  // ---------------------------------------------------------------------
  // archive/backtest_service_old.py

  /** `holding_days if len(df_price) > holding_days else len(df_price) - 1`. */
  function SellIndex(holdingDays: int, n: int): (i: int)
    ensures i < n
  {
    if n > holdingDays then holdingDays else n - 1
  }

  /** One signal of the old backtest: too few bars, a trade, or an
      IndexError from `iloc` with a negative index out of range. */
  datatype Trade = NoData | Traded(buy: real, sell: real, gain: Ext) | IndexFault

  /** The trade the old backtest makes on the fetched bars. */
  function BarsTrade(bars: seq<PriceRow>, holdingDays: int): Trade {
    if |bars| < 2 then NoData
    else
      var i := SellIndex(holdingDays, |bars|);
      if i < -|bars| then IndexFault
      else
        var j := if i < 0 then |bars| + i else i;
        Traded(bars[1].open, bars[j].close, PctChange(bars[1].open, bars[j].close))
  }

  /** One signal of the old backtest, over `holding_days + 1` bars. */
  function OldTrade(s: Signal, prices: seq<PriceRow>, holdingDays: int): Trade {
    BarsTrade(Fetch(prices, s.symbolId, s.date, holdingDays + 1), holdingDays)
  }

  /** A non-negative holding period never faults, and sells at the bar
      `holding_days` on, or the last one fetched. */
  lemma OldTradeSell(s: Signal, prices: seq<PriceRow>, holdingDays: int)
    requires holdingDays >= 0
    ensures var bars := Fetch(prices, s.symbolId, s.date, holdingDays + 1);
      && !OldTrade(s, prices, holdingDays).IndexFault?
      && (OldTrade(s, prices, holdingDays).NoData? <==> |bars| < 2)
      && (|bars| >= 2 ==>
            OldTrade(s, prices, holdingDays).sell == bars[if |bars| > holdingDays then holdingDays else |bars| - 1].close)
  {
  }

  /** With the default holding period of five days the old rule is the
      services rule: the same six bars, the same buy and sell bars. */
  lemma OldAgreesAtFiveDays(s: Signal, prices: seq<PriceRow>)
    ensures OldTrade(s, prices, 5).NoData? <==> SignalGain(s, prices).None?
    ensures OldTrade(s, prices, 5).Traded? <==> SignalGain(s, prices).Some?
    ensures OldTrade(s, prices, 5).Traded? ==> SignalGain(s, prices) == Some(OldTrade(s, prices, 5).gain)
  {
    var bars := Fetch(prices, s.symbolId, s.date, 6);
    assert |bars| <= 6;
  }

  /** The gain column of the old backtest. */
  function TradeGain(t: Trade): Option<Ext> {
    if t.Traded? then Some(t.gain) else None
  }

  /** The gains that are not None, in order. */
  function ValidGains(gains: seq<Option<Ext>>): (r: seq<Ext>)
    ensures |r| == 0 <==> forall k :: 0 <= k < |gains| ==> gains[k].None?
    ensures forall x :: x in r <==> Some(x) in gains
  {
    if |gains| == 0 then []
    else
      var init := gains[..|gains| - 1];
      var rest := ValidGains(init);
      var g := gains[|gains| - 1];
      assert forall x :: x in gains <==> x in init || x == g;
      assert forall k :: 0 <= k < |gains| - 1 ==> init[k] == gains[k];
      if g.None? then rest else rest + [g.value]
  }

  /** `min(valid_gains)`: Python's builtin keeps the first value and
      replaces it by every later one that compares below it. */
  function PyMin(xs: seq<Ext>): Ext
    requires |xs| > 0
  {
    if |xs| == 1 then xs[0]
    else
      var m := PyMin(xs[..|xs| - 1]);
      if Below(xs[|xs| - 1], m) then xs[|xs| - 1] else m
  }

  /** Without NaN, Python's min is the least gain, as pandas' is. */
  lemma {:induction false} PyMinIsLeast(xs: seq<Ext>)
    requires |xs| > 0 && forall k :: 0 <= k < |xs| ==> !xs[k].NaN?
    ensures PyMin(xs) in xs
    ensures forall k :: 0 <= k < |xs| ==> ExtLe(PyMin(xs), xs[k])
    ensures PyMin(xs) == MinSkipNaN(xs)
  {
    if |xs| > 1 {
      var init := xs[..|xs| - 1];
      PyMinIsLeast(init);
      assert forall k :: 0 <= k < |init| ==> init[k] == xs[k];
      var m := PyMin(init);
      assert m in xs;
    }
  }

  /** A NaN first gain makes Python's min NaN, since nothing compares
      below NaN; pandas would skip it. */
  lemma {:induction false} PyMinFirstNaN(xs: seq<Ext>)
    requires |xs| > 0 && xs[0].NaN?
    ensures PyMin(xs).NaN?
  {
    if |xs| > 1 {
      PyMinFirstNaN(xs[..|xs| - 1]);
    }
  }

  /** `sum(valid_gains)`, starting from 0. */
  function PySum(xs: seq<Ext>): Ext {
    if |xs| == 0 then Fin(0.0) else Add(PySum(xs[..|xs| - 1]), xs[|xs| - 1])
  }

  /** The number of gains above zero. */
  function CountWins(xs: seq<Ext>): (n: nat)
    ensures n <= |xs|
  {
    if |xs| == 0 then 0 else CountWins(xs[..|xs| - 1]) + (if Above(xs[|xs| - 1], 0.0) then 1 else 0)
  }

  /** A float64 divided by a positive count. */
  function DivCount(x: Ext, n: nat): Ext
    requires n > 0
  {
    if x.Fin? then Fin(x.v / n as real) else x
  }

  /** `sum(valid_gains) / len(valid_gains)`. */
  function Average(valid: seq<Ext>): Ext
    requires |valid| > 0
  {
    DivCount(PySum(valid), |valid|)
  }

  /** The printed summary of the old backtest. */
  datatype Summary = Summary(trades: nat, winRate: real, maxLoss: Ext, average: Ext)

  function Summarize(valid: seq<Ext>): (s: Summary)
    requires |valid| > 0
    ensures s.trades == |valid|
    ensures 0.0 <= s.winRate <= 100.0
  {
    Summary(|valid|, Percent(CountWins(valid), |valid|), PyMin(valid), Average(valid))
  }

  /** Finite gains sum to a finite total within n times their bounds. */
  lemma {:induction false} PySumFinite(xs: seq<Ext>, lo: real, hi: real)
    requires forall k :: 0 <= k < |xs| ==> xs[k].Fin? && lo <= xs[k].v <= hi
    ensures PySum(xs).Fin?
    ensures |xs| as real * lo <= PySum(xs).v <= |xs| as real * hi
  {
    if |xs| > 0 {
      var init := xs[..|xs| - 1];
      assert forall k :: 0 <= k < |init| ==> init[k] == xs[k];
      PySumFinite(init, lo, hi);
      var t := PySum(init).v;
      var x := xs[|xs| - 1].v;
      assert PySum(xs) == Fin(t + x);
      var m := |init| as real;
      assert |xs| as real * lo == m * lo + lo;
      assert |xs| as real * hi == m * hi + hi;
    }
  }

  lemma MeanBounds(t: real, n: real, lo: real, hi: real)
    requires n > 0.0 && n * lo <= t <= n * hi
    ensures lo <= t / n <= hi
  {
    assert (t - n * lo) / n >= 0.0;
    assert (n * hi - t) / n >= 0.0;
  }

  /** The average of finite gains lies between their bounds. */
  lemma AverageBetween(valid: seq<Ext>, lo: real, hi: real)
    requires |valid| > 0
    requires forall k :: 0 <= k < |valid| ==> valid[k].Fin? && lo <= valid[k].v <= hi
    ensures Average(valid).Fin?
    ensures lo <= Average(valid).v <= hi
  {
    var sum := PySum(valid);
    PySumFinite(valid, lo, hi);
    assert Average(valid) == Fin(sum.v / |valid| as real);
    MeanBounds(sum.v, |valid| as real, lo, hi);
  }

  /** A row of `trade_df`. */
  datatype TradeRow = TradeRow(symbolId: int, signalDate: Date, buy: Option<real>, sell: Option<real>,
                               gain: Option<Ext>, win: bool)

  function TradeRowOf(s: Signal, t: Trade): TradeRow
    requires !t.IndexFault?
  {
    if t.Traded? then TradeRow(s.symbolId, s.date, Some(t.buy), Some(t.sell), Some(t.gain), Win(Some(t.gain)))
    else TradeRow(s.symbolId, s.date, None, None, None, false)
  }

  /** What the old backtest returns and prints. */
  datatype OldReport = OldReport(signals: seq<Signal>, gains: seq<Option<Ext>>, wins: seq<bool>,
                                 trades: seq<TradeRow>, summary: Summary)

  /** No signal's sell index falls outside its bars. */
  predicate NoFault(rows: seq<Signal>, prices: seq<PriceRow>, holdingDays: int) {
    forall k :: 0 <= k < |rows| ==> !OldTrade(rows[k], prices, holdingDays).IndexFault?
  }

  /** Some signal has enough bars to trade. */
  predicate SomeTrade(rows: seq<Signal>, prices: seq<PriceRow>, holdingDays: int) {
    exists k :: 0 <= k < |rows| && OldTrade(rows[k], prices, holdingDays).Traded?
  }

  /** No valid gain is left exactly when no signal traded. */
  lemma NoValidNoTrade(gains: seq<Option<Ext>>, rows: seq<Signal>, prices: seq<PriceRow>, holdingDays: int)
    requires |gains| == |rows|
    requires forall k :: 0 <= k < |rows| ==> gains[k] == TradeGain(OldTrade(rows[k], prices, holdingDays))
    ensures |ValidGains(gains)| == 0 <==> !SomeTrade(rows, prices, holdingDays)
  {
    if |ValidGains(gains)| != 0 {
      var k :| 0 <= k < |gains| && gains[k].Some?;
      assert OldTrade(rows[k], prices, holdingDays).Traded?;
    }
    if SomeTrade(rows, prices, holdingDays) {
      var k :| 0 <= k < |rows| && OldTrade(rows[k], prices, holdingDays).Traded?;
      assert gains[k].Some?;
    }
  }

  /** The gain and trade row the old loop records for a signal that does
      not fault. */
  predicate Recorded(s: Signal, prices: seq<PriceRow>, holdingDays: int, gain: Option<Ext>, row: TradeRow) {
    var t := OldTrade(s, prices, holdingDays);
    !t.IndexFault? && gain == TradeGain(t) && row == TradeRowOf(s, t)
  }

  /** The old loop: one gain and one trade row appended per signal, until
      a signal faults. */
  method ComputeTrades(rows: seq<Signal>, prices: seq<PriceRow>, holdingDays: int)
    returns (fault: bool, gains: seq<Option<Ext>>, trades: seq<TradeRow>)
    ensures fault <==> !NoFault(rows, prices, holdingDays)
    ensures !fault ==>
      && |gains| == |trades| == |rows|
      && forall k :: 0 <= k < |rows| ==> Recorded(rows[k], prices, holdingDays, gains[k], trades[k])
  {
    gains := [];
    trades := [];
    var i := 0;
    while i < |rows|
      invariant 0 <= i <= |rows|
      invariant |gains| == |trades| == i
      invariant forall k :: 0 <= k < i ==> Recorded(rows[k], prices, holdingDays, gains[k], trades[k])
    {
      var bars := Fetch(prices, rows[i].symbolId, rows[i].date, holdingDays + 1);
      var t: Trade := NoData;
      if |bars| >= 2 {
        var buy := bars[1].open;
        var sellIdx := if |bars| > holdingDays then holdingDays else |bars| - 1;
        if sellIdx < -|bars| {
          t := IndexFault;
        } else {
          if sellIdx < 0 {
            sellIdx := |bars| + sellIdx;
          }
          var sell := bars[sellIdx].close;
          t := Traded(buy, sell, PctChange(buy, sell));
        }
      }
      if t.IndexFault? {
        FaultAt(rows, prices, holdingDays, i);
        return true, gains, trades;
      }
      RecordedStep(rows, prices, holdingDays, gains, trades, i, t);
      gains := gains + [TradeGain(t)];
      trades := trades + [TradeRowOf(rows[i], t)];
      i := i + 1;
    }
    fault := false;
    RecordedNoFault(rows, prices, holdingDays, gains, trades);
  }

  lemma FaultAt(rows: seq<Signal>, prices: seq<PriceRow>, holdingDays: int, i: nat)
    requires i < |rows| && OldTrade(rows[i], prices, holdingDays).IndexFault?
    ensures !NoFault(rows, prices, holdingDays)
  {
  }

  lemma RecordedStep(rows: seq<Signal>, prices: seq<PriceRow>, holdingDays: int,
                     gains: seq<Option<Ext>>, trades: seq<TradeRow>, i: nat, t: Trade)
    requires i < |rows| && |gains| == |trades| == i
    requires forall k :: 0 <= k < i ==> Recorded(rows[k], prices, holdingDays, gains[k], trades[k])
    requires t == OldTrade(rows[i], prices, holdingDays) && !t.IndexFault?
    ensures var gains', trades' := gains + [TradeGain(t)], trades + [TradeRowOf(rows[i], t)];
      forall k :: 0 <= k <= i ==> Recorded(rows[k], prices, holdingDays, gains'[k], trades'[k])
  {
    var gains', trades' := gains + [TradeGain(t)], trades + [TradeRowOf(rows[i], t)];
    assert Recorded(rows[i], prices, holdingDays, gains'[i], trades'[i]);
    forall k | 0 <= k < i
      ensures Recorded(rows[k], prices, holdingDays, gains'[k], trades'[k])
    {
      assert gains'[k] == gains[k] && trades'[k] == trades[k];
    }
  }

  lemma RecordedNoFault(rows: seq<Signal>, prices: seq<PriceRow>, holdingDays: int,
                        gains: seq<Option<Ext>>, trades: seq<TradeRow>)
    requires |gains| == |trades| == |rows|
    requires forall k :: 0 <= k < |rows| ==> Recorded(rows[k], prices, holdingDays, gains[k], trades[k])
    ensures NoFault(rows, prices, holdingDays)
  {
    forall k | 0 <= k < |rows|
      ensures !OldTrade(rows[k], prices, holdingDays).IndexFault?
    {
      assert Recorded(rows[k], prices, holdingDays, gains[k], trades[k]);
    }
  }

  /** `backtest_scanner(file_name, holding_days)`: None stands for the two
      empty frames returned from the `except`, on a missing column, an
      IndexError, or no valid gain (the win rate divides by zero). */
  method BacktestOld(columns: seq<string>, signals: seq<Signal>, prices: seq<PriceRow>, holdingDays: int)
    returns (r: Option<OldReport>)
    ensures r.Some? <==>
      && HasRequired(columns)
      && NoFault(SortSignals(signals), prices, holdingDays)
      && SomeTrade(SortSignals(signals), prices, holdingDays)
    ensures r.Some? ==>
      && r.value.signals == SortSignals(signals)
      && |r.value.gains| == |r.value.wins| == |r.value.trades| == |signals|
      && (forall k :: 0 <= k < |signals| ==>
            && r.value.gains[k] == TradeGain(OldTrade(r.value.signals[k], prices, holdingDays))
            && r.value.wins[k] == Win(r.value.gains[k])
            && r.value.trades[k] == TradeRowOf(r.value.signals[k], OldTrade(r.value.signals[k], prices, holdingDays)))
      && r.value.summary == Summarize(ValidGains(r.value.gains))
  {
    if !HasRequired(columns) {
      return None;
    }
    var rows := SortSignals(signals);
    assert |rows| == |signals| by {
      assert |multiset(rows)| == |multiset(signals)|;
    }
    var fault, gains, trades := ComputeTrades(rows, prices, holdingDays);
    if fault {
      return None;
    }
    var wins := WinColumn(gains);
    OldColumns(rows, prices, holdingDays, gains, trades, wins);
    NoValidNoTrade(gains, rows, prices, holdingDays);
    var valid := ValidGains(gains);
    if |valid| == 0 {
      return None;
    }
    r := Some(OldReport(rows, gains, wins, trades, Summarize(valid)));
  }

  /** The recorded gains and rows are those of each signal's trade, and
      the win column follows the gains. */
  lemma OldColumns(rows: seq<Signal>, prices: seq<PriceRow>, holdingDays: int,
                   gains: seq<Option<Ext>>, trades: seq<TradeRow>, wins: seq<bool>)
    requires |gains| == |trades| == |rows|
    requires forall k :: 0 <= k < |rows| ==> Recorded(rows[k], prices, holdingDays, gains[k], trades[k])
    requires wins == WinColumn(gains)
    ensures |wins| == |rows|
    ensures forall k :: 0 <= k < |rows| ==>
      && !OldTrade(rows[k], prices, holdingDays).IndexFault?
      && gains[k] == TradeGain(OldTrade(rows[k], prices, holdingDays))
      && wins[k] == Win(gains[k])
      && trades[k] == TradeRowOf(rows[k], OldTrade(rows[k], prices, holdingDays))
  {
    forall k | 0 <= k < |rows|
      ensures !OldTrade(rows[k], prices, holdingDays).IndexFault?
      ensures gains[k] == TradeGain(OldTrade(rows[k], prices, holdingDays))
      ensures trades[k] == TradeRowOf(rows[k], OldTrade(rows[k], prices, holdingDays))
    {
      assert Recorded(rows[k], prices, holdingDays, gains[k], trades[k]);
    }
  }
}
