# market_data_new, modelled in Dafny

market_data_new keeps a SQLite database of Indian equity and index prices
(NSE). It has six parts:

- Loaders. They read the symbol master and the NSE bhavcopy files, and
  download historic bars.
- Normalisation. This step turns the column names of a downloaded frame
  into the database's names.
- Aggregation. Daily bars are aggregated into weekly and monthly candles.
- Cleanup. Stale or partial rows are removed.
- Indicator refresh. It computes RSI, Bollinger bands, ATR, MACD,
  Supertrend, moving averages and OBV for every series, and upserts them
  into the indicator tables.
- Scanners and backtests. The scanners filter the latest indicator rows
  with fixed conditions, and the backtests measure what happened a few
  bars after each signal.

This project models that core as Dafny modules, one per source component.

| module | component |
|---|---|
| `Base`, `Text`, `Float`, `Frames` | shared values: options, rounding to two decimals, strings, IEEE float64 results, sorting and filtering of rows |
| `Calendar` | proleptic Gregorian dates, weekdays, ISO weeks, month ends, date parsing and formatting |
| `Rolling` | pandas `rolling(p).mean()`, `ewm(adjust=False).mean()` and the linearly weighted window |
| `IndicatorsHelper` | the kernels the refresh pipeline calls (RSI, Bollinger, ATR, MACD, EMA, WMA, Supertrend) |
| `Volatility`, `Trend`, `Custom`, `Volume` | the service-layer indicator functions |
| `IndicatorService`, `Sql` | `calculate_indicators`, `refresh_indicators`, `refresh_52week_stats` and the two upsert statements |
| `WeeklyMonthly` | weekly and monthly candles from daily bars |
| `Cleanup` | the cleanup service and the archive's partial-candle cleanup |
| `Symbols` | the equity and index symbol masters |
| `Bhavcopy` | bhavcopy file listing, parsing and loading |
| `DownloadHistoric` | the archive's historic downloader |
| `Normalize` | column renaming and cleaning of downloaded frames |
| `ScanData`, `Scanners` | scanner inputs, and the HM, WIP, play and archive scanners |
| `ProbScanner` | the probabilistic scanner's features and next-month labels |
| `Backtest` | the current and the archived backtest of a scanner's signals |

Numbers are modelled as exact reals; float64 rounding is not modelled.
Two results need an IEEE value: a division that may be by zero, and a
missing (NaN) cell. `Float.Ext` models those. Where a loop in the source
updates a column bar by bar, the model is a method with loop invariants.
Its `ensures` ties the result to a recursive specification function, and
lemmas state the properties of that function. The same holds for the
Supertrend band and trend loops, the refresh loops, the load loops and
the backtest loops. Tables the source updates in place are classes whose
methods state the new contents.

Facts of the code that the model follows:

- RSI and ATR average with Wilder's recursive mean,
  `ewm(alpha=1/period, adjust=False, min_periods=period)`
  (archive/indicators_helper.py:23-24 and 74).
- The pipeline rounds MACD and its signal to 2 decimals
  (archive/indicators_helper.py:96).
- `refresh_indicators` reads every stored bar of a symbol and timeframe
  in date order and computes the indicators over all of them
  (services/indicator_service.py:87-97).
- The HM and WIP scanners of the service layer call the three-argument
  export function with two arguments (services/scanners/scanner_HM.py:20,
  services/scanners/scanner_WIP.py:21). Each therefore ends in its
  `except` branch, which returns an empty frame.
- `download_all_symbols` reads a `listing_date` column
  (archive/download_nse_historic.py:279) that its symbol query does not
  return (archive/data_manager.py:364), so as written it downloads
  nothing (see "## Findings").
- `scanner_play.py` imports `backtest_all_scanners`
  (services/scanners/scanner_play.py:7), which `backtest_service.py` does
  not define. The model describes `scanner` and
  `scanner_play_multi_years` as written, as if that import resolved.

Several functions of archive/data_manager.py are the same code as their
services versions, apart from comments and one extra traceback print,
and the same members model both:
`refresh_equity` (79), `refresh_indices` (221), `refresh_52week_stats`
(278), `retrieve_equity_symbol` (352) and `refresh_indicators` (926).
`download_missing_bhavcopies` (1167) differs only in the name of its
folder constant. Where an archive copy does differ, it has its own
member: `get_latest_equity_date`, `delete_non_monday_weekly`,
`update_equity_price_from_bhavcopy`, and `calculate_indicators` (867),
whose module imports `sys` (line 10), so its failure handler logs and
returns the frame (`IndicatorService.ArchiveCalculateIndicators`).
`backtest_scanner` of archive/scanners.py (142-189) does the same
computation as the services backtest, with two extra prints (149 and
157), so the `Backtest` members of the services version model it too.

## Model

| member | source | states |
|---|---|---|
| Rolling.SmaWarmup | services/indicators/utils.py:4-5 | `rolling(p).mean()` is defined at bar t exactly when t >= p - 1 |
| Rolling.SmaBounds | services/indicators/utils.py:4-5 | a defined rolling mean lies between any lower and upper bound of the p values in its window |
| Rolling.SmaOne | services/indicators/utils.py:4-5 | a one-bar rolling mean is the value itself |
| Rolling.SpanAlpha | services/indicators/utils.py:7-8 | the smoothing factor 2 / (span + 1) of `ewm(span=...)` lies in (0, 1] |
| Rolling.WilderAlpha | archive/indicators_helper.py:23-24 | Wilder's factor 1 / period lies in (0, 1] |
| Rolling.EwmAtLeast | services/indicators/utils.py:7-8 | an `adjust=False` exponential mean through bar t is at least any lower bound of the values through t |
| Rolling.EwmAtMost | services/indicators/utils.py:7-8 | the same mean is at most any upper bound of the values through t |
| Rolling.EwmBounds | services/indicators/utils.py:7-8 | the exponential mean stays within the range of the values seen so far |
| Rolling.EwmPositive | services/indicators/utils.py:7-8 | the exponential mean of positive values is positive |
| Rolling.EwmConstant | services/indicators/utils.py:7-8 | the exponential mean of a constant series is that constant |
| Rolling.EwmPrefix | services/indicators/utils.py:7-8 | the exponential mean at bar t depends only on the bars up to t |
| Rolling.WeightTotalClosed | services/indicators/utils.py:10-15 | `np.arange(1, p + 1).sum()` equals p(p + 1) / 2 |
| Rolling.WeightedSumBounds | services/indicators/utils.py:10-15 | the weighted dot product of values in [lo, hi] lies between lo and hi times the weight total |
| Rolling.WmaWarmup | services/indicators/utils.py:10-15 | the weighted moving average is defined at bar t exactly when t >= p - 1 |
| Rolling.WmaBounds | services/indicators/utils.py:10-15 | a defined weighted moving average lies between the bounds of its window |
| IndicatorsHelper.GainLossSplit | archive/indicators_helper.py:20-22 | each price change splits into a non-negative gain and a non-negative loss; at most one is non-zero, and gain minus loss is the change |
| IndicatorsHelper.GainsLossesNonNegative | archive/indicators_helper.py:20-22 | every clipped gain and loss is non-negative |
| IndicatorsHelper.AveragesNonNegative | archive/indicators_helper.py:23-24 | Wilder averages of gains and of losses, where defined, are non-negative |
| IndicatorsHelper.RsiFromAveragesShare | archive/indicators_helper.py:26-27 | with a positive average loss, `100 - 100 / (1 + rs)` is the gain share 100 * g / (g + l), and it lies in [0, 100) |
| IndicatorsHelper.RawRsiRange | archive/indicators_helper.py:17-29 | the unrounded RSI, NaN filled with 100, lies in [0, 100] |
| IndicatorsHelper.RsiRange | archive/indicators_helper.py:17-30 | the rounded RSI lies in [0, 100] at every bar |
| IndicatorsHelper.RsiWarmup | archive/indicators_helper.py:23-29 | before `period` changes are seen, the averages are NaN and the RSI reads the fill value 100 |
| IndicatorsHelper.NoLossesWhenNeverFalling | archive/indicators_helper.py:20-22 | a never-falling series has no losses |
| IndicatorsHelper.RsiNeverFalling | archive/indicators_helper.py:17-30 | a never-falling series reads RSI 100 at every bar |
| IndicatorsHelper.OnlyLossesWhenAlwaysFalling | archive/indicators_helper.py:20-22 | a strictly falling series has zero gains and positive losses |
| IndicatorsHelper.RsiAlwaysFalling | archive/indicators_helper.py:17-30 | a strictly falling series reads RSI 0 once `period` changes are seen |
| IndicatorsHelper.BollingerOrdered | archive/indicators_helper.py:45-51 | the middle band is defined from bar period - 1 on, the outer bands also need a defined deviation, and lower <= middle <= upper |
| IndicatorsHelper.TrueRangeIsMax | archive/indicators_helper.py:69-72 | the true range is the greatest of high - low and the two gaps to the previous close |
| IndicatorsHelper.TrueRangeNonNegative | archive/indicators_helper.py:69-72 | the true range of a bar with low <= high is non-negative |
| IndicatorsHelper.AtrWarmupAndSign | archive/indicators_helper.py:67-75 | ATR is defined exactly from bar period - 1 on, and is then non-negative |
| IndicatorsHelper.MacdFirstBar | archive/indicators_helper.py:90-96 | both EMAs start at the first close, so the first MACD and signal are 0 |
| IndicatorsHelper.MacdLineBounded | archive/indicators_helper.py:92-94 | the MACD line is bounded by the spread of the closes seen so far |
| IndicatorsHelper.MacdFlat | archive/indicators_helper.py:90-96 | a flat price gives MACD and signal 0 |
| IndicatorsHelper.SmoothedPercentRange | archive/indicators_helper.py:176-192 | the rounded EMA and WMA of values in [0, 100] stay in [0, 100], and the WMA is defined exactly from bar period - 1 on |
| IndicatorsHelper.AdjustBands | archive/indicators_helper.py:131-140 | the band loop leaves each final band equal to the recursive final-band definition at every bar |
| IndicatorsHelper.SelectTrend | archive/indicators_helper.py:148-160 | the trend loop gives each bar the recursive direction and the rounded band it selects |
| IndicatorsHelper.Supertrend | archive/indicators_helper.py:119-162 | `calculate_supertrend` returns, per bar, the direction and the rounded Supertrend of the recursive definition `SupertrendAt` |
| IndicatorsHelper.FinalBandsRatchet | archive/indicators_helper.py:131-140 | while the close stays at or below the final upper band, that band only holds or falls; the lower band mirrors this |
| IndicatorsHelper.FinalBandsStayUndefined | archive/indicators_helper.py:131-140 | final bands that start NaN stay NaN, since every comparison with NaN is false |
| IndicatorsHelper.TrendOnUndefinedBands | archive/indicators_helper.py:148-160 | on undefined bands the trend is down and the Supertrend undefined at every bar |
| IndicatorsHelper.SupertrendNeverDefined | archive/indicators_helper.py:119-162 | with an ATR period above 1, the pipeline's Supertrend is NaN and its direction -1 at every bar |
| Volatility.AtrSeededAndBounded | services/indicators/volatility.py:4-12 | the service ATR starts at the first bar's high - low, and stays within the bounds of the true ranges seen |
| Volatility.AtrNonNegative | services/indicators/volatility.py:4-12 | the service ATR is never negative |
| Volatility.BollingerSymmetric | services/indicators/volatility.py:15-22 | the bands are defined together, exactly where mean and deviation are, each `mult` deviations from the middle |
| Volatility.BollingerRoundedAgrees | services/indicators/volatility.py:15-22 | rounding the service bands gives the pipeline's bands |
| Trend.MacdFlat | services/indicators/trend.py:5-14 | a flat price gives zero MACD line, signal and histogram |
| Trend.MacdRoundedAgrees | services/indicators/trend.py:5-14 | with spans 12, 26 and 9, rounding the service MACD gives the pipeline's MACD |
| Trend.AdjustBands | services/indicators/trend.py:30-43 | the band loop leaves the final bands equal to their recursive definitions |
| Trend.SelectTrend | services/indicators/trend.py:45-59 | the trend loop gives each bar the recursive direction, and the lower band on an uptrend, the upper band otherwise |
| Trend.Supertrend | services/indicators/trend.py:17-64 | `supertrend` fails only on an empty frame, and otherwise returns the specified direction and band per bar |
| Trend.FinalBandsBounded | services/indicators/trend.py:33-43 | the final upper band never exceeds the basic band, and the final lower band is never below it |
| Trend.FinalBandsTighten | services/indicators/trend.py:33-43 | after a close above the final upper band, the next final upper band is no higher; the lower band mirrors this |
| Trend.DirectionIsSign | services/indicators/trend.py:48-59 | the direction is always +1 or -1 |
| Trend.DirectionFlipsOnlyOnCrossing | services/indicators/trend.py:51-59 | the direction turns down only on a close below the previous lower band, and up only on a close above the previous upper band |
| Trend.DirectionPersists | services/indicators/trend.py:51-59 | while every close stays inside the previous bar's bands, the direction does not change |
| Trend.SeedDirectionsDiffer | services/indicators/trend.py:48-49 | the service Supertrend starts up, while the pipeline's starts down |
| Custom.EmaRsiRange | services/indicators/custom.py:5-7 | the EMA of an RSI starts at the first RSI value and stays in [0, 100] |
| Custom.WmaRsiWarmupAndRange | services/indicators/custom.py:9-11 | the 21-bar WMA of an RSI is undefined on the first 20 bars, and then stays within the RSI's bounds |
| Volume.DirectionAt | services/indicators/volume.py:3-5 | the sign of the price change is -1, 0 or 1 |
| Volume.ObvFirst | services/indicators/volume.py:3-5 | OBV starts at 0 |
| Volume.ObvStep | services/indicators/volume.py:3-5 | each bar adds its volume on a rising close, subtracts it on a falling close, and keeps OBV on an unchanged close |
| Volume.ObvRising | services/indicators/volume.py:3-5 | on strictly rising closes OBV is the sum of the volumes after the first bar |
| IndicatorService.PctChangeAt | services/indicator_service.py:36 | `pct_change` is defined from the second bar on, where the previous adjusted close is non-zero |
| IndicatorService.CalculateIndicatorsShape | services/indicator_service.py:17-51 | `calculate_indicators` keeps every bar and adds one row per bar. With `latest_only` it keeps only the last bar and its row. On an empty frame with `latest_only`, `iloc[[-1]]` fails and the handler's own `sys` lookup raises `NameError` |
| IndicatorService.ArchiveCalculateIndicators | archive/data_manager.py:867-901 | the archive copy gives the same frame as the services version wherever that one computes a frame; where the services handler raises NameError (an empty frame with `latest_only`), the archive handler returns the empty frame it was given |
| IndicatorService.RowFacts | services/indicator_service.py:20-36 | the indicator row of a bar: the three RSIs and the EMA of RSI(9) lie in [0, 100], and on the first bar the EMA of RSI is 100 and there is no price change. SMA(20) is defined from bar 19, the 21-bar WMA from bar 20 and ATR(14) from bar 13. Supertrend(10) is never defined and its direction is -1. The Bollinger bands are ordered |
| IndicatorService.Record | services/indicator_service.py:99-110 | a record starts with id, timeframe and date and ends with the 17 indicator values. An equity record has 21 values because it carries `is_final`; an index record has 20 |
| IndicatorService.RowsAligned | services/indicator_service.py:17-46 | the indicator computation gives one row per bar |
| IndicatorService.RefreshSeries | services/indicator_service.py:83-119 | one series: skipped when its query returns no bars; otherwise upserted, and counted with its rows only when the upsert raises nothing |
| IndicatorService.RefreshTimeframe | services/indicator_service.py:76-121 | the loop over ids for one timeframe leaves the table and the two counters as `TimeframeRun`, the series-by-series definition, gives them |
| IndicatorService.RefreshFrequencies | services/indicator_service.py:76-121 | the loop over `FREQUENCIES` leaves the table as `RefreshRun`, the timeframe-by-timeframe definition, gives it, and reports for each timeframe the two counters of that timeframe's run |
| IndicatorService.RefreshIndicators | services/indicator_service.py:76-121 | with the records each series builds from its bars and the indicator computation (`SeriesOf`), the refresh leaves the table as the whole run gives it, and reports per timeframe the counters of that timeframe |
| IndicatorService.EquityTimeframeWritesNothing | services/indicator_service.py:99-119 | every non-empty equity series is refused at its first record (21 values for 20 placeholders), so an equity timeframe counts nothing and leaves the table unchanged |
| IndicatorService.EquityRefreshWritesNothing | services/indicator_service.py:76-121 | the whole equity refresh leaves the equity indicator table unchanged |
| IndicatorService.IndexRecordsWellFormed | services/indicator_service.py:170-181 | every index record has the 20 values the template binds |
| IndicatorService.TimeframeRecords | services/indicator_service.py:153-181 | the records of one index timeframe all fit the template |
| IndicatorService.RefreshRecords | services/indicator_service.py:147-181 | the records of a whole index refresh all fit the template |
| IndicatorService.ExecuteManyConcat | services/indicator_service.py:183-184 | once a batch cannot fail, upserting it and then a second batch is the same as upserting the two as one batch |
| IndicatorService.IndexTimeframeIsOneBatch | services/indicator_service.py:153-190 | an index timeframe writes exactly its records, as one batch |
| IndicatorService.IndexRefreshIsOneBatch | services/indicator_service.py:147-192 | an index refresh writes exactly all its records, as one batch |
| IndicatorService.IndexRefreshIdempotent | services/indicator_service.py:147-192 | running the index refresh again over the same bars leaves the table as the first run left it |
| IndicatorService.InWindow | services/indicator_service.py:240-242 | the window holds exactly the daily bars dated on or after the cutoff |
| IndicatorService.MaxHighIsMax | services/indicator_service.py:238 | `MAX(high)` is at least every high, and is the high of some bar |
| IndicatorService.MinLowIsMin | services/indicator_service.py:238 | `MIN(low)` is at most every low, and is the low of some bar |
| IndicatorService.Week52IsWindowExtremes | services/indicator_service.py:237-246 | an id gets a 52-week result exactly when it has a bar in the window; the result is then the greatest high and the least low of those bars, each attained by a bar |
| IndicatorService.Refresh52WeekStats | services/indicator_service.py:221-264 | the upsert loop leaves the stats as `StatsRun` gives them, leaves every id outside the list as it was, and counts at most one row per id |
| IndicatorService.StatsRunKeeps | services/indicator_service.py:252-261 | an id the query does not return keeps its stored row, or stays absent |
| IndicatorService.StatsRunStores | services/indicator_service.py:252-261 | every listed id with a 52-week result gets that high, that low and today's date |
| Sql.InsertTemplate | db/sql.py:7-69 | each template names 20 columns and has 20 placeholders. The conflict key is the first three columns (id, timeframe, date), and the update sets the other 17 |
| Sql.Upsert | db/sql.py:7-69 | a record is bound exactly when it has 20 values, and a refused record changes nothing |
| Sql.UpsertWrites | db/sql.py:7-69 | a bound record stores its 17 indicator values under its key, keeps an existing row's `is_final`, and leaves every other key as it was |
| Sql.ExecuteManyAt | db/sql.py:17-36 | after a batch of well-formed records, a key is present exactly when it was present before or some record has it. Its row is built from the last record with that key, or is the old row when no record has the key |
| Sql.ExecuteManyIdempotent | db/sql.py:17-36 | upserting the same well-formed batch twice leaves the table as the first time did |
| Sql.ExecuteManyRefusedFirst | db/sql.py:17 | a batch whose first record has the wrong number of values is refused with that count, and changes nothing |
| Sql.IndicatorTable.ExecuteManyInPlace | db/sql.py:17-36 | `executemany` on the table object leaves its rows and status as the batch function `ExecuteMany` gives them |
| Sql.ExecuteManyStops | db/sql.py:17 | once a prefix of the batch has been refused, the rest of the batch changes nothing more |
| Calendar.LastFridayIsLatestFriday | weekly_monthly_service.py:79-80 | `last_friday(d)` is a Friday on or before d, less than a week before it, and no later Friday is on or before d |
| Calendar.AddDaysWeekday | weekly_monthly_service.py:148 | n days on, the weekday has advanced by n mod 7, so a Monday label plus 4 days is a Friday |
| Calendar.MonthEndIsLastDay | weekly_monthly_service.py:82-83 | `month_end(d)` is the last day of d's month, and the next day is a first of a month |
| Calendar.MonthEndNotFirst | weekly_monthly_service.py:82-83 | a month end falls on day 28 or later |
| Calendar.AddYearBounds | archive/download_nse_historic.py:242 | `relativedelta(years=1)` moves a date 365 or 366 days on |
| Calendar.NextIsNextDay | services/bhavcopy_loader.py:112 | `+ timedelta(days=1)` gives the least later date |
| Calendar.PrevNext | services/bhavcopy_loader.py:79 | one day on and one day back cancel, in either order |
| Calendar.DdMmYyyyRoundTrip | services/bhavcopy_loader.py:194 | for years 1 to 9999, parsing `%d%m%Y` back gives the date that was formatted |
| Calendar.IsoRoundTrip | services/symbol_service.py:251 | for years 1 to 9999, parsing `%Y-%m-%d` back gives the date that was formatted |
| WeeklyMonthly.WeekKeyIsBinEnd | weekly_monthly_service.py:146 | the `W-MON` label of a day is a Monday, on or after the day and less than a week later |
| WeeklyMonthly.WeekKeyOfMonday | weekly_monthly_service.py:146 | a Monday is its own label |
| WeeklyMonthly.WeekKeyMonotone | weekly_monthly_service.py:146 | later days never get earlier labels |
| WeeklyMonthly.WeekKeyNotBefore | weekly_monthly_service.py:146 | a label is never before its day |
| WeeklyMonthly.Groups | weekly_monthly_service.py:146 | grouping by a label splits the bars into non-empty runs, in order, that concatenate back to the bars; every bar in a group carries the group's label |
| WeeklyMonthly.GroupKeysIncrease | weekly_monthly_service.py:146 | on dated bars with a monotone label, consecutive groups have strictly increasing labels |
| WeeklyMonthly.WeeklyGroupsInOrder | weekly_monthly_service.py:146 | the weekly groups come in strictly increasing label order |
| WeeklyMonthly.MonthlyGroupsInOrder | weekly_monthly_service.py:177 | the monthly groups come in strictly increasing month order |
| WeeklyMonthly.Highest | weekly_monthly_service.py:164 | `max()` of the highs is at least every high, and is one of them |
| WeeklyMonthly.Lowest | weekly_monthly_service.py:165 | `min()` of the lows is at most every low, and is one of them |
| WeeklyMonthly.AggregateEnvelope | weekly_monthly_service.py:159-168 | an aggregated candle's high and low enclose every bar and are attained; on consistent bars, open and close lie between low and high |
| WeeklyMonthly.AggregateVolumeSplits | weekly_monthly_service.py:167 | the volume of a candle over two runs is the sum of their volumes |
| WeeklyMonthly.AggregateSingle | weekly_monthly_service.py:159-168 | a candle over one bar carries that bar's prices and volume |
| WeeklyMonthly.BetweenAtLabel | weekly_monthly_service.py:154 | in a group whose bars all lie on or before its Monday label, the Monday-to-Friday filter keeps only a bar dated on that Monday |
| WeeklyMonthly.WeeklyCutoffExact | weekly_monthly_service.py:132-152 | a week passes the cutoff exactly when its Friday is on or before the last bar |
| WeeklyMonthly.WeekCandleIsMondayBar | weekly_monthly_service.py:146-168 | a week yields a row exactly when its last bar is dated on its Monday label and its Friday is on or before the last bar; the row is then that Monday bar, dated Friday |
| WeeklyMonthly.WeeklyRowsAreMondayBars | weekly_monthly_service.py:144-168 | every weekly row is a single Monday bar of the symbol, dated on the following Friday, which is on or before the last bar |
| WeeklyMonthly.MonthlyCutoffExact | weekly_monthly_service.py:134-136 | a month passes the cutoff exactly when it is before the month of the last bar |
| WeeklyMonthly.MonthlyRowsAreCompleteMonths | weekly_monthly_service.py:175-196 | every monthly row aggregates all bars of one month before the last bar's month, and is dated on that month's end |
| WeeklyMonthly.MonthCandleDate | weekly_monthly_service.py:178-190 | a monthly row is dated on the last day of its group's month |
| WeeklyMonthly.AppendAllContents | weekly_monthly_service.py:208-213 | a successful append adds exactly the candles, each under its own new key, and keeps every stored row |
| WeeklyMonthly.AppendAllRerunFails | weekly_monthly_service.py:208-213 | appending the same non-empty candles again is refused by the primary key |
| WeeklyMonthly.AppendAllConcat | weekly_monthly_service.py:203-213 | appending two lists one after the other is appending their concatenation |
| WeeklyMonthly.NoneStaysNone | weekly_monthly_service.py:208-213 | once an append has failed, appending more still fails |
| WeeklyMonthly.RunCandlesPrefix | weekly_monthly_service.py:103-215 | the candles of the first n symbols are a prefix of the candles of all symbols |
| WeeklyMonthly.PriceStore.Append | weekly_monthly_service.py:208-213 | `to_sql(if_exists="append")` succeeds exactly when no candle's key is already stored, and then stores the appended table; otherwise it leaves the rows as they were |
| WeeklyMonthly.CollectWeekly | weekly_monthly_service.py:144-168 | the weekly loop builds exactly `WeeklyRows`: one candle per week group whose Friday is not past the cutoff and which has bars up to that Friday, in group order |
| WeeklyMonthly.CollectMonthly | weekly_monthly_service.py:175-196 | the monthly loop builds exactly `MonthlyRows`: one candle per month group whose last day is not past the cutoff, in group order |
| WeeklyMonthly.GenerateWeeklyMonthly | weekly_monthly_service.py:88-226 | no symbols leaves the table alone. Otherwise each symbol's candles are appended and committed in turn; the first key conflict rolls back that symbol's insert, ends the run as raised and leaves the earlier symbols' candles stored |
| WeeklyMonthly.RunStoreCommitted | weekly_monthly_service.py:102-217 | a run commits every symbol exactly when appending all its candles at once would succeed, and then stores the same table |
| WeeklyMonthly.RunStoreStopsSomewhere | weekly_monthly_service.py:102-222 | a run that raises stops at some symbol: the run is still going before it and fails on it |
| WeeklyMonthly.RunStoreKeepsEarlier | weekly_monthly_service.py:102-222 | a run that stops at a symbol leaves the table holding the old rows plus the candles of every symbol before it, while adding that symbol's candles fails |
| WeeklyMonthly.RunStoreStops | weekly_monthly_service.py:218-222 | once a symbol's append has failed, the remaining symbols store nothing |
| Cleanup.Select | services/cleanup_service.py:106-121 | a bad data type is refused first and a bad timeframe second, both before any database access. A chosen table is one of the four tables, is an index table exactly when `is_index` is set, and is a price table exactly when the data type is `price` |
| Cleanup.TableFor | services/cleanup_service.py:109-112 | the table is one of the four tables, an index table exactly when `is_index` is set, and a price table exactly when the data type is `price` |
| Cleanup.SqlDayOfValid | services/cleanup_service.py:116-117 | SQLite reads a calendar date as itself |
| Cleanup.SqlDayOverflow | services/cleanup_service.py:116-117 | SQLite reads a day from 1 to 31 past its month's end as that many days into the next month of the same year |
| Cleanup.WeeklyRuleIsNotMonday | services/cleanup_service.py:116 | the weekly rule deletes a `1wk` row exactly when SQLite can read its date and does not take it for a Monday |
| Cleanup.MonthlyRuleIsNotFirst | services/cleanup_service.py:117 | the monthly rule deletes a `1mo` row exactly when SQLite can read its date and does not take it for a 1st |
| Cleanup.CalendarRules | services/cleanup_service.py:115-118 | on a calendar date the weekly rule deletes exactly the non-Mondays and the monthly rule exactly the days other than the 1st |
| Cleanup.OffCalendarMonthly | services/cleanup_service.py:117 | a `1mo` row dated past its month's end is deleted unless it is exactly one day past the end, which SQLite reads as the next 1st |
| Cleanup.KeptMembers | services/cleanup_service.py:131-135 | the rows left by the delete are exactly the rows the WHERE clause does not match |
| Cleanup.KeptConforms | services/cleanup_service.py:115-135 | after the delete, every valid-dated row of the cleaned timeframe falls on a Monday (`1wk`) or on the 1st (`1mo`) |
| Cleanup.OtherTimeframesUntouched | services/cleanup_service.py:131-135 | rows of every other timeframe are kept, in order |
| Cleanup.KeptAllConform | services/cleanup_service.py:131-135 | a table whose rows all conform is left as it is |
| Cleanup.KeptIdempotent | services/cleanup_service.py:131-135 | a second delete removes nothing more |
| Cleanup.GeneratedRowsDoomed | services/cleanup_service.py:115-118 | the Friday-dated weekly rows and the month-end monthly rows that the aggregation writes are always deleted by this rule |
| Cleanup.Database.DeleteWhere | services/cleanup_service.py:125-146 | the delete leaves the named table with only its kept rows and reports how many rows went; a missing table is a caught failure that changes nothing |
| Cleanup.Database.DeleteInvalidTimeframeRows | services/cleanup_service.py:100-146 | `delete_invalid_timeframe_rows` refuses a bad data type or timeframe and changes nothing; otherwise it deletes from the chosen table as above |
| Cleanup.Database.DeleteNonMondayWeekly | archive/data_manager.py:565-589 | `delete_non_monday_weekly` applies the weekly rule to the chosen price table |
| Symbols.FirstColumn | services/symbol_service.py:21-31 | the detected column is the first header, in header order, that satisfies the test, and there is none exactly when no header does |
| Symbols.CleanCode | services/symbol_service.py:58-65 | a cleaned series or ISIN is stripped, upper-cased, non-empty and not an NA placeholder; it is missing exactly when the raw cell is missing, blank or a placeholder |
| Symbols.CleanListing | services/symbol_service.py:67-74 | a listing date is present exactly when `to_datetime` parses the cell, and it is then that date written as ten-character ISO 8601 text (YYYY-MM-DD) |
| Symbols.Kept | services/symbol_service.py:42-46 | the kept rows are exactly the rows with both key cells, each once |
| Symbols.UpdatesFromRecords | services/symbol_service.py:89-94 | every pending update carries some record's cleaned value for that record's symbol |
| Symbols.CollectRecords | services/symbol_service.py:54-94 | the row loop builds the records of the kept rows in order, and the three update lists `Updates` defines |
| Symbols.InsertOrIgnore | services/symbol_service.py:97-102 | `INSERT OR IGNORE` keeps every stored row unchanged and adds exactly the symbols the records mention |
| Symbols.InsertOrIgnoreFirstWins | services/symbol_service.py:97-102 | a new symbol gets the row of its first record |
| Symbols.Fill | services/symbol_service.py:104-123 | a fill keeps the same symbols, changes only its one field, and never touches a row whose stored value is not empty |
| Symbols.FillLast | services/symbol_service.py:104-123 | the last update of a list sets its symbol's field only while that field is still empty |
| Symbols.FillFirstWins | services/symbol_service.py:104-123 | an empty stored field takes the value of the first update naming its symbol; a symbol without updates is untouched |
| Symbols.FillNothing | services/symbol_service.py:104-123 | an empty update list changes nothing |
| Symbols.Merge | services/symbol_service.py:97-123 | after the whole write, the table holds exactly the stored symbols and the symbols of the records |
| Symbols.MergeKeepsStored | services/symbol_service.py:97-123 | a stored symbol keeps its name and exchange, and every field that was not empty |
| Symbols.EquitySymbols.RefreshEquity | services/symbol_service.py:12-141 | a missing selected column fails without writing. A file with no kept rows writes nothing. Otherwise the table becomes the merge of the records |
| Symbols.EquitySymbols.Write | services/symbol_service.py:97-125 | the insert, the three fills and the commit leave the table as the merge specifies |
| Symbols.InsertIndices | services/symbol_service.py:167-177 | inserting the configured indices keeps every stored row, and each configured code ends up stored, unless its Yahoo symbol was already taken |
| Symbols.InsertIndicesNew | services/symbol_service.py:167-177 | a row the insert adds is a configured entry, active |
| Symbols.Reactivate | services/symbol_service.py:180-184 | the update sets `is_active = 1` on exactly the configured codes and changes nothing else |
| Symbols.IndexSymbols.RefreshIndices | services/symbol_service.py:145-192 | a schema without the required columns raises before writing; otherwise the table becomes the insert followed by the reactivation |
| Symbols.RefreshIndicesEffect | services/symbol_service.py:167-184 | after the refresh, every stored configured code is active, unconfigured rows are untouched, and stored rows differ at most in `is_active` |
| Symbols.Pieces | services/symbol_service.py:213 | every non-blank piece of the comma list is asked for, and every symbol asked for is non-empty, stripped, upper-case and free of commas |
| Symbols.ParseSymbolArg | services/symbol_service.py:196-216 | blank input asks for nothing, and a trimmed case-insensitive `ALL` asks for every symbol. Otherwise the query is the non-empty set of parsed pieces, each non-empty, stripped, upper-case and free of commas |
| Symbols.Retrieve | services/symbol_service.py:205-226 | a stored symbol is returned exactly when the query asks for all symbols or names it |
| Symbols.MaxDate | services/symbol_service.py:238-245 | SQL `MAX(date)` is NULL exactly when the timeframe has no rows; otherwise it is a stored date of the timeframe, at least every ISO date, and blank only when every date is blank |
| Symbols.LatestEquityDate | services/symbol_service.py:235-255 | the latest date exists exactly when the timeframe has an ISO-dated row, and is on or after every such date |
| Symbols.LatestVersionsAgree | archive/data_manager.py:1140-1144 | the earlier version, which tests only NULL, returns the same result, because its handler catches the failed parse of '' |
| Symbols.LatestCompleteDate | services/symbol_service.py:260-280 | the latest date whose rows of the timeframe all have a delivery percentage: such a date is stored, it is the latest one, and there is none only when no date qualifies |
| Symbols.Filter | services/symbol_service.py:267-268 | the rows kept are exactly those whose date group is complete |
| Bhavcopy.DownloadBhavcopy | services/bhavcopy_loader.py:20-45 | a file is saved exactly when the server answers 200; the saved name is one the loader's listing keeps, and the loader reads back the date it was saved for (today's when no date is given) |
| Bhavcopy.FileNameListed | services/bhavcopy_loader.py:29-32 | every saved name ends in `.csv` and contains `sec_bhavdata_full_` |
| Bhavcopy.FileNameDate | services/bhavcopy_loader.py:192-194 | a date text without `_` or `.` is read back from the saved name as it was given |
| Bhavcopy.FileDateRoundTrip | services/bhavcopy_loader.py:192-194 | the date read back from a downloaded file's name is the day it was downloaded for |
| Bhavcopy.StemOfFileName | services/bhavcopy_loader.py:193 | the last `_` piece of a bhavcopy name, cut at the first `.`, is its date digits |
| Bhavcopy.StartDate | services/bhavcopy_loader.py:70-79 | the start is the day after the override when one is given (none when it does not parse), else after the stored maximum, else after today − 30 |
| Bhavcopy.DaysOrdinals | services/bhavcopy_loader.py:102-112 | the i-th requested day is i days after the start |
| Bhavcopy.DaysCoverRange | services/bhavcopy_loader.py:102-112 | every date from the start to today is requested, at its own position |
| Bhavcopy.BhavcopyFolder.Clear | services/bhavcopy_loader.py:87-99 | clearing removes every file; directories survive unless `shutil` is available to remove them |
| Bhavcopy.BhavcopyFolder.DownloadMissing | services/bhavcopy_loader.py:67-115 | an unparsable override raises and a start after today returns, both before clearing anything. Otherwise the folder is cleared and one download is requested per day from the start to today, in order, with the count equal to the number of days |
| Bhavcopy.DirectoriesOf | services/bhavcopy_loader.py:89-97 | what survives a clear without `shutil` is exactly the directories |
| Bhavcopy.NormalizeHeader | services/bhavcopy_loader.py:213 | the header keeps one name per column, each stripped and upper-case |
| Bhavcopy.ColumnIndex | services/bhavcopy_loader.py:220 | the `SYMBOL` column is its first occurrence, and is absent exactly when no column has that name |
| Bhavcopy.FirstMatch | services/bhavcopy_loader.py:220-226 | the row used for a symbol is the first row whose SYMBOL cell is the symbol; there is none exactly when no row matches |
| Bhavcopy.Upsert | services/bhavcopy_loader.py:170-183 | the upsert stores the bar under its key, inserts `is_final` 1 and keeps a stored row's `is_final`, and leaves every other key as it was |
| Bhavcopy.LoadFile | services/bhavcopy_loader.py:216-243 | one file upserts at most one row per listed symbol, removes nothing, changes only daily rows of its date, and never changes `is_final` |
| Bhavcopy.LoadFileWritesFirstMatch | services/bhavcopy_loader.py:226-242 | each listed symbol with a matching row ends up with the bar of its first matching row: LAST_PRICE as close, CLOSE_PRICE as adj_close, DELIV_PER as delv_pct |
| Bhavcopy.Bhavcopies | services/bhavcopy_loader.py:161-164 | the listing keeps exactly the `.csv` names that contain `sec_bhavdata_full_` |
| Bhavcopy.Update | archive/data_manager.py:1244-1357 | nothing changes unless every file loads, and then the run commits. No symbols and no files are reported as such |
| Bhavcopy.LoadFiles | archive/data_manager.py:1288-1345 | the file loop gives the file-by-file result `LoadAll`, stopping at the first file that raises |
| Bhavcopy.PriceData.UpdateFromBhavcopyEarlier | archive/data_manager.py:1244-1357 | the earlier update, with every name imported, leaves the table and the outcome as `Update` gives them |
| Bhavcopy.PriceData.UpdateFromBhavcopy | services/bhavcopy_loader.py:144-257 | in the services version `NSE_BHAVCOPY_DAILY` is never imported. So once symbols are found the update raises, rolls back and leaves the table unchanged |
| Bhavcopy.NoneStaysNone | archive/data_manager.py:1288-1353 | once a file raises, the whole load raises |
| Bhavcopy.LoadAllKeeps | archive/data_manager.py:1288-1347 | a committed load removes no row, changes no row of another timeframe and never changes `is_final` |
| DownloadHistoric.ChunkEndSpan | archive/download_nse_historic.py:242-244 | a chunk ends one year less a day after its start, cut back to today, and so spans at most 366 days |
| DownloadHistoric.ChunksTile | archive/download_nse_historic.py:238-249 | the chunks start at the listing date, end at today, each is shorter than a year, and each starts the day after the previous one ends |
| DownloadHistoric.ChunksWithin | archive/download_nse_historic.py:240-249 | every chunk lies between the listing date and today |
| DownloadHistoric.ChunksOrdered | archive/download_nse_historic.py:240-249 | each chunk ends before any later one starts |
| DownloadHistoric.ChunksCover | archive/download_nse_historic.py:240-249 | every day from the listing date to today falls in some chunk |
| DownloadHistoric.ChunksUnique | archive/download_nse_historic.py:240-249 | no day falls in two chunks |
| DownloadHistoric.DashedHasNoSeparators | archive/download_nse_historic.py:88-89 | a `%d-%m-%Y` date holds neither `_` nor `&` |
| DownloadHistoric.FileNameDates | archive/download_nse_historic.py:88-91 | the file name `SYMBOL_from_to.csv` splits at `_` back into the symbol's own pieces and the two dates |
| DownloadHistoric.QuotePlus | archive/download_nse_historic.py:94 | `quote_plus` leaves only safe characters, `%` and `+`, so no `&`, `=`, `#` or space can end the symbol parameter |
| DownloadHistoric.QuotePlusRoundTrip | archive/download_nse_historic.py:94 | the server decodes the encoded ASCII symbol back to the symbol, so `M&M` arrives whole |
| DownloadHistoric.QueryParameters | archive/download_nse_historic.py:94-98 | the query has exactly six parameters: from, to, the encoded symbol, and the three fixed ones |
| DownloadHistoric.CleanHeader | archive/download_nse_historic.py:129 | a cleaned header holds no non-breaking space and no upper-case letter |
| DownloadHistoric.CleanHeaders | archive/download_nse_historic.py:129 | every header of the first line is cleaned: none holds a non-breaking space or an upper-case letter |
| DownloadHistoric.ThreeColumnsValid | archive/download_nse_historic.py:126-131 | a first line whose three headers name symbol, series and date passes the check |
| DownloadHistoric.NseHeaderValid | archive/download_nse_historic.py:126-131 | the header line NSE sends passes the check |
| DownloadHistoric.HtmlPageInvalid | archive/download_nse_historic.py:126-135 | an HTML error page fails the check |
| DownloadHistoric.Tagged | archive/download_nse_historic.py:240-249 | a symbol's requests are one per chunk, all for that symbol, and cover exactly its chunks |
| DownloadHistoric.Downloader.DownloadSymbol | archive/download_nse_historic.py:231-249 | no listing date: nothing is requested; otherwise the chunks of the listing date up to today are requested in order |
| DownloadHistoric.Downloader.DownloadRow | archive/download_nse_historic.py:273-291 | a row with no listing column, a NULL listing date or an unreadable one is skipped; otherwise the stripped, upper-cased symbol is downloaded from its listing date |
| DownloadHistoric.Downloader.DownloadAll | archive/download_nse_historic.py:252-295 | a failed symbol query ends the run with nothing requested; otherwise the requests are those of the rows, in row order |
| DownloadHistoric.ArchiveQueryDownloadsNothing | archive/data_manager.py:364-367 | the symbol query returns no listing_date column, so the run requests nothing for any table |
| DownloadHistoric.RowRequestsIncluded | archive/download_nse_historic.py:273-291 | every request for one row is among the requests of the run |
| DownloadHistoric.ListingQueryCoversEveryDay | archive/download_nse_historic.py:252-295 | with a query that returns listing_date, every day from a symbol's listing to today falls in a chunk requested for it |
| Normalize.CleanNameShape | archive/test.py:18 | a cleaned column name is the stripped name with no space and no capital letter left, and no longer than the original |
| Normalize.CleanAll | archive/test.py:18 | every label is cleaned: one per column, none with a space or a capital letter left |
| Normalize.NormalizedPointwise | archive/test.py:18-28 | each label becomes its own normal name: `deliv_per` turns into `delv_pct`, `date1` into `date`, and the two renames do not feed into each other |
| Normalize.CleanFixed | archive/test.py:18 | a name that is already clean is left as it is |
| Normalize.CleanNameIdempotent | archive/test.py:18 | cleaning twice is cleaning once |
| Normalize.DelvPctClean | archive/test.py:22 | the rename target `delv_pct` is already clean |
| Normalize.DateClean | archive/test.py:23 | the rename target `date` is already clean |
| Normalize.NormalNameFixed | archive/test.py:18-28 | a clean name that neither rename mentions is left alone |
| Normalize.NormalNameIdempotent | archive/test.py:16-30 | normalising one name twice is normalising it once |
| Normalize.NormalizedIdempotent | archive/test.py:16-30 | normalising a frame's columns twice is normalising them once |
| Normalize.NormalizedFixed | archive/test.py:16-30 | clean labels without `deliv_per` or `date1` pass through unchanged |
| Normalize.RenameAbsent | archive/test.py:27-28 | a rename whose source column is absent changes nothing |
| Normalize.Frame.NormalizeColumns | archive/test.py:16-30 | the frame's labels become the normalised labels of the old ones |
| ScanData.Shift | services/scanners/data_service.py:42 | the shifted frame keeps every daily row, in order, and adds only prev_rsi_3 |
| ScanData.PrevIsLatestEarlier | services/scanners/data_service.py:34-42 | on rows sorted by (symbol_id, date), prev_rsi_3 is the rsi_3 of the symbol's latest earlier day, and empty on the symbol's first day |
| ScanData.LastDefined | services/scanners/data_service.py:56 | the group's last non-null rsi_3, when there is one, is the rsi_3 of one of its rows |
| ScanData.LastMatchIsLatest | services/scanners/data_service.py:54-56 | the last weekly row kept for a daily row is the symbol's latest weekly row on or before the day |
| ScanData.LastDefinedOfLatest | services/scanners/data_service.py:56 | the latest row's rsi_3 is taken when it is defined; a group with no defined rsi_3 gives an empty cell |
| ScanData.AttachMembers | services/scanners/data_service.py:54-56 | after a join, a row is a given row with a period match and the period's rsi_3 attached, and every given row with a match is there |
| ScanData.AttachOrdered | services/scanners/data_service.py:56 | the joined frame stays in (symbol_id, date) order |
| ScanData.ShiftOrdered | services/scanners/data_service.py:34-42 | the shifted frame is in (symbol_id, date) order when the query's rows are |
| ScanData.JoinedDaily | services/scanners/data_service.py:54-56 | a join changes none of the daily columns |
| ScanData.TwoJoinsKeep | services/scanners/data_service.py:54-70 | a daily row survives both joins exactly when it has both a weekly and a monthly row on or before its date |
| ScanData.ShiftMembers | services/scanners/data_service.py:42 | the shift keeps exactly the daily rows |
| ScanData.SortedDaily | services/scanners/data_service.py:34 | sorting daily rows with distinct keys by (symbol_id, date) puts them in strict key order |
| ScanData.SortedPeriod | services/scanners/data_service.py:50-56 | sorting weekly or monthly rows with distinct keys by (symbol_id, date) puts them in strict key order |
| ScanData.MatchesSort | services/scanners/data_service.py:54-56 | a daily row finds an as-of match in the sorted period rows exactly when it finds one in the rows as queried |
| ScanData.BaseDataOrdered | services/scanners/data_service.py:12-72 | when the daily table has one row per (symbol_id, date), the frame is in strict (symbol_id, date) order, so it has at most one row per key |
| ScanData.BadStartEmpty | services/scanners/data_service.py:15-77 | a start date that does not parse as YYYY-MM-DD gives the empty frame |
| ScanData.BaseDataKeeps | services/scanners/data_service.py:12-72 | a daily row is in the frame exactly when its date is in the window and it has weekly and monthly rows on or before its date in the window |
| ScanData.ArchiveAgrees | archive/scanners.py:32-86 | when no row is dated after today, the older version without an upper date bound gives the same frame |
| Scanners.Scan | services/scanners/scanner_HM.py:10-19 | the masked rows, each exactly once and no others, newest date first and then by symbol |
| Scanners.RunScan | services/scanners/scanner_HM.py:8-25 | an exporter called with the wrong number of arguments ends in the `except` and an empty frame; otherwise the frame is exactly the masked rows, newest date first and then by symbol |
| Scanners.ServiceScannersEmpty | services/scanners/scanner_HM.py:20-25 | both service scanners pass two arguments to the three-argument exporter, so both always return an empty frame |
| Scanners.PlayScan | services/scanners/scanner_play.py:15-40 | the play scanner returns exactly the rows of the 365-day frame ending at the start date that pass its mask, newest first |
| Scanners.ArchiveScanHilegaMilega | archive/scanners.py:91-114 | the archive "hilega milega" scanner keeps exactly the rows of the services' work-in-progress mask, sorted |
| Scanners.ArchiveScanWip | archive/scanners.py:119-137 | the archive work-in-progress scanner keeps exactly the rows of the services' hilega milega mask, sorted |
| Scanners.ScanLeTotal | services/scanners/scanner_HM.py:19 | any two rows are ordered one way or the other by (date descending, symbol) |
| Scanners.HilegaMilegaDefined | services/scanners/scanner_HM.py:10-18 | a row passes the mask only when every column it reads is defined, since comparisons with NaN are false |
| Scanners.HilegaMilegaPositive | services/scanners/scanner_HM.py:11-18 | with positive divisors, the ratio tests are the products they stand for: rsi_3 at least 1.15 times rsi_9, and so on |
| Scanners.WipCrossing | services/scanners/scanner_WIP.py:14-16 | a row passes the work-in-progress mask only when rsi_3 crossed upward through 55 from the previous day and stays below 80 |
| Scanners.WipSkipsFirstRow | services/scanners/scanner_WIP.py:14 | a symbol's first day in the window never passes the work-in-progress mask |
| Scanners.HilegaMilegaIsPlay | services/scanners/scanner_play.py:21-29 | every row the hilega milega mask keeps also passes the looser play mask |
| Scanners.ParseInt | services/scanners/scanner_play.py:56 | a string `int()` accepts is not blank once stripped |
| Scanners.Years | services/scanners/scanner_play.py:61-64 | at most `lookback_years` years are scanned, each a year `datetime` accepts |
| Scanners.YearsSpec | services/scanners/scanner_play.py:61-64 | the years run start, start - 1, ..., for `lookback_years` years, and stop early at the first year outside 1..9999 |
| Scanners.YearEndTextIso | services/scanners/scanner_play.py:64 | the end-date text is the ISO form of 31 December of the year |
| Scanners.YearScanWindow | services/scanners/scanner_play.py:64-68 | each year's scan reads the 365 days up to 31 December of that year |
| Scanners.YearsAt | services/scanners/scanner_play.py:61-64 | the i-th pass scans year start - i, unless that year is out of range, which ends the loop |
| Scanners.YearExportsStep | services/scanners/scanner_play.py:61-68 | one more pass appends that year's export to the exports so far |
| Scanners.PlayRunner.PlayMultiYears | services/scanners/scanner_play.py:47-69 | the folder is cleared, then one export per scanned year is written, in year order back from the start year, or from 2025 when the start is not an integer |
| Scanners.PlayRunner.ScanYears | services/scanners/scanner_play.py:61-69 | the loop writes exactly the yearly exports of the years the year range allows |
| Scanners.PlayRunner.ScanYear | services/scanners/scanner_play.py:62-68 | one pass appends the year's scan under the year's name |
| Scanners.MonthOfAbbrev | services/scanners/export_service.py:18 | each `%b` abbreviation names its own month |
| Scanners.CsvNameDate | services/scanners/export_service.py:18-19 | the export date can be read back from the file name |
| Scanners.ArchiveCsvNamePrefix | archive/scanners.py:18-19 | the older file name is `Scanner_`, the scanner name and the dated suffix, 22 characters longer than the name |
| ProbScanner.AddFeatures | services/scanners/scanner_test.py:53-69 | the featured frame keeps every daily row, in order, and only adds columns |
| ProbScanner.OrderLockChain | services/scanners/scanner_test.py:58-62 | order_lock holds exactly when all four columns are defined and rsi_3 > rsi_9 > ema_rsi_9_3 > wma_rsi_9_21 |
| ProbScanner.AccelerationMeaning | services/scanners/scanner_test.py:64-67 | acceleration holds exactly when the three columns are defined and rsi_3 + ema_rsi_9_3 exceeds twice rsi_9 |
| ProbScanner.RatioAboveOne | services/scanners/scanner_test.py:56 | with a positive rsi_9, rsi3_rsi9 exceeds 1 exactly when rsi_3 exceeds rsi_9 |
| ProbScanner.NextMonth | services/scanners/scanner_test.py:80 | the period one month on is a month again |
| ProbScanner.NextMonthIsNext | services/scanners/scanner_test.py:79-80 | the daily row's month plus one is the next month on the month count, and December runs into the next January |
| ProbScanner.NextMonthOutcomes | services/scanners/scanner_test.py:82-86 | the merge pairs a daily row with exactly the same symbol's monthly rows for the following month |
| ProbScanner.MergedRows | services/scanners/scanner_test.py:82-86 | a left merge never drops a daily row |
| ProbScanner.MapFutureSuccess | services/scanners/scanner_test.py:75-91 | the merged frame has at least one row per daily row |
| ProbScanner.LabelsMeaning | services/scanners/scanner_test.py:88 | every label in the merged frame agrees with the outcome attached to its row |
| ProbScanner.AtMostOneOutcome | services/scanners/scanner_test.py:82-86 | with one monthly row per symbol and month, a daily row meets at most one outcome |
| ProbScanner.MergedRowsSingle | services/scanners/scanner_test.py:82-88 | with one monthly row per symbol and month, a daily row becomes exactly one labelled row |
| ProbScanner.MergeOneForOne | services/scanners/scanner_test.py:75-91 | with one monthly row per symbol and month, the merged frame is the daily frame row for row, each with its next month's outcome |
| ProbScanner.NoMatchNoOutcome | services/scanners/scanner_test.py:82-86 | a daily row whose next month has no row for its symbol meets no outcome |
| ProbScanner.DecemberHasNoOutcome | services/scanners/scanner_test.py:44-88 | with monthly rows only up to the year's end, every December row is labelled 0 with no outcome |
| Backtest.SignalLeTotal | services/scanners/backtest_service.py:18 | any two signals are ordered one way or the other by (date, symbol) |
| Backtest.SortSignals | services/scanners/backtest_service.py:18 | the signals are visited sorted by date, then symbol, and are a permutation of the file's rows |
| Backtest.Limit | services/scanners/backtest_service.py:30 | `LIMIT n` keeps the first n rows, and a negative limit keeps them all |
| Backtest.Fetch | services/scanners/backtest_service.py:25-32 | the fetched bars are the symbol's daily bars on or after the signal date, earliest first, and no more than the limit |
| Backtest.FetchCount | services/scanners/backtest_service.py:25-32 | the query returns every matching bar up to the limit |
| Backtest.PctChange | services/scanners/backtest_service.py:38 | with a positive buy price the gain is the percentage change rounded to two places |
| Backtest.Gain | services/scanners/backtest_service.py:33-38 | a signal has no gain exactly when fewer than two bars are fetched |
| Backtest.SellBar | services/scanners/backtest_service.py:33-38 | the trade buys at the second bar's open and sells at the sixth bar's close, or the last bar's when fewer than six exist |
| Backtest.Round2Positive | services/scanners/backtest_service.py:38-41 | a rounded gain is positive exactly from half a hundredth of a percent |
| Backtest.WinMeaning | services/scanners/backtest_service.py:38-41 | a trade wins exactly when the sell price beats the buy price by at least one part in 20000, and never when it does not rise |
| Backtest.MinSkipNaN | services/scanners/backtest_service.py:43 | the column minimum skips missing gains: it is NaN only when every gain is missing, and otherwise the least gain present |
| Backtest.CountTrue | services/scanners/backtest_service.py:42 | the number of wins is at most the number of rows |
| Backtest.MeanPercent | services/scanners/backtest_service.py:42 | the win rate is NaN for an empty frame and otherwise a percentage between 0 and 100 |
| Backtest.Percent | archive/backtest_service_old.py:63 | a share of a positive total is a percentage between 0 and 100 |
| Backtest.GainColumn | services/scanners/backtest_service.py:34-40 | the gain column holds each present gain as it is and NaN for each missing one |
| Backtest.WinColumn | services/scanners/backtest_service.py:41 | a signal wins exactly when its float gain compares above zero, so a missing gain is never a win |
| Backtest.ComputeGains | services/scanners/backtest_service.py:20-38 | the loop appends exactly one gain per signal, in the sorted order |
| Backtest.BacktestScanner | services/scanners/backtest_service.py:8-49 | a missing required column ends in the `except`; otherwise every sorted signal gets its gain and win, with the win rate and the maximum loss over them |
| Backtest.SellIndex | archive/backtest_service_old.py:49 | the sell index always lies before the end of the fetched bars |
| Backtest.OldTradeSell | archive/backtest_service_old.py:40-50 | with a non-negative holding period nothing faults; fewer than two bars give no trade; otherwise the sell is at bar `holding_days`, or the last one fetched |
| Backtest.OldAgreesAtFiveDays | archive/backtest_service_old.py:40-54 | with five holding days the old rule gives exactly the gain of the services backtest for every signal |
| Backtest.ValidGains | archive/backtest_service_old.py:60 | the valid gains are exactly the gains that are not None, and none are left only when every gain is None |
| Backtest.PyMinIsLeast | archive/backtest_service_old.py:64 | without NaN, Python's `min` is the least gain, as pandas' minimum is |
| Backtest.PyMinFirstNaN | archive/backtest_service_old.py:64 | a NaN first gain makes Python's `min` NaN |
| Backtest.CountWins | archive/backtest_service_old.py:63 | the number of positive gains is at most the number of gains |
| Backtest.Summarize | archive/backtest_service_old.py:62-65 | the summary counts every valid gain as a trade, and its win rate lies between 0 and 100 |
| Backtest.PySumFinite | archive/backtest_service_old.py:65 | finite gains add up to a finite total between n times their lower and upper bounds |
| Backtest.MeanBounds | archive/backtest_service_old.py:65 | a total between n times two bounds, divided by n, lies between the bounds |
| Backtest.AverageBetween | archive/backtest_service_old.py:65 | the average gain lies between the least and the greatest bound of the gains |
| Backtest.NoValidNoTrade | archive/backtest_service_old.py:42-63 | no valid gain is left exactly when no signal traded, which is when the division by zero raises |
| Backtest.ComputeTrades | archive/backtest_service_old.py:26-54 | the old loop records one gain and one trade row per signal, and stops at a signal whose sell index faults |
| Backtest.BacktestOld | archive/backtest_service_old.py:8-80 | the two frames are returned exactly when the columns are there, no signal faults and some signal traded; they hold each sorted signal's gain, win and trade row, with the summary of the valid gains |

## Left out

- Network and file I/O are left out: the Yahoo and NSE downloads, CSV reading and writing, and folder listing, clearing and copying. A download is a recorded request, and a folder is the list of its entries.
- The SQLite connection, pragmas, DDL, commits and closing are left out. A table is a map keyed by its primary key, and a rollback restores the old map.
- UI, plotting, configuration and logging are left out. Printed and logged summaries become fields of the returned report.
- Floating point is modelled as exact reals. `Float.Ext` adds the infinities and NaN where a division by zero or a missing cell can occur; float64 rounding error is not modelled.
- Base.Round2: `round(x, 2)` is modelled as rounding halves upward on the exact value. Python rounds the binary float64 value, so a decimal tie can go either way.
- Volatility.BollingerSymmetric: the rolling standard deviation needs a square root, so it is a non-negative parameter, not computed from the window.
- Custom.EmaRsiRange: `services.indicators.momentum.rsi` is not part of this model. Its values are a parameter, taken to lie in 0..100 where the lemma states the range.
- IndicatorService.PctChangeAt: a previous adj_close of zero gives inf or NaN in pandas; the model gives a missing value.
- IndicatorService.RefreshIndicators: the equity record holds 21 values (with `is_final`) for the 20 placeholders of the equity statement. So every equity series is refused and the equity indicator table never changes. This is stated as the code's behaviour; a corrected equity statement is not modelled.
- IndicatorService.CalculateIndicatorsShape: the `except` branch of `calculate_indicators` calls `sys._getframe` without importing `sys`, so it raises NameError. The model states that outcome and does not model the message.
- Calendar.ParseIso: it accepts only the zero-padded `YYYY-MM-DD` form. `strptime` also accepts unpadded month and day fields, and those inputs are not modelled.
- Calendar.ParseDdMmYyyy: the same restriction, for `%d%m%Y`.
- Cleanup.SqlReadable: SQLite also needs a four-digit year and accepts a time after the date. The stored dates are plain `YYYY-MM-DD` text with four-digit years, so neither is modelled.
- Text.Upper, Text.Lower: only the ASCII letters change case. Python's `upper()` and `lower()` also map non-ASCII letters, some into several characters (`'ß'.upper()` is `'SS'`). So for non-ASCII input the model does not capture the case mapping, or the length change, that reaches Symbols.CleanCode, Symbols.Pieces, Symbols.ParseSymbolArg, Bhavcopy.NormalizeHeader, Normalize.CleanName and DownloadHistoric.CleanHeader.
- Scanners.ParseInt: it accepts an optional sign and ASCII digits. Python's `int()` also accepts `_` between digits and non-ASCII digits; those are not modelled.
- Scanners.CsvNameDate: `%b` is taken in the C locale (English month abbreviations).
- Scanners.PlayRunner.PlayMultiYears: the final `backtest_all_scanners()` call is left out, since no shown file defines it. `lookback_years` is taken to be an integer.
- Scanners.Years: the loop stops at the first year `datetime` rejects (outside 1..9999). The ValueError ends the whole run, and the model ends the year list there.
- ProbScanner.MapFutureSuccess: the driver `run_probabilistic_scanner` is left out. It clears the folder, loads the two queries, sorts by date and symbol and exports a CSV, which is I/O around the two modelled functions.
- ScanData.BaseData: the services version compares the parsed `weekly_date`/`monthly_date` with the text `date` column. The model compares dates, so it does not capture any difference in how pandas compares a datetime64 with a string.
- ScanData.BaseData: only the rsi_3 columns of the as-of join are modelled. The `bb_upper` columns the joins bring in (and their `_x`/`_y` suffixes) are not, and neither is group-by-last on the other columns.
- ScanData.BaseDataOrdered: the daily rows are taken to have one row per (symbol_id, date), as the table's primary key has it. The way `groupby(...).last()` would collapse duplicate daily keys is not modelled.
- Frames.Sort: pandas' default sort is not guaranteed stable. The model orders rows with equal keys by insertion sort, so any order among ties is one possible result.
- Backtest.BacktestScanner: the CSV file and the `to_datetime` of its date column are inputs. A date that does not parse is not modelled.
- Backtest.BacktestOld: a negative `holding_days` is modelled (a limit of zero or none, and `iloc` counting from the end). Errors other than the missing column, the IndexError and the division by zero are not.
- DownloadHistoric.Downloader.DownloadAll: the clock `TODAY` is a datetime; the model works on dates, which gives the same chunks. `download_from_csv` only builds names and logs (its download is commented out), so it is left out.
- DownloadHistoric.Downloader.DownloadSymbol: the HTTP status, the timeout and the writing of the file are left out. The header check of the written file is modelled by `DownloadHistoric.HeaderValid`.
- NULL open, high, low or close values in the price tables are not modelled: a bar carries reals (IndicatorService, WeeklyMonthly and Backtest bars).
- `delete_files_in_folder` and `copy_files` are modelled only as the cleared flag or the folder's entries, not as file-system operations.

## Findings

| source | as written | input that shows it | evidently intended | confidence | as-written member | corrected member |
|---|---|---|---|---|---|---|
| archive/download_nse_historic.py:279 | `download_all_symbols` reads `row["listing_date"]`, but `retrieve_equity_symbol("ALL", conn)` selects only `symbol_id, symbol` (archive/data_manager.py:364), so every row raises KeyError, is logged as a loop error, and nothing is downloaded | an `equity_symbols` table with the one row (1, "TCS", listing date 2004-08-25) | the symbol query also returns `listing_date`, and each symbol's history is downloaded in yearly chunks from its listing date to today | high (not executed) | DownloadHistoric.ArchiveQueryDownloadsNothing | DownloadHistoric.ListingQueryCoversEveryDay |
