/** Weekly and monthly candles built from a symbol's daily bars: the bars
    are grouped by the `W-MON` and `MS` calendars, each group is reduced to
    one candle (first open, highest high, lowest low, last close, summed
    volume), incomplete periods are cut off, and each symbol's candles are
    appended to the price table and committed in turn; the first key
    conflict rolls back only that symbol's insert and ends the run. */
module WeeklyMonthly {
  import opened Base
  import opened Calendar

  /** A daily bar of `equity_price_data`, as read in date order. */
  datatype Bar = Bar(date: Date, open: real, high: real, low: real, close: real, volume: real)

  /** A row appended to `equity_price_data`. */
  datatype Candle = Candle(symbolId: int, timeframe: string, date: Date,
                           open: real, high: real, low: real, close: real, volume: real)

  predicate AllValid(bars: seq<Bar>) {
    forall i :: 0 <= i < |bars| ==> Valid(bars[i].date)
  }

  /** `ORDER BY date` over a key that includes the date: strictly
      increasing dates. */
  predicate Sorted(bars: seq<Bar>) {
    AllValid(bars) && forall i, j :: 0 <= i < j < |bars| ==> Less(bars[i].date, bars[j].date)
  }

  /** A bar whose range contains its open and its close. */
  predicate Consistent(b: Bar) {
    b.low <= b.open <= b.high && b.low <= b.close <= b.high
  }

  // ---------------------------------------------------------------------
  // Group labels

  /** The `W-MON` label of a day: bins are closed on the right and
      labelled by their right edge, so a day belongs to the Monday on or
      after it. */
  function WeekKey(d: Date): (k: Date)
    requires Valid(d)
    ensures Valid(k)
  {
    AddDays(d, (7 - Weekday(d)) % 7)
  }

  const WeekLabel: Date --> Date := d requires Valid(d) => WeekKey(d)

  /** The `MS` label of a day: the first of its month. */
  const MonthLabel: Date --> Date := d requires Valid(d) => FirstOfMonth(d)

  /** Stepping forward (7 - (o + 6) mod 7) mod 7 days from ordinal o lands
      on weekday 0. */
  lemma MondayStep(o: int)
    ensures 0 <= (7 - WeekdayOf(o)) % 7 < 7
    ensures WeekdayOf(o + (7 - WeekdayOf(o)) % 7) == Monday
  {
  }

  /** The label is the Monday on or after d, less than a week later. */
  lemma WeekKeyIsBinEnd(d: Date)
    requires Valid(d)
    ensures Weekday(WeekKey(d)) == Monday
    ensures Ordinal(d) <= Ordinal(WeekKey(d)) < Ordinal(d) + 7
  {
    var n := (7 - Weekday(d)) % 7;
    MondayStep(Ordinal(d));
    AddDaysOrdinal(d, n);
  }

  /** A Monday is its own label. */
  lemma WeekKeyOfMonday(d: Date)
    requires Valid(d) && Weekday(d) == Monday
    ensures WeekKey(d) == d
  {
  }

  /** Later days never get earlier week labels. */
  lemma WeekKeyMonotone(a: Date, b: Date)
    requires Valid(a) && Valid(b) && Less(a, b)
    ensures LessEq(WeekKey(a), WeekKey(b))
  {
    var ka, kb := WeekKey(a), WeekKey(b);
    WeekKeyIsBinEnd(a);
    WeekKeyIsBinEnd(b);
    LessIsOrdinalOrder(a, b);
    LessIsOrdinalOrder(ka, kb);
    if Ordinal(kb) < Ordinal(ka) {
      SameWeekdayWithinWeek(Ordinal(kb), Ordinal(ka));
    }
  }

  /** Every day of a week bin lies on or before its label. */
  lemma WeekKeyNotBefore(d: Date)
    requires Valid(d)
    ensures LessEq(d, WeekKey(d))
  {
    WeekKeyIsBinEnd(d);
    LessIsOrdinalOrder(d, WeekKey(d));
  }

  // ---------------------------------------------------------------------
  // Grouping

  datatype Group = Group(key: Date, bars: seq<Bar>)

  function Flatten(gs: seq<Group>): seq<Bar> {
    if |gs| == 0 then [] else gs[0].bars + Flatten(gs[1..])
  }

  ghost predicate Labelled(key: Date --> Date, bars: seq<Bar>) {
    forall i :: 0 <= i < |bars| ==> Valid(bars[i].date) && key.requires(bars[i].date) && Valid(key(bars[i].date))
  }

  predicate ValidKeys(gs: seq<Group>) {
    forall i :: 0 <= i < |gs| ==> Valid(gs[i].key)
  }

  /** Every group is non-empty, carries a valid label, and holds only bars
      whose label under `key` is that of the group. */
  ghost predicate KeyedBy(key: Date --> Date, gs: seq<Group>) {
    ValidKeys(gs)
    && (forall i :: 0 <= i < |gs| ==> |gs[i].bars| > 0)
    && (forall i, j :: 0 <= i < |gs| && 0 <= j < |gs[i].bars| ==>
          Valid(gs[i].bars[j].date) && key.requires(gs[i].bars[j].date) && key(gs[i].bars[j].date) == gs[i].key)
  }

  /** `df.groupby(pd.Grouper(freq=...))` over date-ordered bars, keeping the
      non-empty groups (the loops skip the empty ones): maximal runs of
      consecutive bars with the same label. */
  function Groups(key: Date --> Date, bars: seq<Bar>): (gs: seq<Group>)
    requires Labelled(key, bars)
    ensures Flatten(gs) == bars
    ensures |gs| == 0 <==> |bars| == 0
    ensures |gs| > 0 ==> gs[0].key == key(bars[0].date)
    ensures ValidKeys(gs)
    ensures forall i :: 0 <= i < |gs| ==> |gs[i].bars| > 0
    ensures forall i, j :: 0 <= i < |gs| && 0 <= j < |gs[i].bars| ==>
              Valid(gs[i].bars[j].date) && key.requires(gs[i].bars[j].date) && key(gs[i].bars[j].date) == gs[i].key
  {
    if |bars| == 0 then []
    else
      var rest := Groups(key, bars[1..]);
      var k := key(bars[0].date);
      if |rest| > 0 && rest[0].key == k then
        var gs := [Group(k, [bars[0]] + rest[0].bars)] + rest[1..];
        GroupsMerge(key, bars, rest);
        gs
      else
        var gs := [Group(k, [bars[0]])] + rest;
        GroupsOpen(key, bars, rest);
        gs
  }

  /** The first bar joins the first group of the rest when it has the same
      label. */
  lemma {:induction false} GroupsMerge(key: Date --> Date, bars: seq<Bar>, rest: seq<Group>)
    requires |bars| > 0 && Labelled(key, bars)
    requires Flatten(rest) == bars[1..] && KeyedBy(key, rest)
    requires |rest| > 0 && rest[0].key == key(bars[0].date)
    ensures var gs := [Group(rest[0].key, [bars[0]] + rest[0].bars)] + rest[1..];
      Flatten(gs) == bars && KeyedBy(key, gs)
  {
    var g := Group(rest[0].key, [bars[0]] + rest[0].bars);
    var gs := [g] + rest[1..];
    assert gs[1..] == rest[1..];
    assert Flatten(rest) == rest[0].bars + Flatten(rest[1..]);
    assert bars == [bars[0]] + bars[1..];
    assert forall j :: 1 <= j < |g.bars| ==> g.bars[j] == rest[0].bars[j - 1];
    assert forall i :: 1 <= i < |gs| ==> gs[i] == rest[i];
  }

  /** The first bar opens a group of its own when its label differs. */
  lemma {:induction false} GroupsOpen(key: Date --> Date, bars: seq<Bar>, rest: seq<Group>)
    requires |bars| > 0 && Labelled(key, bars)
    requires Flatten(rest) == bars[1..] && KeyedBy(key, rest)
    ensures var gs := [Group(key(bars[0].date), [bars[0]])] + rest;
      Flatten(gs) == bars && KeyedBy(key, gs)
  {
    var gs := [Group(key(bars[0].date), [bars[0]])] + rest;
    assert gs[1..] == rest;
    assert bars == [bars[0]] + bars[1..];
    assert forall i :: 1 <= i < |gs| ==> gs[i] == rest[i - 1];
  }

  predicate Increasing(w: seq<Bar>) {
    forall i, j :: 0 <= i < j < |w| ==> Less(w[i].date, w[j].date)
  }

  lemma IncreasingSplit(a: seq<Bar>, b: seq<Bar>)
    requires Increasing(a + b)
    ensures Increasing(a) && Increasing(b)
  {
    assert forall i :: 0 <= i < |a| ==> (a + b)[i] == a[i];
    assert forall i :: 0 <= i < |b| ==> (a + b)[|a| + i] == b[i];
  }

  /** Each group's bars keep the strict date order of the whole series. */
  lemma {:induction false} GroupsIncreasing(gs: seq<Group>)
    requires Increasing(Flatten(gs))
    ensures forall i :: 0 <= i < |gs| ==> Increasing(gs[i].bars)
  {
    if |gs| > 0 {
      IncreasingSplit(gs[0].bars, Flatten(gs[1..]));
      GroupsIncreasing(gs[1..]);
      assert forall i :: 1 <= i < |gs| ==> gs[i] == gs[1..][i - 1];
    }
  }

  /** A bar of any group is a bar of the series. */
  lemma {:induction false} FlattenMember(gs: seq<Group>, i: nat, j: nat)
    requires i < |gs| && j < |gs[i].bars|
    ensures gs[i].bars[j] in Flatten(gs)
  {
    if i > 0 {
      FlattenMember(gs[1..], i - 1, j);
      assert gs[1..][i - 1] == gs[i];
    }
  }

  /** Labels that never decrease along the series. */
  ghost predicate Monotone(key: Date --> Date, bars: seq<Bar>)
    requires Labelled(key, bars)
  {
    forall i, j :: 0 <= i < j < |bars| ==> LessEq(key(bars[i].date), key(bars[j].date))
  }

  /** With labels that never decrease, consecutive groups have strictly
      increasing labels. */
  lemma {:induction false} GroupKeysIncrease(key: Date --> Date, bars: seq<Bar>)
    requires Labelled(key, bars) && Monotone(key, bars)
    ensures var gs := Groups(key, bars);
      forall i :: 0 <= i < |gs| - 1 ==> Less(gs[i].key, gs[i + 1].key)
  {
    if |bars| > 1 {
      var tail := bars[1..];
      assert forall i :: 0 <= i < |tail| ==> tail[i] == bars[i + 1];
      assert Labelled(key, tail);
      assert Monotone(key, tail);
      GroupKeysIncrease(key, tail);
      var rest := Groups(key, tail);
      forall i | 0 <= i < |rest| - 1
        ensures Less(rest[i].key, rest[i + 1].key)
      {
        assert var gs := Groups(key, tail); Less(gs[i].key, gs[i + 1].key);
      }
      var gs := Groups(key, bars);
      var k := key(bars[0].date);
      assert rest[0].key == key(bars[1].date);
      assert LessEq(k, rest[0].key);
      forall i | 0 <= i < |gs| - 1
        ensures Less(gs[i].key, gs[i + 1].key)
      {
        if rest[0].key == k {
          assert gs == [Group(k, [bars[0]] + rest[0].bars)] + rest[1..];
          assert gs[i + 1] == rest[i + 1] && gs[i].key == rest[i].key;
        } else {
          assert gs == [Group(k, [bars[0]])] + rest;
          assert gs[i + 1] == rest[i];
          if i > 0 {
            assert gs[i] == rest[i - 1];
          }
        }
      }
    }
  }

  /** Labels increasing from each group to the next increase across any
      two groups: each label owns exactly one group, so the runs are
      pandas' groups. */
  lemma {:induction false} ChainIncreasing(gs: seq<Group>)
    requires forall i :: 0 <= i < |gs| - 1 ==> Less(gs[i].key, gs[i + 1].key)
    ensures forall i, j :: 0 <= i < j < |gs| ==> Less(gs[i].key, gs[j].key)
  {
    if |gs| > 1 {
      var init := gs[..|gs| - 1];
      assert forall i :: 0 <= i < |init| ==> init[i] == gs[i];
      ChainIncreasing(init);
      forall i, j | 0 <= i < j < |gs|
        ensures Less(gs[i].key, gs[j].key)
      {
        if j < |gs| - 1 {
          assert init[i] == gs[i] && init[j] == gs[j];
        } else if i < j - 1 {
          assert init[i] == gs[i] && init[j - 1] == gs[j - 1];
          assert Less(gs[i].key, gs[j - 1].key);
          assert Less(gs[j - 1].key, gs[j].key);
        }
      }
    }
  }

  /** Both calendars label every valid day with a valid day, and their
      labels never decrease along a sorted series. */
  lemma LabelsValid(bars: seq<Bar>)
    requires AllValid(bars)
    ensures Labelled(WeekLabel, bars) && Labelled(MonthLabel, bars)
  {
  }

  lemma LabelsMonotone(bars: seq<Bar>)
    requires Sorted(bars)
    ensures Labelled(WeekLabel, bars) && Monotone(WeekLabel, bars)
    ensures Labelled(MonthLabel, bars) && Monotone(MonthLabel, bars)
  {
    LabelsValid(bars);
    forall i, j | 0 <= i < j < |bars|
      ensures LessEq(WeekKey(bars[i].date), WeekKey(bars[j].date))
    {
      WeekKeyMonotone(bars[i].date, bars[j].date);
    }
  }

  function WeeklyGroups(bars: seq<Bar>): (gs: seq<Group>)
    requires Sorted(bars)
    ensures ValidKeys(gs)
  {
    LabelsValid(bars);
    Groups(WeekLabel, bars)
  }

  function MonthlyGroups(bars: seq<Bar>): (gs: seq<Group>)
    requires Sorted(bars)
    ensures ValidKeys(gs)
  {
    LabelsValid(bars);
    Groups(MonthLabel, bars)
  }

  /** Over a sorted series each week forms exactly one group, and the
      groups come in calendar order. */
  lemma WeeklyGroupsInOrder(bars: seq<Bar>)
    requires Sorted(bars)
    ensures var gs := WeeklyGroups(bars);
      forall i, j :: 0 <= i < j < |gs| ==> Less(gs[i].key, gs[j].key)
  {
    LabelsMonotone(bars);
    GroupKeysIncrease(WeekLabel, bars);
    assert WeeklyGroups(bars) == Groups(WeekLabel, bars);
    ChainIncreasing(WeeklyGroups(bars));
  }

  /** Likewise each month forms exactly one group. */
  lemma MonthlyGroupsInOrder(bars: seq<Bar>)
    requires Sorted(bars)
    ensures var gs := MonthlyGroups(bars);
      forall i, j :: 0 <= i < j < |gs| ==> Less(gs[i].key, gs[j].key)
  {
    LabelsMonotone(bars);
    GroupKeysIncrease(MonthLabel, bars);
    assert MonthlyGroups(bars) == Groups(MonthLabel, bars);
    ChainIncreasing(MonthlyGroups(bars));
  }

  // ---------------------------------------------------------------------
  // One candle per group

  function Highest(w: seq<Bar>): (h: real)
    requires |w| > 0
    ensures forall i :: 0 <= i < |w| ==> w[i].high <= h
    ensures exists i :: 0 <= i < |w| && w[i].high == h
  {
    if |w| == 1 then w[0].high
    else
      var h := Highest(w[1..]);
      assert forall i :: 1 <= i < |w| ==> w[i] == w[1..][i - 1];
      if w[0].high >= h then w[0].high else h
  }

  function Lowest(w: seq<Bar>): (l: real)
    requires |w| > 0
    ensures forall i :: 0 <= i < |w| ==> l <= w[i].low
    ensures exists i :: 0 <= i < |w| && w[i].low == l
  {
    if |w| == 1 then w[0].low
    else
      var l := Lowest(w[1..]);
      assert forall i :: 1 <= i < |w| ==> w[i] == w[1..][i - 1];
      if w[0].low <= l then w[0].low else l
  }

  function Volumes(w: seq<Bar>): (v: seq<real>)
    ensures |v| == |w| && forall i :: 0 <= i < |w| ==> v[i] == w[i].volume
  {
    seq(|w|, i requires 0 <= i < |w| => w[i].volume)
  }

  /** The aggregation dictionary of both loops: `iloc[0]["open"]`,
      `max()` of high, `min()` of low, `iloc[-1]["close"]`, `sum()` of
      volume. */
  function Aggregate(symbolId: int, timeframe: string, date: Date, w: seq<Bar>): Candle
    requires |w| > 0
  {
    Candle(symbolId, timeframe, date, w[0].open, Highest(w), Lowest(w), w[|w| - 1].close, Sum(Volumes(w)))
  }

  /** A candle's range covers every bar it summarises and is attained by
      some of them; its open and close lie in that range when every bar is
      consistent. */
  lemma AggregateEnvelope(symbolId: int, timeframe: string, date: Date, w: seq<Bar>)
    requires |w| > 0
    ensures var c := Aggregate(symbolId, timeframe, date, w);
      (forall i :: 0 <= i < |w| ==> c.low <= w[i].low && w[i].high <= c.high)
      && (exists i :: 0 <= i < |w| && w[i].high == c.high)
      && (exists i :: 0 <= i < |w| && w[i].low == c.low)
      && ((forall i :: 0 <= i < |w| ==> Consistent(w[i])) ==>
            c.low <= c.open <= c.high && c.low <= c.close <= c.high)
  {
    var c := Aggregate(symbolId, timeframe, date, w);
    var h, l := Highest(w), Lowest(w);
    assert c.high == h && c.low == l;
    assert c.open == w[0].open && c.close == w[|w| - 1].close;
    if forall i :: 0 <= i < |w| ==> Consistent(w[i]) {
      assert Consistent(w[0]) && Consistent(w[|w| - 1]);
    }
  }

  /** The volume of a candle is the total of its bars' volumes: summing two
      adjacent stretches separately gives the same total. */
  lemma AggregateVolumeSplits(symbolId: int, timeframe: string, date: Date, a: seq<Bar>, b: seq<Bar>)
    requires |a| > 0 && |b| > 0
    ensures Aggregate(symbolId, timeframe, date, a + b).volume
      == Aggregate(symbolId, timeframe, date, a).volume + Aggregate(symbolId, timeframe, date, b).volume
  {
    assert Volumes(a + b) == Volumes(a) + Volumes(b);
    SumAppend(Volumes(a), Volumes(b));
  }

  /** `wk[(wk.index >= mon) & (wk.index <= fri)]`. */
  function Between(w: seq<Bar>, lo: Date, hi: Date): (r: seq<Bar>)
    ensures |r| <= |w|
  {
    if |w| == 0 then []
    else
      var rest := Between(w[1..], lo, hi);
      if LessEq(lo, w[0].date) && LessEq(w[0].date, hi) then [w[0]] + rest else rest
  }

  /** Inside a bin whose days all lie on or before its label, the window
      from the label to any later day holds only the bar of the label day,
      which can only be the last bar. */
  lemma {:induction false} BetweenAtLabel(w: seq<Bar>, lo: Date, hi: Date)
    requires Increasing(w) && LessEq(lo, hi)
    requires forall i :: 0 <= i < |w| ==> LessEq(w[i].date, lo)
    ensures Between(w, lo, hi) == if |w| > 0 && w[|w| - 1].date == lo then [w[|w| - 1]] else []
  {
    if |w| > 0 {
      var tail := w[1..];
      assert forall i :: 0 <= i < |tail| ==> tail[i] == w[i + 1];
      BetweenAtLabel(tail, lo, hi);
      if |w| > 1 {
        assert Less(w[0].date, w[1].date);
      }
    }
  }

  function Option2Seq(o: Option<Candle>): seq<Candle> {
    if o.Some? then [o.value] else []
  }

  /** The weekly loop body for one group: the row is dated on the Friday
      after the group's Monday, skipped when that Friday is past the
      cutoff or no bar lies between the Monday and the Friday. */
  function WeekCandle(symbolId: int, g: Group, cutoff: Date): Option<Candle>
    requires Valid(g.key)
  {
    var fri := AddDays(g.key, 4);
    if Less(cutoff, fri) then None
    else
      var w := Between(g.bars, g.key, fri);
      if |w| == 0 then None else Some(Aggregate(symbolId, "1wk", fri, w))
  }

  /** The monthly loop body for one group: the row is dated on the month's
      last day and skipped when that day is past the cutoff. */
  function MonthCandle(symbolId: int, g: Group, cutoff: Date): Option<Candle>
    requires Valid(g.key)
  {
    var me := MonthEnd(g.key);
    if Less(cutoff, me) then None
    else if |g.bars| == 0 then None
    else Some(Aggregate(symbolId, "1mo", me, g.bars))
  }

  /** `weekly_rows` after the loop over the groups gs. */
  function WeeklyRows(symbolId: int, gs: seq<Group>, cutoff: Date): seq<Candle>
    requires ValidKeys(gs)
  {
    if |gs| == 0 then []
    else WeeklyRows(symbolId, gs[..|gs| - 1], cutoff) + Option2Seq(WeekCandle(symbolId, gs[|gs| - 1], cutoff))
  }

  /** `monthly_rows` after the loop over the groups gs. */
  function MonthlyRows(symbolId: int, gs: seq<Group>, cutoff: Date): seq<Candle>
    requires ValidKeys(gs)
  {
    if |gs| == 0 then []
    else MonthlyRows(symbolId, gs[..|gs| - 1], cutoff) + Option2Seq(MonthCandle(symbolId, gs[|gs| - 1], cutoff))
  }

  /** `month_end(last.replace(day=1) - timedelta(days=1))`. */
  function MonthlyCutoff(last: Date): Date
    requires Valid(last)
  {
    MonthEnd(Prev(FirstOfMonth(last)))
  }

  /** `weekly_df` and `monthly_df` concatenated, for one symbol: empty when
      the symbol has no daily bars, otherwise cut off at the last complete
      Friday and the end of the previous month. */
  function SymbolCandles(symbolId: int, bars: seq<Bar>): seq<Candle>
    requires Sorted(bars)
  {
    if |bars| == 0 then []
    else
      var last := bars[|bars| - 1].date;
      WeeklyRows(symbolId, WeeklyGroups(bars), LastFriday(last))
        + MonthlyRows(symbolId, MonthlyGroups(bars), MonthlyCutoff(last))
  }

  // ---------------------------------------------------------------------
  // What the loops emit

  /** The weekly candle of a Monday bar: dated four days later, carrying
      that bar's prices and volume. */
  function MondayCandle(symbolId: int, b: Bar): Candle
    requires Valid(b.date)
  {
    Candle(symbolId, "1wk", AddDays(b.date, 4), b.open, b.high, b.low, b.close, b.volume)
  }

  /** The weekly cutoff keeps exactly the weeks whose Friday is on or
      before the last bar: `last_friday` is the latest such Friday. */
  lemma WeeklyCutoffExact(k: Date, last: Date)
    requires Valid(k) && Weekday(k) == Monday && Valid(last)
    ensures LessEq(AddDays(k, 4), LastFriday(last)) <==> LessEq(AddDays(k, 4), last)
    ensures !Less(LastFriday(last), AddDays(k, 4)) <==> LessEq(AddDays(k, 4), last)
  {
    var fri := AddDays(k, 4);
    AddDaysWeekday(k, 4);
    LastFridayIsLatestFriday(last);
    var lf := LastFriday(last);
    LessIsOrdinalOrder(fri, lf);
    LessIsOrdinalOrder(lf, fri);
    LessIsOrdinalOrder(lf, last);
    LessIsOrdinalOrder(fri, last);
  }

  /** A week bin yields a candle exactly when its Monday has a bar and its
      Friday is on or before the last bar; the candle is that Monday's bar
      dated on the Friday. Every other day of the bin is dropped. */
  lemma WeekCandleIsMondayBar(symbolId: int, g: Group, last: Date)
    requires Valid(g.key) && Valid(last) && Increasing(g.bars) && |g.bars| > 0
    requires forall j :: 0 <= j < |g.bars| ==> Valid(g.bars[j].date) && WeekKey(g.bars[j].date) == g.key
    ensures var o := WeekCandle(symbolId, g, LastFriday(last));
      var b := g.bars[|g.bars| - 1];
      (o.Some? <==> b.date == g.key && LessEq(AddDays(g.key, 4), last))
      && (o.Some? ==> Weekday(b.date) == Monday && o.value == MondayCandle(symbolId, b))
  {
    var b := g.bars[|g.bars| - 1];
    WeekWindow(g);
    WeeklyCutoffExact(g.key, last);
    if b.date == g.key {
      AggregateSingle(symbolId, "1wk", AddDays(g.key, 4), b);
    }
  }

  /** A week bin is Monday-labelled, and its Monday-to-Friday window holds
      at most its last bar: the one dated on the Monday. */
  lemma WeekWindow(g: Group)
    requires Valid(g.key) && Increasing(g.bars) && |g.bars| > 0
    requires forall j :: 0 <= j < |g.bars| ==> Valid(g.bars[j].date) && WeekKey(g.bars[j].date) == g.key
    ensures Weekday(g.key) == Monday
    ensures var b := g.bars[|g.bars| - 1];
      Between(g.bars, g.key, AddDays(g.key, 4)) == if b.date == g.key then [b] else []
  {
    var fri := AddDays(g.key, 4);
    forall j | 0 <= j < |g.bars|
      ensures LessEq(g.bars[j].date, g.key)
    {
      WeekKeyNotBefore(g.bars[j].date);
    }
    AddDaysOrdinal(g.key, 4);
    LessIsOrdinalOrder(g.key, fri);
    BetweenAtLabel(g.bars, g.key, fri);
    WeekKeyIsBinEnd(g.bars[0].date);
  }

  /** A one-bar group is that bar. */
  lemma AggregateSingle(symbolId: int, timeframe: string, date: Date, b: Bar)
    ensures Aggregate(symbolId, timeframe, date, [b])
      == Candle(symbolId, timeframe, date, b.open, b.high, b.low, b.close, b.volume)
  {
    var v := Volumes([b]);
    assert v[..0] == [];
    assert Sum(v) == Sum(v[..0]) + v[0];
  }

  /** A non-empty week bin of `bars` in date order, labelled by its
      Monday. */
  ghost predicate WeekGroup(g: Group, bars: seq<Bar>) {
    Valid(g.key) && |g.bars| > 0 && Increasing(g.bars)
    && (forall j :: 0 <= j < |g.bars| ==> Valid(g.bars[j].date) && WeekKey(g.bars[j].date) == g.key)
    && g.bars[|g.bars| - 1] in bars
  }

  /** What the grouping guarantees about one weekly group. */
  lemma WeeklyGroupFacts(bars: seq<Bar>, i: nat)
    requires Sorted(bars) && i < |WeeklyGroups(bars)|
    ensures WeekGroup(WeeklyGroups(bars)[i], bars)
  {
    var gs := WeeklyGroups(bars);
    LabelsValid(bars);
    assert gs == Groups(WeekLabel, bars);
    assert Increasing(Flatten(gs));
    GroupsIncreasing(gs);
    FlattenMember(gs, i, |gs[i].bars| - 1);
  }

  /** `weekly_rows` grows by the row of one more group. */
  lemma WeeklyRowsStep(symbolId: int, gs: seq<Group>, n: nat, cutoff: Date)
    requires ValidKeys(gs) && 0 < n <= |gs|
    ensures WeeklyRows(symbolId, gs[..n], cutoff)
      == WeeklyRows(symbolId, gs[..n - 1], cutoff) + Option2Seq(WeekCandle(symbolId, gs[n - 1], cutoff))
  {
    assert gs[..n][..n - 1] == gs[..n - 1];
    assert gs[..n][n - 1] == gs[n - 1];
  }

  /** c is the candle of a Monday bar of `bars` whose Friday is on or
      before `last`. */
  ghost predicate MondayRow(symbolId: int, bars: seq<Bar>, last: Date, c: Candle) {
    exists b :: b in bars && Valid(b.date) && Weekday(b.date) == Monday
      && LessEq(AddDays(b.date, 4), last) && c == MondayCandle(symbolId, b)
  }

  /** The row of one weekly group, if any, is a Monday row: the group's
      last bar, when it falls on the label. */
  lemma WeekRowOfGroup(symbolId: int, g: Group, bars: seq<Bar>, last: Date)
    requires WeekGroup(g, bars) && Valid(last)
    ensures var o := WeekCandle(symbolId, g, LastFriday(last));
      o.Some? ==> MondayRow(symbolId, bars, last, o.value)
  {
    WeekCandleIsMondayBar(symbolId, g, last);
    var o := WeekCandle(symbolId, g, LastFriday(last));
    if o.Some? {
      var b := g.bars[|g.bars| - 1];
      assert b in bars && Valid(b.date) && Weekday(b.date) == Monday;
      assert LessEq(AddDays(b.date, 4), last) && o.value == MondayCandle(symbolId, b);
    }
  }

  /** Every weekly candle is the bar of a Monday whose Friday is on or
      before the last daily bar, dated on that Friday. */
  lemma WeeklyRowsAreMondayBars(symbolId: int, bars: seq<Bar>, n: nat)
    requires Sorted(bars) && |bars| > 0 && n <= |WeeklyGroups(bars)|
    ensures var last := bars[|bars| - 1].date;
      forall c :: c in WeeklyRows(symbolId, WeeklyGroups(bars)[..n], LastFriday(last)) ==>
        MondayRow(symbolId, bars, last, c)
  {
    var gs := WeeklyGroups(bars);
    forall i | 0 <= i < |gs|
      ensures WeekGroup(gs[i], bars)
    {
      WeeklyGroupFacts(bars, i);
    }
    WeeklyRowsOfGroups(symbolId, gs, bars, bars[|bars| - 1].date, n);
  }

  /** The rows of the first n week bins of `bars` are Monday rows. */
  lemma {:induction false} WeeklyRowsOfGroups(symbolId: int, gs: seq<Group>, bars: seq<Bar>, last: Date, n: nat)
    requires Valid(last) && ValidKeys(gs) && n <= |gs|
    requires forall i :: 0 <= i < |gs| ==> WeekGroup(gs[i], bars)
    ensures forall c :: c in WeeklyRows(symbolId, gs[..n], LastFriday(last)) ==> MondayRow(symbolId, bars, last, c)
  {
    if n > 0 {
      WeeklyRowsOfGroups(symbolId, gs, bars, last, n - 1);
      WeeklyRowsStep(symbolId, gs, n, LastFriday(last));
      WeekRowOfGroup(symbolId, gs[n - 1], bars, last);
    }
  }

  /** The monthly cutoff keeps exactly the months before the last bar's
      month: the current month is never emitted. */
  lemma MonthlyCutoffExact(k: Date, last: Date)
    requires Valid(k) && Valid(last)
    ensures LessEq(MonthEnd(k), MonthlyCutoff(last)) <==> Less(FirstOfMonth(k), FirstOfMonth(last))
  {
    MonthEndIsLastDay(k);
    MonthEndIsLastDay(Prev(FirstOfMonth(last)));
  }

  /** `monthly_rows` grows by the row of one more group. */
  lemma MonthlyRowsStep(symbolId: int, gs: seq<Group>, n: nat, cutoff: Date)
    requires ValidKeys(gs) && 0 < n <= |gs|
    ensures MonthlyRows(symbolId, gs[..n], cutoff)
      == MonthlyRows(symbolId, gs[..n - 1], cutoff) + Option2Seq(MonthCandle(symbolId, gs[n - 1], cutoff))
  {
    assert gs[..n][..n - 1] == gs[..n - 1];
    assert gs[..n][n - 1] == gs[n - 1];
  }

  /** A non-empty month bin, labelled by the first of its month. */
  ghost predicate MonthGroup(g: Group) {
    Valid(g.key) && |g.bars| > 0 && Valid(g.bars[0].date) && FirstOfMonth(g.bars[0].date) == g.key
  }

  /** What the grouping guarantees about one monthly group. */
  lemma MonthlyGroupFacts(bars: seq<Bar>, i: nat)
    requires Sorted(bars) && i < |MonthlyGroups(bars)|
    ensures MonthGroup(MonthlyGroups(bars)[i])
  {
    var g := MonthlyGroups(bars)[i];
    var j := 0;
    assert FirstOfMonth(g.bars[j].date) == g.key;
  }

  /** c is the candle of the month bin g, a month that ended before the
      month of `last` began. */
  ghost predicate ClosesMonth(symbolId: int, g: Group, last: Date, c: Candle) {
    Valid(g.key) && Valid(last) && |g.bars| > 0 && Less(g.key, FirstOfMonth(last))
    && c == Aggregate(symbolId, "1mo", MonthEnd(g.key), g.bars)
  }

  /** The row of one monthly group, if any, closes a month before the last
      bar's month. */
  lemma MonthRowOfGroup(symbolId: int, g: Group, last: Date)
    requires MonthGroup(g) && Valid(last)
    ensures var o := MonthCandle(symbolId, g, MonthlyCutoff(last));
      o.Some? ==> ClosesMonth(symbolId, g, last, o.value)
  {
    MonthlyCutoffExact(g.key, last);
  }

  /** Every monthly candle closes a month that ended before the last bar's
      month began, is dated on that month's last day, and summarises the
      bars of one group of that month. */
  lemma MonthlyRowsAreCompleteMonths(symbolId: int, bars: seq<Bar>, n: nat)
    requires Sorted(bars) && |bars| > 0 && n <= |MonthlyGroups(bars)|
    ensures var gs := MonthlyGroups(bars);
      var last := bars[|bars| - 1].date;
      forall c :: c in MonthlyRows(symbolId, gs[..n], MonthlyCutoff(last)) ==>
        exists i :: 0 <= i < n && Less(gs[i].key, FirstOfMonth(last))
          && c == Aggregate(symbolId, "1mo", MonthEnd(gs[i].key), gs[i].bars)
  {
    var gs := MonthlyGroups(bars);
    forall i | 0 <= i < |gs|
      ensures MonthGroup(gs[i])
    {
      MonthlyGroupFacts(bars, i);
    }
    MonthlyRowsOfGroups(symbolId, gs, bars[|bars| - 1].date, n);
  }

  /** The rows of the first n month bins close months before `last`'s. */
  lemma {:induction false} MonthlyRowsOfGroups(symbolId: int, gs: seq<Group>, last: Date, n: nat)
    requires Valid(last) && ValidKeys(gs) && n <= |gs|
    requires forall i :: 0 <= i < |gs| ==> MonthGroup(gs[i])
    ensures forall c :: c in MonthlyRows(symbolId, gs[..n], MonthlyCutoff(last)) ==>
      exists i :: 0 <= i < n && ClosesMonth(symbolId, gs[i], last, c)
  {
    if n > 0 {
      MonthlyRowsOfGroups(symbolId, gs, last, n - 1);
      MonthlyRowsStep(symbolId, gs, n, MonthlyCutoff(last));
      MonthRowOfGroup(symbolId, gs[n - 1], last);
      ClosedRowsStep(symbolId, gs, last, n, MonthlyRows(symbolId, gs[..n], MonthlyCutoff(last)),
                     MonthlyRows(symbolId, gs[..n - 1], MonthlyCutoff(last)),
                     MonthCandle(symbolId, gs[n - 1], MonthlyCutoff(last)));
    }
  }

  /** Rows that close one of the first n - 1 month bins, followed by a row
      that closes bin n - 1, close one of the first n. */
  lemma ClosedRowsStep(symbolId: int, gs: seq<Group>, last: Date, n: nat,
                       rows: seq<Candle>, prev: seq<Candle>, o: Option<Candle>)
    requires 0 < n <= |gs| && rows == prev + Option2Seq(o)
    requires forall c :: c in prev ==> exists i :: 0 <= i < n - 1 && ClosesMonth(symbolId, gs[i], last, c)
    requires o.Some? ==> ClosesMonth(symbolId, gs[n - 1], last, o.value)
    ensures forall c :: c in rows ==> exists i :: 0 <= i < n && ClosesMonth(symbolId, gs[i], last, c)
  {
    forall c | c in rows
      ensures exists i :: 0 <= i < n && ClosesMonth(symbolId, gs[i], last, c)
    {
      if c in prev {
        var i :| 0 <= i < n - 1 && ClosesMonth(symbolId, gs[i], last, c);
        assert 0 <= i < n;
      } else {
        assert ClosesMonth(symbolId, gs[n - 1], last, c);
      }
    }
  }

  /** A month label is a first of month, and its candle's date is the last
      day of that same month. */
  lemma MonthCandleDate(symbolId: int, g: Group, cutoff: Date)
    requires Valid(g.key)
    ensures var o := MonthCandle(symbolId, g, cutoff);
      o.Some? ==> (o.value.date.year == g.key.year && o.value.date.month == g.key.month
                   && Valid(o.value.date) && Next(o.value.date).day == 1)
  {
    MonthEndIsLastDay(g.key);
  }

  // ---------------------------------------------------------------------
  // Appending to the price table

  /** The primary key of `equity_price_data`. */
  datatype PriceKey = PriceKey(symbolId: int, timeframe: string, date: Date)

  function KeyOf(c: Candle): PriceKey {
    PriceKey(c.symbolId, c.timeframe, c.date)
  }

  type PriceTable = map<PriceKey, Candle>

  /** Plain `INSERT`s in order: None as soon as a candle's key is already
      stored (by the table or by an earlier candle). */
  function AppendAll(t: PriceTable, cs: seq<Candle>): Option<PriceTable>
    decreases |cs|
  {
    if |cs| == 0 then Some(t)
    else
      var prev := AppendAll(t, cs[..|cs| - 1]);
      var c := cs[|cs| - 1];
      if prev.None? || KeyOf(c) in prev.value then None
      else Some(prev.value[KeyOf(c) := c])
  }

  /** A successful append adds exactly the candles, each under its own
      key, none of which was stored before, and keeps every stored row. */
  lemma {:induction false} AppendAllContents(t: PriceTable, cs: seq<Candle>)
    requires AppendAll(t, cs).Some?
    ensures var t' := AppendAll(t, cs).value;
      (forall k :: k in t' <==> k in t || exists c :: c in cs && KeyOf(c) == k)
      && (forall k :: k in t ==> t'[k] == t[k])
      && (forall c :: c in cs ==> KeyOf(c) !in t && t'[KeyOf(c)] == c)
    decreases |cs|
  {
    if |cs| > 0 {
      var init := cs[..|cs| - 1];
      AppendAllContents(t, init);
      assert forall c :: c in cs <==> c in init || c == cs[|cs| - 1];
    }
  }

  /** Appending the same candles twice fails: the second run meets the
      keys the first one stored. */
  lemma AppendAllRerunFails(t: PriceTable, cs: seq<Candle>)
    requires AppendAll(t, cs).Some? && |cs| > 0
    ensures AppendAll(AppendAll(t, cs).value, cs).None?
  {
    var t' := AppendAll(t, cs).value;
    AppendAllContents(t, cs);
    if AppendAll(t', cs).Some? {
      AppendAllContents(t', cs);
      assert false;
    }
  }

  /** Appending two batches in turn is appending their concatenation. */
  lemma {:induction false} AppendAllConcat(t: PriceTable, a: seq<Candle>, b: seq<Candle>)
    ensures AppendAll(t, a + b)
      == if AppendAll(t, a).None? then None else AppendAll(AppendAll(t, a).value, b)
    decreases |b|
  {
    if |b| == 0 {
      assert a + b == a;
    } else {
      assert (a + b)[..|a + b| - 1] == a + b[..|b| - 1];
      AppendAllConcat(t, a, b[..|b| - 1]);
      if AppendAll(t, a).None? {
        NoneStaysNone(t, a, b);
      }
    }
  }

  /** Once a prefix has failed, any longer batch fails. */
  lemma {:induction false} NoneStaysNone(t: PriceTable, a: seq<Candle>, b: seq<Candle>)
    requires AppendAll(t, a).None?
    ensures AppendAll(t, a + b).None?
    decreases |b|
  {
    if |b| == 0 {
      assert a + b == a;
    } else {
      assert (a + b)[..|a + b| - 1] == a + b[..|b| - 1];
      NoneStaysNone(t, a, b[..|b| - 1]);
    }
  }

  /** The candles of a run, symbol by symbol; a symbol without daily bars
      contributes nothing. */
  function RunCandles(symbols: seq<int>, daily: map<int, seq<Bar>>): seq<Candle>
    requires forall s :: s in daily ==> Sorted(daily[s])
  {
    if |symbols| == 0 then []
    else
      var s := symbols[|symbols| - 1];
      RunCandles(symbols[..|symbols| - 1], daily) + (if s in daily then SymbolCandles(s, daily[s]) else [])
  }

  /** The candles of the first n symbols start the candles of the run. */
  lemma {:induction false} RunCandlesPrefix(symbols: seq<int>, daily: map<int, seq<Bar>>, n: nat)
    requires forall s :: s in daily ==> Sorted(daily[s])
    requires n <= |symbols|
    ensures var p := RunCandles(symbols[..n], daily);
      |p| <= |RunCandles(symbols, daily)| && RunCandles(symbols, daily)[..|p|] == p
    decreases |symbols| - n
  {
    if n == |symbols| {
      assert symbols[..n] == symbols;
    } else {
      var init := symbols[..|symbols| - 1];
      assert init[..n] == symbols[..n];
      RunCandlesPrefix(init, daily, n);
    }
  }

  /** One more symbol appends its candles to those of the symbols before
      it. */
  lemma RunCandlesStep(symbols: seq<int>, daily: map<int, seq<Bar>>, i: nat)
    requires forall s :: s in daily ==> Sorted(daily[s])
    requires i < |symbols|
    ensures RunCandles(symbols[..i + 1], daily) == RunCandles(symbols[..i], daily)
      + (if symbols[i] in daily then SymbolCandles(symbols[i], daily[symbols[i]]) else [])
  {
    assert symbols[..i + 1][..i] == symbols[..i];
  }

  /** What the table holds after the appends of a run, and whether every
      append went through. Each symbol's `to_sql` commits on its own, so a
      key conflict rolls back only that symbol's insert and stops the run. */
  datatype RunState = RunState(rows: PriceTable, ok: bool)

  function RunStore(t: PriceTable, symbols: seq<int>, daily: map<int, seq<Bar>>): RunState
    requires forall s :: s in daily ==> Sorted(daily[s])
  {
    if |symbols| == 0 then RunState(t, true)
    else
      var p := RunStore(t, symbols[..|symbols| - 1], daily);
      var s := symbols[|symbols| - 1];
      var r := AppendAll(p.rows, if s in daily then SymbolCandles(s, daily[s]) else []);
      if !p.ok then p
      else if r.None? then RunState(p.rows, false)
      else RunState(r.value, true)
  }

  /** A run goes through exactly when appending all its candles at once
      would, and then stores the same table. */
  lemma {:induction false} RunStoreCommitted(t: PriceTable, symbols: seq<int>, daily: map<int, seq<Bar>>)
    requires forall s :: s in daily ==> Sorted(daily[s])
    ensures RunStore(t, symbols, daily).ok <==> AppendAll(t, RunCandles(symbols, daily)).Some?
    ensures RunStore(t, symbols, daily).ok ==> RunStore(t, symbols, daily).rows == AppendAll(t, RunCandles(symbols, daily)).value
    decreases |symbols|
  {
    if |symbols| > 0 {
      var init := symbols[..|symbols| - 1];
      var s := symbols[|symbols| - 1];
      RunStoreCommitted(t, init, daily);
      AppendAllConcat(t, RunCandles(init, daily), if s in daily then SymbolCandles(s, daily[s]) else []);
    }
  }

  /** The symbols before the n-th appended their candles to t, giving
      rows, and the n-th symbol's candles then met a stored key. */
  ghost predicate StoppedAt(t: PriceTable, symbols: seq<int>, daily: map<int, seq<Bar>>, n: nat, rows: PriceTable)
    requires forall s :: s in daily ==> Sorted(daily[s])
    requires n < |symbols|
  {
    && AppendAll(t, RunCandles(symbols[..n], daily)) == Some(rows)
    && AppendAll(t, RunCandles(symbols[..n + 1], daily)).None?
  }

  /** A run that stops at the n-th symbol keeps what the symbols before
      it stored: the table is the old one with their candles appended,
      and appending the n-th symbol's candles as well fails. */
  lemma RunStoreKeepsEarlier(t: PriceTable, symbols: seq<int>, daily: map<int, seq<Bar>>, n: nat)
    requires forall s :: s in daily ==> Sorted(daily[s])
    requires n < |symbols|
    requires StopsAt(t, symbols, daily, n)
    ensures StoppedAt(t, symbols, daily, n, RunStore(t, symbols, daily).rows)
  {
    RunStoreStops(t, symbols, daily, n + 1);
    RunStoreStep(t, symbols, daily, n);
    RunStoreCommitted(t, symbols[..n], daily);
    RunStoreCommitted(t, symbols[..n + 1], daily);
  }

  /** The run is still going after n symbols and stops at the n-th. */
  ghost predicate StopsAt(t: PriceTable, symbols: seq<int>, daily: map<int, seq<Bar>>, n: nat)
    requires forall s :: s in daily ==> Sorted(daily[s])
    requires n < |symbols|
  {
    RunStore(t, symbols[..n], daily).ok && !RunStore(t, symbols[..n + 1], daily).ok
  }

  /** A run that fails stops at some symbol. */
  lemma {:induction false} RunStoreStopsSomewhere(t: PriceTable, symbols: seq<int>, daily: map<int, seq<Bar>>)
    requires forall s :: s in daily ==> Sorted(daily[s])
    requires !RunStore(t, symbols, daily).ok
    ensures exists n :: 0 <= n < |symbols| && StopsAt(t, symbols, daily, n)
    decreases |symbols|
  {
    var init := symbols[..|symbols| - 1];
    if !RunStore(t, init, daily).ok {
      RunStoreStopsSomewhere(t, init, daily);
      var n :| 0 <= n < |init| && StopsAt(t, init, daily, n);
      StopsAtInit(t, symbols, daily, n);
    } else {
      StopsAtLast(t, symbols, daily);
    }
  }

  lemma StopsAtInit(t: PriceTable, symbols: seq<int>, daily: map<int, seq<Bar>>, n: nat)
    requires forall s :: s in daily ==> Sorted(daily[s])
    requires n + 1 < |symbols| && StopsAt(t, symbols[..|symbols| - 1], daily, n)
    ensures StopsAt(t, symbols, daily, n)
  {
    var init := symbols[..|symbols| - 1];
    assert init[..n] == symbols[..n] && init[..n + 1] == symbols[..n + 1];
  }

  lemma StopsAtLast(t: PriceTable, symbols: seq<int>, daily: map<int, seq<Bar>>)
    requires forall s :: s in daily ==> Sorted(daily[s])
    requires |symbols| > 0 && RunStore(t, symbols[..|symbols| - 1], daily).ok && !RunStore(t, symbols, daily).ok
    ensures StopsAt(t, symbols, daily, |symbols| - 1)
  {
    TakeWhole(symbols, |symbols| - 1);
  }

  lemma TakeWhole(xs: seq<int>, n: nat)
    requires n + 1 == |xs|
    ensures xs[..n + 1] == xs
  {
  }

  /** One more symbol, while the run is still going: its candles are
      appended, or the run stops with the table as it was. */
  lemma RunStoreStep(t: PriceTable, symbols: seq<int>, daily: map<int, seq<Bar>>, i: nat)
    requires forall s :: s in daily ==> Sorted(daily[s])
    requires i < |symbols| && RunStore(t, symbols[..i], daily).ok
    ensures var p := RunStore(t, symbols[..i], daily).rows;
      var r := AppendAll(p, if symbols[i] in daily then SymbolCandles(symbols[i], daily[symbols[i]]) else []);
      RunStore(t, symbols[..i + 1], daily) == if r.None? then RunState(p, false) else RunState(r.value, true)
  {
    assert symbols[..i + 1][..i] == symbols[..i];
  }

  /** Once the run has stopped, the remaining symbols change nothing. */
  lemma {:induction false} RunStoreStops(t: PriceTable, symbols: seq<int>, daily: map<int, seq<Bar>>, n: nat)
    requires forall s :: s in daily ==> Sorted(daily[s])
    requires n <= |symbols| && !RunStore(t, symbols[..n], daily).ok
    ensures RunStore(t, symbols, daily) == RunStore(t, symbols[..n], daily)
    decreases |symbols| - n
  {
    if n == |symbols| {
      assert symbols[..n] == symbols;
    } else {
      var init := symbols[..|symbols| - 1];
      assert init[..n] == symbols[..n];
      RunStoreStops(t, init, daily, n);
    }
  }

  datatype RunOutcome = NoSymbols | Committed | Raised

  /** `equity_price_data`, appended to in place. */
  class PriceStore {
    var rows: PriceTable

    constructor (initial: PriceTable)
      ensures rows == initial
    {
      rows := initial;
    }

    /** `final_df.to_sql(..., if_exists="append")`: the candles are
        inserted one by one; a key conflict raises and leaves the table as
        it was before this call. */
    method Append(candles: seq<Candle>) returns (ok: bool)
      modifies this
      ensures ok <==> AppendAll(old(rows), candles).Some?
      ensures rows == if ok then AppendAll(old(rows), candles).value else old(rows)
    {
      var staged := rows;
      var i := 0;
      while i < |candles|
        invariant 0 <= i <= |candles| && rows == old(rows)
        invariant AppendAll(rows, candles[..i]) == Some(staged)
      {
        assert candles[..i + 1][..i] == candles[..i];
        var c := candles[i];
        if KeyOf(c) in staged {
          assert AppendAll(rows, candles[..i + 1]).None?;
          NoneStaysNone(rows, candles[..i + 1], candles[i + 1..]);
          assert candles[..i + 1] + candles[i + 1..] == candles;
          return false;
        }
        staged := staged[KeyOf(c) := c];
        i := i + 1;
      }
      assert candles[..i] == candles;
      rows := staged;
      return true;
    }
  }

  /** The weekly loop: one `append` per group that yields a candle. */
  method CollectWeekly(symbolId: int, gs: seq<Group>, cutoff: Date) returns (rows: seq<Candle>)
    requires ValidKeys(gs)
    ensures rows == WeeklyRows(symbolId, gs, cutoff)
  {
    rows := [];
    for i := 0 to |gs|
      invariant rows == WeeklyRows(symbolId, gs[..i], cutoff)
    {
      assert gs[..i + 1][..i] == gs[..i];
      var o := WeekCandle(symbolId, gs[i], cutoff);
      if o.Some? {
        rows := rows + [o.value];
      }
    }
    assert gs[..|gs|] == gs;
  }

  /** The monthly loop: one `append` per group that yields a candle. */
  method CollectMonthly(symbolId: int, gs: seq<Group>, cutoff: Date) returns (rows: seq<Candle>)
    requires ValidKeys(gs)
    ensures rows == MonthlyRows(symbolId, gs, cutoff)
  {
    rows := [];
    for i := 0 to |gs|
      invariant rows == MonthlyRows(symbolId, gs[..i], cutoff)
    {
      assert gs[..i + 1][..i] == gs[..i];
      var o := MonthCandle(symbolId, gs[i], cutoff);
      if o.Some? {
        rows := rows + [o.value];
      }
    }
    assert gs[..|gs|] == gs;
  }

  /** One symbol's pass: the cutoffs from its last daily bar, then the
      weekly and the monthly loop. */
  method SymbolRows(symbolId: int, bars: seq<Bar>) returns (rows: seq<Candle>)
    requires Sorted(bars)
    ensures rows == SymbolCandles(symbolId, bars)
  {
    if |bars| == 0 {
      return [];
    }
    var last := bars[|bars| - 1].date;
    var weekly := CollectWeekly(symbolId, WeeklyGroups(bars), LastFriday(last));
    var monthly := CollectMonthly(symbolId, MonthlyGroups(bars), MonthlyCutoff(last));
    rows := weekly + monthly;
  }

  /** `generate_weekly_monthly_from_daily`: nothing happens without
      symbols; otherwise each symbol's candles are appended in turn, each
      append committing on its own, and the first key conflict rolls back
      that symbol's insert and is re-raised. */
  method GenerateWeeklyMonthly(store: PriceStore, symbols: seq<int>, daily: map<int, seq<Bar>>)
      returns (outcome: RunOutcome)
    requires forall s :: s in daily ==> Sorted(daily[s])
    modifies store
    ensures |symbols| == 0 ==> outcome == NoSymbols && store.rows == old(store.rows)
    ensures |symbols| > 0 ==>
      var r := RunStore(old(store.rows), symbols, daily);
      store.rows == r.rows && outcome == (if r.ok then Committed else Raised)
  {
    if |symbols| == 0 {
      return NoSymbols;
    }
    ghost var start := store.rows;
    for i := 0 to |symbols|
      invariant RunStore(start, symbols[..i], daily).ok
      invariant store.rows == RunStore(start, symbols[..i], daily).rows
    {
      RunStoreStep(start, symbols, daily, i);
      var s := symbols[i];
      var candles: seq<Candle> := [];
      if s in daily {
        candles := SymbolRows(s, daily[s]);
      }
      if |candles| > 0 {
        var ok := store.Append(candles);
        if !ok {
          RunStoreStops(start, symbols, daily, i + 1);
          return Raised;
        }
      }
    }
    assert symbols[..|symbols|] == symbols;
    return Committed;
  }
}
