/** The NSE security-wise history download: each symbol's history is asked
    for in chunks of at most one year, from its listing date to today; each
    chunk's file and URL are named after the symbol and the chunk's two
    dates; a saved file is valid when its header names the symbol, series
    and date columns. */
module DownloadHistoric {
  import opened Base
  import opened Calendar
  import opened Text

  // ---------------------------------------------------------------------
  // Yearly chunks

  /** A request for the days from `first` to `last`, both included. */
  datatype Chunk = Chunk(first: Date, last: Date)

  /** `start + relativedelta(years=1) - timedelta(days=1)`, cut back to
      today when it is later. */
  function ChunkEnd(start: Date, today: Date): (e: Date)
    requires Valid(start) && Valid(today) && !Less(today, start)
    ensures Valid(e) && LessEq(start, e) && LessEq(e, today)
  {
    var e := Prev(AddYear(start));
    ChunkEndSpan(start, today);
    if Less(today, e) then today else e
  }

  /** A chunk ends before the same day a year on, at most 365 days after
      its start, and on the day before it or on today. */
  lemma ChunkEndSpan(start: Date, today: Date)
    requires Valid(start) && Valid(today) && !Less(today, start)
    ensures var e := Prev(AddYear(start));
      var end := if Less(today, e) then today else e;
      LessEq(start, end) && LessEq(end, today) && Less(end, AddYear(start))
      && Ordinal(end) - Ordinal(start) <= 365
  {
    var e := Prev(AddYear(start));
    AddYearBounds(start);
    PrevOrdinal(AddYear(start));
    LessIsOrdinalOrder(today, start);
    LessIsOrdinalOrder(start, today);
    LessIsOrdinalOrder(today, e);
    LessIsOrdinalOrder(start, e);
    LessIsOrdinalOrder(e, AddYear(start));
    LessIsOrdinalOrder(today, AddYear(start));
  }

  /** The chunks `download_symbol` asks for, from start while start is not
      after today. */
  function Chunks(start: Date, today: Date): (r: seq<Chunk>)
    requires Valid(start) && Valid(today)
    ensures Less(today, start) <==> |r| == 0
    ensures forall i :: 0 <= i < |r| ==> Valid(r[i].first) && Valid(r[i].last)
    ensures forall i :: 0 <= i < |r| ==> start.year <= r[i].first.year
    decreases Ordinal(today) - Ordinal(start) + 1
  {
    if Less(today, start) then []
    else
      var e := ChunkEnd(start, today);
      NextOrdinal(e);
      LessIsOrdinalOrder(today, start);
      LessIsOrdinalOrder(start, e);
      [Chunk(start, e)] + Chunks(Next(e), today)
  }

  /** The chunks tile the days from start to today: the first starts on
      start, each next one starts the day after the previous one ends, the
      last ends today, and none spans a year. */
  lemma {:induction false} ChunksTile(start: Date, today: Date)
    requires Valid(start) && Valid(today) && !Less(today, start)
    ensures var r := Chunks(start, today);
      |r| >= 1 && r[0].first == start && r[|r| - 1].last == today
      && (forall i :: 0 <= i < |r| ==>
            LessEq(r[i].first, r[i].last) && Less(r[i].last, AddYear(r[i].first)))
      && (forall i :: 0 <= i < |r| - 1 ==> r[i + 1].first == Next(r[i].last))
    decreases |Chunks(start, today)|
  {
    var e := ChunkEnd(start, today);
    ChunksStep(start, today);
    ChunkEndSpan(start, today);
    NextIsNextDay(e);
    if Less(today, Next(e)) {
      assert e == today;
    } else {
      ChunksTile(Next(e), today);
    }
    TileStep(start, e, today, Chunks(Next(e), today));
  }

  /** A first chunk that ends the day before the rest starts, or today
      when there is no rest, extends the tiling. */
  lemma TileStep(start: Date, e: Date, today: Date, rest: seq<Chunk>)
    requires Valid(start) && Valid(e) && LessEq(start, e) && Less(e, AddYear(start))
    requires forall i :: 0 <= i < |rest| ==> Valid(rest[i].first) && Valid(rest[i].last)
    requires |rest| == 0 ==> e == today
    requires |rest| > 0 ==>
      rest[0].first == Next(e) && rest[|rest| - 1].last == today
      && (forall i :: 0 <= i < |rest| ==>
            LessEq(rest[i].first, rest[i].last) && Less(rest[i].last, AddYear(rest[i].first)))
      && (forall i :: 0 <= i < |rest| - 1 ==> rest[i + 1].first == Next(rest[i].last))
    ensures var r := [Chunk(start, e)] + rest;
      (forall i :: 0 <= i < |r| ==> Valid(r[i].first) && Valid(r[i].last))
      && |r| >= 1 && r[0].first == start && r[|r| - 1].last == today
      && (forall i :: 0 <= i < |r| ==>
            LessEq(r[i].first, r[i].last) && Less(r[i].last, AddYear(r[i].first)))
      && (forall i :: 0 <= i < |r| - 1 ==> r[i + 1].first == Next(r[i].last))
  {
    var r := [Chunk(start, e)] + rest;
    forall i | 0 < i < |r|
      ensures r[i] == rest[i - 1]
    {
    }
  }

  /** A chunk inside the days from lo to hi. */
  predicate Inside(c: Chunk, lo: Date, hi: Date) {
    LessEq(lo, c.first) && LessEq(c.last, hi)
  }

  predicate AllInside(r: seq<Chunk>, lo: Date, hi: Date) {
    forall i :: 0 <= i < |r| ==> Inside(r[i], lo, hi)
  }

  /** Each chunk ends before any later one starts. */
  predicate InOrder(r: seq<Chunk>) {
    forall i, j :: 0 <= i < j < |r| ==> Less(r[i].last, r[j].first)
  }

  /** Every chunk lies between start and today. */
  lemma {:induction false} ChunksWithin(start: Date, today: Date)
    requires Valid(start) && Valid(today)
    ensures AllInside(Chunks(start, today), start, today)
    decreases |Chunks(start, today)|
  {
    if !Less(today, start) {
      var e := ChunkEnd(start, today);
      NextLater(e);
      ChunksWithin(Next(e), today);
      WithinStep(start, e, Next(e), today, Chunks(Next(e), today));
    }
  }

  lemma WithinStep(start: Date, e: Date, next: Date, today: Date, rest: seq<Chunk>)
    requires LessEq(start, e) && LessEq(e, today) && Less(e, next)
    requires AllInside(rest, next, today)
    ensures AllInside([Chunk(start, e)] + rest, start, today)
  {
    var r := [Chunk(start, e)] + rest;
    forall i | 0 <= i < |r|
      ensures Inside(r[i], start, today)
    {
      if i > 0 {
        assert r[i] == rest[i - 1];
        LessEqTrans(start, e, next);
        LessEqTrans(start, next, rest[i - 1].first);
      }
    }
  }

  lemma NextLater(d: Date)
    requires Valid(d)
    ensures Less(d, Next(d))
  {
  }

  lemma LessEqTrans(a: Date, b: Date, c: Date)
    requires LessEq(a, b) && LessEq(b, c)
    ensures LessEq(a, c)
    ensures Less(a, b) || Less(b, c) ==> Less(a, c)
  {
  }

  /** The chunks follow one another. */
  lemma {:induction false} ChunksOrdered(start: Date, today: Date)
    requires Valid(start) && Valid(today)
    ensures InOrder(Chunks(start, today))
    decreases |Chunks(start, today)|
  {
    if !Less(today, start) {
      var e := ChunkEnd(start, today);
      NextLater(e);
      ChunksOrdered(Next(e), today);
      ChunksWithin(Next(e), today);
      OrderedStep(start, e, Next(e), today, Chunks(Next(e), today));
    }
  }

  lemma OrderedStep(start: Date, e: Date, next: Date, today: Date, rest: seq<Chunk>)
    requires Less(e, next)
    requires AllInside(rest, next, today) && InOrder(rest)
    ensures InOrder([Chunk(start, e)] + rest)
  {
    var r := [Chunk(start, e)] + rest;
    forall i, j | 0 <= i < j < |r|
      ensures Less(r[i].last, r[j].first)
    {
      assert r[j] == rest[j - 1];
      if i > 0 {
        assert r[i] == rest[i - 1];
      } else {
        LessEqTrans(e, next, rest[j - 1].first);
      }
    }
  }

  /** Every day from start to today falls in a chunk: the i-th. */
  lemma {:induction false} ChunksCover(start: Date, today: Date, d: Date) returns (i: nat)
    requires Valid(start) && Valid(today) && Valid(d)
    requires LessEq(start, d) && LessEq(d, today)
    ensures var r := Chunks(start, today);
      i < |r| && LessEq(r[i].first, d) && LessEq(d, r[i].last)
    decreases |Chunks(start, today)|
  {
    var e := ChunkEnd(start, today);
    var r := Chunks(start, today);
    var rest := Chunks(Next(e), today);
    assert r == [Chunk(start, e)] + rest;
    NextIsNextDay(e);
    if LessEq(d, e) {
      i := 0;
    } else {
      var k := ChunksCover(Next(e), today, d);
      assert r[k + 1] == rest[k];
      i := k + 1;
    }
  }

  /** ... and in only one. */
  lemma ChunksUnique(start: Date, today: Date, d: Date, i: nat, j: nat)
    requires Valid(start) && Valid(today) && Valid(d)
    requires var r := Chunks(start, today);
      i < |r| && j < |r|
      && LessEq(r[i].first, d) && LessEq(d, r[i].last)
      && LessEq(r[j].first, d) && LessEq(d, r[j].last)
    ensures i == j
  {
    ChunksOrdered(start, today);
  }

  // ---------------------------------------------------------------------
  // File name and URL

  /** `{symbol}_{from}_{to}.csv` with both dates as dd-mm-YYYY. */
  function FileName(symbol: string, c: Chunk): string
    requires Valid(c.first) && Valid(c.last) && 0 <= c.first.year && 0 <= c.last.year
  {
    symbol + "_" + DdMmYyyyDashed(c.first) + "_" + DdMmYyyyDashed(c.last) + ".csv"
  }

  lemma DashedHasNoSeparators(d: Date)
    requires Valid(d) && 0 <= d.year
    ensures var s := DdMmYyyyDashed(d); '_' !in s && '&' !in s
  {
    var s := DdMmYyyyDashed(d);
    PadDigits(d.day, 2);
    PadDigits(d.month, 2);
    PadDigits(d.year, 4);
    forall i | 0 <= i < |s|
      ensures s[i] != '_' && s[i] != '&'
    {
      assert IsDigit(s[i]) || s[i] == '-';
    }
  }

  /** Whatever the symbol holds, the last two `_` pieces of the file name
      are the chunk's two dates. */
  lemma FileNameDates(symbol: string, c: Chunk)
    requires Valid(c.first) && Valid(c.last) && 0 <= c.first.year && 0 <= c.last.year
    ensures Split(FileName(symbol, c), '_') ==
      Split(symbol, '_') + [DdMmYyyyDashed(c.first), DdMmYyyyDashed(c.last) + ".csv"]
  {
    var a := DdMmYyyyDashed(c.first);
    var b := DdMmYyyyDashed(c.last) + ".csv";
    DashedHasNoSeparators(c.first);
    DashedHasNoSeparators(c.last);
    assert '_' !in b;
    assert FileName(symbol, c) == (symbol + ['_'] + a) + ['_'] + b;
    SplitConcat(symbol + ['_'] + a, b, '_');
    SplitConcat(symbol, a, '_');
    SplitNone(a, '_');
    SplitNone(b, '_');
  }

  /** Python's always-safe URL characters. */
  predicate AlwaysSafe(c: char) {
    ('A' <= c <= 'Z') || ('a' <= c <= 'z') || ('0' <= c <= '9') || c == '_' || c == '.' || c == '-' || c == '~'
  }

  function HexDigit(n: int): char
    requires 0 <= n < 16
  {
    if n < 10 then ('0' as int + n) as char else ('A' as int + n - 10) as char
  }

  /** The UTF-8 bytes of a character. */
  function Utf8(c: char): (r: seq<int>)
    ensures 1 <= |r| <= 4 && forall i :: 0 <= i < |r| ==> 0 <= r[i] < 256
  {
    var n := c as int;
    if n < 0x80 then [n]
    else if n < 0x800 then [0xC0 + n / 64, 0x80 + n % 64]
    else if n < 0x10000 then [0xE0 + n / 4096, 0x80 + (n / 64) % 64, 0x80 + n % 64]
    else [0xF0 + (n / 262144) % 8, 0x80 + (n / 4096) % 64, 0x80 + (n / 64) % 64, 0x80 + n % 64]
  }

  function PercentBytes(bs: seq<int>): (r: string)
    requires forall i :: 0 <= i < |bs| ==> 0 <= bs[i] < 256
    ensures |r| == 3 * |bs|
    ensures forall i :: 0 <= i < |r| ==> r[i] == '%' || AlwaysSafe(r[i])
  {
    if |bs| == 0 then []
    else ['%', HexDigit(bs[0] / 16), HexDigit(bs[0] % 16)] + PercentBytes(bs[1..])
  }

  function QuoteChar(c: char): (r: string)
    ensures forall i :: 0 <= i < |r| ==> r[i] == '%' || r[i] == '+' || AlwaysSafe(r[i])
  {
    if AlwaysSafe(c) then [c] else if c == ' ' then "+" else PercentBytes(Utf8(c))
  }

  /** `quote_plus(s)`: a safe character stays, a space becomes `+`, and
      every other character becomes the `%XX` escapes of its UTF-8 bytes;
      the result holds nothing that could end a query parameter. */
  function QuotePlus(s: string): (r: string)
    ensures forall i :: 0 <= i < |r| ==> r[i] == '%' || r[i] == '+' || AlwaysSafe(r[i])
    ensures '&' !in r && '=' !in r && '#' !in r && ' ' !in r
  {
    if |s| == 0 then [] else QuoteChar(s[0]) + QuotePlus(s[1..])
  }

  function HexValue(c: char): int {
    if '0' <= c <= '9' then c as int - '0' as int
    else if 'A' <= c <= 'F' then c as int - 'A' as int + 10
    else if 'a' <= c <= 'f' then c as int - 'a' as int + 10
    else -1
  }

  /** How the server reads a query value: `+` is a space and `%XX` the
      character with that code (one byte per character, as for ASCII). */
  function UnquotePlus(s: string): string
    decreases |s|
  {
    if |s| == 0 then []
    else if s[0] == '+' then " " + UnquotePlus(s[1..])
    else if s[0] == '%' && |s| >= 3 && 0 <= HexValue(s[1]) && 0 <= HexValue(s[2]) then
      [(HexValue(s[1]) * 16 + HexValue(s[2])) as char] + UnquotePlus(s[3..])
    else [s[0]] + UnquotePlus(s[1..])
  }

  predicate Ascii(s: string) {
    forall i :: 0 <= i < |s| ==> s[i] as int < 128
  }

  lemma UnquoteChar(c: char, rest: string)
    requires c as int < 128
    ensures UnquotePlus(QuoteChar(c) + rest) == [c] + UnquotePlus(rest)
  {
    var q := QuoteChar(c) + rest;
    if AlwaysSafe(c) {
      assert q[1..] == rest;
    } else if c == ' ' {
      assert q[1..] == rest;
    } else {
      var n := c as int;
      assert q == ['%', HexDigit(n / 16), HexDigit(n % 16)] + rest;
      assert HexValue(HexDigit(n / 16)) == n / 16;
      assert HexValue(HexDigit(n % 16)) == n % 16;
      assert q[3..] == rest;
    }
  }

  /** For the ASCII symbols NSE lists, the server reads back the symbol
      that was encoded: `M&M` is not cut at its `&`. */
  lemma {:induction false} QuotePlusRoundTrip(s: string)
    requires Ascii(s)
    ensures UnquotePlus(QuotePlus(s)) == s
  {
    if |s| > 0 {
      QuotePlusRoundTrip(s[1..]);
      UnquoteChar(s[0], QuotePlus(s[1..]));
    }
  }

  const Endpoint: string := "https://www.nseindia.com/api/historicalOR/generateSecurityWiseHistoricalData"

  /** The query's parameters, in the order the URL writes them. */
  function QueryParts(symbol: string, c: Chunk): seq<string>
    requires Valid(c.first) && Valid(c.last) && 0 <= c.first.year && 0 <= c.last.year
  {
    ["from=" + DdMmYyyyDashed(c.first), "to=" + DdMmYyyyDashed(c.last),
     "symbol=" + QuotePlus(symbol), "type=priceVolumeDeliverable", "series=ALL", "csv=true"]
  }

  function Query(symbol: string, c: Chunk): string
    requires Valid(c.first) && Valid(c.last) && 0 <= c.first.year && 0 <= c.last.year
  {
    Join(QueryParts(symbol, c), '&')
  }

  function Url(symbol: string, c: Chunk): string
    requires Valid(c.first) && Valid(c.last) && 0 <= c.first.year && 0 <= c.last.year
  {
    Endpoint + "?" + Query(symbol, c)
  }

  /** The query has exactly its six parameters, whatever the symbol holds,
      and the symbol parameter carries the encoded symbol. */
  lemma QueryParameters(symbol: string, c: Chunk)
    requires Valid(c.first) && Valid(c.last) && 0 <= c.first.year && 0 <= c.last.year
    ensures var p := Split(Query(symbol, c), '&');
      |p| == 6 && p[2] == "symbol=" + QuotePlus(symbol)
      && p[0] == "from=" + DdMmYyyyDashed(c.first) && p[1] == "to=" + DdMmYyyyDashed(c.last)
  {
    var parts := QueryParts(symbol, c);
    DashedHasNoSeparators(c.first);
    DashedHasNoSeparators(c.last);
    assert '&' !in parts[0] && '&' !in parts[1] && '&' !in parts[2];
    assert '&' !in parts[3] && '&' !in parts[4] && '&' !in parts[5];
    JoinSplit(parts, '&');
  }

  // ---------------------------------------------------------------------
  // The header check

  /** `h.strip().strip('"').replace('\xa0', '').lower()` */
  function CleanHeader(h: string): (r: string)
    ensures 0xA0 as char !in r
    ensures forall i :: 0 <= i < |r| ==> !('A' <= r[i] <= 'Z')
  {
    var t := ReplaceChar(StripChar(Strip(h), '"'), 0xA0 as char, "");
    var r := Lower(t);
    assert forall i :: 0 <= i < |r| ==> r[i] != 0xA0 as char by {
      forall i | 0 <= i < |r|
        ensures r[i] != 0xA0 as char
      {
        assert t[i] != 0xA0 as char;
      }
    }
    r
  }

  /** Every header cleaned: one per column, none with a non-breaking
      space or an upper-case letter. */
  function CleanHeaders(hs: seq<string>): (r: seq<string>)
    ensures |r| == |hs|
    ensures forall i :: 0 <= i < |r| ==> 0xA0 as char !in r[i]
    ensures forall i, j :: 0 <= i < |r| && 0 <= j < |r[i]| ==> !('A' <= r[i][j] <= 'Z')
  {
    seq(|hs|, i requires 0 <= i < |hs| => CleanHeader(hs[i]))
  }

  /** `any(col in h for h in headers)` */
  predicate Names(headers: seq<string>, col: string) {
    exists i :: 0 <= i < |headers| && Contains(headers[i], col)
  }

  /** The first line of a saved file, its BOM already removed, passes when
      each of symbol, series and date is part of some cleaned header. */
  predicate HeaderValid(firstLine: string) {
    var headers := CleanHeaders(Split(Strip(firstLine), ','));
    Names(headers, "symbol") && Names(headers, "series") && Names(headers, "date")
  }

  lemma ContainsAt(s: string, sub: string, i: nat)
    requires i + |sub| <= |s| && s[i..i + |sub|] == sub
    ensures Contains(s, sub)
  {
    assert Slice(s, i, |sub|) == sub;
  }

  /** A header with nothing for the cleaning to remove. */
  predicate Plain(h: string) {
    |h| > 0 && !IsSpace(h[0]) && !IsSpace(h[|h| - 1]) && h[0] != '"' && h[|h| - 1] != '"'
    && 0xA0 as char !in h && ',' !in h
  }

  /** A plain header cleans to its lower-case form. */
  lemma CleanPlain(h: string)
    requires Plain(h)
    ensures CleanHeader(h) == Lower(h)
  {
    TrimLeftNoSpace(h);
    TrimRightNoSpace(h);
    ReplaceCharAbsent(h, 0xA0 as char, "");
  }

  lemma SplitThree(a: string, b: string, c: string)
    requires ',' !in a && ',' !in b && ',' !in c
    ensures Split(a + "," + b + "," + c, ',') == [a, b, c]
  {
    assert a + "," + b + "," + c == a + [','] + (b + [','] + c);
    SplitConcat(a, b + [','] + c, ',');
    SplitConcat(b, c, ',');
  }

  lemma StripThree(a: string, b: string, c: string)
    requires Plain(a) && Plain(c)
    ensures Strip(a + "," + b + "," + c) == a + "," + b + "," + c
  {
    var line := a + "," + b + "," + c;
    assert line[0] == a[0] && line[|line| - 1] == c[|c| - 1];
    TrimLeftNoSpace(line);
    TrimRightNoSpace(line);
  }

  /** A line of three plain headers splits and cleans to their lower-case
      forms. */
  lemma ThreeHeaders(a: string, b: string, c: string)
    requires Plain(a) && Plain(b) && Plain(c)
    ensures var hs := CleanHeaders(Split(Strip(a + "," + b + "," + c), ','));
      |hs| == 3 && hs[0] == Lower(a) && hs[1] == Lower(b) && hs[2] == Lower(c)
  {
    LineOfThree(a, b, c);
    CleanThree(a, b, c);
  }

  lemma LineOfThree(a: string, b: string, c: string)
    requires Plain(a) && Plain(b) && Plain(c)
    ensures Split(Strip(a + "," + b + "," + c), ',') == [a, b, c]
  {
    StripThree(a, b, c);
    SplitThree(a, b, c);
  }

  lemma CleanThree(a: string, b: string, c: string)
    requires Plain(a) && Plain(b) && Plain(c)
    ensures var hs := CleanHeaders([a, b, c]);
      |hs| == 3 && hs[0] == Lower(a) && hs[1] == Lower(b) && hs[2] == Lower(c)
  {
    CleanPlain(a);
    CleanPlain(b);
    CleanPlain(c);
  }

  lemma NseColumnsPlain()
    ensures Plain("Symbol") && Plain("Series") && Plain("Date")
  {
  }

  lemma NseColumnsLower()
    ensures Lower("Symbol") == "symbol" && Lower("Series") == "series" && Lower("Date") == "date"
  {
    LowerCapitalised("Symbol", "symbol");
    LowerCapitalised("Series", "series");
    LowerCapitalised("Date", "date");
  }

  /** Lower-casing a capitalised word whose other letters are lower case. */
  lemma LowerCapitalised(s: string, t: string)
    requires |s| == |t| > 0 && 'A' <= s[0] <= 'Z' && t[0] == LowerChar(s[0])
    requires forall i :: 1 <= i < |s| ==> !('A' <= s[i] <= 'Z') && t[i] == s[i]
    ensures Lower(s) == t
  {
    assert forall i :: 0 <= i < |s| ==> Lower(s)[i] == t[i];
  }

  lemma NseLine()
    ensures "Symbol" + "," + "Series" + "," + "Date" == "Symbol,Series,Date"
  {
  }

  /** A line of three plain headers passes when they name symbol, series
      and date in that order. */
  lemma ThreeColumnsValid(a: string, b: string, c: string)
    requires Plain(a) && Plain(b) && Plain(c)
    requires Contains(Lower(a), "symbol") && Contains(Lower(b), "series") && Contains(Lower(c), "date")
    ensures HeaderValid(a + "," + b + "," + c)
  {
    ThreeHeaders(a, b, c);
    var hs := CleanHeaders(Split(Strip(a + "," + b + "," + c), ','));
    assert Contains(hs[0], "symbol") && Contains(hs[1], "series") && Contains(hs[2], "date");
  }

  /** The header NSE sends passes. */
  lemma NseHeaderValid()
    ensures HeaderValid("Symbol,Series,Date")
  {
    NseColumnsPlain();
    NseColumnsLower();
    NseLine();
    ContainsAt("symbol", "symbol", 0);
    ContainsAt("series", "series", 0);
    ContainsAt("date", "date", 0);
    ThreeColumnsValid("Symbol", "Series", "Date");
  }

  /** A line with no comma is one header. */
  lemma OneHeader(a: string)
    requires Plain(a)
    ensures CleanHeaders(Split(Strip(a), ',')) == [Lower(a)]
  {
    TrimLeftNoSpace(a);
    TrimRightNoSpace(a);
    SplitNone(a, ',');
    CleanPlain(a);
  }

  /** An HTML error page does not. */
  lemma HtmlPageInvalid()
    ensures !HeaderValid("<html>")
  {
    HtmlPlain();
    TagInvalid("<html>");
  }

  /** A six-character header line that opens a tag names no column. */
  lemma TagInvalid(a: string)
    requires Plain(a) && |a| == 6 && a[0] == '<'
    ensures !HeaderValid(a)
  {
    OneHeader(a);
    var h := Lower(a);
    assert h[0] == '<';
    SameLengthContains(h, "symbol");
    NamesSingle(h, "symbol");
  }

  lemma NamesSingle(h: string, col: string)
    ensures Names([h], col) <==> Contains(h, col)
  {
    if Contains(h, col) {
      assert [h][0] == h;
    }
  }

  lemma HtmlPlain()
    ensures Plain("<html>")
  {
  }

  /** A text contains another of its own length only when they are equal. */
  lemma SameLengthContains(s: string, sub: string)
    requires |s| == |sub|
    ensures Contains(s, sub) <==> s == sub
  {
    if Contains(s, sub) {
      var i: nat :| i + |sub| <= |s| && Slice(s, i, |sub|) == sub;
      assert s[i..i + |sub|] == s;
    }
    if s == sub {
      assert Slice(s, 0, |sub|) == sub;
    }
  }

  // ---------------------------------------------------------------------
  // The download loop

  /** A chunk requested for a symbol. */
  datatype Request = Request(symbol: string, chunk: Chunk)

  /** The requests for a symbol's chunks: one per chunk, each for that
      symbol, and a chunk is requested exactly when it is one of the
      chunks. */
  function Tagged(symbol: string, cs: seq<Chunk>): (r: seq<Request>)
    ensures |r| == |cs|
    ensures forall q :: q in r ==> q.symbol == symbol
    ensures forall c :: c in cs <==> Request(symbol, c) in r
  {
    var r := seq(|cs|, i requires 0 <= i < |cs| => Request(symbol, cs[i]));
    forall c | c in cs
      ensures Request(symbol, c) in r
    {
      var i :| 0 <= i < |cs| && cs[i] == c;
      assert r[i] == Request(symbol, c);
    }
    r
  }

  lemma TaggedAppend(symbol: string, cs: seq<Chunk>, c: Chunk)
    ensures Tagged(symbol, cs + [c]) == Tagged(symbol, cs) + [Request(symbol, c)]
  {
    assert forall i :: 0 <= i < |cs| + 1 ==> Tagged(symbol, cs + [c])[i] == (Tagged(symbol, cs) + [Request(symbol, c)])[i];
  }

  lemma AppendHead<T>(done: seq<T>, xs: seq<T>)
    requires |xs| > 0
    ensures (done + [xs[0]]) + xs[1..] == done + xs
  {
    assert [xs[0]] + xs[1..] == xs;
  }

  /** The first chunk from a start on or before today, and the rest. */
  lemma ChunksStep(start: Date, today: Date)
    requires Valid(start) && Valid(today) && !Less(today, start)
    ensures var e := ChunkEnd(start, today);
      Valid(Next(e)) && Chunks(start, today) == [Chunk(start, e)] + Chunks(Next(e), today)
  {
    NextOrdinal(ChunkEnd(start, today));
  }

  /** The listing date cell as the symbol query returns it. */
  datatype ListingCell = Null | Text(s: string)

  datatype SymbolRow = SymbolRow(symbol: string, listing: ListingCell)

  /** The requests `download_all_symbols` makes for the rows of the
      symbol query. `listingSelected` says whether the query returned a
      listing_date column: when it did not, `row["listing_date"]` raises
      for every row and the row is skipped. Otherwise the symbol is
      stripped and upper-cased; a NULL listing date fails at `.date()`
      and an unreadable one at `strptime`, and that row is skipped. */
  function AllRequests(rows: seq<SymbolRow>, listingSelected: bool, today: Date): seq<Request>
    requires Valid(today)
  {
    if |rows| == 0 then []
    else
      AllRequests(rows[..|rows| - 1], listingSelected, today) + RowRequests(rows[|rows| - 1], listingSelected, today)
  }

  lemma AllRequestsStep(rows: seq<SymbolRow>, i: nat, listingSelected: bool, today: Date)
    requires Valid(today) && i < |rows|
    ensures AllRequests(rows[..i + 1], listingSelected, today)
      == AllRequests(rows[..i], listingSelected, today) + RowRequests(rows[i], listingSelected, today)
  {
    assert rows[..i + 1][..i] == rows[..i];
  }

  /** One more row's requests extend the requests of the rows before it. */
  lemma RowsStep(before: seq<Request>, prev: seq<Request>, now: seq<Request>, rows: seq<SymbolRow>, i: nat,
                 listingSelected: bool, today: Date)
    requires Valid(today) && i < |rows|
    requires prev == before + AllRequests(rows[..i], listingSelected, today)
    requires now == prev + RowRequests(rows[i], listingSelected, today)
    ensures now == before + AllRequests(rows[..i + 1], listingSelected, today)
  {
    AllRequestsStep(rows, i, listingSelected, today);
    AppendStep(before, prev, now, AllRequests(rows[..i], listingSelected, today),
      RowRequests(rows[i], listingSelected, today), AllRequests(rows[..i + 1], listingSelected, today));
  }

  lemma AppendStep<T>(before: seq<T>, prev: seq<T>, now: seq<T>, x: seq<T>, y: seq<T>, xy: seq<T>)
    requires prev == before + x && now == prev + y && xy == x + y
    ensures now == before + xy
  {
  }

  function RowRequests(row: SymbolRow, listingSelected: bool, today: Date): seq<Request>
    requires Valid(today)
  {
    if listingSelected && row.listing.Text? && ParseIso(row.listing.s).Some? then
      Tagged(Upper(Strip(row.symbol)), Chunks(ParseIso(row.listing.s).value, today))
    else []
  }

  /** `retrieve_equity_symbol("ALL", conn)` in archive/data_manager.py
      selects only symbol_id and symbol. */
  const ArchiveQuerySelectsListing := false

  /** With the symbol query as written, no row yields a request: the
      whole run downloads nothing, whatever the table holds. */
  lemma {:induction false} ArchiveQueryDownloadsNothing(rows: seq<SymbolRow>, today: Date)
    requires Valid(today)
    ensures AllRequests(rows, ArchiveQuerySelectsListing, today) == []
  {
    if |rows| > 0 {
      ArchiveQueryDownloadsNothing(rows[..|rows| - 1], today);
    }
  }

  /** Every request of one row is among the requests of all rows. */
  lemma {:induction false} RowRequestsIncluded(rows: seq<SymbolRow>, i: nat, listingSelected: bool, today: Date, q: Request)
    requires Valid(today) && i < |rows| && q in RowRequests(rows[i], listingSelected, today)
    ensures q in AllRequests(rows, listingSelected, today)
  {
    if i < |rows| - 1 {
      RowRequestsIncluded(rows[..|rows| - 1], i, listingSelected, today, q);
    }
  }

  /** With a query that does return listing_date, every day from a
      symbol's listing up to today falls in a chunk requested for it. */
  lemma ListingQueryCoversEveryDay(rows: seq<SymbolRow>, i: nat, today: Date, d: Date)
    requires Valid(today) && i < |rows|
    requires rows[i].listing.Text? && ParseIso(rows[i].listing.s).Some?
    requires Valid(d) && LessEq(ParseIso(rows[i].listing.s).value, d) && LessEq(d, today)
    ensures exists q :: (q in AllRequests(rows, true, today) && q.symbol == Upper(Strip(rows[i].symbol))
                         && LessEq(q.chunk.first, d) && LessEq(d, q.chunk.last))
  {
    var start := ParseIso(rows[i].listing.s).value;
    var cs := Chunks(start, today);
    var j := ChunksCover(start, today, d);
    var q := Request(Upper(Strip(rows[i].symbol)), cs[j]);
    assert q == RowRequests(rows[i], true, today)[j];
    RowRequestsIncluded(rows, i, true, today, q);
  }

  class Downloader {
    /** The chunks `download_symbol_history_year` was called for. */
    var requests: seq<Request>

    constructor ()
      ensures requests == []
    {
      requests := [];
    }

    /** `download_symbol(symbol, listing_date)` with the clock read as
        `today`. */
    method DownloadSymbol(symbol: string, listing: Option<Date>, today: Date)
      requires Valid(today) && (listing.Some? ==> Valid(listing.value))
      modifies this
      ensures listing.None? ==> requests == old(requests)
      ensures listing.Some? ==> requests == old(requests) + Tagged(symbol, Chunks(listing.value, today))
    {
      if listing.None? {
        return;
      }
      var start := listing.value;
      var curr := start;
      ghost var done: seq<Chunk> := [];
      ghost var before := requests;
      while !Less(today, curr)
        invariant Valid(curr)
        invariant done + Chunks(curr, today) == Chunks(start, today)
        invariant requests == before + Tagged(symbol, done)
        decreases |Chunks(curr, today)|
      {
        ghost var n := |Chunks(curr, today)|;
        curr, done := RequestChunk(symbol, curr, today, start, before, done);
        assert |Chunks(curr, today)| < n;
      }
    }

    /** One pass of the date loop: the request for the chunk from `curr`,
        and the day after that chunk. */
    method RequestChunk(symbol: string, curr: Date, today: Date,
                        ghost start: Date, ghost before: seq<Request>, ghost done: seq<Chunk>)
      returns (next: Date, ghost done': seq<Chunk>)
      requires Valid(curr) && Valid(today) && Valid(start) && !Less(today, curr)
      requires done + Chunks(curr, today) == Chunks(start, today)
      requires requests == before + Tagged(symbol, done)
      modifies this
      ensures Valid(next) && |Chunks(next, today)| < |Chunks(curr, today)|
      ensures done' + Chunks(next, today) == Chunks(start, today)
      ensures requests == before + Tagged(symbol, done')
    {
      var c;
      c, next := NextChunk(curr, today);
      TaggedAppend(symbol, done, c);
      AppendHead(done, Chunks(curr, today));
      requests := requests + [Request(symbol, c)];
      done' := done + [c];
    }

    /** One pass of the date loop: the chunk from `curr`, and the day
        after it. */
    static method NextChunk(curr: Date, today: Date) returns (c: Chunk, next: Date)
      requires Valid(curr) && Valid(today) && !Less(today, curr)
      ensures Valid(next) && |Chunks(curr, today)| > 0
      ensures c == Chunks(curr, today)[0] && Chunks(next, today) == Chunks(curr, today)[1..]
    {
      var e := ChunkEnd(curr, today);
      ChunksStep(curr, today);
      c, next := Chunk(curr, e), Next(e);
    }

    /** One row of `download_all_symbols`; a failure is logged and the
        loop moves on. */
    method DownloadRow(row: SymbolRow, listingSelected: bool, today: Date)
      requires Valid(today)
      modifies this
      ensures requests == old(requests) + RowRequests(row, listingSelected, today)
    {
      if listingSelected && row.listing.Text? {
        var d := ParseIso(row.listing.s);
        if d.Some? {
          DownloadSymbol(Upper(Strip(row.symbol)), d, today);
        }
      }
    }

    /** `download_all_symbols()`: the rows of the symbol query, or None
        when the query fails, which ends the run before any download;
        `listingSelected` says whether the query has a listing_date
        column (see ArchiveQuerySelectsListing). */
    method DownloadAll(rows: Option<seq<SymbolRow>>, listingSelected: bool, today: Date)
      requires Valid(today)
      modifies this
      ensures rows.None? ==> requests == old(requests)
      ensures rows.Some? ==> requests == old(requests) + AllRequests(rows.value, listingSelected, today)
    {
      if rows.Some? {
        DownloadRows(rows.value, listingSelected, today);
      }
    }

    method DownloadRows(rs: seq<SymbolRow>, listingSelected: bool, today: Date)
      requires Valid(today)
      modifies this
      ensures requests == old(requests) + AllRequests(rs, listingSelected, today)
    {
      ghost var before := requests;
      var i := 0;
      while i < |rs|
        invariant i <= |rs|
        invariant requests == before + AllRequests(rs[..i], listingSelected, today)
      {
        ghost var prev := requests;
        DownloadRow(rs[i], listingSelected, today);
        RowsStep(before, prev, requests, rs, i, listingSelected, today);
        i := i + 1;
      }
      assert rs[..i] == rs;
    }
  }
}
