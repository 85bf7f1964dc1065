/** Proleptic Gregorian dates as Python's `datetime.date` counts them: the
    ordinal (day 1 is 0001-01-01), `weekday()` with Monday = 0, one-day
    steps, `timedelta` shifts, the "last Friday" and "month end" helpers of
    the weekly/monthly job, `relativedelta(years=1)`, and the text formats
    the repository reads and writes. */
module Calendar {
  import opened Base

  datatype Date = Date(year: int, month: int, day: int)

  predicate IsLeap(y: int) {
    y % 4 == 0 && (y % 100 != 0 || y % 400 == 0)
  }

  function DaysInMonth(y: int, m: int): int {
    if m == 2 then (if IsLeap(y) then 29 else 28)
    else if m == 4 || m == 6 || m == 9 || m == 11 then 30
    else 31
  }

  predicate Valid(d: Date) {
    1 <= d.month <= 12 && 1 <= d.day <= DaysInMonth(d.year, d.month)
  }

  /** Days in the years before year y (the `_days_before_year` formula). */
  function DaysBeforeYear(y: int): int {
    var p := y - 1;
    p * 365 + p / 4 - p / 100 + p / 400
  }

  /** Days in the months of year y before month m. */
  function DaysBeforeMonth(y: int, m: int): int
    requires 1 <= m <= 13
  {
    if m == 1 then 0 else DaysBeforeMonth(y, m - 1) + DaysInMonth(y, m - 1)
  }

  /** `date.toordinal()`. */
  function Ordinal(d: Date): int
    requires Valid(d)
  {
    DaysBeforeYear(d.year) + DaysBeforeMonth(d.year, d.month) + d.day
  }

  /** `date.weekday()`: Monday is 0, Friday is 4, Sunday is 6. */
  function Weekday(d: Date): int
    requires Valid(d)
  {
    WeekdayOf(Ordinal(d))
  }

  /** The weekday of the day with ordinal o (ordinal 1 is a Monday). */
  function WeekdayOf(o: int): int {
    (o + 6) % 7
  }

  /** n days on, the weekday has advanced by n mod 7. */
  lemma WeekdayOfShift(o: int, n: int)
    ensures WeekdayOf(o + n) == (WeekdayOf(o) + n) % 7
  {
  }

  const Monday := 0
  const Friday := 4

  /** `d + timedelta(days=1)`. */
  function Next(d: Date): (r: Date)
    requires Valid(d)
    ensures Valid(r)
  {
    if d.day < DaysInMonth(d.year, d.month) then Date(d.year, d.month, d.day + 1)
    else if d.month < 12 then Date(d.year, d.month + 1, 1)
    else Date(d.year + 1, 1, 1)
  }

  /** `d - timedelta(days=1)`. */
  function Prev(d: Date): (r: Date)
    requires Valid(d)
    ensures Valid(r)
  {
    if d.day > 1 then Date(d.year, d.month, d.day - 1)
    else if d.month > 1 then Date(d.year, d.month - 1, DaysInMonth(d.year, d.month - 1))
    else Date(d.year - 1, 12, 31)
  }

  function AddDays(d: Date, n: nat): (r: Date)
    requires Valid(d)
    ensures Valid(r)
    decreases n
  {
    if n == 0 then d else AddDays(Next(d), n - 1)
  }

  function SubDays(d: Date, n: nat): (r: Date)
    requires Valid(d)
    ensures Valid(r)
    decreases n
  {
    if n == 0 then d else SubDays(Prev(d), n - 1)
  }

  /** Date comparison: year, then month, then day. For the four-digit years
      the repository stores, this is also the order of the 'YYYY-MM-DD'
      text SQLite compares. */
  predicate Less(a: Date, b: Date) {
    a.year < b.year
    || (a.year == b.year && a.month < b.month)
    || (a.year == b.year && a.month == b.month && a.day < b.day)
  }

  predicate LessEq(a: Date, b: Date) { Less(a, b) || a == b }

  // ---------------------------------------------------------------------
  // Ordinal arithmetic

  lemma DaysBeforeYearStep(y: int)
    ensures DaysBeforeYear(y + 1) == DaysBeforeYear(y) + (if IsLeap(y) then 366 else 365)
  {
    Century400(y);
    Century4(y);
    DivSteps(y);
  }

  /** A multiple of 400 is one of 100. */
  lemma Century400(y: int)
    ensures y % 400 == 0 ==> y % 100 == 0
  {
    if y % 400 == 0 {
      assert y == 100 * (4 * (y / 400));
    }
  }

  /** A multiple of 100 is one of 4. */
  lemma Century4(y: int)
    ensures y % 100 == 0 ==> y % 4 == 0
  {
    if y % 100 == 0 {
      assert y == 4 * (25 * (y / 100));
    }
  }

  /** From y - 1 to y, each of the quotients by 4, 100 and 400 grows by one
      exactly when the divisor divides y. */
  lemma DivSteps(y: int)
    ensures y / 4 == (y - 1) / 4 + (if y % 4 == 0 then 1 else 0)
    ensures y / 100 == (y - 1) / 100 + (if y % 100 == 0 then 1 else 0)
    ensures y / 400 == (y - 1) / 400 + (if y % 400 == 0 then 1 else 0)
  {
    var p := y - 1;
    assert y / 4 == p / 4 + (if y % 4 == 0 then 1 else 0) by {
      if y % 4 == 0 { assert p == 4 * (y / 4 - 1) + 3; } else { assert p == 4 * (y / 4) + (y % 4 - 1); }
    }
    assert y / 100 == p / 100 + (if y % 100 == 0 then 1 else 0) by {
      if y % 100 == 0 { assert p == 100 * (y / 100 - 1) + 99; } else { assert p == 100 * (y / 100) + (y % 100 - 1); }
    }
    assert y / 400 == p / 400 + (if y % 400 == 0 then 1 else 0) by {
      if y % 400 == 0 { assert p == 400 * (y / 400 - 1) + 399; } else { assert p == 400 * (y / 400) + (y % 400 - 1); }
    }
  }

  /** The cumulative month lengths of a common year. */
  function CommonDaysBefore(m: int): int
    requires 1 <= m <= 13
  {
    [0, 31, 59, 90, 120, 151, 181, 212, 243, 273, 304, 334, 365][m - 1]
  }

  /** The recursive month offsets are the usual table, plus one from March
      on in a leap year. */
  lemma {:induction false} DaysBeforeMonthTable(y: int, m: int)
    requires 1 <= m <= 13
    ensures DaysBeforeMonth(y, m) == CommonDaysBefore(m) + (if m > 2 && IsLeap(y) then 1 else 0)
  {
    if m > 1 {
      DaysBeforeMonthTable(y, m - 1);
    }
  }

  lemma DaysBeforeDecember(y: int)
    ensures DaysBeforeMonth(y, 12) + 31 == (if IsLeap(y) then 366 else 365)
  {
    DaysBeforeMonthTable(y, 12);
  }

  lemma {:induction false} DaysBeforeMonthMonotone(y: int, m: int, m': int)
    requires 1 <= m < m' <= 13
    ensures DaysBeforeMonth(y, m) + DaysInMonth(y, m) <= DaysBeforeMonth(y, m')
    decreases m' - m
  {
    if m' > m + 1 {
      DaysBeforeMonthMonotone(y, m, m' - 1);
    }
  }

  lemma {:induction false} DaysBeforeYearMonotone(y: int, y': int)
    requires y < y'
    ensures DaysBeforeYear(y) + (if IsLeap(y) then 366 else 365) <= DaysBeforeYear(y')
    decreases y' - y
  {
    DaysBeforeYearStep(y);
    if y' > y + 1 {
      DaysBeforeYearMonotone(y + 1, y');
      DaysBeforeYearStep(y + 1);
    }
  }

  /** One step forward is one day later. */
  lemma NextOrdinal(d: Date)
    requires Valid(d)
    ensures Ordinal(Next(d)) == Ordinal(d) + 1
  {
    if d.day == DaysInMonth(d.year, d.month) && d.month == 12 {
      DaysBeforeYearStep(d.year);
      DaysBeforeDecember(d.year);
    }
  }

  /** One step back is one day earlier. */
  lemma PrevOrdinal(d: Date)
    requires Valid(d)
    ensures Ordinal(Prev(d)) == Ordinal(d) - 1
  {
    if d.day == 1 && d.month == 1 {
      DaysBeforeYearStep(d.year - 1);
      DaysBeforeDecember(d.year - 1);
    }
  }

  lemma {:induction false} AddDaysOrdinal(d: Date, n: nat)
    requires Valid(d)
    ensures Ordinal(AddDays(d, n)) == Ordinal(d) + n
    decreases n
  {
    if n > 0 {
      NextOrdinal(d);
      AddDaysOrdinal(Next(d), n - 1);
    }
  }

  lemma {:induction false} SubDaysOrdinal(d: Date, n: nat)
    requires Valid(d)
    ensures Ordinal(SubDays(d, n)) == Ordinal(d) - n
    decreases n
  {
    if n > 0 {
      PrevOrdinal(d);
      SubDaysOrdinal(Prev(d), n - 1);
    }
  }

  /** The calendar order is the order of ordinals, so a date is determined
      by its ordinal. */
  lemma LessIsOrdinalOrder(a: Date, b: Date)
    requires Valid(a) && Valid(b)
    ensures Less(a, b) <==> Ordinal(a) < Ordinal(b)
    ensures a == b <==> Ordinal(a) == Ordinal(b)
  {
    if a.year < b.year {
      LessOrdinal(a, b);
    } else if b.year < a.year {
      LessOrdinal(b, a);
    } else if a.month < b.month {
      LessOrdinal(a, b);
    } else if b.month < a.month {
      LessOrdinal(b, a);
    }
  }

  lemma LessOrdinal(a: Date, b: Date)
    requires Valid(a) && Valid(b)
    requires a.year < b.year || (a.year == b.year && a.month < b.month)
    ensures Ordinal(a) < Ordinal(b)
  {
    DaysBeforeMonthTable(b.year, b.month);
    if a.year < b.year {
      DaysBeforeMonthMonotone(a.year, a.month, 13);
      DaysBeforeMonthTable(a.year, 13);
      DaysBeforeYearMonotone(a.year, b.year);
    } else {
      DaysBeforeMonthMonotone(a.year, a.month, b.month);
    }
  }

  lemma OrdinalInjective(a: Date, b: Date)
    requires Valid(a) && Valid(b)
    requires Ordinal(a) == Ordinal(b)
    ensures a == b
  {
    LessIsOrdinalOrder(a, b);
  }

  lemma NextIsNextDay(d: Date)
    requires Valid(d)
    ensures Less(d, Next(d))
    ensures forall e :: Valid(e) && Less(d, e) ==> LessEq(Next(d), e)
  {
    NextOrdinal(d);
    LessIsOrdinalOrder(d, Next(d));
    forall e | Valid(e) && Less(d, e)
      ensures LessEq(Next(d), e)
    {
      LessIsOrdinalOrder(d, e);
      LessIsOrdinalOrder(Next(d), e);
    }
  }

  lemma PrevNext(d: Date)
    requires Valid(d)
    ensures Prev(Next(d)) == d && Next(Prev(d)) == d
  {
    NextOrdinal(d);
    PrevOrdinal(Next(d));
    OrdinalInjective(Prev(Next(d)), d);
    PrevOrdinal(d);
    NextOrdinal(Prev(d));
    OrdinalInjective(Next(Prev(d)), d);
  }

  lemma WeekdayRange(d: Date)
    requires Valid(d)
    ensures 0 <= Weekday(d) < 7
  {
  }

  lemma AddDaysWeekday(d: Date, n: nat)
    requires Valid(d)
    ensures Weekday(AddDays(d, n)) == (Weekday(d) + n) % 7
  {
    AddDaysOrdinal(d, n);
    WeekdayOfShift(Ordinal(d), n);
  }

  // ---------------------------------------------------------------------
  // The two cut-off helpers of the weekly/monthly job

  /** `last_friday(d)`: step back (weekday - 4) mod 7 days. */
  function LastFriday(d: Date): Date
    requires Valid(d)
  {
    SubDays(d, (Weekday(d) - Friday) % 7)
  }

  /** Stepping back ((o + 6) mod 7 - 4) mod 7 days from ordinal o lands on
      weekday 4. */
  lemma FridayStep(o: int)
    ensures 0 <= (WeekdayOf(o) - Friday) % 7 < 7
    ensures WeekdayOf(o - (WeekdayOf(o) - Friday) % 7) == Friday
  {
  }

  /** Two days with the same weekday less than a week apart are the same
      day. */
  lemma SameWeekdayWithinWeek(a: int, b: int)
    requires WeekdayOf(a) == WeekdayOf(b)
    requires 0 <= b - a < 7
    ensures a == b
  {
  }

  /** The result is a Friday, on or before d, and no later Friday is on or
      before d: it is the latest Friday not after d. */
  lemma LastFridayIsLatestFriday(d: Date)
    requires Valid(d)
    ensures Valid(LastFriday(d)) && Weekday(LastFriday(d)) == Friday
    ensures LessEq(LastFriday(d), d)
    ensures Ordinal(d) - Ordinal(LastFriday(d)) < 7
    ensures forall e :: Valid(e) && Weekday(e) == Friday && LessEq(e, d) ==> LessEq(e, LastFriday(d))
  {
    LastFridayFacts(d);
    var f := LastFriday(d);
    forall e | Valid(e) && Weekday(e) == Friday && LessEq(e, d)
      ensures LessEq(e, f)
    {
      LessIsOrdinalOrder(e, d);
      LessIsOrdinalOrder(e, f);
      LatestFridayOrdinal(Ordinal(d), Ordinal(f), Ordinal(e));
    }
  }

  /** `last_friday(d)` is a Friday at most six days before d. */
  lemma LastFridayFacts(d: Date)
    requires Valid(d)
    ensures Valid(LastFriday(d)) && Weekday(LastFriday(d)) == Friday
    ensures LessEq(LastFriday(d), d)
    ensures Ordinal(LastFriday(d)) <= Ordinal(d) < Ordinal(LastFriday(d)) + 7
  {
    var k := (Weekday(d) - Friday) % 7;
    FridayStep(Ordinal(d));
    SubDaysOrdinal(d, k);
    LessIsOrdinalOrder(LastFriday(d), d);
  }

  /** On ordinals: a Friday on or before od is on or before the Friday
      that lies less than a week before od. */
  lemma LatestFridayOrdinal(od: int, of: int, oe: int)
    requires WeekdayOf(of) == Friday && WeekdayOf(oe) == Friday
    requires of <= od < of + 7 && oe <= od
    ensures oe <= of
  {
    if of < oe {
      SameWeekdayWithinWeek(of, oe);
    }
  }

  function FirstOfMonth(d: Date): Date {
    Date(d.year, d.month, 1)
  }

  /** `first + relativedelta(months=1)` for a first-of-month date. */
  function NextMonthStart(d: Date): Date {
    if d.month < 12 then Date(d.year, d.month + 1, 1) else Date(d.year + 1, 1, 1)
  }

  /** `month_end(d)`: the first of d's month, one month on, one day back. */
  function MonthEnd(d: Date): Date
    requires 1 <= d.month <= 12
  {
    Prev(NextMonthStart(FirstOfMonth(d)))
  }

  lemma MonthEndIsLastDay(d: Date)
    requires 1 <= d.month <= 12
    ensures MonthEnd(d) == Date(d.year, d.month, DaysInMonth(d.year, d.month))
    ensures Valid(MonthEnd(d)) && Next(MonthEnd(d)).day == 1
  {
  }

  /** A month end falls on day 28 or later, so never on the 1st. */
  lemma MonthEndNotFirst(d: Date)
    requires 1 <= d.month <= 12
    ensures MonthEnd(d).day >= 28
  {
  }

  /** `d + relativedelta(years=1)`: same month and day a year on, with
      29 February clamped to the 28th. */
  function AddYear(d: Date): (r: Date)
    requires Valid(d)
    ensures Valid(r)
  {
    var last := DaysInMonth(d.year + 1, d.month);
    Date(d.year + 1, d.month, if d.day <= last then d.day else last)
  }

  lemma AddYearBounds(d: Date)
    requires Valid(d)
    ensures 365 <= Ordinal(AddYear(d)) - Ordinal(d) <= 366
  {
    DaysBeforeYearStep(d.year);
    DaysBeforeMonthTable(d.year, d.month);
    DaysBeforeMonthTable(d.year + 1, d.month);
  }

  // ---------------------------------------------------------------------
  // Text formats

  function DigitChar(n: int): char
    requires 0 <= n <= 9
  {
    ('0' as int + n) as char
  }

  predicate IsDigit(c: char) { '0' <= c <= '9' }

  function DigitValue(c: char): int
    requires IsDigit(c)
  {
    c as int - '0' as int
  }

  /** n written with exactly w digits, zero-padded (`%0wd`). */
  function Pad(n: nat, w: nat): (s: string)
    ensures |s| == w
  {
    if w == 0 then [] else Pad(n / 10, w - 1) + [DigitChar(n % 10)]
  }

  /** The value of a string of decimal digits. */
  function DigitsValue(s: string): nat
    requires forall i :: 0 <= i < |s| ==> IsDigit(s[i])
  {
    if |s| == 0 then 0 else DigitsValue(s[..|s| - 1]) * 10 + DigitValue(s[|s| - 1])
  }

  function Pow10(w: nat): nat {
    if w == 0 then 1 else 10 * Pow10(w - 1)
  }

  /** Reading a zero-padded field back gives the number it was written
      from. */
  lemma {:induction false} PadRoundTrip(n: nat, w: nat)
    requires n < Pow10(w)
    ensures forall i :: 0 <= i < |Pad(n, w)| ==> IsDigit(Pad(n, w)[i])
    ensures DigitsValue(Pad(n, w)) == n
  {
    if w > 0 {
      PadRoundTrip(n / 10, w - 1);
      var s := Pad(n, w);
      assert s[..|s| - 1] == Pad(n / 10, w - 1);
    }
  }

  /** `strftime('%Y-%m-%d')`, the form every date column holds. */
  function IsoFormat(d: Date): string
    requires 0 <= d.year && Valid(d)
  {
    Pad(d.year, 4) + "-" + Pad(d.month, 2) + "-" + Pad(d.day, 2)
  }

  /** `strftime('%d%m%Y')`, the date part of a bhavcopy file name. */
  function DdMmYyyy(d: Date): string
    requires 0 <= d.year && Valid(d)
  {
    Pad(d.day, 2) + Pad(d.month, 2) + Pad(d.year, 4)
  }

  /** `strftime('%d-%m-%Y')`, the form the NSE history endpoint takes. */
  function DdMmYyyyDashed(d: Date): string
    requires 0 <= d.year && Valid(d)
  {
    Pad(d.day, 2) + "-" + Pad(d.month, 2) + "-" + Pad(d.year, 4)
  }

  predicate AllDigits(s: string) {
    forall i :: 0 <= i < |s| ==> IsDigit(s[i])
  }

  /** `datetime.strptime(s, '%d%m%Y')` on the eight-digit form: day, month
      and a four-digit year, rejected when the date does not exist. */
  function ParseDdMmYyyy(s: string): (r: Option<Date>)
    ensures r.Some? ==> Valid(r.value) && 0 <= r.value.year
  {
    if |s| == 8 && AllDigits(s) then
      var d := Date(DigitsValue(s[4..8]), DigitsValue(s[2..4]), DigitsValue(s[0..2]));
      if Valid(d) && 1 <= d.year then Some(d) else None
    else None
  }

  /** `datetime.strptime(s, '%Y-%m-%d')` on the zero-padded form: a
      four-digit year, two-digit month and day, rejected when the date does
      not exist. */
  function ParseIso(s: string): (r: Option<Date>)
    ensures r.Some? ==> Valid(r.value) && 1 <= r.value.year
    ensures |s| != 10 ==> r.None?
  {
    if |s| == 10 && s[4] == '-' && s[7] == '-'
       && AllDigits(s[0..4]) && AllDigits(s[5..7]) && AllDigits(s[8..10]) then
      var d := Date(DigitsValue(s[0..4]), DigitsValue(s[5..7]), DigitsValue(s[8..10]));
      if Valid(d) && 1 <= d.year then Some(d) else None
    else None
  }

  lemma PadDigits(n: nat, w: nat)
    ensures AllDigits(Pad(n, w))
  {
    if w > 0 {
      PadDigits(n / 10, w - 1);
    }
  }

  /** The file-name date parses back to the date it was written from. */
  lemma DdMmYyyyRoundTrip(d: Date)
    requires Valid(d) && 1 <= d.year <= 9999
    ensures ParseDdMmYyyy(DdMmYyyy(d)) == Some(d)
  {
    var s := DdMmYyyy(d);
    PadRoundTrip(d.day, 2);
    PadRoundTrip(d.month, 2);
    PadRoundTrip(d.year, 4);
    PadDigits(d.day, 2);
    PadDigits(d.month, 2);
    PadDigits(d.year, 4);
    assert s[0..2] == Pad(d.day, 2);
    assert s[2..4] == Pad(d.month, 2);
    assert s[4..8] == Pad(d.year, 4);
  }

  /** A stored date reads back as the date it was written from. */
  lemma IsoRoundTrip(d: Date)
    requires Valid(d) && 1 <= d.year <= 9999
    ensures ParseIso(IsoFormat(d)) == Some(d)
  {
    var s := IsoFormat(d);
    PadRoundTrip(d.day, 2);
    PadRoundTrip(d.month, 2);
    PadRoundTrip(d.year, 4);
    PadDigits(d.day, 2);
    PadDigits(d.month, 2);
    PadDigits(d.year, 4);
    assert s[0..4] == Pad(d.year, 4);
    assert s[5..7] == Pad(d.month, 2);
    assert s[8..10] == Pad(d.day, 2);
  }

  /** `str(n)` for an integer. */
  function IntToString(n: int): string
  {
    if n < 0 then "-" + NatToString(-n) else NatToString(n)
  }

  function NatToString(n: nat): (s: string)
    ensures |s| >= 1 && AllDigits(s)
  {
    if n < 10 then [DigitChar(n)] else NatToString(n / 10) + [DigitChar(n % 10)]
  }

  lemma {:induction false} NatToStringValue(n: nat)
    ensures DigitsValue(NatToString(n)) == n
  {
    if n >= 10 {
      NatToStringValue(n / 10);
      var s := NatToString(n);
      assert s[..|s| - 1] == NatToString(n / 10);
    }
  }

  /** Distinct years give distinct file names. */
  lemma NatToStringInjective(a: nat, b: nat)
    requires NatToString(a) == NatToString(b)
    ensures a == b
  {
    NatToStringValue(a);
    NatToStringValue(b);
  }
}
