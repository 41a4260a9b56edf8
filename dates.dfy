/** count_days (database_build.py:209-214): the number of days between two dates written in
    the calendar-date extended format YYYY-MM-DD of ISO 8601 (section 5.2.1.1 of ISO 8601:2004),
    read the way the Python code reads them: fixed slices, `int()`, `datetime(y, m, d)` and the
    `.days` of the difference. */
module Dates {
  import opened Common

  predicate IsDigit(c: char) {
    '0' <= c <= '9'
  }

  predicate AllDigits(s: string) {
    forall i :: 0 <= i < |s| ==> IsDigit(s[i])
  }

  /** The number a string of decimal digits denotes. */
  function DigitsValue(s: string): (n: nat)
    requires AllDigits(s)
    decreases |s|
  {
    if s == [] then 0 else DigitsValue(s[..|s| - 1]) * 10 + (s[|s| - 1] as int - '0' as int)
  }

  function Pow10(w: nat): (p: nat)
    ensures p >= 1
  {
    if w == 0 then 1 else 10 * Pow10(w - 1)
  }

  /** `f"{n:0{w}d}"` for 0 <= n < 10^w: `n` in exactly `w` digits, zero-padded. */
  function Pad(n: nat, w: nat): (s: string)
    ensures |s| == w && AllDigits(s)
  {
    if w == 0 then [] else Pad(n / 10, w - 1) + [(('0' as int) + n % 10) as char]
  }

  /** Padding and reading back the digits gives the number again. */
  lemma {:induction false} PadRoundTrip(n: nat, w: nat)
    requires n < Pow10(w)
    ensures DigitsValue(Pad(n, w)) == n
  {
    if w > 0 {
      var s := Pad(n, w);
      assert s[..|s| - 1] == Pad(n / 10, w - 1);
      PadRoundTrip(n / 10, w - 1);
    }
  }

  /** `s.strip()` */
  function Strip(s: string): (t: string)
    ensures |t| <= |s|
    decreases |s|
  {
    if s == [] then []
    else if IsSpace(s[0]) then Strip(s[1..])
    else if IsSpace(s[|s| - 1]) then Strip(s[..|s| - 1])
    else s
  }

  /** `int(s)` on a string: surrounding white space, an optional sign, then at least one
      decimal digit; anything else is a ValueError. */
  function ParseInt(s: string): (r: Result<int>)
    ensures s == [] ==> r == Err(ValueError)
    ensures s != [] && AllDigits(s) ==> r == Ok(DigitsValue(s))
  {
    var t := Strip(s);
    if |t| > 1 && (t[0] == '+' || t[0] == '-') && AllDigits(t[1..]) then
      Ok(if t[0] == '-' then -(DigitsValue(t[1..]) as int) else DigitsValue(t[1..]))
    else if t != [] && AllDigits(t) then Ok(DigitsValue(t))
    else Err(ValueError)
  }

  /** Python's `s[a:b]` for 0 <= a <= b: the bounds are clipped to the string. */
  function Slice(s: string, a: nat, b: nat): (t: string)
    requires a <= b
    ensures |t| <= b - a
  {
    var hi := if b < |s| then b else |s|;
    var lo := if a < hi then a else hi;
    s[lo..hi]
  }

  /** `s[a:]` */
  function SliceFrom(s: string, a: nat): (t: string) {
    if a < |s| then s[a..] else []
  }

  datatype Date = Date(year: int, month: int, day: int)

  predicate IsLeap(y: int) {
    y % 4 == 0 && (y % 100 != 0 || y % 400 == 0)
  }

  function DaysInMonth(y: int, m: int): int {
    if m == 2 then (if IsLeap(y) then 29 else 28)
    else if m == 4 || m == 6 || m == 9 || m == 11 then 30
    else 31
  }

  /** What `datetime(y, m, d)` accepts: years 1..9999 of the proleptic Gregorian calendar. */
  predicate ValidDate(d: Date) {
    1 <= d.year <= 9999 && 1 <= d.month <= 12 && 1 <= d.day <= DaysInMonth(d.year, d.month)
  }

  function DaysInYear(y: int): int {
    if IsLeap(y) then 366 else 365
  }

  /** Days in the years before `y`, from 1 January of year 1. */
  function DaysBeforeYear(y: int): int {
    var p := y - 1;
    p * 365 + p / 4 - p / 100 + p / 400
  }

  /** Days in the months of year `y` before month `m`. */
  function DaysBeforeMonth(y: int, m: int): (n: int)
    ensures n >= 0
    decreases m
  {
    if m <= 1 then 0 else DaysBeforeMonth(y, m - 1) + DaysInMonth(y, m - 1)
  }

  /** `date.toordinal()`: 1 January of year 1 is day 1. */
  function Ordinal(d: Date): int {
    DaysBeforeYear(d.year) + DaysBeforeMonth(d.year, d.month) + d.day
  }

  /** Reads `s[0:4]`, `s[5:7]` and `s[8:]` as year, month and day and builds the datetime. */
  function ParseDate(s: string): (r: Result<Date>)
    ensures r.Ok? ==> ValidDate(r.value)
  {
    var y :- ParseInt(Slice(s, 0, 4));
    var m :- ParseInt(Slice(s, 5, 7));
    var d :- ParseInt(SliceFrom(s, 8));
    if ValidDate(Date(y, m, d)) then Ok(Date(y, m, d)) else Err(ValueError)
  }

  /** count_days: `(datetime(date2) - datetime(date1)).days`. */
  function CountDays(date1: string, date2: string): (r: Result<int>)
    ensures r.Ok? <==> ParseDate(date1).Ok? && ParseDate(date2).Ok?
  {
    var d1 :- ParseDate(date1);
    var d2 :- ParseDate(date2);
    Ok(Ordinal(d2) - Ordinal(d1))
  }

  /** The YYYY-MM-DD text of a date. */
  function Format(d: Date): (s: string)
    requires ValidDate(d)
    ensures |s| == 10 && s[4] == '-' && s[7] == '-'
  {
    Pad(d.year, 4) + "-" + Pad(d.month, 2) + "-" + Pad(d.day, 2)
  }

  lemma StripDigits(s: string)
    requires s != [] && AllDigits(s)
    ensures Strip(s) == s
  {
  }

  /** Reading back a formatted date gives the date. */
  lemma ParseFormat(d: Date)
    requires ValidDate(d)
    ensures ParseDate(Format(d)) == Ok(d)
  {
    var s := Format(d);
    assert Slice(s, 0, 4) == Pad(d.year, 4);
    assert Slice(s, 5, 7) == Pad(d.month, 2);
    assert SliceFrom(s, 8) == Pad(d.day, 2);
    PadRoundTrip(d.year, 4);
    PadRoundTrip(d.month, 2);
    PadRoundTrip(d.day, 2);
  }

  /** On well-formed date strings count_days is the difference of the day numbers; in
      particular a date is 0 days from itself. */
  lemma CountDaysOfFormatted(a: Date, b: Date)
    requires ValidDate(a) && ValidDate(b)
    ensures CountDays(Format(a), Format(b)).Ok? && CountDays(Format(a), Format(b)).value == Ordinal(b) - Ordinal(a)
    ensures CountDays(Format(a), Format(a)).Ok? && CountDays(Format(a), Format(a)).value == 0
  {
    ParseFormat(a);
    ParseFormat(b);
    CountDaysOfParsed(Format(a), Format(b), a, b);
    CountDaysOfParsed(Format(a), Format(a), a, a);
  }

  lemma CountDaysOfParsed(s1: string, s2: string, a: Date, b: Date)
    requires ParseDate(s1) == Ok(a) && ParseDate(s2) == Ok(b)
    ensures CountDays(s1, s2).Ok? && CountDays(s1, s2).value == Ordinal(b) - Ordinal(a)
  {
  }

  /** A year holds DaysInYear days. */
  lemma DaysBeforeNextYear(y: int)
    ensures DaysBeforeYear(y + 1) == DaysBeforeYear(y) + DaysInYear(y)
  {
    var p := y - 1;
    assert y / 4 == p / 4 + (if y % 4 == 0 then 1 else 0);
    assert y / 100 == p / 100 + (if y % 100 == 0 then 1 else 0);
    assert y / 400 == p / 400 + (if y % 400 == 0 then 1 else 0);
  }

  lemma DaysBeforeMonthBound(y: int, m: int)
    requires 1 <= m <= 12
    ensures DaysBeforeMonth(y, m) + DaysInMonth(y, m) <= DaysInYear(y)
    ensures m == 12 ==> DaysBeforeMonth(y, m) + DaysInMonth(y, m) == DaysInYear(y)
  {
  }

  /** The calendar day after `d`. */
  function NextDay(d: Date): (n: Date)
    requires ValidDate(d) && (d.year < 9999 || !(d.month == 12 && d.day == 31))
    ensures ValidDate(n)
  {
    if d.day < DaysInMonth(d.year, d.month) then Date(d.year, d.month, d.day + 1)
    else if d.month < 12 then Date(d.year, d.month + 1, 1)
    else Date(d.year + 1, 1, 1)
  }

  lemma OrdinalNextDay(d: Date)
    requires ValidDate(d) && (d.year < 9999 || !(d.month == 12 && d.day == 31))
    ensures Ordinal(NextDay(d)) == Ordinal(d) + 1
  {
    if d.day == DaysInMonth(d.year, d.month) && d.month == 12 {
      DaysBeforeMonthBound(d.year, 12);
      DaysBeforeNextYear(d.year);
    }
  }

  /** Consecutive calendar days are one day apart, across month and year ends. */
  lemma NextDayIsOneDay(d: Date)
    requires ValidDate(d) && (d.year < 9999 || !(d.month == 12 && d.day == 31))
    ensures CountDays(Format(d), Format(NextDay(d))) == Ok(1)
  {
    OrdinalNextDay(d);
    CountDaysOfFormatted(d, NextDay(d));
  }

  predicate Before(a: Date, b: Date) {
    a.year < b.year || (a.year == b.year && (a.month < b.month || (a.month == b.month && a.day < b.day)))
  }

  lemma {:induction false} DaysBeforeYearMonotone(y1: int, y2: int)
    requires y1 <= y2
    ensures DaysBeforeYear(y1) + (if y1 < y2 then DaysInYear(y1) else 0) <= DaysBeforeYear(y2)
    decreases y2 - y1
  {
    if y1 < y2 {
      DaysBeforeNextYear(y1);
      DaysBeforeYearMonotone(y1 + 1, y2);
    }
  }

  lemma {:induction false} DaysBeforeMonthMonotone(y: int, m1: int, m2: int)
    requires 1 <= m1 < m2 <= 12
    ensures DaysBeforeMonth(y, m1) + DaysInMonth(y, m1) <= DaysBeforeMonth(y, m2)
    decreases m2 - m1
  {
    if m1 + 1 < m2 {
      DaysBeforeMonthMonotone(y, m1 + 1, m2);
    }
  }

  /** Day numbers follow the calendar order. */
  lemma OrdinalOrder(a: Date, b: Date)
    requires ValidDate(a) && ValidDate(b)
    ensures Before(a, b) <==> Ordinal(a) < Ordinal(b)
  {
    if a.year < b.year {
      DaysBeforeMonthBound(a.year, a.month);
      DaysBeforeYearMonotone(a.year, b.year);
    } else if b.year < a.year {
      DaysBeforeMonthBound(b.year, b.month);
      DaysBeforeYearMonotone(b.year, a.year);
    } else if a.month < b.month {
      DaysBeforeMonthMonotone(a.year, a.month, b.month);
    } else if b.month < a.month {
      DaysBeforeMonthMonotone(a.year, b.month, a.month);
    }
  }

  /** count_days is positive exactly when the second date is later. */
  lemma CountDaysSign(a: Date, b: Date)
    requires ValidDate(a) && ValidDate(b)
    ensures CountDays(Format(a), Format(b)).Ok?
    ensures Before(a, b) <==> CountDays(Format(a), Format(b)).value > 0
  {
    OrdinalOrder(a, b);
    CountDaysOfFormatted(a, b);
  }
}
