/** Calendar dates and instants, as far as the backup job compares them. */
module Calendar {
  import opened Digits
  import opened Wrappers

  datatype Date = Date(year: nat, month: nat, day: nat)

  predicate IsLeap(year: nat) {
    year % 4 == 0 && (year % 100 != 0 || year % 400 == 0)
  }

  function DaysIn(month: nat, year: nat): nat {
    if month == 2 then (if IsLeap(year) then 29 else 28)
    else if month == 4 || month == 6 || month == 9 || month == 11 then 30
    else 31
  }

  /** The dates `time.Parse("20060102", …)` accepts. */
  predicate ValidDate(date: Date) {
    date.year <= 9999 && 1 <= date.month <= 12 && 1 <= date.day <= DaysIn(date.month, date.year)
  }

  function YearStart(year: nat): nat {
    if year == 0 then 0 else YearStart(year - 1) + (if IsLeap(year - 1) then 366 else 365)
  }

  /** Days of the year before the month. */
  function MonthStart(month: nat, year: nat): nat
    requires month >= 1
  {
    if month == 1 then 0 else MonthStart(month - 1, year) + DaysIn(month - 1, year)
  }

  /** Days since the first of January of the year 0. */
  function DayNumber(date: Date): nat
    requires ValidDate(date)
  {
    YearStart(date.year) + MonthStart(date.month, date.year) + date.day - 1
  }

  predicate Earlier(a: Date, b: Date) {
    || a.year < b.year
    || (a.year == b.year && (a.month < b.month || (a.month == b.month && a.day < b.day)))
  }

  lemma {:induction false} LaterMonthStarts(m: nat, n: nat, year: nat)
    requires 1 <= m < n
    ensures MonthStart(m, year) + DaysIn(m, year) <= MonthStart(n, year)
    decreases n
  {
    if m < n - 1 {
      LaterMonthStarts(m, n - 1, year);
    }
  }

  /** The days of a year before a month, by the rule that months of 30 and 31 days from March on
      come to 153 days in every five. */
  lemma MonthStartIsClosed(month: nat, year: nat)
    requires 1 <= month <= 12
    ensures MonthStart(month, year) ==
      if month <= 2 then 31 * (month - 1)
      else (153 * (month - 3) + 2) / 5 + (if IsLeap(year) then 60 else 59)
  {
    assert MonthStart(3, year) == MonthStart(2, year) + DaysIn(2, year);
    assert MonthStart(4, year) == MonthStart(3, year) + 31;
    assert MonthStart(5, year) == MonthStart(3, year) + 61;
    assert MonthStart(6, year) == MonthStart(5, year) + 31;
    assert MonthStart(7, year) == MonthStart(5, year) + 61;
    assert MonthStart(8, year) == MonthStart(7, year) + 31;
    assert MonthStart(9, year) == MonthStart(7, year) + 62;
    assert MonthStart(10, year) == MonthStart(9, year) + 30;
    assert MonthStart(11, year) == MonthStart(9, year) + 61;
    assert MonthStart(12, year) == MonthStart(11, year) + 30;
  }

  lemma MonthsFillYear(year: nat)
    ensures MonthStart(13, year) == if IsLeap(year) then 366 else 365
  {
    assert MonthStart(3, year) == MonthStart(2, year) + DaysIn(2, year);
    assert MonthStart(5, year) == MonthStart(3, year) + 61;
    assert MonthStart(7, year) == MonthStart(5, year) + 61;
    assert MonthStart(9, year) == MonthStart(7, year) + 62;
    assert MonthStart(11, year) == MonthStart(9, year) + 61;
  }

  lemma {:induction false} LaterYearStarts(y: nat, z: nat)
    requires y < z
    ensures YearStart(y + 1) <= YearStart(z)
    decreases z
  {
    if y + 1 < z {
      LaterYearStarts(y, z - 1);
    }
  }

  /** Leap years before a year: every fourth, except centuries that 400 does not divide. */
  function LeapsBefore(year: nat): int {
    (year + 3) / 4 - (year + 99) / 100 + (year + 399) / 400
  }

  lemma Fourths(year: nat)
    ensures (year + 4) / 4 == (year + 3) / 4 + (if year % 4 == 0 then 1 else 0)
  {
  }

  lemma Hundredths(year: nat)
    ensures (year + 100) / 100 == (year + 99) / 100 + (if year % 100 == 0 then 1 else 0)
    ensures year % 100 == 0 ==> year % 4 == 0
  {
    var century, rest := year / 100, year % 100;
    assert year == 100 * century + rest;
    assert rest == 0 ==> year == 4 * (25 * century);
  }

  lemma FourHundredths(year: nat)
    ensures (year + 400) / 400 == (year + 399) / 400 + (if year % 400 == 0 then 1 else 0)
    ensures year % 400 == 0 ==> year % 100 == 0
  {
    var cycle, rest := year / 400, year % 400;
    assert year == 400 * cycle + rest;
    assert rest == 0 ==> year == 100 * (4 * cycle);
  }

  lemma LeapsNext(year: nat)
    ensures LeapsBefore(year + 1) == LeapsBefore(year) + (if IsLeap(year) then 1 else 0)
  {
    Fourths(year);
    Hundredths(year);
    FourHundredths(year);
  }

  lemma {:induction false} YearStartIsClosed(year: nat)
    ensures YearStart(year) == 365 * year + LeapsBefore(year)
    decreases year
  {
    if year > 0 {
      YearStartIsClosed(year - 1);
      LeapsNext(year - 1);
    }
  }

  /** Day numbers follow the calendar. */
  lemma LaterDateHasLaterNumber(a: Date, b: Date)
    requires ValidDate(a) && ValidDate(b)
    ensures Earlier(a, b) <==> DayNumber(a) < DayNumber(b)
  {
    if Earlier(a, b) {
      EarlierIsLower(a, b);
    } else if Earlier(b, a) {
      EarlierIsLower(b, a);
    } else {
      assert a == b;
    }
  }

  lemma EarlierIsLower(a: Date, b: Date)
    requires ValidDate(a) && ValidDate(b) && Earlier(a, b)
    ensures DayNumber(a) < DayNumber(b)
  {
    if a.year < b.year {
      MonthsFillYear(a.year);
      LaterMonthStarts(a.month, 13, a.year);
      LaterYearStarts(a.year, b.year);
    } else if a.month < b.month {
      LaterMonthStarts(a.month, b.month, a.year);
    }
  }

  lemma SameNumberSameDate(a: Date, b: Date)
    requires ValidDate(a) && ValidDate(b) && DayNumber(a) == DayNumber(b)
    ensures a == b
  {
    LaterDateHasLaterNumber(a, b);
    LaterDateHasLaterNumber(b, a);
  }

  // ---------- the text form ----------

  /** `Format("20060102")`. */
  function FormatDate(date: Date): (text: string)
    ensures |text| == 8
  {
    Padded(date.year, 4) + Padded(date.month, 2) + Padded(date.day, 2)
  }

  /** `time.Parse("20060102", text)` for eight digits. */
  function ParseDate(text: string): (date: Option<Date>)
    requires |text| == 8
    ensures date.Some? ==> ValidDate(date.value)
  {
    var year, month, day := DigitsValue(text[..4]), DigitsValue(text[4..6]), DigitsValue(text[6..]);
    if year.None? || month.None? || day.None? || year.value > 9999 then None
    else
      var date := Date(year.value, month.value, day.value);
      if ValidDate(date) then Some(date) else None
  }

  lemma DateRoundTrip(date: Date)
    requires ValidDate(date)
    ensures AllDigits(FormatDate(date)) && ParseDate(FormatDate(date)) == Some(date)
  {
    var year, month, day := Padded(date.year, 4), Padded(date.month, 2), Padded(date.day, 2);
    var text := FormatDate(date);
    assert PowerOfTen(2) == 100 && PowerOfTen(4) == 10000;
    PaddedValue(date.year, 4);
    PaddedValue(date.month, 2);
    PaddedValue(date.day, 2);
    ValueNeedsDigits(year);
    ValueNeedsDigits(month);
    ValueNeedsDigits(day);
    ThreeParts(year, month, day);
    assert AllDigits(text);
  }

  /** Four digits of the year, two of the month, two of the day. */
  lemma {:induction false} DateIsWritten(
    date: Date, a: nat, b: nat, c: nat, d: nat, e: nat, f: nat, g: nat, h: nat)
    requires a <= 9 && b <= 9 && c <= 9 && d <= 9 && e <= 9 && f <= 9 && g <= 9 && h <= 9
    requires date.year == 1000 * a + 100 * b + 10 * c + d && date.month == 10 * e + f && date.day == 10 * g + h
    ensures FormatDate(date)
      == [DigitChar(a), DigitChar(b), DigitChar(c), DigitChar(d)] + [DigitChar(e), DigitChar(f)]
         + [DigitChar(g), DigitChar(h)]
  {
    FourDigits(a, b, c, d, date.year);
    TwoDigits(e, f, date.month);
    TwoDigits(g, h, date.day);
  }

  lemma ThreeParts(year: string, month: string, day: string)
    requires |year| == 4 && |month| == 2
    ensures var text := year + month + day; text[..4] == year && text[4..6] == month && text[6..] == day
  {
  }

  lemma TextOfDate(text: string)
    requires |text| == 8 && AllDigits(text) && ParseDate(text).Some?
    ensures FormatDate(ParseDate(text).value) == text
  {
    var year, month, day := text[..4], text[4..6], text[6..];
    assert AllDigits(year) && AllDigits(month) && AllDigits(day);
    ValuePadded(year);
    ValuePadded(month);
    ValuePadded(day);
    var date := ParseDate(text).value;
    assert Padded(date.year, 4) == year && Padded(date.month, 2) == month && Padded(date.day, 2) == day;
    assert text == year + month + day;
  }

  // ---------- instants ----------

  /** Nanoseconds in a day. */
  const DAY: int := 86_400_000_000_000

  /** A UTC instant: a date and the time since its midnight. */
  datatype Instant = Instant(date: Date, sinceMidnight: nat)

  predicate ValidInstant(instant: Instant) {
    ValidDate(instant.date) && instant.sinceMidnight < DAY
  }

  function Midnight(date: Date): int
    requires ValidDate(date)
  {
    DayNumber(date) * DAY
  }

  function Time(instant: Instant): int
    requires ValidInstant(instant)
  {
    Midnight(instant.date) + instant.sinceMidnight
  }
}
