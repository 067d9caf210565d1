/**
 * Calendar dates as the dashboard handles them: `YYYY-MM-DD` strings
 * (the date part of an ISO timestamp, the values of date inputs and the
 * database's date columns), their conversion to instants, and date-fns
 * `addDays`.
 *
 * Dates are proleptic Gregorian, from year 0 on. A date is given a day number
 * (days since 0000-01-01); instants are milliseconds since the Unix epoch. The
 * browser's time zone is taken to be UTC, so that a `YYYY-MM-DD` string,
 * which JavaScript reads as UTC midnight, and the local calendar fields
 * (`getFullYear`, `getMonth`, `getDate`) agree.
 */
module Calendar {
  import opened Optional
  import opened Text

  const MsPerDay: int := 86400000

  datatype Date = Date(year: int, month: int, day: int)

  predicate IsLeapYear(y: int) {
    y % 4 == 0 && (y % 100 != 0 || y % 400 == 0)
  }

  function YearLength(y: int): int {
    if IsLeapYear(y) then 366 else 365
  }

  function DaysInMonth(y: int, m: int): int {
    if m == 2 then (if IsLeapYear(y) then 29 else 28)
    else if m == 4 || m == 6 || m == 9 || m == 11 then 30
    else 31
  }

  predicate ValidDate(d: Date) {
    0 <= d.year && 1 <= d.month <= 12 && 1 <= d.day <= DaysInMonth(d.year, d.month)
  }

  /** Days in the years 0 .. y-1: each year has 365 days plus one per leap year among them. */
  function DaysBeforeYear(y: nat): nat {
    365 * y + (y + 3) / 4 - (y + 99) / 100 + (y + 399) / 400
  }

  lemma DaysBeforeNextYear(y: nat)
    ensures DaysBeforeYear(y + 1) == DaysBeforeYear(y) + YearLength(y)
  {
    StepOf4(y);
    StepOf100(y);
    StepOf400(y);
    DivisorChain(y);
    var y1 := y + 1;
    assert y1 + 3 == y + 4 && y1 + 99 == y + 100 && y1 + 399 == y + 400;
    assert DaysBeforeYear(y1) - DaysBeforeYear(y) == 365
      + ((y + 4) / 4 - (y + 3) / 4) - ((y + 100) / 100 - (y + 99) / 100) + ((y + 400) / 400 - (y + 399) / 400);
  }

  /** A multiple of 400 is a multiple of 100, and a multiple of 100 a multiple of 4. */
  lemma DivisorChain(y: nat)
    ensures y % 400 == 0 ==> y % 100 == 0
    ensures y % 100 == 0 ==> y % 4 == 0
  {
    if y % 400 == 0 {
      var q := y / 400;
      assert y == 100 * (4 * q);
    }
    if y % 100 == 0 {
      var q := y / 100;
      assert y == 4 * (25 * q);
    }
  }

  // Passing from `y` to `y + 1`, the count of multiples of 4, 100 or 400
  // below the year grows by one exactly when the divisor divides `y`.

  lemma StepOf4(y: nat)
    ensures (y + 4) / 4 - (y + 3) / 4 == if y % 4 == 0 then 1 else 0
  {
    var q, r := y / 4, y % 4;
    assert y + 4 == 4 * (q + 1) + r;
    assert y + 3 == if r == 0 then 4 * q + 3 else 4 * (q + 1) + (r - 1);
  }

  lemma StepOf100(y: nat)
    ensures (y + 100) / 100 - (y + 99) / 100 == if y % 100 == 0 then 1 else 0
  {
    var q, r := y / 100, y % 100;
    assert y + 100 == 100 * (q + 1) + r;
    assert y + 99 == if r == 0 then 100 * q + 99 else 100 * (q + 1) + (r - 1);
  }

  lemma StepOf400(y: nat)
    ensures (y + 400) / 400 - (y + 399) / 400 == if y % 400 == 0 then 1 else 0
  {
    var q, r := y / 400, y % 400;
    assert y + 400 == 400 * (q + 1) + r;
    assert y + 399 == if r == 0 then 400 * q + 399 else 400 * (q + 1) + (r - 1);
  }

  lemma {:induction false} DaysBeforeYearMonotone(y: nat, y': nat)
    requires y <= y'
    ensures DaysBeforeYear(y) + (if y < y' then YearLength(y) else 0) <= DaysBeforeYear(y')
    decreases y' - y
  {
    if y < y' {
      DaysBeforeNextYear(y);
      DaysBeforeYearMonotone(y + 1, y');
    }
  }

  /** Days of year `y` before the first of month `m`. */
  function DaysBeforeMonth(y: int, m: int): nat
    requires 1 <= m <= 12
  {
    var leap := if IsLeapYear(y) then 1 else 0;
    if m == 1 then 0
    else if m == 2 then 31
    else [59, 90, 120, 151, 181, 212, 243, 273, 304, 334][m - 3] + leap
  }

  lemma DaysBeforeMonthStep(y: int, m: int, m': int)
    requires 1 <= m < m' <= 12
    ensures DaysBeforeMonth(y, m) + DaysInMonth(y, m) <= DaysBeforeMonth(y, m')
  {
  }

  lemma DaysBeforeMonthLast(y: int, m: int)
    requires 1 <= m <= 12
    ensures DaysBeforeMonth(y, m) + DaysInMonth(y, m) <= YearLength(y)
    ensures m == 12 ==> DaysBeforeMonth(y, m) + DaysInMonth(y, m) == YearLength(y)
  {
  }

  /** Days from 0000-01-01 to `d`. */
  function DayNumber(d: Date): int
    requires ValidDate(d)
  {
    DaysBeforeYear(d.year) + DaysBeforeMonth(d.year, d.month) + d.day - 1
  }

  /** Calendar order: by year, then month, then day. */
  predicate DateBefore(a: Date, b: Date) {
    a.year < b.year || (a.year == b.year && (a.month < b.month || (a.month == b.month && a.day < b.day)))
  }

  /** Day numbers follow the calendar order. */
  lemma DayNumberOrder(a: Date, b: Date)
    requires ValidDate(a) && ValidDate(b)
    ensures DateBefore(a, b) <==> DayNumber(a) < DayNumber(b)
    ensures a == b <==> DayNumber(a) == DayNumber(b)
  {
    if DateBefore(a, b) {
      DayNumberBefore(a, b);
    } else if DateBefore(b, a) {
      DayNumberBefore(b, a);
    }
  }

  lemma DayNumberBefore(a: Date, b: Date)
    requires ValidDate(a) && ValidDate(b)
    requires DateBefore(a, b)
    ensures DayNumber(a) < DayNumber(b)
  {
    if a.year < b.year {
      DaysBeforeMonthLast(a.year, a.month);
      DaysBeforeYearMonotone(a.year, b.year);
    } else if a.month < b.month {
      DaysBeforeMonthStep(a.year, a.month, b.month);
    }
  }

  /** The day after `d`. */
  function NextDay(d: Date): Date {
    if d.day < DaysInMonth(d.year, d.month) then Date(d.year, d.month, d.day + 1)
    else if d.month < 12 then Date(d.year, d.month + 1, 1)
    else Date(d.year + 1, 1, 1)
  }

  lemma NextDayNumber(d: Date)
    requires ValidDate(d)
    ensures ValidDate(NextDay(d))
    ensures DayNumber(NextDay(d)) == DayNumber(d) + 1
  {
    if d.day == DaysInMonth(d.year, d.month) {
      if d.month < 12 {
      } else {
        DaysBeforeNextYear(d.year);
        DaysBeforeMonthLast(d.year, d.month);
      }
    }
  }

  /** date-fns `addDays(d, k)` for a whole number of days `k >= 0`. */
  function AddDays(d: Date, k: nat): (r: Date)
    requires ValidDate(d)
    ensures ValidDate(r)
    ensures DayNumber(r) == DayNumber(d) + k
    decreases k
  {
    if k == 0 then d
    else
      NextDayNumber(d);
      AddDays(NextDay(d), k - 1)
  }

  /** Adding days never moves a date before itself. */
  lemma AddDaysNotBefore(d: Date, k: nat)
    requires ValidDate(d)
    ensures !DateBefore(AddDays(d, k), d)
    ensures k > 0 ==> DateBefore(d, AddDays(d, k))
  {
    DayNumberOrder(AddDays(d, k), d);
    DayNumberOrder(d, AddDays(d, k));
  }

  /** Adding at most a year of days moves into the next year at the latest. */
  lemma AddDaysYear(d: Date, k: nat)
    requires ValidDate(d) && k <= 365
    ensures AddDays(d, k).year <= d.year + 1
  {
    var r := AddDays(d, k);
    // `d` lies before the start of the next year, and that year has at least 365 days.
    DaysBeforeMonthLast(d.year, d.month);
    DaysBeforeNextYear(d.year);
    DaysBeforeNextYear(d.year + 1);
    if r.year >= d.year + 2 {
      DaysBeforeYearMonotone(d.year + 2, r.year);
    }
  }

  // ---------------------------------------------------------------------------
  // ISO `YYYY-MM-DD` text

  /** The year as `toISOString` writes it: four digits, or `+` and six digits past 9999. */
  function IsoYear(y: nat): string {
    if y <= 9999 then PadDigits(y, 4) else "+" + PadDigits(y, 6)
  }

  /** The `YYYY-MM-DD` text of `d`; years past 9999 get a "+" and six digits, as ISO timestamps write them. */
  function FormatIsoDate(d: Date): (s: string)
    requires ValidDate(d)
    ensures d.year <= 9999 ==> |s| == 10
  {
    IsoYear(d.year) + "-" + PadDigits(d.month, 2) + "-" + PadDigits(d.day, 2)
  }

  /** Reading a date-only string as a date: valid exactly for well-formed `YYYY-MM-DD` text of a real date. */
  function ParseIsoDate(s: string): (r: Option<Date>)
    ensures r.Some? ==> ValidDate(r.value) && r.value.year <= 9999
  {
    if |s| == 10 && s[4] == '-' && s[7] == '-'
       && AllDigits(s[..4]) && AllDigits(s[5..7]) && AllDigits(s[8..])
    then
      var d := Date(DigitsValue(s[..4]), DigitsValue(s[5..7]), DigitsValue(s[8..]));
      DigitsValueBound(s[..4]);
      if ValidDate(d) then Some(d) else None
    else None
  }

  /** The value of a `w`-digit numeral is below 10^w. */
  lemma {:induction false} DigitsValueBound(s: string)
    requires AllDigits(s)
    ensures DigitsValue(s) < Pow10(|s|)
    decreases |s|
  {
    if s != [] {
      DigitsValueBound(s[..|s| - 1]);
    }
  }

  /** Writing a numeral back with as many digits as it had gives the same text. */
  lemma {:induction false} PadDigitsOfValue(s: string)
    requires AllDigits(s)
    ensures PadDigits(DigitsValue(s), |s|) == s
    decreases |s|
  {
    if s != [] {
      var t := s[..|s| - 1];
      PadDigitsOfValue(t);
      var v := DigitsValue(s);
      assert v / 10 == DigitsValue(t) && v % 10 == DigitValue(s[|s| - 1]);
      assert s == t + [s[|s| - 1]];
    }
  }

  /** Formatting a date and reading it back gives the date. */
  lemma ParseFormat(d: Date)
    requires ValidDate(d) && d.year <= 9999
    ensures ParseIsoDate(FormatIsoDate(d)) == Some(d)
  {
    var s := FormatIsoDate(d);
    var y, m, dd := PadDigits(d.year, 4), PadDigits(d.month, 2), PadDigits(d.day, 2);
    assert s == y + "-" + m + "-" + dd;
    assert s[..4] == y && s[5..7] == m && s[8..] == dd;
    PadDigitsValue(d.year, 4);
    PadDigitsValue(d.month, 2);
    PadDigitsValue(d.day, 2);
  }

  /** A string that parses is exactly the formatted form of its date: the format is canonical. */
  lemma FormatParse(s: string)
    requires ParseIsoDate(s).Some?
    ensures FormatIsoDate(ParseIsoDate(s).value) == s
  {
    var d := ParseIsoDate(s).value;
    PadDigitsOfValue(s[..4]);
    PadDigitsOfValue(s[5..7]);
    PadDigitsOfValue(s[8..]);
    assert s == s[..4] + "-" + s[5..7] + "-" + s[8..];
  }

  /**
   * On well-formed dates, comparing the ISO strings with `<` is comparing the
   * days: the source's `v.next_date > today_str` is a date comparison.
   */
  lemma IsoOrder(a: Date, b: Date)
    requires ValidDate(a) && a.year <= 9999
    requires ValidDate(b) && b.year <= 9999
    ensures StrLess(FormatIsoDate(a), FormatIsoDate(b)) <==> DayNumber(a) < DayNumber(b)
  {
    var ya, ma, da := PadDigits(a.year, 4), PadDigits(a.month, 2), PadDigits(a.day, 2);
    var yb, mb, db := PadDigits(b.year, 4), PadDigits(b.month, 2), PadDigits(b.day, 2);
    assert FormatIsoDate(a) == ya + ("-" + (ma + ("-" + da)));
    assert FormatIsoDate(b) == yb + ("-" + (mb + ("-" + db)));
    StrLessConcat(ya, "-" + (ma + ("-" + da)), yb, "-" + (mb + ("-" + db)));
    StrLessConcat("-", ma + ("-" + da), "-", mb + ("-" + db));
    StrLessConcat(ma, "-" + da, mb, "-" + db);
    StrLessConcat("-", da, "-", db);
    StrLessIrreflexive("-");
    PadDigitsOrder(a.year, b.year, 4);
    PadDigitsOrder(a.month, b.month, 2);
    PadDigitsOrder(a.day, b.day, 2);
    PadDigitsValue(a.year, 4);
    PadDigitsValue(b.year, 4);
    PadDigitsValue(a.month, 2);
    PadDigitsValue(b.month, 2);
    DayNumberOrder(a, b);
  }

  /** `s1 < s2` on two strings that parse as dates is the order of their days. */
  lemma IsoStringOrder(s1: string, s2: string)
    requires ParseIsoDate(s1).Some? && ParseIsoDate(s2).Some?
    ensures StrLess(s1, s2) <==> DayNumber(ParseIsoDate(s1).value) < DayNumber(ParseIsoDate(s2).value)
  {
    FormatParse(s1);
    FormatParse(s2);
    IsoOrder(ParseIsoDate(s1).value, ParseIsoDate(s2).value);
  }

  // ---------------------------------------------------------------------------
  // The clock: `new Date()`

  /** The current moment: today's date and the milliseconds elapsed since its midnight. */
  datatype Clock = Clock(today: Date, msOfDay: int)

  predicate ValidClock(c: Clock) {
    ValidDate(c.today) && c.today.year <= 9999 && 0 <= c.msOfDay < MsPerDay
  }

  /** The day number of 1970-01-01, where instants count from. */
  function EpochDay(): int {
    DayNumber(Date(1970, 1, 1))
  }

  /** The instant of midnight UTC at the start of `d`, in milliseconds since the epoch. */
  function DayStart(d: Date): int
    requires ValidDate(d)
  {
    (DayNumber(d) - EpochDay()) * MsPerDay
  }

  /** The current instant, in milliseconds since the epoch. */
  function Now(c: Clock): int
    requires ValidClock(c)
  {
    DayStart(c.today) + c.msOfDay
  }

  /** Today's date as `YYYY-MM-DD` text, in UTC. */
  function TodayString(c: Clock): string
    requires ValidClock(c)
  {
    FormatIsoDate(c.today)
  }

  /** An instant lies in the day that starts at its day start, and day starts are one day apart. */
  lemma DayStartOrder(a: Date, b: Date)
    requires ValidDate(a) && ValidDate(b)
    ensures DayStart(b) - DayStart(a) == (DayNumber(b) - DayNumber(a)) * MsPerDay
  {
  }
}
