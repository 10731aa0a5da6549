/** The proleptic Gregorian calendar of Python's `datetime`: which dates and
    times exist, how `strftime('%Y-%m-%d')` and `isoformat()` render them,
    and day arithmetic through the ordinal of a date (`date.toordinal()`,
    in which 0001-01-01 is day 1). */
module Calendar {
  import opened Basics

  datatype Date = Date(year: int, month: int, day: int)

  datatype DateTime = DateTime(date: Date, hour: int, minute: int, second: int)

  predicate IsLeap(y: int)
  {
    y % 4 == 0 && (y % 100 != 0 || y % 400 == 0)
  }

  function DaysInMonth(y: int, m: int): (n: int)
    requires 1 <= m <= 12
    ensures 28 <= n <= 31
  {
    if m == 2 then (if IsLeap(y) then 29 else 28)
    else if m == 4 || m == 6 || m == 9 || m == 11 then 30
    else 31
  }

  /** The dates `datetime` accepts: years 1 to 9999, and a day that exists
      in its month. */
  predicate ValidDate(d: Date)
  {
    1 <= d.year <= 9999 && 1 <= d.month <= 12 && 1 <= d.day <= DaysInMonth(d.year, d.month)
  }

  predicate ValidDateTime(t: DateTime)
  {
    ValidDate(t.date) && 0 <= t.hour <= 23 && 0 <= t.minute <= 59 && 0 <= t.second <= 59
  }

  /** A zero-padded two-digit field. */
  function Pad2(n: nat): (r: string)
    requires n < 100
    ensures |r| == 2 && '0' <= r[0] <= '9' && '0' <= r[1] <= '9'
  {
    [DigitChar(n / 10), DigitChar(n % 10)]
  }

  /** A zero-padded four-digit year. */
  function Pad4(n: nat): (r: string)
    requires n < 10000
    ensures |r| == 4 && forall k :: 0 <= k < 4 ==> '0' <= r[k] <= '9'
  {
    Pad2(n / 100) + Pad2(n % 100)
  }

  /** `date.strftime('%Y-%m-%d')`. */
  function DateText(d: Date): (r: string)
    requires ValidDate(d)
    ensures |r| == 10 && r[4] == '-' && r[7] == '-'
  {
    Pad4(d.year) + "-" + Pad2(d.month) + "-" + Pad2(d.day)
  }

  /** `datetime.isoformat()` for a datetime without microseconds: the
      extended combined form YYYY-MM-DDTHH:MM:SS of ISO 8601. */
  function IsoFormat(t: DateTime): (r: string)
    requires ValidDateTime(t)
    ensures |r| == 19 && r[..10] == DateText(t.date) && r[10] == 'T' && r[13] == ':' && r[16] == ':'
  {
    DateText(t.date) + "T" + Pad2(t.hour) + ":" + Pad2(t.minute) + ":" + Pad2(t.second)
  }

  function YearLength(y: int): int
  {
    if IsLeap(y) then 366 else 365
  }

  function DaysBeforeYear(y: int): nat
    requires y >= 1
  {
    if y == 1 then 0 else DaysBeforeYear(y - 1) + YearLength(y - 1)
  }

  function DaysBeforeMonth(y: int, m: int): (n: nat)
    requires 1 <= m <= 12
  {
    [0, 31, 59, 90, 120, 151, 181, 212, 243, 273, 304, 334][m - 1] + (if m > 2 && IsLeap(y) then 1 else 0)
  }

  /** `date.toordinal()`. */
  function Ordinal(d: Date): (n: int)
    requires ValidDate(d)
    ensures n >= 1
  {
    DaysBeforeYear(d.year) + DaysBeforeMonth(d.year, d.month) + d.day
  }

  /** The day before `d`. */
  function PrevDay(d: Date): (p: Date)
    requires ValidDate(d) && Ordinal(d) > 1
    ensures ValidDate(p) && Ordinal(p) == Ordinal(d) - 1
  {
    if d.day > 1 then Date(d.year, d.month, d.day - 1)
    else if d.month > 1 then
      MonthStep(d.year, d.month);
      Date(d.year, d.month - 1, DaysInMonth(d.year, d.month - 1))
    else
      YearStep(d.year);
      Date(d.year - 1, 12, 31)
  }

  /** A month starts the day after the previous month ends. */
  lemma MonthStep(y: int, m: int)
    requires 2 <= m <= 12
    ensures DaysBeforeMonth(y, m) == DaysBeforeMonth(y, m - 1) + DaysInMonth(y, m - 1)
  {
  }

  /** A year starts the day after 31 December of the previous one. */
  lemma YearStep(y: int)
    requires y > 1
    ensures DaysBeforeYear(y) == DaysBeforeYear(y - 1) + DaysBeforeMonth(y - 1, 12) + 31
  {
  }

  /** `d - timedelta(days=n)`, or None where Python raises OverflowError
      because the result would precede 0001-01-01. */
  function MinusDays(d: Date, n: nat): (r: Option<Date>)
    requires ValidDate(d)
    ensures r.Some? <==> Ordinal(d) > n
    ensures r.Some? ==> ValidDate(r.value) && Ordinal(r.value) == Ordinal(d) - n
    decreases n
  {
    if n == 0 then Some(d)
    else if Ordinal(d) == 1 then None
    else MinusDays(PrevDay(d), n - 1)
  }

  lemma DayOfYearBound(d: Date)
    requires ValidDate(d)
    ensures DaysBeforeMonth(d.year, d.month) + d.day <= YearLength(d.year)
  {
  }

  lemma {:induction false} DaysBeforeYearGrows(a: int, b: int)
    requires 1 <= a < b
    ensures DaysBeforeYear(a) + YearLength(a) <= DaysBeforeYear(b)
    decreases b - a
  {
    if a + 1 < b {
      DaysBeforeYearGrows(a, b - 1);
    }
  }

  /** Distinct valid dates have distinct ordinals, so "the date whose
      ordinal is k" is well defined. */
  lemma OrdinalInjective(a: Date, b: Date)
    requires ValidDate(a) && ValidDate(b) && Ordinal(a) == Ordinal(b)
    ensures a == b
  {
    if a.year < b.year {
      DayOfYearBound(a);
      DaysBeforeYearGrows(a.year, b.year);
      assert false;
    } else if b.year < a.year {
      DayOfYearBound(b);
      DaysBeforeYearGrows(b.year, a.year);
      assert false;
    }
  }
}
