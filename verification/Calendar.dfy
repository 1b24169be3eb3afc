/**
 * The proleptic Gregorian calendar that the resolver relies on: day arithmetic, weekdays
 * and month arithmetic with clamped days.
 */
module Calendar {
  datatype Date = Date(year: int, month: int, day: int)

  predicate Leap(y: int) {
    y % 4 == 0 && (y % 100 != 0 || y % 400 == 0)
  }

  function DaysIn(y: int, m: int): int {
    if m == 2 then (if Leap(y) then 29 else 28)
    else if m == 4 || m == 6 || m == 9 || m == 11 then 30 else 31
  }

  predicate Valid(d: Date) {
    1 <= d.month <= 12 && 1 <= d.day <= DaysIn(d.year, d.month)
  }

  /** The order of dates: by year, then month, then day. */
  predicate AtMost(a: Date, b: Date) {
    a.year < b.year || (a.year == b.year && (a.month < b.month || (a.month == b.month && a.day <= b.day)))
  }

  // ------------------------------------------------------------------------ day numbers

  /** The multiples of `n` before the year. */
  function MultiplesBefore(y: int, n: int): int
    requires n > 0
  {
    (y - 1) / n
  }

  /** Days from 1 January of year 1 to 1 January of the year. */
  function YearStart(y: int): int {
    365 * (y - 1) + MultiplesBefore(y, 4) - MultiplesBefore(y, 100) + MultiplesBefore(y, 400)
  }

  function MonthStart(y: int, m: int): int
    requires 1 <= m <= 13
    decreases m
  {
    if m == 1 then 0 else MonthStart(y, m - 1) + DaysIn(y, m - 1)
  }

  /** Days since Monday, 1 January of year 1. */
  function DayNumber(d: Date): int
    requires Valid(d)
  {
    YearStart(d.year) + MonthStart(d.year, d.month) + d.day - 1
  }

  function Weekday(d: Date): (w: int)
    requires Valid(d)
  {
    DayNumber(d) % 7
  }

  const MONTH_LENGTHS := [31, 28, 31, 30, 31, 30, 31, 31, 30, 31, 30, 31]

  /** The calendar is anchored: the month lengths, and two days known to be Mondays. */
  lemma CalendarIsAnchored(y: int, m: int)
    requires 1 <= m <= 12
    ensures DaysIn(y, m) == MONTH_LENGTHS[m - 1] + if m == 2 && Leap(y) then 1 else 0
    ensures Leap(y) <==> (y % 4 == 0 && y % 100 != 0) || y % 400 == 0
    ensures Weekday(Date(1, 1, 1)) == 0 && Weekday(Date(2024, 1, 1)) == 0
  {
    if y % 400 == 0 {
      FourHundredthIsHundredth(y);
      HundredthIsFourth(y);
    }
  }

  lemma OneMoreMultiple(y: int, n: int)
    requires n == 4 || n == 100 || n == 400
    ensures MultiplesBefore(y + 1, n) == MultiplesBefore(y, n) + if y % n == 0 then 1 else 0
  {
  }

  lemma MultipleOf(n: int, k: int)
    requires n == 4 || n == 100
    ensures (n * k) % n == 0
  {
  }

  lemma HundredthIsFourth(y: int)
    requires y % 100 == 0
    ensures y % 4 == 0
  {
    assert y == 4 * (25 * (y / 100));
    MultipleOf(4, 25 * (y / 100));
  }

  lemma FourHundredthIsHundredth(y: int)
    requires y % 400 == 0
    ensures y % 100 == 0
  {
    assert y == 100 * (4 * (y / 400));
    MultipleOf(100, 4 * (y / 400));
  }

  lemma YearLength(y: int)
    ensures YearStart(y + 1) == YearStart(y) + if Leap(y) then 366 else 365
  {
    OneMoreMultiple(y, 4);
    OneMoreMultiple(y, 100);
    OneMoreMultiple(y, 400);
    if y % 400 == 0 { FourHundredthIsHundredth(y); }
    if y % 100 == 0 { HundredthIsFourth(y); }
  }

  lemma MonthsMakeYear(y: int)
    ensures MonthStart(y, 13) == if Leap(y) then 366 else 365
  {
  }

  lemma {:induction false} MonthStartGrows(y: int, m: int, n: int)
    requires 1 <= m <= n <= 13
    ensures MonthStart(y, n) >= MonthStart(y, m) + 28 * (n - m)
    decreases n
  {
    if m < n { MonthStartGrows(y, m, n - 1); }
  }

  lemma {:induction false} YearStartGrows(y: int, z: int)
    requires y <= z
    ensures YearStart(z) >= YearStart(y) + 365 * (z - y)
    decreases z - y
  {
    if y < z {
      YearStartGrows(y, z - 1);
      YearLength(z - 1);
    }
  }

  lemma DayOfYearBounds(d: Date)
    requires Valid(d)
    ensures YearStart(d.year) <= DayNumber(d) < YearStart(d.year + 1)
  {
    MonthStartGrows(d.year, 1, d.month);
    MonthStartGrows(d.year, d.month + 1, 13);
    MonthsMakeYear(d.year);
    YearLength(d.year);
  }

  lemma EarlierYearIsLower(a: Date, b: Date)
    requires Valid(a) && Valid(b) && a.year < b.year
    ensures DayNumber(a) < DayNumber(b)
  {
    DayOfYearBounds(a);
    DayOfYearBounds(b);
    YearStartGrows(a.year + 1, b.year);
  }

  lemma EarlierMonthIsLower(a: Date, b: Date)
    requires Valid(a) && Valid(b) && a.year == b.year && a.month < b.month
    ensures DayNumber(a) < DayNumber(b)
  {
    MonthStartGrows(a.year, a.month + 1, b.month);
    assert MonthStart(a.year, a.month + 1) == MonthStart(a.year, a.month) + DaysIn(a.year, a.month);
  }

  lemma EarlierIsLower(a: Date, b: Date)
    requires Valid(a) && Valid(b) && AtMost(a, b) && a != b
    ensures DayNumber(a) < DayNumber(b)
  {
    if a.year < b.year { EarlierYearIsLower(a, b); } else if a.month < b.month { EarlierMonthIsLower(a, b); }
  }

  /** Day numbers order dates, and no two dates share one. */
  lemma NumbersOrderDates(a: Date, b: Date)
    requires Valid(a) && Valid(b)
    ensures AtMost(a, b) <==> DayNumber(a) <= DayNumber(b)
    ensures a == b <==> DayNumber(a) == DayNumber(b)
  {
    if a != b {
      if AtMost(a, b) { EarlierIsLower(a, b); } else { EarlierIsLower(b, a); }
    }
  }

  // --------------------------------------------------------------------- day arithmetic

  function NextDay(d: Date): Date {
    if d.day < DaysIn(d.year, d.month) then d.(day := d.day + 1)
    else if d.month < 12 then Date(d.year, d.month + 1, 1)
    else Date(d.year + 1, 1, 1)
  }

  function PrevDay(d: Date): Date {
    if d.day > 1 then d.(day := d.day - 1)
    else if d.month > 1 then Date(d.year, d.month - 1, DaysIn(d.year, d.month - 1))
    else Date(d.year - 1, 12, 31)
  }

  lemma LastOfYearNumber(y: int)
    ensures DayNumber(Date(y, 12, 31)) == YearStart(y + 1) - 1
  {
    YearLength(y);
    MonthsMakeYear(y);
    assert MonthStart(y, 13) == MonthStart(y, 12) + DaysIn(y, 12);
  }

  lemma NextDayNumber(d: Date)
    requires Valid(d)
    ensures Valid(NextDay(d)) && DayNumber(NextDay(d)) == DayNumber(d) + 1
  {
    if d.day == DaysIn(d.year, d.month) && d.month == 12 {
      LastOfYearNumber(d.year);
    }
  }

  lemma PrevDayNumber(d: Date)
    requires Valid(d)
    ensures Valid(PrevDay(d)) && DayNumber(PrevDay(d)) == DayNumber(d) - 1
  {
    if d.day == 1 && d.month == 1 {
      LastOfYearNumber(d.year - 1);
    }
  }

  function PlusDays(d: Date, n: int): Date
    decreases if n < 0 then -n else n
  {
    if n == 0 then d else if n > 0 then NextDay(PlusDays(d, n - 1)) else PrevDay(PlusDays(d, n + 1))
  }

  lemma {:induction false} PlusDaysNumber(d: Date, n: int)
    requires Valid(d)
    ensures Valid(PlusDays(d, n)) && DayNumber(PlusDays(d, n)) == DayNumber(d) + n
    decreases if n < 0 then -n else n
  {
    if n > 0 {
      PlusDaysNumber(d, n - 1);
      NextDayNumber(PlusDays(d, n - 1));
    } else if n < 0 {
      PlusDaysNumber(d, n + 1);
      PrevDayNumber(PlusDays(d, n + 1));
    }
  }

  // ------------------------------------------------------------------- month arithmetic

  /** Months since January of year 0. */
  function MonthIndex(d: Date): int {
    12 * d.year + d.month - 1
  }

  /** Moves by months; a day the new month does not have becomes its last day. */
  function PlusMonths(d: Date, n: int): Date {
    var y, m := (MonthIndex(d) + n) / 12, (MonthIndex(d) + n) % 12 + 1;
    Date(y, m, if d.day > DaysIn(y, m) then DaysIn(y, m) else d.day)
  }

  lemma PlusMonthsIndex(d: Date, n: int)
    requires Valid(d)
    ensures Valid(PlusMonths(d, n)) && MonthIndex(PlusMonths(d, n)) == MonthIndex(d) + n
    ensures PlusMonths(d, n).day <= d.day
    ensures PlusMonths(d, n).day == d.day || NextDay(PlusMonths(d, n)).day == 1
  {
  }

  function StartOfMonth(d: Date): Date {
    Date(d.year, d.month, 1)
  }

  function EndOfMonth(d: Date): Date {
    PlusDays(PlusMonths(StartOfMonth(d), 1), -1)
  }

  function WeekStart(d: Date): Date
    requires Valid(d)
  {
    PlusDays(d, -Weekday(d))
  }

  lemma SameIndexSameMonth(a: Date, b: Date)
    requires Valid(a) && Valid(b)
    ensures MonthIndex(a) == MonthIndex(b) <==> a.year == b.year && a.month == b.month
  {
  }

  lemma IndexSplits(y: int, m: int)
    requires 0 <= m < 12
    ensures (12 * y + m) / 12 == y && (12 * y + m) % 12 == m
  {
  }

  /** The day before the next month begins is the last day of this one. */
  lemma EndOfMonthIsLast(d: Date)
    requires Valid(d)
    ensures EndOfMonth(d) == Date(d.year, d.month, DaysIn(d.year, d.month))
    ensures NextDay(EndOfMonth(d)) == PlusMonths(StartOfMonth(d), 1)
  {
  }
}
