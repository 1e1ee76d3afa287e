/** The slice of java.time the Pet aggregate uses: LocalDate as a (year, month, day)
    triple, `LocalDate.isAfter`, and the years component of `Period.between`. */
module Dates {

  /** Year.MIN_VALUE and Year.MAX_VALUE, the range of LocalDate. */
  const MinYear: int := -999_999_999
  const MaxYear: int := 999_999_999

  /** Bounds of a Java `int`, the return type of `calculateAgeInYears`. */
  const IntMin: int := -0x8000_0000
  const IntMax: int := 0x7FFF_FFFF

  datatype Date = Date(year: int, month: int, day: int)

  /** IsoChronology.isLeapYear (proleptic Gregorian calendar). */
  predicate IsLeapYear(year: int) {
    year % 4 == 0 && (year % 100 != 0 || year % 400 == 0)
  }

  function LengthOfMonth(year: int, month: int): (n: int)
    ensures 28 <= n <= 31
    ensures month == 2 ==> (n == 29 <==> IsLeapYear(year))
  {
    if month == 2 then (if IsLeapYear(year) then 29 else 28)
    else if month == 4 || month == 6 || month == 9 || month == 11 then 30
    else 31
  }

  /** The triples a LocalDate can hold. */
  predicate ValidDate(d: Date) {
    && MinYear <= d.year <= MaxYear
    && 1 <= d.month <= 12
    && 1 <= d.day <= LengthOfMonth(d.year, d.month)
  }

  /** LocalDate.compareTo0: compare years, then months, then days. */
  function CompareTo(a: Date, b: Date): int {
    if a.year != b.year then a.year - b.year
    else if a.month != b.month then a.month - b.month
    else a.day - b.day
  }

  /** LocalDate.isAfter. */
  predicate IsAfter(a: Date, b: Date) {
    CompareTo(a, b) > 0
  }

  /** `isAfter` is a strict total order on dates. */
  lemma IsAfterStrictTotalOrder(a: Date, b: Date, c: Date)
    ensures !IsAfter(a, a)
    ensures IsAfter(a, b) ==> !IsAfter(b, a)
    ensures IsAfter(a, b) && IsAfter(b, c) ==> IsAfter(a, c)
    ensures a == b || IsAfter(a, b) || IsAfter(b, a)
  {
  }

  /** The day before `d` in the proleptic Gregorian calendar. */
  function PrevDay(d: Date): Date {
    if d.day > 1 then Date(d.year, d.month, d.day - 1)
    else if d.month > 1 then Date(d.year, d.month - 1, LengthOfMonth(d.year, d.month - 1))
    else Date(d.year - 1, 12, 31)
  }

  /** PrevDay is the immediate predecessor: a valid date before `d`, with no
      valid date strictly between the two. */
  lemma PrevDayIsPredecessor(d: Date)
    requires ValidDate(d) && d.year > MinYear
    ensures ValidDate(PrevDay(d))
    ensures IsAfter(d, PrevDay(d))
    ensures forall x :: ValidDate(x) && IsAfter(d, x) ==> !IsAfter(x, PrevDay(d))
  {
  }

  /** LocalDate.getProlepticMonth: months counted from year 0, January. */
  function ProlepticMonth(d: Date): int {
    d.year * 12 + d.month - 1
  }

  /** Java's `/` on longs, which truncates toward zero. */
  function TruncDiv(a: int, n: int): int
    requires n > 0
  {
    if a >= 0 then a / n else -((-a) / n)
  }

  /** Period.between(start, end).getYears(), following LocalDate.until: whole
      months between the proleptic months, one fewer when the day of month has not
      been reached yet (one more when counting backwards), then truncating division
      by twelve. The days and months components of the Period are never read by
      the aggregate and are not computed. */
  function YearsBetween(start: Date, end: Date): int {
    var totalMonths := ProlepticMonth(end) - ProlepticMonth(start);
    var days := end.day - start.day;
    var adjusted :=
      if totalMonths > 0 && days < 0 then totalMonths - 1
      else if totalMonths < 0 && days > 0 then totalMonths + 1
      else totalMonths;
    TruncDiv(adjusted, 12)
  }

  /** (a.month, a.day) comes strictly before (b.month, b.day) within a year. */
  predicate MonthDayBefore(a: Date, b: Date) {
    a.month < b.month || (a.month == b.month && a.day < b.day)
  }

  /** Reference definition of a calendar age: the difference of the years, less
      one when the birthday has not come round yet this year. */
  function WholeYears(birth: Date, today: Date): int {
    today.year - birth.year - (if MonthDayBefore(today, birth) then 1 else 0)
  }

  /** When `start` is not after `end`, Java's month arithmetic counts exactly the
      whole calendar years, and that count is never negative. */
  lemma YearsBetweenIsWholeYears(start: Date, end: Date)
    requires ValidDate(start) && ValidDate(end)
    requires !IsAfter(start, end)
    ensures YearsBetween(start, end) == WholeYears(start, end)
    ensures YearsBetween(start, end) >= 0
  {
    var dy := end.year - start.year;
    var totalMonths := ProlepticMonth(end) - ProlepticMonth(start);
    assert totalMonths == 12 * dy + (end.month - start.month);
    assert dy >= 0;
    if end.month > start.month {
      assert 12 * dy <= totalMonths - 1 < 12 * dy + 12;
    } else if end.month == start.month {
      if end.day < start.day {
        assert dy >= 1;
      }
    } else {
      assert dy >= 1;
      assert 12 * (dy - 1) <= totalMonths - 1 < 12 * dy;
    }
  }

  /** Counting backwards gives the negated count: Period.between(a, b).getYears()
      is minus Period.between(b, a).getYears(). */
  lemma YearsBetweenAntisymmetric(a: Date, b: Date)
    ensures YearsBetween(a, b) == -YearsBetween(b, a)
  {
  }

  /** For a start date in the future the count rounds toward zero: it is minus
      the whole years back from `start` to `end`, so a date less than a year
      ahead yields 0, not -1. */
  lemma YearsBetweenFuture(start: Date, end: Date)
    requires ValidDate(start) && ValidDate(end)
    requires IsAfter(start, end)
    ensures YearsBetween(start, end) == -WholeYears(end, start)
    ensures YearsBetween(start, end) <= 0
  {
    YearsBetweenAntisymmetric(start, end);
    YearsBetweenIsWholeYears(end, start);
  }

  /** On the n-th anniversary the count is exactly n. */
  lemma YearsOnAnniversary(birth: Date, n: nat)
    requires ValidDate(birth)
    ensures YearsBetween(birth, Date(birth.year + n, birth.month, birth.day)) == n
  {
    var anniversary := Date(birth.year + n, birth.month, birth.day);
    assert ProlepticMonth(anniversary) - ProlepticMonth(birth) == 12 * n;
  }

  /** On the day before the n-th anniversary the count is still n - 1. */
  lemma YearsOnDayBeforeAnniversary(birth: Date, n: nat)
    requires ValidDate(birth) && n >= 1
    requires ValidDate(Date(birth.year + n, birth.month, birth.day))
    ensures YearsBetween(birth, PrevDay(Date(birth.year + n, birth.month, birth.day))) == n - 1
  {
    var anniversary := Date(birth.year + n, birth.month, birth.day);
    var eve := PrevDay(anniversary);
    PrevDayIsPredecessor(anniversary);
    assert !IsAfter(birth, eve);
    YearsBetweenIsWholeYears(birth, eve);
  }

  /** As `today` advances, the count never goes down. */
  lemma YearsBetweenMonotone(birth: Date, today1: Date, today2: Date)
    requires ValidDate(birth) && ValidDate(today1) && ValidDate(today2)
    requires !IsAfter(birth, today1) && !IsAfter(today1, today2)
    ensures YearsBetween(birth, today1) <= YearsBetween(birth, today2)
  {
    YearsBetweenIsWholeYears(birth, today1);
    YearsBetweenIsWholeYears(birth, today2);
  }

  /** Between any two LocalDates the count fits in a Java `int`, so the
      `Math.toIntExact` in LocalDate.until never throws. */
  lemma YearsBetweenFitsInInt(start: Date, end: Date)
    requires ValidDate(start) && ValidDate(end)
    ensures IntMin <= YearsBetween(start, end) <= IntMax
  {
    if IsAfter(start, end) {
      YearsBetweenFuture(start, end);
    } else {
      YearsBetweenIsWholeYears(start, end);
    }
  }
}
