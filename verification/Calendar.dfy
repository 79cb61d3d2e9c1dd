/** The proleptic Gregorian calendar of `chrono::NaiveDate`, for years from 0 on. */
module Calendar {

  datatype Date = Date(year: int, month: int, day: int)

  predicate IsLeap(y: int) {
    y % 4 == 0 && (y % 100 != 0 || y % 400 == 0)
  }

  /** Days from 0000-01-01 to the first day of year `y`. */
  function DaysBeforeYear(y: int): int {
    365 * y + (y + 3) / 4 - (y + 99) / 100 + (y + 399) / 400
  }

  /** Days of the year before the first day of month `m`; month 13 stands for the end of the year. */
  function DaysBeforeMonth(leap: bool, m: int): int
    requires 1 <= m <= 13
  {
    (match m
     case 1 => 0 case 2 => 31 case 3 => 59 case 4 => 90 case 5 => 120 case 6 => 151 case 7 => 181
     case 8 => 212 case 9 => 243 case 10 => 273 case 11 => 304 case 12 => 334 case 13 => 365)
    + (if leap && m > 2 then 1 else 0)
  }

  function DaysInMonth(leap: bool, m: int): int
    requires 1 <= m <= 12
  {
    DaysBeforeMonth(leap, m + 1) - DaysBeforeMonth(leap, m)
  }

  lemma LeapYears(y: int)
    ensures IsLeap(y) <==> y % 400 == 0 || (y % 4 == 0 && y % 100 != 0)
  {
    MultiplesNest(y);
  }

  /** The months have the lengths that everyone knows. */
  lemma MonthLengths(leap: bool, m: int)
    requires 1 <= m <= 12
    ensures DaysInMonth(leap, m) ==
            if m == 4 || m == 6 || m == 9 || m == 11 then 30
            else if m != 2 then 31
            else if leap then 29 else 28
  {
  }

  lemma EpochIsDayZero()
    ensures ValidDate(Date(1970, 1, 1)) && DayNumber(Date(1970, 1, 1)) == 0
  {
  }

  predicate ValidDay(leap: bool, month: int, day: int) {
    1 <= month <= 12 && 1 <= day <= DaysInMonth(leap, month)
  }

  lemma DayAtMost31(leap: bool, month: int, day: int)
    requires ValidDay(leap, month, day)
    ensures day <= 31
  {
  }

  predicate ValidDate(d: Date) {
    0 <= d.year && ValidDay(IsLeap(d.year), d.month, d.day)
  }

  /** 1970-01-01, counted from 0000-01-01. */
  const EPOCH_DAY: int := 719_528

  /** Days since the start of the year. */
  function DayInYear(leap: bool, month: int, day: int): int
    requires ValidDay(leap, month, day)
  {
    DaysBeforeMonth(leap, month) + day - 1
  }

  /** Days since 1970-01-01. */
  function DayNumber(d: Date): int
    requires ValidDate(d)
  {
    DaysBeforeYear(d.year) + DayInYear(IsLeap(d.year), d.month, d.day) - EPOCH_DAY
  }

  /** The year of the `n`-th day after 0000-01-01: a guess by the mean year length, put right by one. */
  function YearOf(n: int): int {
    var guess := n * 400 / 146_097;
    if n < DaysBeforeYear(guess) then guess - 1
    else if DaysBeforeYear(guess + 1) <= n then guess + 1
    else guess
  }

  /** The month that contains day `n` (from 0) of a year, searched from month `m` on. */
  function MonthFrom(leap: bool, n: int, m: int): int
    requires 1 <= m <= 12
    decreases 12 - m
  {
    if m == 12 || n < DaysBeforeMonth(leap, m + 1) then m else MonthFrom(leap, n, m + 1)
  }

  /** Month and day of month of the day `n` (from 0) of a year. */
  function InYear(leap: bool, n: int): (md: (int, int))
    ensures 1 <= md.0 <= 12
  {
    var m := MonthFrom(leap, n, 1);
    MonthFromRange(leap, n, 1);
    (m, n - DaysBeforeMonth(leap, m) + 1)
  }

  /** The date of the `n`-th day after 0000-01-01, which lies in year `y`. */
  function DateIn(y: int, n: int): Date {
    var md := InYear(IsLeap(y), n - DaysBeforeYear(y));
    Date(y, md.0, md.1)
  }

  /** The inverse of DayNumber. */
  function DateOf(day: int): Date {
    DateIn(YearOf(day + EPOCH_DAY), day + EPOCH_DAY)
  }

  lemma MonthFromRange(leap: bool, n: int, m: int)
    requires 1 <= m <= 12
    ensures m <= MonthFrom(leap, n, m) <= 12
  {
  }

  lemma YearLength(y: int)
    ensures DaysBeforeYear(y + 1) - DaysBeforeYear(y) == (if IsLeap(y) then 366 else 365)
  {
    OneMoreFourth(y);
    OneMoreHundredth(y);
    OneMoreFourHundredth(y);
    MultiplesNest(y);
    YearDifference(y);
  }

  lemma YearDifference(y: int)
    ensures DaysBeforeYear(y + 1) - DaysBeforeYear(y) ==
            365 + ((y + 4) / 4 - (y + 3) / 4) - ((y + 100) / 100 - (y + 99) / 100) + ((y + 400) / 400 - (y + 399) / 400)
  {
  }

  lemma MultiplesNest(y: int)
    ensures y % 400 == 0 ==> y % 100 == 0
    ensures y % 100 == 0 ==> y % 4 == 0
  {
  }

  lemma OneMoreFourth(y: int)
    ensures (y + 4) / 4 - (y + 3) / 4 == if y % 4 == 0 then 1 else 0
  {
  }

  lemma OneMoreHundredth(y: int)
    ensures (y + 100) / 100 - (y + 99) / 100 == if y % 100 == 0 then 1 else 0
  {
  }

  lemma OneMoreFourHundredth(y: int)
    ensures (y + 400) / 400 - (y + 399) / 400 == if y % 400 == 0 then 1 else 0
  {
  }

  lemma YearOfBrackets(n: int)
    ensures DaysBeforeYear(YearOf(n)) <= n < DaysBeforeYear(YearOf(n) + 1)
  {
  }

  lemma YearsMonotone(a: int, b: int)
    requires a <= b
    ensures DaysBeforeYear(a) <= DaysBeforeYear(b)
  {
  }

  lemma YearIs(n: int, y: int)
    requires DaysBeforeYear(y) <= n < DaysBeforeYear(y + 1)
    ensures YearOf(n) == y
  {
  }

  lemma {:induction false} MonthFromBrackets(leap: bool, n: int, m: int)
    requires 1 <= m <= 12
    requires DaysBeforeMonth(leap, m) <= n < DaysBeforeMonth(leap, 13)
    ensures m <= MonthFrom(leap, n, m) <= 12
    ensures DaysBeforeMonth(leap, MonthFrom(leap, n, m)) <= n < DaysBeforeMonth(leap, MonthFrom(leap, n, m) + 1)
    decreases 12 - m
  {
    if m < 12 && DaysBeforeMonth(leap, m + 1) <= n {
      MonthFromBrackets(leap, n, m + 1);
    }
  }

  lemma {:induction false} MonthIs(leap: bool, n: int, m: int, k: int)
    requires 1 <= m <= k <= 12
    requires DaysBeforeMonth(leap, k) <= n < DaysBeforeMonth(leap, k + 1)
    ensures MonthFrom(leap, n, m) == k
    decreases k - m
  {
    if m < k {
      MonthIs(leap, n, m + 1, k);
    }
  }

  lemma InYearBack(leap: bool, n: int)
    requires 0 <= n < DaysBeforeMonth(leap, 13)
    ensures ValidDay(leap, InYear(leap, n).0, InYear(leap, n).1)
    ensures DayInYear(leap, InYear(leap, n).0, InYear(leap, n).1) == n
  {
    MonthFromBrackets(leap, n, 1);
  }

  lemma InYearOf(leap: bool, m: int, d: int)
    requires ValidDay(leap, m, d)
    ensures 0 <= DayInYear(leap, m, d) < DaysBeforeMonth(leap, 13)
    ensures InYear(leap, DayInYear(leap, m, d)) == (m, d)
  {
    MonthIs(leap, DaysBeforeMonth(leap, m) + d - 1, 1, m);
  }

  lemma DayWithinYear(n: int)
    requires 0 <= n
    ensures 0 <= YearOf(n)
    ensures 0 <= n - DaysBeforeYear(YearOf(n)) < DaysBeforeMonth(IsLeap(YearOf(n)), 13)
  {
    var y := YearOf(n);
    assert DaysBeforeYear(y) <= n < DaysBeforeYear(y + 1) by { YearOfBrackets(n); }
    YearLength(y);
    if y < 0 {
      YearsMonotone(y + 1, 0);
    }
  }

  /** Every day from 0000-01-01 on is a valid date, and its number is the day again. */
  lemma DayOfDate(day: int)
    requires 0 <= day + EPOCH_DAY
    ensures ValidDate(DateOf(day))
    ensures DayNumber(DateOf(day)) == day
  {
    var y := YearOf(day + EPOCH_DAY);
    DayWithinYear(day + EPOCH_DAY);
    InYearBack(IsLeap(y), day + EPOCH_DAY - DaysBeforeYear(y));
  }

  lemma YearFrom(y: int, i: int)
    requires 0 <= i < DaysBeforeMonth(IsLeap(y), 13)
    ensures YearOf(DaysBeforeYear(y) + i) == y
  {
    assert DaysBeforeYear(y) + i < DaysBeforeYear(y + 1) by { YearLength(y); }
    YearIs(DaysBeforeYear(y) + i, y);
  }

  /** Every valid date is the date of its own number. */
  lemma DateOfDay(d: Date)
    requires ValidDate(d)
    ensures DateOf(DayNumber(d)) == d
  {
    YearOfNumber(d);
    DateBack(d, DayNumber(d), DayInYear(IsLeap(d.year), d.month, d.day));
  }

  lemma YearOfNumber(d: Date)
    requires ValidDate(d)
    ensures YearOf(DayNumber(d) + EPOCH_DAY) == d.year
    ensures DayNumber(d) + EPOCH_DAY - DaysBeforeYear(d.year) == DayInYear(IsLeap(d.year), d.month, d.day)
  {
    var i := DayInYear(IsLeap(d.year), d.month, d.day);
    InYearOf(IsLeap(d.year), d.month, d.day);
    YearFrom(d.year, i);
    assert DayNumber(d) + EPOCH_DAY == DaysBeforeYear(d.year) + i;
  }

  lemma DateBack(d: Date, day: int, i: int)
    requires ValidDate(d) && YearOf(day + EPOCH_DAY) == d.year && day + EPOCH_DAY - DaysBeforeYear(d.year) == i
    requires i == DayInYear(IsLeap(d.year), d.month, d.day)
    ensures DateOf(day) == d
  {
    InYearOf(IsLeap(d.year), d.month, d.day);
  }

  /** The days of the years 0 to 9999, the ones a four-digit year can name. */
  predicate FourDigitYear(day: int) {
    0 <= day + EPOCH_DAY < DaysBeforeYear(10_000)
  }

  lemma FourDigits(day: int)
    requires FourDigitYear(day)
    ensures 0 <= DateOf(day).year <= 9999
  {
    DayOfDate(day);
    YearOfBrackets(day + EPOCH_DAY);
    if DateOf(day).year >= 10_000 {
      YearsMonotone(10_000, DateOf(day).year);
    }
  }
}
