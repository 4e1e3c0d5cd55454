/** The calendar of Go's time package, on a clock at a fixed offset of whole minutes. Days are counted from
    1 January of year 1, a Monday. */
module Calendar {

  datatype Date = Date(year: nat, month: nat, day: nat)

  predicate Leap(year: nat) {
    year % 4 == 0 && (year % 100 != 0 || year % 400 == 0)
  }

  function DaysInMonth(year: nat, month: nat): nat {
    if month == 2 then (if Leap(year) then 29 else 28)
    else if month in {4, 6, 9, 11} then 30 else 31
  }

  predicate ValidDate(d: Date) {
    1 <= d.month <= 12 && 1 <= d.day <= DaysInMonth(d.year, d.month)
  }

  function NextDay(d: Date): Date {
    if d.day < DaysInMonth(d.year, d.month) then d.(day := d.day + 1)
    else if d.month < 12 then Date(d.year, d.month + 1, 1)
    else Date(d.year + 1, 1, 1)
  }

  /** The date of a day. */
  function DateOf(n: nat): (d: Date)
    ensures ValidDate(d)
  {
    if n == 0 then Date(1, 1, 1) else NextDay(DateOf(n - 1))
  }

  /** Sunday is 0. */
  function Weekday(n: nat): (w: nat)
    ensures w < 7
  {
    (n + 1) % 7
  }

  /** Two days on end never have the same date. */
  lemma NextDayDiffers(n: nat)
    ensures DateOf(n + 1).day != DateOf(n).day || DateOf(n + 1).month != DateOf(n).month || DateOf(n + 1).year != DateOf(n).year
  {
  }

  // ---- where a year begins ----

  function YearLength(year: nat): nat {
    if Leap(year) then 366 else 365
  }

  function DaysBefore(year: nat, month: nat): nat
    requires 1 <= month <= 13
  {
    if month == 1 then 0 else DaysBefore(year, month - 1) + DaysInMonth(year, month - 1)
  }

  function DayOfYear(d: Date): nat
    requires ValidDate(d)
  {
    DaysBefore(d.year, d.month) + d.day - 1
  }

  /** The number of 1 January. */
  function NewYear(year: nat): nat
    requires year >= 1
  {
    if year == 1 then 0 else NewYear(year - 1) + YearLength(year - 1)
  }

  lemma WholeYear(year: nat)
    ensures DaysBefore(year, 13) == YearLength(year)
  {
    assert DaysBefore(year, 2) == 31;
    assert DaysBefore(year, 3) == 31 + DaysInMonth(year, 2);
    assert DaysBefore(year, 5) == DaysBefore(year, 3) + 61;
    assert DaysBefore(year, 7) == DaysBefore(year, 5) + 61;
    assert DaysBefore(year, 9) == DaysBefore(year, 7) + 62;
    assert DaysBefore(year, 11) == DaysBefore(year, 9) + 61;
    assert DaysBefore(year, 13) == DaysBefore(year, 11) + 61;
  }

  /** A day's number is that of its year's first day plus its place in the year. */
  lemma {:induction false} DayNumber(n: nat)
    ensures DateOf(n).year >= 1
    ensures n == NewYear(DateOf(n).year) + DayOfYear(DateOf(n))
  {
    if n > 0 {
      DayNumber(n - 1);
      WholeYear(DateOf(n - 1).year);
    }
  }

  lemma {:induction false} NewYearGrows(a: nat, b: nat)
    requires 1 <= a < b
    ensures NewYear(a) + YearLength(a) <= NewYear(b)
  {
    if a + 1 < b {
      NewYearGrows(a, b - 1);
    }
  }

  lemma MonthsInYear(year: nat, month: nat)
    requires 1 <= month <= 12
    ensures DaysBefore(year, month) + DaysInMonth(year, month) <= YearLength(year)
    decreases 12 - month
  {
    if month < 12 {
      MonthsInYear(year, month + 1);
    } else {
      WholeYear(year);
    }
  }

  /** The year of a day is the one whose span holds it. */
  lemma YearOfDay(n: nat, year: nat)
    requires year >= 1
    ensures DateOf(n).year == year <==> NewYear(year) <= n < NewYear(year) + YearLength(year)
  {
    DayNumber(n);
    var d := DateOf(n);
    MonthsInYear(d.year, d.month);
    if d.year < year {
      NewYearGrows(d.year, year);
    } else if year < d.year {
      NewYearGrows(year, d.year);
    }
  }

  // ---- the number of a date, in one formula ----

  function LeapYears(years: nat): nat {
    years / 4 - years / 100 + years / 400
  }

  lemma OneYearMore(year: nat)
    requires year >= 1
    ensures LeapYears(year) == LeapYears(year - 1) + (if Leap(year) then 1 else 0)
  {
    Quotient(year, 4);
    Quotient(year, 100);
    Quotient(year, 400);
    if year % 400 == 0 { Multiple(year, 400, 100); }
    if year % 100 == 0 { Multiple(year, 100, 4); }
  }

  lemma Multiple(n: nat, d: nat, e: nat)
    requires (d, e) in {(400, 100), (100, 4)} && n % d == 0
    ensures n % e == 0
  {
    assert n == d * (n / d);
    assert n == e * ((d / e) * (n / d));
  }

  lemma Quotient(n: nat, d: nat)
    requires n >= 1 && d in {4, 100, 400}
    ensures n / d == (n - 1) / d + (if n % d == 0 then 1 else 0)
  {
  }

  /** The Gregorian count of days: 365 a year and one more for each leap year. */
  lemma {:induction false} NewYearIs(year: nat)
    requires year >= 1
    ensures NewYear(year) == 365 * (year - 1) + LeapYears(year - 1)
  {
    if year > 1 {
      NewYearIs(year - 1);
      OneYearMore(year - 1);
    }
  }

  /** Months from March on run 31, 30, 31, 30, 31 days, over and over: 153 days in every five. */
  lemma MonthStarts(year: nat, month: nat)
    requires 1 <= month <= 13
    ensures DaysBefore(year, month) ==
      if month <= 2 then 31 * (month - 1) else 59 + (if Leap(year) then 1 else 0) + (153 * (month - 3) + 2) / 5
  {
    if month > 1 { MonthStarts(year, month - 1); }
  }

  /** The number of a day from its date. */
  lemma NumberOfDate(n: nat)
    ensures var d := DateOf(n);
      && d.year >= 1
      && n == 365 * (d.year - 1) + LeapYears(d.year - 1)
              + (if d.month <= 2 then 31 * (d.month - 1) else 59 + (if Leap(d.year) then 1 else 0) + (153 * (d.month - 3) + 2) / 5)
              + d.day - 1
  {
    DayNumber(n);
    NewYearIs(DateOf(n).year);
    MonthStarts(DateOf(n).year, DateOf(n).month);
  }

  /** Every common year moves 1 January on by one weekday, every leap year by two. */
  lemma NewYearWeekday(year: nat)
    requires year >= 1
    ensures Weekday(NewYear(year)) == (year + LeapYears(year - 1)) % 7
  {
    NewYearIs(year);
    WholeWeeks(year + LeapYears(year - 1), 52 * (year - 1));
  }

  lemma WholeWeeks(n: nat, weeks: nat)
    ensures (n + 7 * weeks) % 7 == n % 7
  {
  }
}
