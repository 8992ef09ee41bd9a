/** The proleptic Gregorian calendar: dates as the app builds them, and the running day number
    that orders them. Years are unbounded and may be negative. */
module Calendar {

  datatype Date = Date(year: int, month: int, day: int) {
    predicate Valid() {
      1 <= month <= 12 && 1 <= day <= DaysInMonth(year, month)
    }
  }

  predicate IsLeap(year: int) {
    year % 4 == 0 && (year % 100 != 0 || year % 400 == 0)
  }

  function DaysInMonth(year: int, month: int): int {
    if month == 2 then (if IsLeap(year) then 29 else 28)
    else if month in {4, 6, 9, 11} then 30
    else 31
  }

  /** Days before 1 January of `year`, counted from 1 January of year 0. */
  function YearStart(year: int): int {
    365 * year + (year + 3) / 4 - (year + 99) / 100 + (year + 399) / 400
  }

  /** Days of the year before the first of `month`. */
  function MonthStart(year: int, month: int): int
    requires 1 <= month <= 12
  {
    [0, 31, 59, 90, 120, 151, 181, 212, 243, 273, 304, 334][month - 1]
    + (if month > 2 && IsLeap(year) then 1 else 0)
  }

  /** The day number of a date. */
  function Ordinal(d: Date): int
    requires d.Valid()
  {
    YearStart(d.year) + MonthStart(d.year, d.month) + d.day
  }

  /** The calendar day before `d`: what `date.subtract(Duration(days: 1))` names when no
      clock change falls between the two midnights. */
  function Prev(d: Date): Date {
    if d.day > 1 then Date(d.year, d.month, d.day - 1)
    else if d.month > 1 then Date(d.year, d.month - 1, DaysInMonth(d.year, d.month - 1))
    else Date(d.year - 1, 12, 31)
  }

  /** The day `n` days before `d`. */
  function Back(d: Date, n: nat): Date {
    if n == 0 then d else Prev(Back(d, n - 1))
  }

  lemma {:induction false} FourthYear(year: int)
    ensures (year + 4) / 4 == (year + 3) / 4 + (if year % 4 == 0 then 1 else 0)
  {
    assert year == 4 * (year / 4) + year % 4;
  }

  lemma {:induction false} HundredthYear(year: int)
    ensures (year + 100) / 100 == (year + 99) / 100 + (if year % 100 == 0 then 1 else 0)
  {
    assert year == 100 * (year / 100) + year % 100;
  }

  lemma {:induction false} FourHundredthYear(year: int)
    ensures (year + 400) / 400 == (year + 399) / 400 + (if year % 400 == 0 then 1 else 0)
  {
    assert year == 400 * (year / 400) + year % 400;
  }

  lemma {:induction false} YearLength(year: int)
    ensures YearStart(year + 1) == YearStart(year) + (if IsLeap(year) then 366 else 365)
  {
    FourthYear(year);
    HundredthYear(year);
    FourHundredthYear(year);
    assert YearStart(year + 1) == 365 * (year + 1) + (year + 4) / 4 - (year + 100) / 100 + (year + 400) / 400;
  }

  lemma {:induction false} YearStartGrows(a: int, b: int)
    requires a < b
    ensures YearStart(a + 1) <= YearStart(b)
    decreases b - a
  {
    if a + 1 < b {
      YearStartGrows(a, b - 1);
      YearLength(b - 1);
    }
  }

  /** Stepping back one day lands on a real date whose day number is one less. */
  lemma {:induction false} PrevIsOneDayEarlier(d: Date)
    requires d.Valid()
    ensures Prev(d).Valid()
    ensures Ordinal(Prev(d)) == Ordinal(d) - 1
  {
    if d.day == 1 && d.month == 1 {
      YearLength(d.year - 1);
    }
  }

  lemma {:induction false} BackIsDaysEarlier(d: Date, n: nat)
    requires d.Valid()
    ensures Back(d, n).Valid()
    ensures Ordinal(Back(d, n)) == Ordinal(d) - n
  {
    if n > 0 {
      BackIsDaysEarlier(d, n - 1);
      PrevIsOneDayEarlier(Back(d, n - 1));
    }
  }

  lemma {:induction false} DateWithinYear(d: Date)
    requires d.Valid()
    ensures YearStart(d.year) < Ordinal(d) <= YearStart(d.year + 1)
  {
    YearLength(d.year);
  }

  lemma {:induction false} MonthStartGrows(year: int, m1: int, m2: int)
    requires 1 <= m1 < m2 <= 12
    ensures MonthStart(year, m1) + DaysInMonth(year, m1) <= MonthStart(year, m2)
  {
  }

  /** No two dates share a day number. */
  lemma {:induction false} OrdinalInjective(a: Date, b: Date)
    requires a.Valid() && b.Valid()
    requires Ordinal(a) == Ordinal(b)
    ensures a == b
  {
    hide YearStart, MonthStart;
    DateWithinYear(a);
    DateWithinYear(b);
    if a.year < b.year {
      YearStartGrows(a.year, b.year);
    } else if b.year < a.year {
      YearStartGrows(b.year, a.year);
    } else if a.month < b.month {
      MonthStartGrows(a.year, a.month, b.month);
    } else if b.month < a.month {
      MonthStartGrows(a.year, b.month, a.month);
    }
  }

  /** Every day number is some date's. */
  lemma {:induction false} EveryDayHasADate(day: int) returns (d: Date)
    ensures d.Valid() && Ordinal(d) == day
  {
    var later := Date(if day > 0 then day else 0, 1, 1);
    d := Back(later, Ordinal(later) - day);
    BackIsDaysEarlier(later, Ordinal(later) - day);
  }

  lemma {:induction false} FourHundredLater(x: int)
    ensures (x + 400) / 4 == x / 4 + 100 && (x + 400) / 100 == x / 100 + 4 && (x + 400) / 400 == x / 400 + 1
  {
  }

  lemma {:induction false} CycleLength(year: int)
    ensures YearStart(year + 400) == YearStart(year) + 146097
  {
    FourHundredLater(year + 3);
    FourHundredLater(year + 99);
    FourHundredLater(year + 399);
  }

  lemma {:induction false} LeapDay(year: int)
    ensures Date(year, 2, 29).Valid() <==> if year % 100 == 0 then year % 400 == 0 else year % 4 == 0
  {
    assert year == 400 * (year / 400) + year % 400;
    assert year == 100 * (year / 100) + year % 100;
    if year % 400 == 0 {
      assert year == 100 * (4 * (year / 400)) && year == 4 * (100 * (year / 400));
    }
    if year % 100 == 0 {
      assert year == 4 * (25 * (year / 100));
    }
  }

  /** The Gregorian cycle: any four hundred years are 146097 days, and of the years that close a
      century only every fourth has a 29 February. */
  lemma {:induction false} GregorianCycle(year: int)
    ensures YearStart(year + 400) == YearStart(year) + 146097
    ensures Date(year, 2, 29).Valid() <==> if year % 100 == 0 then year % 400 == 0 else year % 4 == 0
  {
    CycleLength(year);
    LeapDay(year);
    hide YearStart, DaysInMonth;
  }
}
