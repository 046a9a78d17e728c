/** The calendar against the Gregorian rule in closed form. */
module CivilDays {
  import opened Words
  import opened Calendar

  /**
   Days since 1 January of year 0 without counting years and months one by one: years begin in March, so that the leap
   day is the last of its year, and the months from March on follow a line of slope 153 / 5.
   */
  function CivilDay(year: nat, month: nat, day: nat): int {
    var y: int := if month <= 2 then year - 1 else year;
    var m := if month <= 2 then month + 9 else month - 3;
    365 * y + y / 4 - y / 100 + y / 400 + (153 * m + 2) / 5 + day - 1 + 60
  }

  /** A quotient, kept folded in proofs. */
  function Quotient(x: int, m: int): int
    requires m > 0
  {
    x / m
  }

  predicate Multiple(x: int, m: int)
    requires m > 0
  {
    x % m == 0
  }

  /** A quotient grows with each multiple. */
  lemma QuotientStep(x: int, m: int)
    requires m > 1
    ensures Quotient(x, m) - Quotient(x - 1, m) == if Multiple(x, m) then 1 else 0
  {
    if x % m == 0 {
      DivModUnique(x - 1, m, x / m - 1, m - 1);
    } else {
      DivModUnique(x - 1, m, x / m, x % m - 1);
    }
  }

  lemma Multiples(x: int)
    ensures Multiple(x, 400) ==> Multiple(x, 100)
    ensures Multiple(x, 100) ==> Multiple(x, 4)
  {
    if x % 400 == 0 { DivModUnique(x, 100, 4 * (x / 400), 0); }
    if x % 100 == 0 { DivModUnique(x, 4, 25 * (x / 100), 0); }
  }

  lemma LeapYears(year: nat)
    ensures IsLeapYear(year) <==> Multiple(year, 4) && (!Multiple(year, 100) || Multiple(year, 400))
  {
  }

  /** How many of the years up to this one, counted from year 1, have a leap day. */
  function Leaps(year: int): int {
    Quotient(year, 4) - Quotient(year, 100) + Quotient(year, 400)
  }

  /** Every fourth year but those of a century, but every fourth century, has a leap day. */
  lemma LeapDay(year: nat)
    ensures Leaps(year) == Leaps(year - 1) + if IsLeapYear(year) then 1 else 0
  {
    hide Quotient, Multiple, IsLeapYear;
    QuotientStep(year, 4);
    QuotientStep(year, 100);
    QuotientStep(year, 400);
    Multiples(year);
    LeapYears(year);
  }

  lemma {:induction false} YearsInClosedForm(year: nat)
    ensures DaysBeforeYear(year) == 365 * year + Leaps(year - 1) + 1
  {
    if year > 0 {
      hide Leaps, IsLeapYear;
      YearsInClosedForm(year - 1);
      LeapDay(year - 1);
    }
  }

  lemma MonthsInClosedForm(month: nat, year: nat)
    requires 1 <= month <= 12
    ensures DaysBeforeMonth(month, year)
            == if month <= 2 then 31 * (month - 1)
               else (153 * (month - 3) + 2) / 5 + 59 + if IsLeapYear(year) then 1 else 0
  {
    hide IsLeapYear;
    assert DaysBeforeMonth(2, year) == 31 && DaysBeforeMonth(1, year) == 0;
    FromMarch(month, year);
  }

  lemma {:induction false} FromMarch(month: nat, year: nat)
    requires 1 <= month <= 12
    ensures month >= 3 ==>
              DaysBeforeMonth(month, year) == (153 * (month - 3) + 2) / 5 + 59 + if IsLeapYear(year) then 1 else 0
  {
    hide IsLeapYear;
    if month > 3 {
      FromMarch(month - 1, year);
    } else if month == 3 {
      assert DaysBeforeMonth(2, year) == 31 && DaysBeforeMonth(1, year) == 0;
    }
  }

  /** The day count of every date is that of the Gregorian calendar. */
  lemma DayIsCivil(t: DateTime)
    requires t.Valid()
    ensures AbsDay(t) == CivilDay(t.year, t.month, t.day)
  {
    hide DateTime.Valid, IsLeapYear;
    MonthRange(t);
    YearsInClosedForm(t.year);
    MonthsInClosedForm(t.month, t.year);
    LeapDay(t.year);
  }

  lemma MonthRange(t: DateTime)
    requires t.Valid()
    ensures 1 <= t.month <= 12
  {
  }

  /** The absolute minute of every date and time, in closed form. */
  lemma MinuteIsCivil(t: DateTime)
    requires t.Valid()
    ensures AbsMinute(t) == CivilDay(t.year, t.month, t.day) * 1440 + t.hour * 60 + t.minute
  {
    DayIsCivil(t);
  }

  /** A month the calendar does not hold, such as month 0 before any date has arrived, is stepped through as one of 30 days. */
  lemma StrayMonth(t: DateTime)
    requires t.month < 1 || t.month > 12
    ensures t.day < 30 ==> NextDay(t) == t.(day := t.day + 1)
    ensures 30 <= t.day < 255 ==> NextDay(t).day == 1 && NextDay(t).month != t.month
    ensures t.day <= 1 && 1 < t.month < BYTE ==> PreviousDay(t).month == t.month - 1
  {
  }
}
