/** Calendar stepping of the broadcast fast clock, and the absolute minute count it steps through. */
module Calendar {
  import opened Words

  const MINUTES_PER_DAY := 1440

  /** Number of values of the uint16_t year. */
  const YEARS: nat := 0x1_0000

  datatype DateTime = DateTime(year: nat, month: nat, day: nat, hour: nat, minute: nat)
  {
    /** A date and time the protocol can denote; the year is a uint16_t. */
    predicate Valid() {
      && year < 0x1_0000
      && 1 <= month <= 12
      && 1 <= day <= DaysInMonth(month, year)
      && hour < 24
      && minute < 60
    }

    /** A time of day. Nothing is asked of the date: a clock runs before any date has arrived. */
    predicate OnDial() {
      hour < 24 && minute < 60
    }

    function MinuteOfDay(): nat {
      hour * 60 + minute
    }
  }

  predicate IsLeapYear(year: nat) {
    year % 4 == 0 && (year % 100 != 0 || year % 400 == 0)
  }

  /** The non-leap table, by month number. */
  function TableDays(month: nat): nat {
    if month == 2 then 28
    else if month == 4 || month == 6 || month == 9 || month == 11 then 30
    else 31
  }

  function DaysInMonth(month: nat, year: nat): nat {
    if month < 1 || month > 12 then 30
    else if month == 2 && IsLeapYear(year) then 29
    else TableDays(month)
  }

  /** One fast minute later. The fields wrap at the width of their C types. */
  function Forward(t: DateTime): DateTime {
    var minute := U8(t.minute + 1);
    if minute < 60 then t.(minute := minute)
    else
      var hour := U8(t.hour + 1);
      if hour < 24 then t.(minute := 0, hour := hour)
      else NextDay(t.(minute := 0, hour := 0))
  }

  function NextDay(t: DateTime): DateTime {
    var day := U8(t.day + 1);
    if day <= DaysInMonth(t.month, t.year) then t.(day := day)
    else
      var month := U8(t.month + 1);
      if month <= 12 then t.(day := 1, month := month)
      else t.(day := 1, month := 1, year := U16(t.year + 1))
  }

  /** One fast minute earlier. */
  function Backward(t: DateTime): DateTime {
    if t.minute != 0 then t.(minute := t.minute - 1)
    else if t.hour != 0 then t.(minute := 59, hour := t.hour - 1)
    else PreviousDay(t.(minute := 59, hour := 23))
  }

  function PreviousDay(t: DateTime): DateTime {
    if t.day > 1 then t.(day := t.day - 1)
    else
      var u := if t.month <= 1 then t.(month := 12, year := U16(t.year - 1)) else t.(month := t.month - 1);
      u.(day := DaysInMonth(u.month, u.year))
  }

  /** n single-minute steps in the direction the clock runs. */
  function Steps(forward: bool, n: nat, t: DateTime): DateTime {
    if n == 0 then t
    else
      var s := Steps(forward, n - 1, t);
      if forward then Forward(s) else Backward(s)
  }

  // ---- Absolute minute count: the independent meaning of a date and time ----

  function DaysInYear(year: nat): nat {
    if IsLeapYear(year) then 366 else 365
  }

  function DaysBeforeYear(year: nat): nat {
    if year == 0 then 0 else DaysBeforeYear(year - 1) + DaysInYear(year - 1)
  }

  function DaysBeforeMonth(month: nat, year: nat): nat {
    if month <= 1 then 0 else DaysBeforeMonth(month - 1, year) + DaysInMonth(month - 1, year)
  }

  /** Days since 1 January of year 0. */
  function AbsDay(t: DateTime): int {
    DaysBeforeYear(t.year) + DaysBeforeMonth(t.month, t.year) + t.day - 1
  }

  /** Minutes since midnight on 1 January of year 0. */
  function AbsMinute(t: DateTime): int {
    AbsDay(t) * MINUTES_PER_DAY + t.MinuteOfDay()
  }

  /** Days in the whole 65536-year cycle of the uint16_t year. */
  function CycleDays(): nat {
    DaysBeforeYear(YEARS)
  }

  function CycleMinutes(): nat {
    CycleDays() * MINUTES_PER_DAY
  }

  lemma {:induction false} TwelveMonths(year: nat)
    ensures DaysBeforeMonth(12, year) + 31 == DaysInYear(year)
  {
    assert DaysBeforeMonth(1, year) == 0;
    assert DaysBeforeMonth(2, year) == 31;
    assert DaysBeforeMonth(3, year) == 31 + DaysInMonth(2, year);
    assert DaysBeforeMonth(4, year) == 62 + DaysInMonth(2, year);
    assert DaysBeforeMonth(5, year) == 92 + DaysInMonth(2, year);
    assert DaysBeforeMonth(6, year) == 123 + DaysInMonth(2, year);
    assert DaysBeforeMonth(7, year) == 153 + DaysInMonth(2, year);
    assert DaysBeforeMonth(8, year) == 184 + DaysInMonth(2, year);
    assert DaysBeforeMonth(9, year) == 215 + DaysInMonth(2, year);
    assert DaysBeforeMonth(10, year) == 245 + DaysInMonth(2, year);
    assert DaysBeforeMonth(11, year) == 276 + DaysInMonth(2, year);
  }

  lemma {:induction false} YearsMonotone(a: nat, b: nat)
    requires a <= b
    ensures DaysBeforeYear(a) + 365 * (b - a) <= DaysBeforeYear(b)
    decreases b - a
  {
    if a < b { YearsMonotone(a, b - 1); }
  }

  lemma {:induction false} MonthsMonotone(a: nat, b: nat, year: nat)
    requires 1 <= a < b <= 13
    ensures DaysBeforeMonth(a, year) + DaysInMonth(a, year) <= DaysBeforeMonth(b, year)
    decreases b - a
  {
    if a + 1 < b { MonthsMonotone(a, b - 1, year); }
  }

  /** A valid date lies inside its own year. */
  lemma {:induction false} AbsDayInYear(t: DateTime)
    requires t.Valid()
    ensures DaysBeforeYear(t.year) <= AbsDay(t) < DaysBeforeYear(t.year + 1)
    ensures 0 <= AbsDay(t) < CycleDays()
  {
    TwelveMonths(t.year);
    MonthsMonotone(t.month, 13, t.year);
    assert DaysBeforeMonth(13, t.year) == DaysInYear(t.year);
    YearsMonotone(t.year + 1, YEARS);
  }

  lemma {:induction false} AbsMinuteRange(t: DateTime)
    requires t.Valid()
    ensures 0 <= AbsMinute(t) < CycleMinutes()
    ensures AbsMinute(t) / MINUTES_PER_DAY == AbsDay(t)
    ensures AbsMinute(t) % MINUTES_PER_DAY == t.MinuteOfDay()
  {
    AbsDayInYear(t);
  }

  /** Distinct valid dates have distinct day counts. */
  lemma {:induction false} AbsDayOrder(a: DateTime, b: DateTime)
    requires a.Valid() && b.Valid()
    requires a.year < b.year || (a.year == b.year && (a.month < b.month || (a.month == b.month && a.day < b.day)))
    ensures AbsDay(a) < AbsDay(b)
  {
    if a.year < b.year {
      AbsDayInYear(a);
      AbsDayInYear(b);
      YearsMonotone(a.year + 1, b.year);
    } else if a.month < b.month {
      MonthsMonotone(a.month, b.month, a.year);
    }
  }

  /** The absolute minute count determines the date and time. */
  lemma {:induction false} AbsMinuteInjective(a: DateTime, b: DateTime)
    requires a.Valid() && b.Valid() && AbsMinute(a) == AbsMinute(b)
    ensures a == b
  {
    AbsMinuteRange(a);
    AbsMinuteRange(b);
    if a.year != b.year || a.month != b.month || a.day != b.day {
      if a.year < b.year || (a.year == b.year && (a.month < b.month || (a.month == b.month && a.day < b.day))) {
        AbsDayOrder(a, b);
      } else {
        AbsDayOrder(b, a);
      }
    }
  }

  /** What one midnight does to a date: a valid date, one day later, modulo the year wrap. */
  ghost predicate OneDayLater(t: DateTime, n: DateTime) {
    && n.Valid() && n.hour == t.hour && n.minute == t.minute
    && AbsDay(n) == if AbsDay(t) + 1 == CycleDays() then 0 else AbsDay(t) + 1
  }

  lemma {:induction false} SameMonth(t: DateTime)
    requires t.Valid() && t.day < DaysInMonth(t.month, t.year)
    ensures OneDayLater(t, t.(day := t.day + 1))
  {
    AbsDayInYear(t.(day := t.day + 1));
  }

  lemma {:induction false} NewMonth(t: DateTime)
    requires t.Valid() && t.day == DaysInMonth(t.month, t.year) && t.month < 12
    ensures OneDayLater(t, t.(day := 1, month := t.month + 1))
  {
    AbsDayInYear(t.(day := 1, month := t.month + 1));
  }

  lemma {:induction false} NewYear(t: DateTime)
    requires t.Valid() && t.day == 31 && t.month == 12
    ensures OneDayLater(t, t.(day := 1, month := 1, year := if t.year == 0xFFFF then 0 else t.year + 1))
  {
    hide IsLeapYear;
    TwelveMonths(t.year);
    assert AbsDay(t) + 1 == DaysBeforeYear(t.year + 1);
    if t.year + 1 < YEARS {
      YearsMonotone(t.year + 2, YEARS);
    }
  }

  /** The three outcomes of NextDay on a valid date. */
  lemma {:induction false} NextDayCases(t: DateTime)
    requires t.Valid()
    ensures NextDay(t) ==
            if t.day < DaysInMonth(t.month, t.year) then t.(day := t.day + 1)
            else if t.month < 12 then t.(day := 1, month := t.month + 1)
            else t.(day := 1, month := 1, year := if t.year == 0xFFFF then 0 else t.year + 1)
  {
    hide IsLeapYear;
  }

  lemma {:induction false} NextDayCounts(t: DateTime)
    requires t.Valid()
    ensures OneDayLater(t, NextDay(t))
  {
    hide NextDay, OneDayLater, IsLeapYear;
    NextDayCases(t);
    if t.day < DaysInMonth(t.month, t.year) {
      SameMonth(t);
    } else if t.month < 12 {
      NewMonth(t);
    } else {
      NewYear(t);
    }
  }

  /** Forward inside an hour and inside a day moves only the time of day. */
  lemma {:induction false} ForwardInDay(t: DateTime)
    requires t.Valid() && t.MinuteOfDay() < 1439
    ensures Forward(t) == t.(hour := Forward(t).hour, minute := Forward(t).minute)
    ensures Forward(t).hour < 24 && Forward(t).minute < 60
    ensures Forward(t).MinuteOfDay() == t.MinuteOfDay() + 1
  {
    if t.minute == 59 {
      assert Forward(t) == t.(hour := t.hour + 1, minute := 0);
    } else {
      assert Forward(t) == t.(minute := t.minute + 1);
    }
  }

  /** Midnight: only the date moves, by one day. */
  lemma {:induction false} ForwardOverMidnight(t: DateTime)
    requires t.Valid() && t.MinuteOfDay() == 1439
    ensures Forward(t).Valid() && Forward(t).MinuteOfDay() == 0
    ensures AbsDay(Forward(t)) == if AbsDay(t) + 1 == CycleDays() then 0 else AbsDay(t) + 1
  {
    var s := t.(hour := 0, minute := 0);
    assert Forward(t) == NextDay(s);
    NextDayCounts(s);
  }

  /** A step forward keeps a date valid and adds one to the absolute minute, modulo the year wrap. */
  lemma {:induction false} ForwardCounts(t: DateTime)
    requires t.Valid()
    ensures Forward(t).Valid()
    ensures AbsMinute(Forward(t)) == if AbsMinute(t) + 1 == CycleMinutes() then 0 else AbsMinute(t) + 1
  {
    var d, e := AbsDay(t), AbsDay(Forward(t));
    if t.MinuteOfDay() < 1439 {
      ForwardInDay(t);
      assert e == d;
      AbsDayInYear(t);
    } else {
      ForwardOverMidnight(t);
    }
  }

  // ---- Exactly which dates the steps undo, valid or not ----

  /** The date a step forward over midnight can be taken back from. */
  predicate UndoneForward(t: DateTime) {
    1 <= t.day && (t.day < DaysInMonth(t.month, t.year) || (t.day == DaysInMonth(t.month, t.year) && 1 <= t.month <= 12))
  }

  /** The date a step backward over midnight can be taken back from. */
  predicate UndoneBackward(t: DateTime) {
    if t.day > 1 then t.day <= DaysInMonth(t.month, t.year) else t.day == 1 && 1 <= t.month <= 12
  }

  /** The fields fit their C types. */
  predicate Fits(t: DateTime) {
    t.year < WORD && t.month < BYTE && t.day < BYTE
  }

  lemma PreviousUndoesNext(t: DateTime)
    requires Fits(t)
    ensures PreviousDay(NextDay(t)) == t <==> UndoneForward(t)
  {
    hide IsLeapYear;
    NextDayFields(t);
  }

  lemma NextDayFields(t: DateTime)
    requires Fits(t)
    ensures t.day < 255 ==> U8(t.day + 1) == t.day + 1
    ensures t.month < 255 ==> U8(t.month + 1) == t.month + 1
    ensures U16(U16(t.year + 1) - 1) == t.year && U16(U16((t.year as int) - 1) + 1) == t.year
    ensures 28 <= DaysInMonth(t.month, t.year) <= 31
  {
  }

  lemma NextUndoesPrevious(t: DateTime)
    requires Fits(t)
    ensures NextDay(PreviousDay(t)) == t <==> UndoneBackward(t)
  {
    hide IsLeapYear;
    NextDayFields(t);
  }

  /**
   For every content of the fields: a step is undone by the opposite step unless it crosses midnight at a date
   the calendar does not hold, such as 31 April, or month and day 0 before any date has arrived.
   */
  lemma UndoneExactly(t: DateTime)
    requires t.OnDial() && Fits(t)
    ensures Backward(Forward(t)) == t <==> t.MinuteOfDay() < 1439 || UndoneForward(t)
    ensures Forward(Backward(t)) == t <==> t.MinuteOfDay() > 0 || UndoneBackward(t)
  {
    hide IsLeapYear, DaysInMonth, NextDay, PreviousDay, UndoneForward, UndoneBackward;
    if t.MinuteOfDay() == 1439 {
      var first := t.(hour := 0, minute := 0);
      DayOnly(first);
      DayOnly(NextDay(first));
      PreviousUndoesNext(first);
      SameDate(t, first);
      assert Forward(t) == NextDay(first);
      assert Backward(NextDay(first)) == PreviousDay(NextDay(first)).(hour := 23, minute := 59);
      assert first.(hour := 23, minute := 59) == t;
    } else {
      assert Backward(Forward(t)) == t;
    }
    if t.MinuteOfDay() == 0 {
      var last := t.(hour := 23, minute := 59);
      DayOnly(last);
      DayOnly(PreviousDay(last));
      NextUndoesPrevious(last);
      SameDate(t, last);
      assert Backward(t) == PreviousDay(last);
      assert Forward(PreviousDay(last)) == NextDay(PreviousDay(last)).(hour := 0, minute := 0);
      assert last.(hour := 0, minute := 0) == t;
    } else {
      assert Forward(Backward(t)) == t;
    }
  }

  /** From a date the calendar does not hold, one minute there and one back can end a day away. */
  lemma NoReturnFromApril31()
    ensures var t := DateTime(2000, 4, 31, 23, 59);
            Backward(Forward(t)) == DateTime(2000, 4, 30, 23, 59)
            && Forward(t) == DateTime(2000, 5, 1, 0, 0) && Backward(t) == DateTime(2000, 4, 31, 23, 58)
  {
  }

  lemma DayOnly(t: DateTime)
    ensures NextDay(t).hour == t.hour && NextDay(t).minute == t.minute
    ensures PreviousDay(t).hour == t.hour && PreviousDay(t).minute == t.minute
    ensures NextDay(t.(hour := 0, minute := 0)) == NextDay(t).(hour := 0, minute := 0)
    ensures PreviousDay(t.(hour := 23, minute := 59)) == PreviousDay(t).(hour := 23, minute := 59)
  {
    hide DaysInMonth;
  }

  lemma SameDate(t: DateTime, s: DateTime)
    requires s.year == t.year && s.month == t.month && s.day == t.day
    ensures UndoneForward(s) == UndoneForward(t) && UndoneBackward(s) == UndoneBackward(t)
  {
  }

  /** A date of the calendar is undone both ways, and a step backward keeps to the calendar. */
  lemma CalendarIsUndone(t: DateTime)
    requires t.Valid()
    ensures Fits(t) && UndoneForward(t) && UndoneBackward(t)
    ensures PreviousDay(t).Valid()
  {
  }

  /** The two stepping functions are mutual inverses on valid dates, and Backward keeps validity. */
  lemma SteppingInverse(t: DateTime)
    requires t.Valid()
    ensures Backward(Forward(t)) == t
    ensures Backward(t).Valid() && Forward(Backward(t)) == t
  {
    hide IsLeapYear, DaysInMonth, NextDay, PreviousDay, UndoneForward, UndoneBackward;
    CalendarIsUndone(t);
    UndoneExactly(t);
    if t.MinuteOfDay() == 0 { CalendarIsUndone(t.(hour := 23, minute := 59)); }
  }

  /** A step backward takes one from the absolute minute, modulo the year wrap. */
  lemma {:induction false} BackwardCounts(t: DateTime)
    requires t.Valid()
    ensures Backward(t).Valid()
    ensures AbsMinute(Backward(t)) == if AbsMinute(t) == 0 then CycleMinutes() - 1 else AbsMinute(t) - 1
  {
    SteppingInverse(t);
    ForwardCounts(Backward(t));
    AbsMinuteRange(Backward(t));
  }

  function Signed(forward: bool, n: int): int {
    if forward then n else -n
  }

  lemma {:induction false} StepCounts(forward: bool, t: DateTime)
    requires t.Valid()
    ensures var s := if forward then Forward(t) else Backward(t);
            s.Valid() && 0 < CycleMinutes() && AbsMinute(s) == (AbsMinute(t) + Signed(forward, 1)) % CycleMinutes()
  {
    AbsMinuteRange(t);
    ForwardCounts(t);
    BackwardCounts(t);
    var m, c := AbsMinute(t), CycleMinutes();
    if forward {
      DivModUnique(m + 1, c, if m + 1 == c then 1 else 0, if m + 1 == c then 0 else m + 1);
    } else {
      DivModUnique(m - 1, c, if m == 0 then -1 else 0, if m == 0 then c - 1 else m - 1);
    }
  }

  /** n steps either way move the absolute minute by n, modulo the 65536-year cycle. */
  lemma {:induction false} StepsCount(forward: bool, n: nat, t: DateTime)
    requires t.Valid()
    ensures 0 < CycleMinutes() && Steps(forward, n, t).Valid()
    ensures AbsMinute(Steps(forward, n, t)) == (AbsMinute(t) + Signed(forward, n)) % CycleMinutes()
  {
    hide Forward, Backward, AbsMinute, DateTime.Valid, CycleMinutes;
    AbsMinuteRange(t);
    if n == 0 {
      DivModUnique(AbsMinute(t), CycleMinutes(), 0, AbsMinute(t));
    } else {
      StepsCount(forward, n - 1, t);
      StepCounts(forward, Steps(forward, n - 1, t));
      ModAdd(AbsMinute(t) + Signed(forward, n - 1), Signed(forward, 1), CycleMinutes());
    }
  }

  /** Steps one way are undone by as many steps the other way. */
  lemma {:induction false} StepsUndo(forward: bool, n: nat, t: DateTime)
    requires t.Valid()
    ensures Steps(!forward, n, Steps(forward, n, t)) == t
  {
    if n > 0 {
      StepsCount(forward, n - 1, t);
      SteppingInverse(Steps(forward, n - 1, t));
      StepsSplit(!forward, 1, n - 1, Steps(forward, n, t));
      assert Steps(!forward, 1, Steps(forward, n, t)) ==
             if forward then Backward(Steps(forward, n, t)) else Forward(Steps(forward, n, t)) by {
        assert Steps(!forward, 0, Steps(forward, n, t)) == Steps(forward, n, t);
      }
      StepsUndo(forward, n - 1, t);
    }
  }

  lemma {:induction false} StepsSplit(forward: bool, m: nat, n: nat, t: DateTime)
    ensures Steps(forward, m + n, t) == Steps(forward, n, Steps(forward, m, t))
  {
    if n > 0 {
      StepsSplit(forward, m, n - 1, t);
      assert Steps(forward, m + n, t) ==
             if forward then Forward(Steps(forward, m + n - 1, t)) else Backward(Steps(forward, m + n - 1, t));
    }
  }

  lemma StepsOne(forward: bool, t: DateTime)
    ensures Steps(forward, 1, t) == if forward then Forward(t) else Backward(t)
  {
    assert Steps(forward, 0, t) == t;
  }
}
