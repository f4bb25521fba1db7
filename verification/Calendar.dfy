/** The calendar behind the one-ticket-a-day rule (time.zig): a loop-based conversion
    from Unix seconds to calendar fields, proved against the formula of "Seconds Since
    the Epoch", section 4.16 of the Base Definitions of IEEE Std 1003.1-2017.
    Months and days count from zero, as in the source. */
module Calendar {

  datatype DateTime = DateTime(ms: nat, seconds: nat, minutes: nat, hours: nat,
                               days: nat, months: nat, years: nat)

  /** `Trap` is a failed safety check of the source: an arithmetic underflow, an index
      out of bounds or a failed assertion. */
  datatype Outcome<+T> = Done(value: T) | Trap

  const EPOCH_UNIX := DateTime(0, 0, 0, 0, 0, 0, 1970)
  const SECONDS_PER_DAY := 86400

  predicate IsLeapYear(year: nat) {
    if year % 400 == 0 then true
    else if year % 100 == 0 then false
    else year % 4 == 0
  }

  function DaysInYear(year: nat): nat {
    if IsLeapYear(year) then 366 else 365
  }

  function DaysInMonth(year: nat, month: nat): (r: nat)
    requires month < 12
    ensures 28 <= r <= 31
  {
    var norm := [31, 28, 31, 30, 31, 30, 31, 31, 30, 31, 30, 31];
    var leap := [31, 29, 31, 30, 31, 30, 31, 31, 30, 31, 30, 31];
    if IsLeapYear(year) then leap[month] else norm[month]
  }

  // ----- The standard's side: an independent closed form

  /** Days of `year` before the first of `month`. */
  function DaysBeforeMonth(year: nat, month: nat): nat
    requires month <= 12
  {
    if month == 0 then 0 else DaysBeforeMonth(year, month - 1) + DaysInMonth(year, month - 1)
  }

  function DaysBeforeYear(year: nat): nat
    requires 1970 <= year
  {
    if year == 1970 then 0 else DaysBeforeYear(year - 1) + DaysInYear(year - 1)
  }

  /** Days since the Epoch, counted one year and one month at a time. */
  function DayNumber(d: DateTime): nat
    requires d.months < 12 && 1970 <= d.years
  {
    DaysBeforeYear(d.years) + DaysBeforeMonth(d.years, d.months) + d.days
  }

  /** Days before the first of a month, as every calendar has them; month 12 is the end of the year. */
  function MonthStart(year: int, month: nat): nat
    requires month <= 12
  {
    var starts := [0, 31, 59, 90, 120, 151, 181, 212, 243, 273, 304, 334, 365];
    var leap := year % 4 == 0 && (year % 100 != 0 || year % 400 == 0);
    starts[month] + if leap && month >= 2 then 1 else 0
  }

  /** The standard's formula, with its own names: tm_year counts from 1900. */
  function PosixSeconds(d: DateTime): int
    requires d.months < 12 && 1970 <= d.years
  {
    var tm_year, tm_yday := d.years - 1900, MonthStart(d.years, d.months) + d.days;
    d.seconds + d.minutes * 60 + d.hours * 3600 + tm_yday * 86400 +
    (tm_year - 70) * 31536000 + ((tm_year - 69) / 4) * 86400 -
    ((tm_year - 1) / 100) * 86400 + ((tm_year + 299) / 400) * 86400
  }

  /** What the assertions at the end of addDays demand. */
  predicate InRange(d: DateTime) {
    && d.ms < 1000 && d.seconds < 60 && d.minutes < 60 && d.hours < 24
    && d.months < 12 && d.days < DaysInMonth(d.years, d.months)
  }

  // ----- The code's side: what the loops of addDays compute

  function SkipYears(year: nat, input: nat): (nat, nat)
    decreases input
  {
    if input >= DaysInYear(year) then SkipYears(year + 1, input - DaysInYear(year)) else (year, input)
  }

  function NextMonth(year: nat, month: nat): (nat, nat) {
    if month == 11 then (year + 1, 0) else (year, month + 1)
  }

  function SkipMonths(year: nat, month: nat, input: nat): (r: (nat, nat, nat))
    requires month < 12
    ensures r.1 < 12 && r.2 < DaysInMonth(r.0, r.1)
    decreases input
  {
    if input >= DaysInMonth(year, month) then
      var (y, m) := NextMonth(year, month);
      SkipMonths(y, m, input - DaysInMonth(year, month))
    else (year, month, input)
  }

  /** The last block of addDays: add what is left to the day of the month, carrying at
      most once, then check the assertions. */
  function Settle(d: DateTime, input: nat): Outcome<DateTime>
    requires d.months < 12
  {
    var len := DaysInMonth(d.years, d.months);
    if d.days + input > len && (d.days > len || d.months == 11) then Trap
    else
      var (m, days) := if d.days + input > len then (d.months + 1, input - (len - d.days))
                       else (d.months, d.days + input);
      var (y', m', days') := if days == DaysInMonth(d.years, m) then
                               var (y, n) := NextMonth(d.years, m); (y, n, 0)
                             else (d.years, m, days);
      var r := d.(years := y', months := m', days := days');
      if InRange(r) then Done(r) else Trap
  }

  function AddedDays(d: DateTime, count: nat): Outcome<DateTime> {
    if count == 0 then Done(d)
    else if d.months >= 12 then Trap
    else
      var (y, rest) := SkipYears(d.years, count);
      var (y', m', rest') := SkipMonths(y, d.months, rest);
      Settle(d.(years := y', months := m'), rest')
  }

  method AddDays(d: DateTime, count: nat) returns (r: Outcome<DateTime>)
    ensures r == AddedDays(d, count)
  {
    if count == 0 { return Done(d); }
    if d.months >= 12 { return Trap; }
    var result, input := d, count;
    while input >= DaysInYear(result.years)
      invariant 0 <= input
      invariant SkipYears(result.years, input) == SkipYears(d.years, count)
      invariant result == d.(years := result.years)
    {
      input := input - DaysInYear(result.years);
      result := result.(years := result.years + 1);
    }
    ghost var y, rest := result.years, input;
    while input >= DaysInMonth(result.years, result.months)
      invariant 0 <= input && result.months < 12
      invariant SkipMonths(result.years, result.months, input) == SkipMonths(y, d.months, rest)
      invariant result == d.(years := result.years, months := result.months)
    {
      input := input - DaysInMonth(result.years, result.months);
      result := result.(months := result.months + 1);
      if result.months == 12 {
        result := result.(years := result.years + 1, months := 0);
      }
    }
    r := SettleDays(result, input);
  }

  method SettleDays(d: DateTime, count: nat) returns (r: Outcome<DateTime>)
    requires d.months < 12
    ensures r == Settle(d, count)
  {
    var result, input := d, count;
    var monthLen := DaysInMonth(result.years, result.months);
    if result.days + input > monthLen {
      if result.days > monthLen { return Trap; }
      input := input - (monthLen - result.days);
      result := result.(months := result.months + 1, days := 0);
      if result.months == 12 { return Trap; }
    }
    result := result.(days := result.days + input);
    if result.days == DaysInMonth(result.years, result.months) {
      result := result.(months := result.months + 1, days := 0);
    }
    if result.months == 12 {
      result := result.(years := result.years + 1, months := 0);
    }
    r := if InRange(result) then Done(result) else Trap;
  }

  /** Each unit takes its share of the count on top of what it holds; only whole days of the count reach
      the date. */
  function AddedHours(d: DateTime, count: nat): Outcome<DateTime> {
    AddedDays(d.(hours := d.hours + count % 24), count / 24)
  }

  function AddedMins(d: DateTime, count: nat): Outcome<DateTime> {
    AddedDays(d.(minutes := d.minutes + count % 60, hours := d.hours + count / 60 % 24), count / 1440)
  }

  function AddedSecs(d: DateTime, count: nat): Outcome<DateTime> {
    AddedDays(d.(seconds := d.seconds + count % 60, minutes := d.minutes + count / 60 % 60,
                 hours := d.hours + count / 3600 % 24),
              count / SECONDS_PER_DAY)
  }

  method AddHours(d: DateTime, count: nat) returns (r: Outcome<DateTime>)
    ensures r == AddedHours(d, count)
  {
    if count == 0 { return Done(d); }
    r := AddDays(d.(hours := d.hours + count % 24), count / 24);
  }

  method AddMins(d: DateTime, count: nat) returns (r: Outcome<DateTime>)
    ensures r == AddedMins(d, count)
  {
    if count == 0 { return Done(d); }
    r := AddHours(d.(minutes := d.minutes + count % 60), count / 60);
    assert count / 60 / 24 == count / 1440;
  }

  method AddSecs(d: DateTime, count: nat) returns (r: Outcome<DateTime>)
    ensures r == AddedSecs(d, count)
  {
    if count == 0 { return Done(d); }
    r := AddMins(d.(seconds := d.seconds + count % 60), count / 60);
    assert count / 60 / 60 == count / 3600;
    assert count / 60 / 1440 == count / SECONDS_PER_DAY;
  }

  // ----- The loops count days exactly

  lemma {:induction false} SkipYearsCounts(year: nat, input: nat)
    requires 1970 <= year
    ensures var (y, rest) := SkipYears(year, input);
            year <= y && rest < DaysInYear(y) && DaysBeforeYear(y) + rest == DaysBeforeYear(year) + input
    decreases input
  {
    if input >= DaysInYear(year) {
      SkipYearsCounts(year + 1, input - DaysInYear(year));
    }
  }

  lemma Mod100(y: int)
    ensures y % 100 == (y - 1900) % 100 && (y % 100 == 0 ==> y % 4 == 0)
  {
    var q := y / 100;
    assert y % 100 == 0 ==> y == 4 * (25 * q);
  }

  lemma Mod400(y: int)
    ensures y % 400 == (y - 1600) % 400 && (y % 400 == 0 ==> y % 100 == 0)
  {
    var q := y / 400;
    assert y % 400 == 0 ==> y == 100 * (4 * q);
  }

  lemma LeapRule(year: nat)
    ensures IsLeapYear(year) <==> year % 4 == 0 && (year % 100 != 0 || year % 400 == 0)
  {
    Mod100(year);
    Mod400(year);
  }

  /** The month table adds up to the calendar's month starts; so each month has its true length. */
  lemma {:induction false} MonthStarts(year: nat, month: nat)
    requires month <= 12
    ensures DaysBeforeMonth(year, month) == MonthStart(year, month)
    ensures month < 12 ==> DaysInMonth(year, month) == MonthStart(year, month + 1) - MonthStart(year, month)
  {
    LeapRule(year);
    if month > 0 {
      MonthStarts(year, month - 1);
    }
  }

  lemma YearLength(year: nat)
    ensures DaysBeforeMonth(year, 12) == DaysInYear(year)
  {
    MonthStarts(year, 12);
    LeapRule(year);
  }

  lemma MonthStep(year: nat, month: nat)
    requires 1970 <= year && month < 12
    ensures var (y, m) := NextMonth(year, month);
            DaysBeforeYear(y) + DaysBeforeMonth(y, m)
            == DaysBeforeYear(year) + DaysBeforeMonth(year, month) + DaysInMonth(year, month)
  {
    if month == 11 {
      YearLength(year);
      assert DaysBeforeYear(year + 1) == DaysBeforeYear(year) + DaysInYear(year);
      assert DaysBeforeMonth(year, 12) == DaysBeforeMonth(year, 11) + DaysInMonth(year, 11);
    }
  }

  lemma {:induction false} SkipMonthsCounts(year: nat, month: nat, input: nat)
    requires 1970 <= year && month < 12
    ensures var (y, m, rest) := SkipMonths(year, month, input);
            && year <= y
            && DaysBeforeYear(y) + DaysBeforeMonth(y, m) + rest
               == DaysBeforeYear(year) + DaysBeforeMonth(year, month) + input
    decreases input
  {
    if input >= DaysInMonth(year, month) {
      var (y, m) := NextMonth(year, month);
      MonthStep(year, month);
      SkipMonthsCounts(y, m, input - DaysInMonth(year, month));
    }
  }

  /** Days by which stepping whole years from `d` misses the same date of a later year. */
  function LeapShift(d: DateTime, count: nat): int
    requires d.months < 12
  {
    DaysBeforeMonth(SkipYears(d.years, count).0, d.months) - DaysBeforeMonth(d.years, d.months)
  }

  lemma SettleCounts(d: DateTime, input: nat)
    requires d.months < 12 && 1970 <= d.years && Settle(d, input).Done?
    ensures var r := Settle(d, input).value; InRange(r) && d.years <= r.years && DayNumber(r) == DayNumber(d) + input
    ensures var r := Settle(d, input).value;
            r == d.(years := r.years, months := r.months, days := r.days)
  {
    var len := DaysInMonth(d.years, d.months);
    MonthStep(d.years, d.months);
    if d.days + input > len {
      MonthStep(d.years, d.months + 1);
    }
  }

  /** Whatever the start date: when addDays completes, its assertions hold and it has moved
      `count` days on, except for the leap day it miscounts over whole years. */
  lemma AddedDaysCounts(d: DateTime, count: nat)
    requires d.months < 12 && 1970 <= d.years && AddedDays(d, count).Done?
    ensures var r := AddedDays(d, count).value;
            && (count > 0 ==> InRange(r))
            && r.months < 12 && d.years <= r.years
            && DayNumber(r) == DayNumber(d) + count + LeapShift(d, count)
            && r == d.(years := r.years, months := r.months, days := r.days)
  {
    if count > 0 {
      var (y, rest) := SkipYears(d.years, count);
      SkipYearsCounts(d.years, count);
      var (y', m', rest') := SkipMonths(y, d.months, rest);
      SkipMonthsCounts(y, d.months, rest);
      SettleCounts(d.(years := y', months := m'), rest');
    }
  }

  lemma {:induction false} DaysBeforeMonthByLeap(y1: nat, y2: nat, month: nat)
    requires month <= 12
    ensures DaysBeforeMonth(y1, month) == DaysBeforeMonth(y2, month)
            <==> month < 2 || (IsLeapYear(y1) <==> IsLeapYear(y2))
    ensures DaysBeforeMonth(y1, month) - DaysBeforeMonth(y2, month)
            == if month < 2 then 0 else DaysInYear(y1) - DaysInYear(y2)
  {
    if month > 0 {
      DaysBeforeMonthByLeap(y1, y2, month - 1);
    }
  }

  /** Where the loops of addDays stop, before the day of the month is added back. */
  function Landing(d: DateTime, count: nat): (int, int, int)
    requires d.months < 12
  {
    var (y, rest) := SkipYears(d.years, count);
    SkipMonths(y, d.months, rest)
  }

  /** addDays completes exactly when the day of the month and the days left over reach at most into the
      next month, which must not be January. */
  predicate Lands(d: DateTime, count: nat)
    requires d.months < 12
  {
    var (y, m, rest) := Landing(d, count);
    var len := DaysInMonth(y, m);
    d.days + rest <= len || (m < 11 && d.days <= len && d.days + rest <= len + DaysInMonth(y, m + 1))
  }

  lemma AddedDaysCompletesIff(d: DateTime, count: nat)
    requires InRange(d) && count > 0
    ensures AddedDays(d, count).Done? <==> Lands(d, count)
  {
  }

  /** From any date: when addDays completes, it counts `count` days exactly when the start is in January
      or February or the whole years it stepped over end in a year of the same length as the first. From
      the first of a month it always completes. */
  lemma AddedDaysExactIff(d: DateTime, count: nat)
    requires InRange(d) && 1970 <= d.years && count > 0
    ensures var r := AddedDays(d, count);
            && (r.Done? <==> Lands(d, count))
            && (d.days == 0 ==> r.Done?)
            && (r.Done? ==>
                  && InRange(r.value) && d.years <= r.value.years
                  && (DayNumber(r.value) == DayNumber(d) + count
                      <==> d.months < 2 || (IsLeapYear(d.years) <==> IsLeapYear(SkipYears(d.years, count).0))))
  {
    AddedDaysCompletesIff(d, count);
    if AddedDays(d, count).Done? {
      AddedDaysCounts(d, count);
      DaysBeforeMonthByLeap(SkipYears(d.years, count).0, d.years, d.months);
    }
  }

  /** 20 days after 15 December the code stops at a failed safety check, in every year. */
  lemma DecemberTraps(d: DateTime)
    requires InRange(d) && d.months == 11 && d.days == 14
    ensures AddedDays(d, 20) == Trap
  {
    assert SkipYears(d.years, 20) == (d.years, 20);
    assert SkipMonths(d.years, 11, 20) == (d.years, 11, 20);
  }

  /** 365 days after 1 March of a common year the code says 1 March of the next year; when
      that year is a leap year, as after 1971, the calendar says 29 February. */
  lemma AddedDaysMiscounts(d: DateTime)
    requires d == EPOCH_UNIX.(years := d.years, months := 2) && 1970 <= d.years
    requires !IsLeapYear(d.years) && IsLeapYear(d.years + 1)
    ensures AddedDays(d, 365) == Done(d.(years := d.years + 1))
    ensures DayNumber(d.(years := d.years + 1)) == DayNumber(d) + 366
  {
    var y := d.years + 1;
    assert SkipYears(d.years, 365) == SkipYears(y, 0) == (y, 0);
    assert SkipMonths(y, 2, 0) == (y, 2, 0);
    DaysBeforeMonthByLeap(y, d.years, 2);
  }

  /** A time of day: no unit has run over. */
  predicate OnClock(seconds: nat, minutes: nat, hours: nat) {
    seconds < 60 && minutes < 60 && hours < 24
  }

  function WithClock(d: DateTime, seconds: nat, minutes: nat, hours: nat): DateTime {
    d.(seconds := seconds, minutes := minutes, hours := hours)
  }

  /** addDays never looks at the time of day, except in its assertions. */
  lemma ClockApart(d: DateTime, seconds: nat, minutes: nat, hours: nat, count: nat)
    requires InRange(d)
    ensures var r := AddedDays(WithClock(d, seconds, minutes, hours), count);
            if count == 0 then r == Done(WithClock(d, seconds, minutes, hours))
            else if OnClock(seconds, minutes, hours) && AddedDays(d, count).Done?
            then r == Done(WithClock(AddedDays(d, count).value, seconds, minutes, hours))
            else r == Trap
  {
  }

  lemma Step4(n: int)
    ensures (n + 1) / 4 == n / 4 + if (n + 1) % 4 == 0 then 1 else 0
  {
  }

  lemma Step100(n: int)
    ensures (n + 1) / 100 == n / 100 + if (n + 1) % 100 == 0 then 1 else 0
  {
  }

  lemma Step400(n: int)
    ensures (n + 1) / 400 == n / 400 + if (n + 1) % 400 == 0 then 1 else 0
  {
  }

  lemma Mod4(y: int)
    ensures y % 4 == (y - 1968) % 4
  {
  }

  lemma LeapDaysStep(year: nat)
    ensures LeapDaysBefore(year + 1) == LeapDaysBefore(year) + DaysInYear(year) - 365
  {
    Step4(year - 1969);
    Step100(year - 1901);
    Step400(year - 1601);
    Mod4(year);
    Mod100(year);
    Mod400(year);
  }

  /** One year at a time and in closed form, the count is the same. */
  lemma {:induction false} ClosedForm(year: nat)
    requires 1970 <= year
    ensures DaysBeforeYear(year) == (year - 1970) * 365 + LeapDaysBefore(year)
  {
    if year > 1970 {
      ClosedForm(year - 1);
      LeapDaysStep(year - 1);
    }
  }

  lemma PosixCountsDays(d: DateTime)
    requires d.months < 12 && 1970 <= d.years
    ensures PosixSeconds(d) == d.seconds + d.minutes * 60 + d.hours * 3600 + DayNumber(d) * SECONDS_PER_DAY
  {
    ClosedForm(d.years);
    MonthStarts(d.years, d.months);
  }

  /** The result is a date and a time of day exactly when no unit runs over and the days can be added. */
  lemma ClockExact(d: DateTime, seconds: nat, minutes: nat, hours: nat, days: nat)
    requires InRange(d) && 1970 <= d.years
    ensures var r := AddedDays(WithClock(d, seconds, minutes, hours), days);
            && (r.Done? && InRange(r.value) <==> OnClock(seconds, minutes, hours) && (days == 0 || Lands(d, days)))
            && (r.Done? && InRange(r.value) ==>
                  && 1970 <= r.value.years
                  && PosixSeconds(r.value) == seconds + minutes * 60 + hours * 3600
                                              + (DayNumber(d) + days + LeapShift(d, days)) * SECONDS_PER_DAY)
  {
    ClockApart(d, seconds, minutes, hours, days);
    if days > 0 {
      AddedDaysCompletesIff(d, days);
    }
    if AddedDays(d, days).Done? {
      AddedDaysCounts(d, days);
      PosixCountsDays(WithClock(AddedDays(d, days).value, seconds, minutes, hours));
    }
  }

  lemma SplitSeconds(unix: nat)
    ensures unix == unix % 60 + unix / 60 % 60 * 60 + unix / 60 / 60 % 24 * 3600
                    + unix / SECONDS_PER_DAY * SECONDS_PER_DAY
  {
  }

  /** From any date and time of day: addSecs gives one exactly when neither the seconds, the minutes nor
      the hours run over, for nothing is carried but what the count itself holds, and when addDays
      completes. It is then `count` seconds later, but for the leap day addDays may miscount. */
  lemma AddedSecsExact(d: DateTime, count: nat)
    requires InRange(d) && 1970 <= d.years
    ensures var r, days := AddedSecs(d, count), count / SECONDS_PER_DAY;
            && (r.Done? && InRange(r.value) <==>
                  && OnClock(d.seconds + count % 60, d.minutes + count / 60 % 60, d.hours + count / 3600 % 24)
                  && (days == 0 || Lands(d, days)))
            && (r.Done? && InRange(r.value) ==>
                  && 1970 <= r.value.years
                  && PosixSeconds(r.value) == PosixSeconds(d) + count + LeapShift(d, days) * SECONDS_PER_DAY)
  {
    ClockExact(d, d.seconds + count % 60, d.minutes + count / 60 % 60, d.hours + count / 3600 % 24,
               count / SECONDS_PER_DAY);
    PosixCountsDays(d);
    SplitSeconds(count);
    assert count / 60 / 60 == count / 3600;
  }

  lemma SplitMinutes(count: nat)
    ensures count == count % 60 + count / 60 % 24 * 60 + count / 1440 * 1440
  {
    var hours := count / 60;
    assert hours / 24 == count / 1440;
    assert hours == hours / 24 * 24 + hours % 24;
  }

  lemma AddedMinsExact(d: DateTime, count: nat)
    requires InRange(d) && 1970 <= d.years
    ensures var r, days := AddedMins(d, count), count / 1440;
            && (r.Done? && InRange(r.value) <==>
                  && OnClock(d.seconds, d.minutes + count % 60, d.hours + count / 60 % 24)
                  && (days == 0 || Lands(d, days)))
            && (r.Done? && InRange(r.value) ==>
                  && 1970 <= r.value.years
                  && PosixSeconds(r.value) == PosixSeconds(d) + 60 * count + LeapShift(d, days) * SECONDS_PER_DAY)
  {
    ClockExact(d, d.seconds, d.minutes + count % 60, d.hours + count / 60 % 24, count / 1440);
    PosixCountsDays(d);
    SplitMinutes(count);
  }

  lemma AddedHoursExact(d: DateTime, count: nat)
    requires InRange(d) && 1970 <= d.years
    ensures var r, days := AddedHours(d, count), count / 24;
            && (r.Done? && InRange(r.value) <==>
                  OnClock(d.seconds, d.minutes, d.hours + count % 24) && (days == 0 || Lands(d, days)))
            && (r.Done? && InRange(r.value) ==>
                  && 1970 <= r.value.years
                  && PosixSeconds(r.value) == PosixSeconds(d) + 3600 * count + LeapShift(d, days) * SECONDS_PER_DAY)
  {
    ClockExact(d, d.seconds, d.minutes, d.hours + count % 24, count / 24);
    PosixCountsDays(d);
    assert count == count % 24 + count / 24 * 24;
  }

  /** One second after second 59 the code says second 60, one minute after minute 59 minute 60, and one
      hour after hour 23 hour 24. */
  lemma NothingCarried(d: DateTime)
    requires InRange(d)
    ensures d.seconds == 59 ==> AddedSecs(d, 1) == Done(d.(seconds := 60))
    ensures d.minutes == 59 ==> AddedMins(d, 1) == Done(d.(minutes := 60))
    ensures d.hours == 23 ==> AddedHours(d, 1) == Done(d.(hours := 24))
  {
  }

  // ----- Unix seconds to fields

  /** The calendar fields of a Unix time. */
  function DateOf(unix: nat): DateTime {
    var (y, rest) := SkipYears(1970, unix / SECONDS_PER_DAY);
    var (y', m, d) := SkipMonths(y, 0, rest);
    DateTime(0, unix % 60, unix / 60 % 60, unix / 60 / 60 % 24, d, m, y')
  }

  lemma EpochDays(days: nat)
    ensures var (y, rest) := SkipYears(1970, days);
            var (y', m, d) := SkipMonths(y, 0, rest);
            AddedDays(EPOCH_UNIX, days) == Done(DateTime(0, 0, 0, 0, d, m, y'))
  {
    assert SkipYears(1970, 0) == (1970, 0) && SkipMonths(1970, 0, 0) == (1970, 0, 0);
  }

  lemma EpochSeconds(unix: nat)
    ensures AddedSecs(EPOCH_UNIX, unix) == Done(DateOf(unix))
  {
    assert unix / 60 / 60 == unix / 3600;
    EpochDays(unix / SECONDS_PER_DAY);
    ClockApart(EPOCH_UNIX, unix % 60, unix / 60 % 60, unix / 3600 % 24, unix / SECONDS_PER_DAY);
  }

  /** initUnix: never traps, and computes `DateOf`. */
  method InitUnix(unix: nat) returns (r: Outcome<DateTime>)
    ensures r == Done(DateOf(unix))
  {
    r := AddSecs(EPOCH_UNIX, unix);
    EpochSeconds(unix);
  }

  function LeapDaysBefore(year: nat): int {
    (year - 1969) / 4 - (year - 1901) / 100 + (year - 1601) / 400
  }

  /** The standard's formula gives back the Unix time, for every time. */
  lemma DateOfMeetsPosix(unix: nat)
    ensures var d := DateOf(unix);
            && InRange(d) && d.ms == 0 && 1970 <= d.years && PosixSeconds(d) == unix
            && d.days < MonthStart(d.years, d.months + 1) - MonthStart(d.years, d.months)
    ensures DayNumber(DateOf(unix)) == unix / SECONDS_PER_DAY
  {
    var (y, rest) := SkipYears(1970, unix / SECONDS_PER_DAY);
    SkipYearsCounts(1970, unix / SECONDS_PER_DAY);
    SkipMonthsCounts(y, 0, rest);
    PosixCountsDays(DateOf(unix));
    SplitSeconds(unix);
    MonthStarts(DateOf(unix).years, DateOf(unix).months);
  }

  lemma {:induction false} DaysBeforeYearMonotone(y1: nat, y2: nat)
    requires 1970 <= y1 <= y2
    ensures DaysBeforeYear(y2) >= DaysBeforeYear(y1) + 365 * (y2 - y1)
    decreases y2 - y1
  {
    if y1 < y2 {
      DaysBeforeYearMonotone(y1 + 1, y2);
    }
  }

  lemma {:induction false} DaysBeforeMonthMonotone(year: nat, m1: nat, m2: nat)
    requires m1 < m2 <= 12
    ensures DaysBeforeMonth(year, m1) + DaysInMonth(year, m1) <= DaysBeforeMonth(year, m2)
  {
    if m1 + 1 < m2 {
      DaysBeforeMonthMonotone(year, m1, m2 - 1);
    }
  }

  predicate EarlierMonth(a: DateTime, b: DateTime) {
    a.years < b.years || (a.years == b.years && a.months < b.months)
  }

  lemma DayNumberOrdered(a: DateTime, b: DateTime)
    requires InRange(a) && InRange(b) && 1970 <= a.years && EarlierMonth(a, b)
    ensures DayNumber(a) < DayNumber(b)
  {
    if a.years < b.years {
      DaysBeforeMonthMonotone(a.years, a.months, 12);
      YearLength(a.years);
      DaysBeforeYearMonotone(a.years + 1, b.years);
    } else {
      DaysBeforeMonthMonotone(a.years, a.months, b.months);
    }
  }

  /** A day number names one date only. */
  lemma DayNumberInjective(a: DateTime, b: DateTime)
    requires InRange(a) && InRange(b) && 1970 <= a.years && 1970 <= b.years && DayNumber(a) == DayNumber(b)
    ensures a.years == b.years && a.months == b.months && a.days == b.days
  {
    if EarlierMonth(a, b) {
      DayNumberOrdered(a, b);
    } else if EarlierMonth(b, a) {
      DayNumberOrdered(b, a);
    }
  }

  lemma ClockInjective(s: nat, m: nat, h: nat, days: nat, unix: nat)
    requires s < 60 && m < 60 && h < 24 && unix == s + m * 60 + h * 3600 + days * SECONDS_PER_DAY
    ensures s == unix % 60 && m == unix / 60 % 60 && h == unix / 60 / 60 % 24 && days == unix / SECONDS_PER_DAY
  {
    assert unix / 60 == m + 60 * h + 1440 * days;
    assert unix / 60 / 60 == h + 24 * days;
  }

  /** The fields of a Unix time are the only in-range fields the formula maps to it. */
  lemma PosixSecondsInjective(a: DateTime, unix: nat)
    requires InRange(a) && a.ms == 0 && 1970 <= a.years && PosixSeconds(a) == unix
    ensures a == DateOf(unix)
  {
    DateOfMeetsPosix(unix);
    var b := DateOf(unix);
    PosixCountsDays(a);
    ClockInjective(a.seconds, a.minutes, a.hours, DayNumber(a), unix);
    DayNumberInjective(a, b);
  }

  /** A 32-bit time stays far below the 16-bit year. */
  lemma YearOfTimestamp(unix: nat)
    requires unix < 0x1_0000_0000
    ensures 1970 <= DateOf(unix).years <= 2106
  {
    DateOfMeetsPosix(unix);
    if DateOf(unix).years > 2106 {
      ClosedForm(2107);
      DaysBeforeYearMonotone(2107, DateOf(unix).years);
    }
  }

  // ----- The MM/DD/YYYY key

  function Digit(n: nat): char
    requires n < 10
  {
    '0' + n as char
  }

  /** "{:0>width}": decimal digits, padded with zeros on the left to at least `width`. */
  function ZeroPadded(n: nat, width: nat): (s: string)
    ensures |s| >= width && |s| >= 1
    ensures n < 100 && width == 2 ==> |s| == 2
    decreases n + width
  {
    if n < 10 && width <= 1 then [Digit(n)]
    else ZeroPadded(n / 10, if width > 0 then width - 1 else 0) + [Digit(n % 10)]
  }

  function DateKey(d: DateTime): string {
    ZeroPadded(d.months + 1, 2) + "/" + ZeroPadded(d.days + 1, 2) + "/" + ZeroPadded(d.years, 4)
  }

  lemma SameDigit(a: nat, b: nat)
    requires a < 10 && b < 10 && Digit(a) == Digit(b)
    ensures a == b
  {
  }

  lemma {:induction false} ZeroPaddedInjective(a: nat, b: nat, width: nat)
    requires ZeroPadded(a, width) == ZeroPadded(b, width)
    ensures a == b
    decreases a + width
  {
    var s, t := ZeroPadded(a, width), ZeroPadded(b, width);
    var baseA, baseB := a < 10 && width <= 1, b < 10 && width <= 1;
    assert s[|s| - 1] == Digit(a % 10) && t[|t| - 1] == Digit(b % 10);
    SameDigit(a % 10, b % 10);
    if !baseA && !baseB {
      var w := if width > 0 then width - 1 else 0;
      assert ZeroPadded(a / 10, w) == s[..|s| - 1] == t[..|t| - 1] == ZeroPadded(b / 10, w);
      ZeroPaddedInjective(a / 10, b / 10, w);
    }
  }

  lemma DateKeyInjective(a: DateTime, b: DateTime)
    requires a.months < 12 && b.months < 12 && a.days < 31 && b.days < 31 && DateKey(a) == DateKey(b)
    ensures a.years == b.years && a.months == b.months && a.days == b.days
  {
    var s, t := DateKey(a), DateKey(b);
    assert s[..2] == ZeroPadded(a.months + 1, 2) && t[..2] == ZeroPadded(b.months + 1, 2);
    assert s[3..5] == ZeroPadded(a.days + 1, 2) && t[3..5] == ZeroPadded(b.days + 1, 2);
    assert s[6..] == ZeroPadded(a.years, 4) && t[6..] == ZeroPadded(b.years, 4);
    ZeroPaddedInjective(a.months + 1, b.months + 1, 2);
    ZeroPaddedInjective(a.days + 1, b.days + 1, 2);
    ZeroPaddedInjective(a.years, b.years, 4);
  }

  /** The number a text of decimal digits stands for. */
  function Decimal(s: string): int {
    if s == "" then 0 else 10 * Decimal(s[..|s| - 1]) + (s[|s| - 1] as int - '0' as int)
  }

  lemma {:induction false} ZeroPaddedReads(n: nat, width: nat)
    ensures Decimal(ZeroPadded(n, width)) == n
    decreases n + width
  {
    var s := ZeroPadded(n, width);
    if n < 10 && width <= 1 {
      assert s[..0] == "" && s[0] == Digit(n);
    } else {
      var w := if width > 0 then width - 1 else 0;
      ZeroPaddedReads(n / 10, w);
      assert s[..|s| - 1] == ZeroPadded(n / 10, w);
    }
  }

  /** The key reads month, day and year, each counted from one, with two digits for the first two. */
  lemma DateKeyReads(d: DateTime)
    requires d.months < 12 && d.days < 31
    ensures var k := DateKey(d);
            && |k| > 6 && k[2] == '/' && k[5] == '/'
            && Decimal(k[..2]) == d.months + 1 && Decimal(k[3..5]) == d.days + 1 && Decimal(k[6..]) == d.years
  {
    var k := DateKey(d);
    assert k[..2] == ZeroPadded(d.months + 1, 2) && k[3..5] == ZeroPadded(d.days + 1, 2);
    assert k[6..] == ZeroPadded(d.years, 4);
    ZeroPaddedReads(d.months + 1, 2);
    ZeroPaddedReads(d.days + 1, 2);
    ZeroPaddedReads(d.years, 4);
  }

  /** The key under which a car is marked for a time. */
  function DayKey(unix: nat): string {
    DateKey(DateOf(unix))
  }

  predicate SameDate(a: DateTime, b: DateTime) {
    a.years == b.years && a.months == b.months && a.days == b.days
  }

  lemma SameKeyIffSameDate(a: DateTime, b: DateTime)
    requires InRange(a) && InRange(b)
    ensures DateKey(a) == DateKey(b) <==> SameDate(a, b)
  {
    if DateKey(a) == DateKey(b) {
      DateKeyInjective(a, b);
    }
  }

  lemma SameNumberIffSameDate(a: DateTime, b: DateTime)
    requires InRange(a) && InRange(b) && 1970 <= a.years && 1970 <= b.years
    ensures DayNumber(a) == DayNumber(b) <==> SameDate(a, b)
  {
    if DayNumber(a) == DayNumber(b) {
      DayNumberInjective(a, b);
    }
  }

  /** Keys identify days exactly. */
  lemma SameKeyIffSameDay(t1: nat, t2: nat)
    ensures DayKey(t1) == DayKey(t2) <==> t1 / SECONDS_PER_DAY == t2 / SECONDS_PER_DAY
  {
    DateOfMeetsPosix(t1);
    DateOfMeetsPosix(t2);
    SameKeyIffSameDate(DateOf(t1), DateOf(t2));
    SameNumberIffSameDate(DateOf(t1), DateOf(t2));
  }
}
