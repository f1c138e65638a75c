/**
 * Dates on the proleptic Gregorian calendar. A date is an integer day number
 * counted from 1970-01-01; a timestamp is an integer number of seconds from
 * 1970-01-01 00:00 in the one time zone the application runs in.
 */
module Calendar {

  /** A calendar date as year, month (1-12) and day of month. */
  datatype Civil = Civil(year: int, month: int, day: int)

  predicate IsLeapYear(y: int)
  {
    y % 4 == 0 && (y % 100 != 0 || y % 400 == 0)
  }

  function DaysInMonth(y: int, m: int): (r: int)
    requires 1 <= m <= 12
    ensures 28 <= r <= 31
    ensures r == 29 <==> m == 2 && IsLeapYear(y)
    ensures r == 28 <==> m == 2 && !IsLeapYear(y)
    ensures r == 30 <==> m in {4, 6, 9, 11}
  {
    if m == 2 then (if IsLeapYear(y) then 29 else 28)
    else if m == 4 || m == 6 || m == 9 || m == 11 then 30
    else 31
  }

  predicate Valid(c: Civil)
  {
    1 <= c.month <= 12 && 1 <= c.day <= DaysInMonth(c.year, c.month)
  }

  /** The following calendar day. */
  function NextDay(c: Civil): (r: Civil)
    requires Valid(c)
    ensures Valid(r)
    ensures r.day == 1 <==> c.day == DaysInMonth(c.year, c.month)
  {
    if c.day < DaysInMonth(c.year, c.month) then c.(day := c.day + 1)
    else if c.month < 12 then Civil(c.year, c.month + 1, 1)
    else Civil(c.year + 1, 1, 1)
  }

  /** The preceding calendar day. */
  function PrevDay(c: Civil): (r: Civil)
    requires Valid(c)
    ensures Valid(r)
    ensures NextDay(r) == c
  {
    if c.day > 1 then c.(day := c.day - 1)
    else if c.month > 1 then Civil(c.year, c.month - 1, DaysInMonth(c.year, c.month - 1))
    else Civil(c.year - 1, 12, 31)
  }

  lemma PrevDayOfNextDay(c: Civil)
    requires Valid(c)
    ensures PrevDay(NextDay(c)) == c
  {
  }

  const Epoch: Civil := Civil(1970, 1, 1)

  /** The calendar date of day number `n`. */
  function ToCivil(n: int): (c: Civil)
    ensures Valid(c)
    decreases if n >= 0 then n else -n
  {
    if n == 0 then Epoch
    else if n > 0 then NextDay(ToCivil(n - 1))
    else PrevDay(ToCivil(n + 1))
  }

  /** Consecutive day numbers are consecutive calendar days, on both sides of the epoch. */
  lemma ToCivilSucc(n: int)
    ensures ToCivil(n + 1) == NextDay(ToCivil(n))
  {
  }

  /** The month after month `m`, December wrapping to January. */
  function NextMonth(m: int): (r: int)
    requires 1 <= m <= 12
    ensures 1 <= r <= 12 && r != m
    ensures m < 12 ==> r == m + 1
  {
    if m < 12 then m + 1 else 1
  }

  /** Within a month, the date `j` days later is in the same month, `j` days further on. */
  lemma {:induction false} SameMonthAhead(d: int, j: nat)
    requires ToCivil(d).day + j <= DaysInMonth(ToCivil(d).year, ToCivil(d).month)
    ensures ToCivil(d + j) == ToCivil(d).(day := ToCivil(d).day + j)
  {
    if j > 0 {
      SameMonthAhead(d, j - 1);
      ToCivilSucc(d + j - 1);
    }
  }

  /** The day after the last day of a month is the first day of the next month. */
  lemma MonthTurn(d: int)
    requires ToCivil(d).day == DaysInMonth(ToCivil(d).year, ToCivil(d).month)
    ensures ToCivil(d + 1).day == 1 && ToCivil(d + 1).month == NextMonth(ToCivil(d).month)
  {
    ToCivilSucc(d);
  }

  /**
   * Up to 29 days after a date that is not the last of its month, the date lies in
   * the same month or the next.
   */
  lemma WithinTwoMonths(start: int, i: nat)
    requires i <= 29
    requires ToCivil(start).day < DaysInMonth(ToCivil(start).year, ToCivil(start).month)
    ensures ToCivil(start + i).month == ToCivil(start).month ||
            ToCivil(start + i).month == NextMonth(ToCivil(start).month)
  {
    var c := ToCivil(start);
    var rest := DaysInMonth(c.year, c.month) - c.day;
    if i <= rest {
      SameMonthAhead(start, i);
    } else {
      SameMonthAhead(start, rest);
      MonthTurn(start + rest);
      var d1 := start + rest + 1;
      SameMonthAhead(d1, i - rest - 1);
      assert d1 + (i - rest - 1) == start + i;
    }
  }

  /** The first day of the next month comes within 31 days of any date. */
  lemma NextMonthStart(d: int) returns (j: nat)
    ensures 1 <= j <= 31
    ensures ToCivil(d + j).month == NextMonth(ToCivil(d).month)
  {
    var c := ToCivil(d);
    var rest := DaysInMonth(c.year, c.month) - c.day;
    SameMonthAhead(d, rest);
    MonthTurn(d + rest);
    j := rest + 1;
  }

  /** The next two months both begin within 62 days of any date. */
  lemma NextTwoMonths(first: int) returns (j: nat, k: nat)
    ensures 0 < j < k <= 62
    ensures ToCivil(first + j).month == NextMonth(ToCivil(first).month)
    ensures ToCivil(first + k).month == NextMonth(NextMonth(ToCivil(first).month))
  {
    j := NextMonthStart(first);
    var j2 := NextMonthStart(first + j);
    k := j + j2;
    assert first + j + j2 == first + k;
  }

  /** Python `date.weekday()`: Monday is 0 and Sunday is 6; 1970-01-01 was a Thursday. */
  function Weekday(n: int): (r: int)
    ensures 0 <= r < 7
  {
    (n + 3) % 7
  }

  /** Consecutive day numbers are consecutive weekdays, wrapping from Sunday to Monday. */
  lemma WeekdaySucc(n: int)
    ensures Weekday(n + 1) == (Weekday(n) + 1) % 7
    ensures Weekday(n + 7) == Weekday(n)
  {
  }

  /** JavaScript `Date.getDay()`: Sunday is 0 and Saturday is 6. */
  function JsDay(n: int): (r: int)
    ensures 0 <= r < 7
    ensures r == (Weekday(n) + 1) % 7
  {
    (n + 4) % 7
  }

  const SecondsPerDay: int := 86400

  /** The day number of a timestamp. */
  function DayOf(t: int): (r: int)
    ensures r * SecondsPerDay <= t < (r + 1) * SecondsPerDay
  {
    t / SecondsPerDay
  }

  /** The hour of the day of a timestamp (`getHours()`, pandas `dt.hour`). */
  function HourOf(t: int): (r: int)
    ensures 0 <= r < 24
    ensures DayOf(t) * SecondsPerDay + r * 3600 <= t < DayOf(t) * SecondsPerDay + (r + 1) * 3600
  {
    (t % SecondsPerDay) / 3600
  }

  /** The minute of the hour of a timestamp. */
  function MinuteOf(t: int): (r: int)
    ensures 0 <= r < 60
  {
    (t % 3600) / 60
  }

  /** `k` days after `c`, as `date + timedelta(days=k)`. */
  function AddDays(c: Civil, k: nat): (r: Civil)
    requires Valid(c)
    ensures Valid(r)
    decreases k
  {
    if k == 0 then c else AddDays(NextDay(c), k - 1)
  }

  /** `k` days before `c`, as `date - timedelta(days=k)`. */
  function SubDays(c: Civil, k: nat): (r: Civil)
    requires Valid(c)
    ensures Valid(r)
    decreases k
  {
    if k == 0 then c else SubDays(PrevDay(c), k - 1)
  }

  /**
   * The day of the month of the last day of `c`'s month, computed as the forecaster
   * does: the 28th plus four days always lies in the next month, and stepping back
   * from there by its own day of month lands on the last day of `c`'s month.
   */
  function LastDayOfMonth(c: Civil): (r: int)
    requires Valid(c)
    ensures 28 <= r <= 31
  {
    var nextMonth := AddDays(c.(day := 28), 4);
    LastDayOfMonthSteps(c);
    SubDays(nextMonth, nextMonth.day).day
  }

  /** The two steps of `LastDayOfMonth`, one month length at a time. */
  lemma LastDayOfMonthSteps(c: Civil)
    requires Valid(c)
    ensures var nextMonth := AddDays(c.(day := 28), 4);
            nextMonth.day == 32 - DaysInMonth(c.year, c.month) &&
            SubDays(nextMonth, nextMonth.day) == c.(day := DaysInMonth(c.year, c.month))
  {
    var d := DaysInMonth(c.year, c.month);
    var c28 := c.(day := 28);
    var a1 := NextDay(c28);
    var a2 := NextDay(a1);
    var a3 := NextDay(a2);
    var a4 := NextDay(a3);
    assert AddDays(c28, 4) == AddDays(a1, 3) == AddDays(a2, 2) == AddDays(a3, 1) == AddDays(a4, 0) == a4;
    assert a4.day == 32 - d;
    var last := c.(day := d);
    if d == 28 {
      assert SubDays(a4, 4) == SubDays(a3, 3) == SubDays(a2, 2) == SubDays(a1, 1);
      assert PrevDay(a1) == c28 == last;
    } else if d == 29 {
      assert SubDays(a4, 3) == SubDays(a3, 2) == SubDays(a2, 1);
      assert PrevDay(a2) == a1 == last;
    } else if d == 30 {
      assert SubDays(a4, 2) == SubDays(a3, 1);
      assert PrevDay(a3) == a2 == last;
    } else {
      assert SubDays(a4, 1) == SubDays(PrevDay(a4), 0);
      assert PrevDay(a4) == a3 == last;
    }
  }

  /** `_last_day_of_month` returns the true length of the month, leap years included. */
  lemma LastDayOfMonthIsMonthLength(c: Civil)
    requires Valid(c)
    ensures LastDayOfMonth(c) == DaysInMonth(c.year, c.month)
  {
    LastDayOfMonthSteps(c);
  }
}
