/** Proleptic Gregorian calendar dates with JavaScript's zero-based months, and the
    normalising `new Date(year, month, day)` constructor the calendar page relies on. */
module Dates {

  /** A calendar date at day precision; `month` is zero-based (0 = January) as `Date.getMonth()` returns. */
  datatype Date = Date(year: int, month: int, day: int) {

    /** A real calendar day: month 0..11 and day within that month's length. */
    predicate Valid() {
      0 <= month < 12 && 1 <= day <= DaysInMonth(year, month)
    }
  }

  /** Gregorian leap-year rule: divisible by 4, except centuries not divisible by 400. */
  predicate IsLeapYear(year: int) {
    year % 4 == 0 && (year % 100 != 0 || year % 400 == 0)
  }

  /** Number of days of zero-based `month` in `year`. */
  function DaysInMonth(year: int, month: int): (n: int)
    requires 0 <= month < 12
    ensures 28 <= n <= 31
    ensures n == 29 <==> month == 1 && IsLeapYear(year)
    ensures n == 28 <==> month == 1 && !IsLeapYear(year)
    ensures n == 30 <==> month in {3, 5, 8, 10}
  {
    if month == 1 then (if IsLeapYear(year) then 29 else 28)
    else if month == 3 || month == 5 || month == 8 || month == 10 then 30
    else 31
  }

  /** The (year, month) pair before the given one, rolling January back to December. */
  function PrevMonthOf(year: int, month: int): (r: (int, int))
    requires 0 <= month < 12
    ensures 0 <= r.1 < 12
    ensures r.0 * 12 + r.1 == year * 12 + month - 1
  {
    if month == 0 then (year - 1, 11) else (year, month - 1)
  }

  /** The (year, month) pair after the given one, rolling December over to January. */
  function NextMonthOf(year: int, month: int): (r: (int, int))
    requires 0 <= month < 12
    ensures 0 <= r.1 < 12
    ensures r.0 * 12 + r.1 == year * 12 + month + 1
  {
    if month == 11 then (year + 1, 0) else (year, month + 1)
  }

  /** `new Date(year, month, day)`: an out-of-range month carries into the year (floor
      division, so month -1 is December of the year before), and an out-of-range day is
      carried month by month into the neighbouring months. */
  function MakeDate(year: int, month: int, day: int): (d: Date)
    ensures d.Valid()
    decreases if day < 1 then 1 - day else 0, if day < 1 then 0 else day
  {
    var y := year + month / 12;
    var m := month % 12;
    if day < 1 then
      var p := PrevMonthOf(y, m);
      MakeDate(p.0, p.1, day + DaysInMonth(p.0, p.1))
    else if day > DaysInMonth(y, m) then
      MakeDate(y, m + 1, day - DaysInMonth(y, m))
    else
      Date(y, m, day)
  }

  /** The calendar day after `d`. */
  function NextDay(d: Date): (r: Date)
    requires d.Valid()
    ensures r.Valid()
  {
    if d.day < DaysInMonth(d.year, d.month) then Date(d.year, d.month, d.day + 1)
    else
      var n := NextMonthOf(d.year, d.month);
      Date(n.0, n.1, 1)
  }

  /** The calendar day before `d`. */
  function PrevDay(d: Date): (r: Date)
    requires d.Valid()
    ensures r.Valid()
  {
    if d.day > 1 then Date(d.year, d.month, d.day - 1)
    else
      var p := PrevMonthOf(d.year, d.month);
      Date(p.0, p.1, DaysInMonth(p.0, p.1))
  }

  /** Per-month offsets of Sakamoto's day-of-week formula. */
  function MonthOffset(month: int): int
    requires 0 <= month < 12
  {
    [0, 3, 2, 5, 0, 3, 5, 1, 4, 6, 2, 4][month]
  }

  /** Days contributed by the years up to `y` modulo 7 in Sakamoto's formula. */
  function YearTerm(y: int): int {
    y + y / 4 - y / 100 + y / 400
  }

  /** Day of the week as `Date.getDay()` numbers it: 0 = Sunday .. 6 = Saturday. */
  function Weekday(d: Date): (w: int)
    requires d.Valid()
    ensures 0 <= w < 7
  {
    var y := if d.month < 2 then d.year - 1 else d.year;
    (YearTerm(y) + MonthOffset(d.month) + d.day) % 7
  }

  /** `isToday`: the date agrees with the reference "now" on day, month and year. */
  function IsToday(d: Date, now: Date): (r: bool)
    ensures r <==> d == now
  {
    d.day == now.day && d.month == now.month && d.year == now.year
  }

  /** The calendar page's `nextMonth`: the first day of the month after `d`'s. */
  function NextMonth(d: Date): (r: Date)
  {
    MakeDate(d.year, d.month + 1, 1)
  }

  /** The calendar page's `prevMonth`: the first day of the month before `d`'s. */
  function PrevMonth(d: Date): (r: Date)
  {
    MakeDate(d.year, d.month - 1, 1)
  }

  // ---------------------------------------------------------------------------
  // Lemmas
  // ---------------------------------------------------------------------------

  /** The constructor leaves a real date of a normalised month untouched. */
  lemma MakeDateInRange(year: int, month: int, day: int)
    requires 0 <= month < 12 && 1 <= day <= DaysInMonth(year, month)
    ensures MakeDate(year, month, day) == Date(year, month, day)
  {
  }

  /** A month index one past the range carries into the next year. */
  lemma MakeDateNextMonth(year: int, month: int, day: int)
    requires 0 <= month < 12 && 1 <= day <= 28
    ensures MakeDate(year, month + 1, day) == Date(NextMonthOf(year, month).0, NextMonthOf(year, month).1, day)
  {
  }

  /** Day 0 and earlier (down to four weeks back) land in the previous month, counted back from its last day. */
  lemma MakeDateBeforeFirst(year: int, month: int, day: int)
    requires 0 <= month < 12 && -27 <= day <= 0
    ensures var p := PrevMonthOf(year, month);
            MakeDate(year, month, day) == Date(p.0, p.1, DaysInMonth(p.0, p.1) + day)
  {
    var p := PrevMonthOf(year, month);
    MakeDateInRange(p.0, p.1, DaysInMonth(p.0, p.1) + day);
  }

  /** `new Date(year, month + 1, 0).getDate()` is the length of `month`, as the grid builder uses it. */
  lemma LastDayOfMonth(year: int, month: int)
    requires 0 <= month < 12
    ensures MakeDate(year, month + 1, 0) == Date(year, month, DaysInMonth(year, month))
  {
    var y := year + (month + 1) / 12;
    var m := (month + 1) % 12;
    if month == 11 {
      assert y == year + 1 && m == 0;
    } else {
      assert y == year && m == month + 1;
    }
    assert PrevMonthOf(y, m) == (year, month);
    assert year + month / 12 == year && month % 12 == month;
    assert MakeDate(year, month, DaysInMonth(year, month)) == Date(year, month, DaysInMonth(year, month));
  }

  /** The next and previous day undo each other. */
  lemma NextPrevInverse(d: Date)
    requires d.Valid()
    ensures PrevDay(NextDay(d)) == d
    ensures NextDay(PrevDay(d)) == d
  {
  }

  /** Sakamoto's year term grows by one, plus one more in a leap year. */
  lemma YearTermStep(y: int)
    ensures YearTerm(y) - YearTerm(y - 1) == if IsLeapYear(y) then 2 else 1
  {
    DivStep4(y);
    DivStep100(y);
    DivStep400(y);
    if y % 400 == 0 {
      Mod400(y);
    } else if y % 100 == 0 {
      Mod100(y);
    }
  }

  lemma Mod400(y: int)
    requires y % 400 == 0
    ensures y % 100 == 0 && y % 4 == 0
  {
  }

  lemma Mod100(y: int)
    requires y % 100 == 0
    ensures y % 4 == 0
  {
  }

  /** Stepping back one from `y` lowers `y / 4`, `y / 100` and `y / 400` by one exactly
      when the divisor divides `y`. */
  lemma DivStep4(y: int)
    ensures y / 4 - (y - 1) / 4 == if y % 4 == 0 then 1 else 0
  {
  }

  lemma DivStep100(y: int)
    ensures y / 100 - (y - 1) / 100 == if y % 100 == 0 then 1 else 0
  {
  }

  lemma DivStep400(y: int)
    ensures y / 400 - (y - 1) / 400 == if y % 400 == 0 then 1 else 0
  {
  }

  /** Adding a whole number of weeks does not change a day of the week. */
  lemma ModWeeks(x: int, k: int)
    ensures (x + 7 * k) % 7 == x % 7
  {
  }

  /** Reducing modulo 7 before or after adding gives the same day of the week. */
  lemma ModShift(a: int, b: int)
    ensures (a % 7 + b) % 7 == (a + b) % 7
  {
    ModWeeks(a % 7 + b, a / 7);
  }

  /** The last day of February is followed by March 1 one weekday later, leap year or not. */
  lemma WeekdayEndOfFebruary(year: int)
    ensures Weekday(Date(year, 2, 1)) == (Weekday(Date(year, 1, DaysInMonth(year, 1))) + 1) % 7
  {
    var len := DaysInMonth(year, 1);
    var x := YearTerm(year - 1) + MonthOffset(1) + len;
    YearTermStep(year);
    assert YearTerm(year) + MonthOffset(2) + 1 + 7 * 4 == x + 1;
    ModWeeks(YearTerm(year) + MonthOffset(2) + 1, 4);
    ModShift(x, 1);
  }

  /** December 31 is followed by January 1 of the next year one weekday later. */
  lemma WeekdayNewYear(year: int)
    ensures Weekday(Date(year + 1, 0, 1)) == (Weekday(Date(year, 11, 31)) + 1) % 7
  {
    var x := YearTerm(year) + MonthOffset(11) + 31;
    assert YearTerm(year) + MonthOffset(0) + 1 + 7 * 5 == x + 1;
    ModWeeks(YearTerm(year) + MonthOffset(0) + 1, 5);
    ModShift(x, 1);
  }

  /** The last day of any other month is followed by the 1st of the next one weekday later. */
  lemma WeekdayEndOfMonth(year: int, month: int)
    requires 0 <= month < 11 && month != 1
    ensures Weekday(Date(year, month + 1, 1)) == (Weekday(Date(year, month, DaysInMonth(year, month))) + 1) % 7
  {
    var y := if month < 2 then year - 1 else year;
    var len := DaysInMonth(year, month);
    var x := YearTerm(y) + MonthOffset(month) + len;
    var k := (MonthOffset(month) + len - MonthOffset(month + 1)) / 7;
    assert MonthOffset(month) + len == MonthOffset(month + 1) + 7 * k;
    ModWeeks(YearTerm(y) + MonthOffset(month + 1) + 1, k);
    ModShift(x, 1);
  }

  /** The weekday formula agrees with the calendar: each next day is the next weekday,
      across month ends, February 28/29 and New Year. */
  lemma WeekdayNextDay(d: Date)
    requires d.Valid()
    ensures Weekday(NextDay(d)) == (Weekday(d) + 1) % 7
  {
    if d.day < DaysInMonth(d.year, d.month) {
      var y := if d.month < 2 then d.year - 1 else d.year;
      ModShift(YearTerm(y) + MonthOffset(d.month) + d.day, 1);
    } else if d.month == 1 {
      WeekdayEndOfFebruary(d.year);
    } else if d.month == 11 {
      WeekdayNewYear(d.year);
    } else {
      WeekdayEndOfMonth(d.year, d.month);
    }
  }

  /** Within one month the weekday advances with the day of the month. */
  lemma WeekdayInMonth(year: int, month: int, day: int)
    requires 0 <= month < 12 && 1 <= day <= DaysInMonth(year, month)
    ensures Weekday(Date(year, month, day)) == (Weekday(Date(year, month, 1)) + day - 1) % 7
  {
    var y := if month < 2 then year - 1 else year;
    ModShift(YearTerm(y) + MonthOffset(month) + 1, day - 1);
  }

  /** The last days of the previous month continue the weekday sequence backwards from the 1st. */
  lemma WeekdayBeforeFirst(year: int, month: int, j: int)
    requires 0 <= month < 12 && -27 <= j <= 0
    ensures var p := PrevMonthOf(year, month);
            Weekday(Date(p.0, p.1, DaysInMonth(p.0, p.1) + j)) == (Weekday(Date(year, month, 1)) + j - 1) % 7
  {
    var p := PrevMonthOf(year, month);
    var len := DaysInMonth(p.0, p.1);
    var f := Weekday(Date(p.0, p.1, 1));
    WeekdayInMonth(p.0, p.1, len + j);
    WeekdayInMonth(p.0, p.1, len);
    assert NextDay(Date(p.0, p.1, len)) == Date(year, month, 1);
    WeekdayNextDay(Date(p.0, p.1, len));
    StepBackMod7(Weekday(Date(p.0, p.1, len + j)), Weekday(Date(p.0, p.1, len)),
                 Weekday(Date(year, month, 1)), f, len, j);
  }

  /** The days of the next month continue the weekday sequence past the month's last day. */
  lemma WeekdayIntoNextMonth(year: int, month: int, j: int)
    requires 0 <= month < 12 && 1 <= j <= 28
    ensures var q := NextMonthOf(year, month);
            Weekday(Date(q.0, q.1, j)) == (Weekday(Date(year, month, 1)) + DaysInMonth(year, month) + j - 1) % 7
  {
    var n := DaysInMonth(year, month);
    var q := NextMonthOf(year, month);
    var dow := Weekday(Date(year, month, 1));
    WeekdayInMonth(q.0, q.1, j);
    WeekdayInMonth(year, month, n);
    assert NextDay(Date(year, month, n)) == Date(q.0, q.1, 1);
    WeekdayNextDay(Date(year, month, n));
    StepForwardMod7(Weekday(Date(q.0, q.1, j)), Weekday(Date(q.0, q.1, 1)),
                    Weekday(Date(year, month, n)), dow, n, j);
  }

  /** Weekday arithmetic of the next month: its day `j` is `j - 1` days after its 1st, which
      is one day after day `n` of this month, which is `n - 1` days after this month's 1st. */
  lemma StepForwardMod7(a: int, b: int, c: int, dow: int, n: int, j: int)
    requires a == (b + j - 1) % 7 && b == (c + 1) % 7 && c == (dow + n - 1) % 7
    ensures a == (dow + n + j - 1) % 7
  {
    ModShift(dow + n - 1, 1);
    ModShift(dow + n, j - 1);
  }

  /** Weekday arithmetic of the previous month: its day `len + j` is `len + j - 1` days after
      its 1st `f`, and this month's 1st is one day after its day `len`. */
  lemma StepBackMod7(a: int, b: int, c: int, f: int, len: int, j: int)
    requires a == (f + len + j - 1) % 7 && b == (f + len - 1) % 7 && c == (b + 1) % 7
    ensures a == (c + j - 1) % 7
  {
    ModShift(f + len - 1, 1);
    ModShift(f + len, j - 1);
  }

  /** Stepping a month forward then back (or back then forward) returns to the first of the
      starting month, rolling the year over at December and January. */
  lemma MonthSteppingInverse(d: Date)
    requires d.Valid()
    ensures NextMonth(d) == Date(NextMonthOf(d.year, d.month).0, NextMonthOf(d.year, d.month).1, 1)
    ensures PrevMonth(d) == Date(PrevMonthOf(d.year, d.month).0, PrevMonthOf(d.year, d.month).1, 1)
    ensures PrevMonth(NextMonth(d)) == Date(d.year, d.month, 1)
    ensures NextMonth(PrevMonth(d)) == Date(d.year, d.month, 1)
  {
  }
}
