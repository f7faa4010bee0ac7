/** The calendar page: the 42-cell month grid (`getDaysInMonth`), its week-column
    alignment under the Monday-first header row, and the Monday-first correction. */
module Calendar {
  import opened Optional
  import opened Seqs
  import opened Dates
  import opened Tasks

  /** One cell of the month view: its date, the tasks due that day, and whether it
      belongs to the displayed month. */
  datatype CalendarDay = CalendarDay(date: Date, tasks: seq<Task>, isCurrentMonth: bool)

  /** Six rows of seven days. */
  const GridSize: nat := 42

  /** The header row, Monday first. */
  const WeekHeader: seq<string> := ["Mon", "Tue", "Wed", "Thu", "Fri", "Sat", "Sun"]

  /** Names of the days as `Date.getDay()` numbers them, Sunday = 0. */
  const DayNames: seq<string> := ["Sun", "Mon", "Tue", "Wed", "Thu", "Fri", "Sat"]

  /** The filter predicate "its `fecha` parses to day `d`". Parsing is a parameter: the
      model does not fix how the text is read (nor in which time zone). */
  function DatedOn(parse: string -> Option<Date>, d: Date): Task -> bool {
    (t: Task) => parse(t.fecha) == Some(d)
  }

  /** Leading cells the builder emits when the 1st falls on weekday `dow` (Sunday = 0):
      its loop runs for `i = 1 .. dow - 1`, so none for Sunday and Monday. */
  function LeadingCount(dow: int): nat
    requires 0 <= dow < 7
  {
    if dow <= 1 then 0 else dow - 1
  }

  /** Leading cells a Monday-first header needs: Monday 0 .. Sunday 6. */
  function MondayFirstLeadingCount(dow: int): nat
    requires 0 <= dow < 7
  {
    (dow + 6) % 7
  }

  /** Cell `k` of the grid with `lead` leading cells: days `1 - lead .. 0` (carried into the
      previous month), then the month's days with their tasks, then days `1, 2, ...` of the next month. */
  function GridCell(year: int, month: int, lead: nat, tasks: seq<Task>, parse: string -> Option<Date>, k: nat): CalendarDay
    requires 0 <= month < 12 && lead <= 6 && k < GridSize
  {
    var n := DaysInMonth(year, month);
    if k < lead then
      CalendarDay(MakeDate(year, month, k - lead + 1), [], false)
    else if k < lead + n then
      var date := MakeDate(year, month, k - lead + 1);
      CalendarDay(date, Filter(tasks, DatedOn(parse, date)), true)
    else
      CalendarDay(MakeDate(year, month + 1, k - lead - n + 1), [], false)
  }

  /** The 42 cells for `lead` leading cells. */
  function Grid(year: int, month: int, lead: nat, tasks: seq<Task>, parse: string -> Option<Date>): (g: seq<CalendarDay>)
    requires 0 <= month < 12 && lead <= 6
    ensures |g| == GridSize
    ensures forall k :: 0 <= k < GridSize ==> g[k] == GridCell(year, month, lead, tasks, parse, k)
  {
    seq(GridSize, k requires 0 <= k < GridSize => GridCell(year, month, lead, tasks, parse, k))
  }

  /** The grid as the calendar page builds it. */
  function MonthGrid(year: int, month: int, tasks: seq<Task>, parse: string -> Option<Date>): seq<CalendarDay>
    requires 0 <= month < 12
  {
    Grid(year, month, LeadingCount(Weekday(Date(year, month, 1))), tasks, parse)
  }

  /** The grid with the leading cells a Monday-first header needs. */
  function MondayFirstGrid(year: int, month: int, tasks: seq<Task>, parse: string -> Option<Date>): seq<CalendarDay>
    requires 0 <= month < 12
  {
    Grid(year, month, MondayFirstLeadingCount(Weekday(Date(year, month, 1))), tasks, parse)
  }

  /** `getDaysInMonth`, loop for loop: leading days are prepended (`unshift`) counting back
      from the 1st, month days and next-month days are appended (`push`) until 42 cells. */
  method GetDaysInMonth(year: int, month: int, tasks: seq<Task>, parse: string -> Option<Date>)
    returns (result: seq<CalendarDay>)
    requires 0 <= month < 12
    ensures result == MonthGrid(year, month, tasks, parse)
  {
    var firstDay := MakeDate(year, month, 1);
    var lastDay := MakeDate(year, month + 1, 0);
    MakeDateInRange(year, month, 1);
    LastDayOfMonth(year, month);
    var daysInMonth := lastDay.day;
    var firstDayOfWeek := Weekday(firstDay);
    result := PrependPreviousMonthDays(year, month, firstDayOfWeek, tasks, parse);
    result := PushMonthDays(year, month, LeadingCount(firstDayOfWeek), daysInMonth, tasks, parse, result);
    result := PushNextMonthDays(year, month, LeadingCount(firstDayOfWeek), tasks, parse, result);
  }

  /** The first loop of `getDaysInMonth`: `unshift` the days `1 - i` for `i = 1 .. dow - 1`. */
  method PrependPreviousMonthDays(year: int, month: int, firstDayOfWeek: int, tasks: seq<Task>, parse: string -> Option<Date>)
    returns (result: seq<CalendarDay>)
    requires 0 <= month < 12 && 0 <= firstDayOfWeek < 7
    ensures |result| == LeadingCount(firstDayOfWeek)
    ensures forall j :: 0 <= j < |result| ==>
              result[j] == GridCell(year, month, LeadingCount(firstDayOfWeek), tasks, parse, j)
  {
    ghost var lead := LeadingCount(firstDayOfWeek);
    result := [];
    var i := 1;
    while i < firstDayOfWeek
      invariant 1 <= i && (i <= firstDayOfWeek || i == 1)
      invariant |result| == i - 1
      invariant forall j :: 0 <= j < |result| ==>
                  result[j] == GridCell(year, month, lead, tasks, parse, lead - (i - 1) + j)
    {
      var cell := CalendarDay(MakeDate(year, month, 1 - i), [], false);
      assert cell == GridCell(year, month, lead, tasks, parse, lead - i);
      ghost var before := result;
      result := [cell] + result;
      assert forall j :: 1 <= j < |result| ==> result[j] == before[j - 1];
      i := i + 1;
    }
  }

  /** The second loop of `getDaysInMonth`: `push` each day of the month with the tasks dated on it. */
  method PushMonthDays(year: int, month: int, lead: nat, daysInMonth: int, tasks: seq<Task>, parse: string -> Option<Date>,
                       leading: seq<CalendarDay>)
    returns (result: seq<CalendarDay>)
    requires 0 <= month < 12 && lead <= 5 && daysInMonth == DaysInMonth(year, month)
    requires |leading| == lead
    requires forall j :: 0 <= j < lead ==> leading[j] == GridCell(year, month, lead, tasks, parse, j)
    ensures |result| == lead + daysInMonth
    ensures forall j :: 0 <= j < |result| ==> result[j] == GridCell(year, month, lead, tasks, parse, j)
  {
    result := leading;
    var i := 1;
    while i <= daysInMonth
      invariant 1 <= i <= daysInMonth + 1
      invariant |result| == lead + i - 1
      invariant forall j :: 0 <= j < |result| ==> result[j] == GridCell(year, month, lead, tasks, parse, j)
    {
      var date := MakeDate(year, month, i);
      var dayTasks := Filter(tasks, DatedOn(parse, date));
      MonthDayCell(year, month, lead, tasks, parse, i);
      result := result + [CalendarDay(date, dayTasks, true)];
      i := i + 1;
    }
  }

  /** Cell `lead + i - 1` is day `i` of the month, with its tasks. */
  lemma MonthDayCell(year: int, month: int, lead: nat, tasks: seq<Task>, parse: string -> Option<Date>, i: int)
    requires 0 <= month < 12 && lead <= 5 && 1 <= i <= DaysInMonth(year, month)
    ensures GridCell(year, month, lead, tasks, parse, lead + i - 1)
            == CalendarDay(MakeDate(year, month, i), Filter(tasks, DatedOn(parse, MakeDate(year, month, i))), true)
  {
  }

  /** The third loop of `getDaysInMonth`: `push` days 1, 2, ... of the next month until 42 cells. */
  method PushNextMonthDays(year: int, month: int, lead: nat, tasks: seq<Task>, parse: string -> Option<Date>,
                           upToMonthEnd: seq<CalendarDay>)
    returns (result: seq<CalendarDay>)
    requires 0 <= month < 12 && lead <= 5
    requires |upToMonthEnd| == lead + DaysInMonth(year, month)
    requires forall j :: 0 <= j < |upToMonthEnd| ==> upToMonthEnd[j] == GridCell(year, month, lead, tasks, parse, j)
    ensures result == Grid(year, month, lead, tasks, parse)
  {
    result := upToMonthEnd;
    var daysFromNextMonth := 42 - |result|;
    var i := 1;
    while i <= daysFromNextMonth
      invariant 1 <= i <= daysFromNextMonth + 1
      invariant |result| == |upToMonthEnd| + i - 1
      invariant forall j :: 0 <= j < |result| ==> result[j] == GridCell(year, month, lead, tasks, parse, j)
    {
      var date := MakeDate(year, month + 1, i);
      assert GridCell(year, month, lead, tasks, parse, |upToMonthEnd| + i - 1) == CalendarDay(date, [], false);
      result := result + [CalendarDay(date, [], false)];
      i := i + 1;
    }
  }

  // ---------------------------------------------------------------------------
  // Lemmas about the grid for any number of leading cells up to six
  // ---------------------------------------------------------------------------

  /** The dates the grid holds: the last `lead` days of the previous month, days 1..N of the
      month, and days 1, 2, ... of the next month (December rolls into January of the next year).
      Only the month's cells are marked current and only they carry tasks. */
  lemma GridDates(year: int, month: int, lead: nat, tasks: seq<Task>, parse: string -> Option<Date>)
    requires 0 <= month < 12 && lead <= 6
    ensures var g := Grid(year, month, lead, tasks, parse);
            var p := PrevMonthOf(year, month);
            forall k :: 0 <= k < lead ==>
              g[k] == CalendarDay(Date(p.0, p.1, DaysInMonth(p.0, p.1) + k - lead + 1), [], false)
    ensures var g := Grid(year, month, lead, tasks, parse);
            forall k :: lead <= k < lead + DaysInMonth(year, month) ==>
              g[k].date == Date(year, month, k - lead + 1) && g[k].isCurrentMonth
    ensures var g := Grid(year, month, lead, tasks, parse);
            var n := DaysInMonth(year, month);
            var q := NextMonthOf(year, month);
            forall k :: lead + n <= k < GridSize ==>
              g[k] == CalendarDay(Date(q.0, q.1, k - lead - n + 1), [], false)
  {
    var g := Grid(year, month, lead, tasks, parse);
    var n := DaysInMonth(year, month);
    var p := PrevMonthOf(year, month);
    var q := NextMonthOf(year, month);
    forall k | 0 <= k < lead
      ensures g[k] == CalendarDay(Date(p.0, p.1, DaysInMonth(p.0, p.1) + k - lead + 1), [], false)
    {
      MakeDateBeforeFirst(year, month, k - lead + 1);
    }
    forall k | lead <= k < lead + n
      ensures g[k].date == Date(year, month, k - lead + 1) && g[k].isCurrentMonth
    {
      MakeDateInRange(year, month, k - lead + 1);
    }
    forall k | lead + n <= k < GridSize
      ensures g[k] == CalendarDay(Date(q.0, q.1, k - lead - n + 1), [], false)
    {
      MakeDateNextMonth(year, month, k - lead - n + 1);
    }
  }

  /** Each cell's date is exactly one day after the previous cell's: no gaps or repeats
      across all 42 cells. */
  lemma GridContinuity(year: int, month: int, lead: nat, tasks: seq<Task>, parse: string -> Option<Date>)
    requires 0 <= month < 12 && lead <= 6
    ensures var g := Grid(year, month, lead, tasks, parse);
            forall k :: 0 <= k < GridSize - 1 ==> g[k + 1].date == NextDay(g[k].date)
  {
    GridDates(year, month, lead, tasks, parse);
  }

  /** A cell is marked as belonging to the displayed month exactly when its date lies in that
      month, and only such cells carry tasks. */
  lemma GridMonthMembership(year: int, month: int, lead: nat, tasks: seq<Task>, parse: string -> Option<Date>)
    requires 0 <= month < 12 && lead <= 6
    ensures var g := Grid(year, month, lead, tasks, parse);
            forall k :: 0 <= k < GridSize ==>
              && (g[k].isCurrentMonth <==> g[k].date.year == year && g[k].date.month == month)
              && (!g[k].isCurrentMonth ==> g[k].tasks == [])
  {
    GridDates(year, month, lead, tasks, parse);
  }

  /** A task lies in a cell exactly when the cell is in the displayed month and the task's
      date parses to the cell's date; each such cell keeps its tasks in input order. */
  lemma GridTaskMembership(year: int, month: int, lead: nat, tasks: seq<Task>, parse: string -> Option<Date>)
    requires 0 <= month < 12 && lead <= 6
    ensures var g := Grid(year, month, lead, tasks, parse);
            forall k, t :: 0 <= k < GridSize ==>
              (t in g[k].tasks <==> g[k].isCurrentMonth && t in tasks && parse(t.fecha) == Some(g[k].date))
    ensures var g := Grid(year, month, lead, tasks, parse);
            forall k :: 0 <= k < GridSize && g[k].isCurrentMonth ==>
              g[k].tasks == Filter(tasks, DatedOn(parse, g[k].date))
  {
    var g := Grid(year, month, lead, tasks, parse);
    forall k, t | 0 <= k < GridSize
      ensures t in g[k].tasks <==> g[k].isCurrentMonth && t in tasks && parse(t.fecha) == Some(g[k].date)
    {
      if g[k].isCurrentMonth {
        var p := DatedOn(parse, g[k].date);
        var r := g[k].tasks;
        assert r == Filter(tasks, p);
        FilterMembers(tasks, p);
        if t in r {
          var i :| 0 <= i < |r| && r[i] == t;
          assert p(r[i]);
        }
        if t in tasks && parse(t.fecha) == Some(g[k].date) {
          var i :| 0 <= i < |tasks| && tasks[i] == t;
          assert p(tasks[i]);
        }
      }
    }
  }

  /** A task dated on day `d` of the displayed month appears in the cell of that day and in
      no other; a task whose date does not parse, or falls outside the month, appears in none. */
  lemma GridTaskPlacement(year: int, month: int, lead: nat, tasks: seq<Task>, parse: string -> Option<Date>, t: Task)
    requires 0 <= month < 12 && lead <= 6
    requires t in tasks
    ensures var g := Grid(year, month, lead, tasks, parse);
            match parse(t.fecha)
            case Some(d) =>
              if d.year == year && d.month == month && 1 <= d.day <= DaysInMonth(year, month) then
                t in g[lead + d.day - 1].tasks &&
                forall k :: 0 <= k < GridSize && k != lead + d.day - 1 ==> t !in g[k].tasks
              else
                forall k :: 0 <= k < GridSize ==> t !in g[k].tasks
            case None =>
              forall k :: 0 <= k < GridSize ==> t !in g[k].tasks
  {
    GridDates(year, month, lead, tasks, parse);
    GridTaskMembership(year, month, lead, tasks, parse);
  }

  /** Cell `k` falls on weekday `dow + k - lead` (mod 7), where `dow` is the weekday of the 1st. */
  lemma CellWeekday(year: int, month: int, lead: nat, tasks: seq<Task>, parse: string -> Option<Date>, k: nat)
    requires 0 <= month < 12 && lead <= 6 && k < GridSize
    ensures Weekday(GridCell(year, month, lead, tasks, parse, k).date) == (Weekday(Date(year, month, 1)) + k - lead) % 7
  {
    var n := DaysInMonth(year, month);
    var dow := Weekday(Date(year, month, 1));
    var d := GridCell(year, month, lead, tasks, parse, k).date;
    if k < lead {
      var j := k - lead + 1;
      var p := PrevMonthOf(year, month);
      MakeDateBeforeFirst(year, month, j);
      assert d == Date(p.0, p.1, DaysInMonth(p.0, p.1) + j);
      WeekdayBeforeFirst(year, month, j);
      assert Weekday(d) == (dow + j - 1) % 7;
    } else if k < lead + n {
      var j := k - lead + 1;
      MakeDateInRange(year, month, j);
      assert d == Date(year, month, j);
      WeekdayInMonth(year, month, j);
      assert Weekday(d) == (dow + j - 1) % 7;
    } else {
      var j := k - lead - n + 1;
      var q := NextMonthOf(year, month);
      MakeDateNextMonth(year, month, j);
      assert d == Date(q.0, q.1, j);
      WeekdayIntoNextMonth(year, month, j);
      assert Weekday(d) == (dow + n + j - 1) % 7;
    }
  }

  // ---------------------------------------------------------------------------
  // The grid as the page builds it
  // ---------------------------------------------------------------------------

  /** The page's grid: 42 cells; no more than five leading cells (`dow - 1` when the 1st is
      Monday..Saturday, none when it is Sunday); the month's 28..31 days in order; and at least
      six trailing cells. */
  lemma MonthGridShape(year: int, month: int, tasks: seq<Task>, parse: string -> Option<Date>)
    requires 0 <= month < 12
    ensures var g := MonthGrid(year, month, tasks, parse);
            var dow := Weekday(Date(year, month, 1));
            var lead := if dow == 0 then 0 else dow - 1;
            var n := DaysInMonth(year, month);
            && |g| == 42
            && lead <= 5
            && GridSize - (lead + n) >= 6
            && (forall k :: 0 <= k < GridSize ==> (g[k].isCurrentMonth <==> lead <= k < lead + n))
            && (forall k :: lead <= k < lead + n ==> g[k].date == Date(year, month, k - lead + 1))
  {
    var dow := Weekday(Date(year, month, 1));
    GridDates(year, month, LeadingCount(dow), tasks, parse);
  }

  /** February 2024 (a leap year) starts on a Thursday: three leading cells, February 1..29,
      then ten trailing cells from March 1, so thirteen padding cells in all. */
  lemma February2024()
    ensures var g := MonthGrid(2024, 1, [], (s: string) => None);
            && (forall k :: 0 <= k < GridSize ==> (g[k].isCurrentMonth <==> 3 <= k < 32))
            && g[3].date == Date(2024, 1, 1)
            && g[31].date == Date(2024, 1, 29)
            && g[32].date == Date(2024, 2, 1)
  {
    var parse := (s: string) => None;
    assert Weekday(Date(2024, 1, 1)) == 4;
    assert DaysInMonth(2024, 1) == 29;
    GridDates(2024, 1, 3, [], parse);
  }

  // ---------------------------------------------------------------------------
  // Alignment of the grid under the Monday-first header
  // ---------------------------------------------------------------------------

  /** The header's column `c` names weekday `c + 1` (mod 7), and distinct weekdays have distinct names. */
  lemma HeaderNames()
    ensures forall c :: 0 <= c < 7 ==> WeekHeader[c] == DayNames[(c + 1) % 7]
    ensures forall i, j :: 0 <= i < 7 && 0 <= j < 7 && DayNames[i] == DayNames[j] ==> i == j
  {
    assert DayNames[0][0] == 'S' && DayNames[1][0] == 'M' && DayNames[2][0] == 'T';
    assert DayNames[3][0] == 'W' && DayNames[4][0] == 'T' && DayNames[5][0] == 'F' && DayNames[6][0] == 'S';
    assert DayNames[0][1] == 'u' && DayNames[6][1] == 'a';
    assert DayNames[2][1] == 'u' && DayNames[4][1] == 'h';
  }

  /** Weekday `(k + d) mod 7` is the one the header names over column `k mod 7` exactly when
      `d` is one more than a multiple of seven. */
  lemma ColumnNamesWeekday(k: nat, d: int)
    ensures WeekHeader[k % 7] == DayNames[(k + d) % 7] <==> (d - 1) % 7 == 0
  {
    HeaderNames();
    ModShift(k, 1);
    ModShift(k + 1, d - 1);
    ModShift(d - 1, k + 1);
    ModShift(k + 1, (d - 1) % 7);
  }

  /** A cell sits under the header naming its weekday exactly when the grid's leading count
      is one less than the 1st's weekday (mod 7). */
  lemma GridAlignment(year: int, month: int, lead: nat, tasks: seq<Task>, parse: string -> Option<Date>, k: nat)
    requires 0 <= month < 12 && lead <= 6 && k < GridSize
    ensures var g := Grid(year, month, lead, tasks, parse);
            WeekHeader[k % 7] == DayNames[Weekday(g[k].date)]
            <==> (Weekday(Date(year, month, 1)) - lead - 1) % 7 == 0
  {
    CellWeekday(year, month, lead, tasks, parse, k);
    ColumnNamesWeekday(k, Weekday(Date(year, month, 1)) - lead);
  }

  /** Under the page's grid, every day of the month sits under the header naming its weekday
      exactly when the month does not start on a Sunday. */
  lemma MonthGridAlignment(year: int, month: int, tasks: seq<Task>, parse: string -> Option<Date>)
    requires 0 <= month < 12
    ensures var g := MonthGrid(year, month, tasks, parse);
            (forall k :: 0 <= k < GridSize && g[k].isCurrentMonth ==>
               WeekHeader[k % 7] == DayNames[Weekday(g[k].date)])
            <==> Weekday(Date(year, month, 1)) != 0
  {
    var g := MonthGrid(year, month, tasks, parse);
    var dow := Weekday(Date(year, month, 1));
    var lead := LeadingCount(dow);
    GridDates(year, month, lead, tasks, parse);
    forall k | 0 <= k < GridSize
      ensures WeekHeader[k % 7] == DayNames[Weekday(g[k].date)] <==> dow != 0
    {
      GridAlignment(year, month, lead, tasks, parse, k);
    }
    assert g[lead].isCurrentMonth;
  }

  /** September 2024 starts on a Sunday: the page puts September 1 in the first column,
      under "Mon". */
  lemma SundayStartMisplaced()
    ensures var g := MonthGrid(2024, 8, [], (s: string) => None);
            && Weekday(Date(2024, 8, 1)) == 0
            && g[0].date == Date(2024, 8, 1)
            && WeekHeader[0] == "Mon"
            && DayNames[Weekday(g[0].date)] == "Sun"
  {
    assert Weekday(Date(2024, 8, 1)) == 0;
    GridDates(2024, 8, 0, [], (s: string) => None);
  }

  /** With Monday-first leading cells every one of the 42 cells sits under its weekday. */
  lemma MondayFirstGridAligned(year: int, month: int, tasks: seq<Task>, parse: string -> Option<Date>)
    requires 0 <= month < 12
    ensures var g := MondayFirstGrid(year, month, tasks, parse);
            forall k :: 0 <= k < GridSize ==> WeekHeader[k % 7] == DayNames[Weekday(g[k].date)]
  {
    var dow := Weekday(Date(year, month, 1));
    var lead := MondayFirstLeadingCount(dow);
    assert (dow - lead - 1) % 7 == 0;
    forall k | 0 <= k < GridSize
      ensures WeekHeader[k % 7] == DayNames[Weekday(Grid(year, month, lead, tasks, parse)[k].date)]
    {
      GridAlignment(year, month, lead, tasks, parse, k);
    }
  }

  /** The Monday-first grid keeps the page's shape: 42 cells, up to six leading cells (six
      for a Sunday start), the month's days in order and at least five trailing cells, and
      the 1st sits in the column headed by its own weekday. */
  lemma MondayFirstGridShape(year: int, month: int, tasks: seq<Task>, parse: string -> Option<Date>)
    requires 0 <= month < 12
    ensures var g := MondayFirstGrid(year, month, tasks, parse);
            var dow := Weekday(Date(year, month, 1));
            var lead := if dow == 0 then 6 else dow - 1;
            var n := DaysInMonth(year, month);
            && |g| == 42
            && GridSize - (lead + n) >= 5
            && (forall k :: 0 <= k < GridSize ==> (g[k].isCurrentMonth <==> lead <= k < lead + n))
            && (forall k :: lead <= k < lead + n ==> g[k].date == Date(year, month, k - lead + 1))
            && WeekHeader[lead] == DayNames[dow]
  {
    var dow := Weekday(Date(year, month, 1));
    GridDates(year, month, MondayFirstLeadingCount(dow), tasks, parse);
  }
}
