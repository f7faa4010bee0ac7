# Taskly core, modelled in Dafny

Taskly is a personal task manager built as a React/Next.js front end over a REST backend.
This project models the pure logic inside its UI components, with fetched arrays and server
replies treated as inputs. It proves properties of that logic:

- **Calendar** (`calendar.dfy`, `dates.dfy`): the 42-cell month grid `getDaysInMonth` builds.
  This covers Gregorian month lengths, leap years, weekdays, the normalising
  `new Date(y, m, d)` constructor, `isToday`, and month stepping. The proofs cover the grid's
  shape, date continuity, task placement, and whether each cell sits under the right column
  of the Monday-first header.
- **Task board** (`board.dfy`, `task_dialog.dfy`, `tasks.dfy`):
  - the status columns and the `groupedTasks` reducer;
  - replace-by-id after a status change or an edit, and delete-by-id;
  - the task dialog's status colours, family-colour lookup, status buttons, edit-form
    updaters and edit click.
- **Aggregations**:
  - the stats and quick-stats widgets (`stats.dfy`);
  - the completion chart's family × status matrix and Tailwind colour map
    (`completion_chart.dfy`);
  - the reminders widget's stable sort and take-five (`reminders.dfy`).
- **Small state machines**:
  - the quick-tasks and goals selection and delete loop (`quick_tasks.dfy`);
  - the notes card (`notes.dfy`);
  - the sidebar's colour fallback, family delete and active link (`sidebar.dfy`);
  - the Pomodoro phase machine and its `formatTime` (`pomodoro.dfy`, `decimal.dfy`);
  - the stopwatch (`stopwatch.dfy`).

Shared pieces:
- `optional.dfy`: the `Option` type.
- `seqs.dfy`: `Filter`, `Count` and `FindFirst`, which model JavaScript's
  `Array.filter(..).length` and `Array.find`.

Modelling choices:
- Months are zero-based, as `Date.getMonth()` returns them.
- Weekdays are numbered 0 = Sunday, as `Date.getDay()` numbers them. They are computed with
  Sakamoto's formula and tied to the calendar by `Dates.WeekdayNextDay`.
- Parsing a task's `fecha` text into a date is an abstract parameter
  `parse: string -> Option<Date>`.
- A server reply is an `Option` (None means the request failed) or a boolean "accepted".
- The current date is an explicit `now`.
- Timer ticks are explicit calls of a step function.

## Model

| member | source | states |
|---|---|---|
| Dates.DaysInMonth | src/app/auth/calendar/page.tsx:18-19 | a month has 28..31 days; February has 29 exactly in a leap year and 28 otherwise; April, June, September and November have 30 |
| Dates.MakeDate | src/app/auth/calendar/page.tsx:17-18 | `new Date(y, m, d)` always yields a real calendar date, whatever the month or day overflow |
| Dates.MakeDateInRange | src/app/auth/calendar/page.tsx:30 | a date already in range is left unchanged by the constructor |
| Dates.MakeDateBeforeFirst | src/app/auth/calendar/page.tsx:25 | day `1 - i` of a month is day `len + 1 - i` of the previous month, rolling January back into December of the year before |
| Dates.MakeDateNextMonth | src/app/auth/calendar/page.tsx:37 | day `i` of month `m + 1` is day `i` of the following month, rolling December over into January of the next year |
| Dates.LastDayOfMonth | src/app/auth/calendar/page.tsx:18-19 | `new Date(y, m + 1, 0)` is the last day of month `m`, so its `getDate()` is the month's length |
| Dates.NextPrevInverse | src/app/auth/calendar/page.tsx:35-39 | the next and previous calendar day undo each other |
| Dates.YearTermStep | src/app/auth/calendar/page.tsx:22 | the weekday formula's year term advances by two after a leap year and by one otherwise |
| Dates.WeekdayNextDay | src/app/auth/calendar/page.tsx:22 | the weekday of the next calendar day is one more (mod 7), across month ends, February 28/29 and New Year |
| Dates.WeekdayInMonth | src/app/auth/calendar/page.tsx:22 | within a month, day `d` falls `d - 1` weekdays after the 1st |
| Dates.WeekdayBeforeFirst | src/app/auth/calendar/page.tsx:22-27 | the last days of the previous month continue the weekday sequence backwards from the 1st |
| Dates.WeekdayIntoNextMonth | src/app/auth/calendar/page.tsx:35-39 | the next month's first days continue the weekday sequence past the month's last day |
| Dates.IsToday | src/app/auth/calendar/page.tsx:44-49 | a date is "today" exactly when it equals the reference date |
| Dates.MonthSteppingInverse | src/app/auth/calendar/page.tsx:74-80 | `nextMonth` and `prevMonth` move to the 1st of the neighbouring month with year rollover, and each undoes the other |
| Calendar.GetDaysInMonth | src/app/auth/calendar/page.tsx:16-41 | the three loops of the builder, run step by step, produce exactly the declarative grid |
| Calendar.PrependPreviousMonthDays | src/app/auth/calendar/page.tsx:24-27 | the `unshift` loop leaves the leading days in ascending order, `dow - 1` of them, none for Sunday or Monday |
| Calendar.PushMonthDays | src/app/auth/calendar/page.tsx:29-33 | the second loop appends days 1..N of the month, each with its tasks |
| Calendar.MonthDayCell | src/app/auth/calendar/page.tsx:30-32 | the cell appended for day `i` is day `i` of the month, marked current, holding the tasks dated on it |
| Calendar.PushNextMonthDays | src/app/auth/calendar/page.tsx:35-39 | the third loop fills up to 42 cells with days 1, 2, ... of the next month, without tasks |
| Calendar.GridDates | src/app/auth/calendar/page.tsx:24-39 | the leading cells are the last days of the previous month, then come days 1..N marked current, then days 1, 2, ... of the next month; no cell outside the month carries tasks |
| Calendar.GridContinuity | src/app/auth/calendar/page.tsx:35-39 | every cell's date is exactly one day after the previous cell's |
| Calendar.GridMonthMembership | src/app/auth/calendar/page.tsx:24-39 | a cell is marked current exactly when its date is in the displayed month, and only current cells have tasks |
| Calendar.GridTaskMembership | src/app/auth/calendar/page.tsx:31 | a task is in a cell exactly when the cell is current and the task's date parses to the cell's date; the cell keeps the tasks in input order |
| Calendar.GridTaskPlacement | src/app/auth/calendar/page.tsx:24-39 | a task dated on a day of the month is in that day's cell and no other; an unparsable or out-of-month task is in no cell |
| Calendar.CellWeekday | src/app/auth/calendar/page.tsx:22-39 | cell `k` falls on weekday `dow + k - lead` (mod 7) |
| Calendar.MonthGridShape | src/app/auth/calendar/page.tsx:16-41 | the page's grid has 42 cells, at most 5 leading cells (`dow - 1`, or none for Sunday), the month's days in order, and at least 6 trailing cells |
| Calendar.February2024 | src/app/auth/calendar/page.tsx:16-41 | February 2024 (leap year, starts on a Thursday): 3 leading cells, February 1..29, then March from cell 32 |
| Calendar.HeaderNames | src/app/auth/calendar/page.tsx:99 | the header row is Monday-first: column `c` names weekday `c + 1` (mod 7) |
| Calendar.ColumnNamesWeekday | src/app/auth/calendar/page.tsx:99 | weekday `k + d` is the one named over column `k` exactly when `d` is one more than a multiple of 7 |
| Calendar.GridAlignment | src/app/auth/calendar/page.tsx:22-24 | under the Monday-first header of line 99, a cell sits under its own weekday exactly when the leading count is the 1st's weekday minus one (mod 7) |
| Calendar.MonthGridAlignment | src/app/auth/calendar/page.tsx:22-24 | under the page's grid, every day of the month sits under its own weekday in the header of line 99 exactly when the month does not start on a Sunday |
| Calendar.SundayStartMisplaced | src/app/auth/calendar/page.tsx:22-24 | September 2024 starts on a Sunday, and the page puts September 1 under "Mon" (header of line 99) |
| Calendar.MondayFirstGridAligned | src/app/auth/calendar/page.tsx:99 | with `(dow + 6) mod 7` leading cells, every one of the 42 cells sits under its own weekday |
| Calendar.MondayFirstGridShape | src/app/auth/calendar/page.tsx:16-41 | the corrected grid still has 42 cells, the month's days in order and at least 5 trailing cells, with the 1st under its own weekday |
| Seqs.FilterMembers | src/app/auth/tasks/page.tsx:133 | a filtered list holds exactly the elements that pass, each no more often than in the input |
| Seqs.FilterMultiplicity | src/components/AddNote.tsx:19 | a filtered list holds each passing element exactly as often as the input, and no other element |
| Seqs.FilterConcat | src/app/auth/tasks/page.tsx:133 | filtering keeps relative order: filtering a concatenation concatenates the filtered parts |
| Seqs.FilterSnoc | src/app/auth/tasks/page.tsx:150 | filtering a list with one more element at the end appends that element exactly when it passes |
| Seqs.FindFirst | src/app/auth/tasks/page.tsx:102 | `find` returns the first matching position, and none exactly when nothing matches |
| Seqs.FilterComplement | src/components/quick-stats-widget.tsx:50-51 | the elements passing a test and those failing it together make up the list |
| Seqs.CountMonotone | src/components/quick-stats-widget.tsx:50-52 | a weaker test counts at least as many elements |
| Tasks.StatusCountsSum | src/components/stats-widget.tsx:59-63 | the four per-status counts add up to the number of tasks |
| Tasks.StatusComplement | src/components/quick-stats-widget.tsx:50-52 | the tasks with a status and those without it together make up the list |
| Tasks.DoneAreActive | src/components/quick-stats-widget.tsx:50-52 | no more DONE tasks than non-PAUSED ones |
| Board.ColumnsAreStatuses | src/app/auth/tasks/page.tsx:31-36 | the columns are the four statuses, each exactly once, in the order TODO, DOING, DONE, PAUSED |
| Board.StatusConfigDistinct | src/app/auth/tasks/page.tsx:31-36 | distinct statuses have distinct headings and distinct border classes |
| Board.GroupedTasksAreFilters | src/app/auth/tasks/page.tsx:146-152 | the reducer makes a group exactly for each status present, and that group is the tasks with that status in input order |
| Board.ColumnTasksByStatus | src/app/auth/tasks/page.tsx:146-152 | a column shows exactly the tasks with its status in input order, and an empty list for an absent status |
| Board.ColumnsPartition | src/app/auth/tasks/page.tsx:146-152 | every task is in its own status's column, and the column sizes add up to the number of tasks |
| Board.FindById | src/app/auth/tasks/page.tsx:102 | the lookup finds the first task with the id, and none exactly when no task has it |
| Board.ReplaceById | src/app/auth/tasks/page.tsx:115-117 | the positions holding the id get the new task; the length and every other position are unchanged |
| Board.StatusChangePayload | src/app/auth/tasks/page.tsx:102-107 | no request for an unknown id; otherwise the found task with only its status replaced |
| Board.HandleStatusChange | src/app/auth/tasks/page.tsx:99-123 | an unknown id or a failed request leaves the list as it was and sets the error; otherwise the returned task replaces the id and the dialog closes |
| Board.StatusChangeUnknownTask | src/app/auth/tasks/page.tsx:99-123 | a status change for an id not in the list leaves the list untouched and shows the error |
| Board.HandleDeleteTask | src/app/auth/tasks/page.tsx:125-140 | after an accepted delete, no task with the id is left and every other task remains exactly as often as before, and the dialog closes; a failed delete only sets the error |
| Board.DeleteTaskSplits | src/app/auth/tasks/page.tsx:133 | deleting from a concatenation deletes from each part and keeps the parts in order, so the remaining tasks keep their order |
| Board.OnTaskUpdated | src/app/auth/tasks/page.tsx:142-144 | the length is kept, the task(s) with the updated id become the update, and the rest are unchanged |
| Board.ReplaceUnknownId | src/app/auth/tasks/page.tsx:115-117 | replacing an id no task has is the identity |
| Board.OnTaskUpdatedUnknown | src/app/auth/tasks/page.tsx:142-144 | an update whose id matches no task leaves the page unchanged |
| TaskDialog.StatusColorMatchesBoard | src/components/task-dialog.tsx:78-83 | the dialog's border class per status is the board column's border class |
| TaskDialog.StatusColorsDistinct | src/components/task-dialog.tsx:78-83 | the four statuses get four distinct border classes |
| TaskDialog.FamilyColor | src/components/task-dialog.tsx:85-90 | white for a null or empty family id; otherwise the colour of the first family with that id, or white when none has it |
| TaskDialog.StatusButtons | src/components/task-dialog.tsx:212-243 | three distinct buttons, none for the current status |
| TaskDialog.StatusButtonsAreOthers | src/components/task-dialog.tsx:212-243 | a status has a button exactly when it is not the current one |
| TaskDialog.StatusChangePayload | src/components/task-dialog.tsx:140 | the payload has the new status and agrees with the task on every other field |
| TaskDialog.ApplyEdit | src/components/task-dialog.tsx:260-359 | an edit maps null to null; otherwise the edited field holds the new value and every other field is unchanged |
| TaskDialog.EditsCommute | src/components/task-dialog.tsx:260-359 | edits of different fields commute |
| TaskDialog.LastEditWins | src/components/task-dialog.tsx:260-359 | a second edit of the same field overrides the first |
| TaskDialog.EditToSameValue | src/components/task-dialog.tsx:260-359 | writing a field's current value leaves the task unchanged |
| TaskDialog.Render | src/components/task-dialog.tsx:76-243 | nothing is rendered without a task or while loading; otherwise the border matches the board's, the buttons are the other statuses, and the dot has the colour of the task's family as `getFamilyColor` finds it (white without a family) |
| TaskDialog.EditClick | src/components/task-dialog.tsx:107-110 | the edit form opens with the edited copy reset to the shown task |
| TaskDialog.EditClickDiscardsEdits | src/components/task-dialog.tsx:107-110 | opening the edit form discards any earlier unsaved edit |
| TaskDialog.TrashClick | src/components/task-dialog.tsx:101-105 | the delete callback gets the task's id exactly when there is a task with a non-empty id |
| StatsWidget.ComputeStats | src/components/stats-widget.tsx:59-63 | each count is the number of tasks with its status, each is at most the list length, and the total is their sum, which equals the list length |
| StatsWidget.UpdateStats | src/components/stats-widget.tsx:24-63 | an empty list keeps the previous stats; any other list gets its own counts |
| QuickStatsWidget.CompletionPercentage | src/components/quick-stats-widget.tsx:63-70 | the percentage lies in [0, 100], times the total it equals 100 × completed, it is 100 exactly when all are done, and 0 exactly when none are done or the list is empty |
| QuickStatsWidget.ComputeQuickStats | src/components/quick-stats-widget.tsx:50-63 | completed, remaining and active are the numbers of DONE, non-DONE and non-PAUSED tasks; completed + remaining = length; active + paused = length; completed ≤ active; the percentage is 100 × completed / length |
| QuickStatsWidget.UpdateQuickStats | src/components/quick-stats-widget.tsx:48-73 | an empty list keeps the previous stats; any other list gets its own DONE, non-DONE and non-PAUSED counts and the percentage 100 × completed / length, in [0, 100] |
| QuickStatsWidget.FullCompletion | src/components/quick-stats-widget.tsx:50-63 | a non-empty list shows 100% exactly when every task is DONE |
| CompletionChart.FamilyIds | src/components/task-completion-chart.tsx:82 | every listed family's id is a key |
| CompletionChart.FamilyIdsMembers | src/components/task-completion-chart.tsx:82 | every key is a listed family's id |
| CompletionChart.FamilyCounts | src/components/task-completion-chart.tsx:81-85 | one entry per family id, holding the number of that family's tasks with the status |
| CompletionChart.ProcessData | src/components/task-completion-chart.tsx:78-88 | four data points in the order TODO, DOING, PAUSED, DONE, each with per-family counts for its status |
| CompletionChart.FamilyStatusSum | src/components/task-completion-chart.tsx:83 | a family's four per-status counts add up to the number of its tasks |
| CompletionChart.FamilyBarsSum | src/components/task-completion-chart.tsx:79-85 | summing a family's entries over the four data points gives all of that family's tasks |
| CompletionChart.UnmatchedFamilyCounts | src/components/task-completion-chart.tsx:82-84 | a task whose family matches no listed id changes no per-family count |
| CompletionChart.UnmatchedTaskIgnored | src/components/task-completion-chart.tsx:82-84 | a task whose family matches no listed id changes no data point |
| CompletionChart.ColorFromTailwind | src/components/task-completion-chart.tsx:100-112 | a known class becomes a 7-character hex colour; any other string that is not an inherited object member name is returned unchanged |
| CompletionChart.ColorOptionsTranslated | src/components/family-dialog-create.tsx:19-28 | every colour offered at family creation is a key of the colour map |
| CompletionChart.ColorMapInjective | src/components/task-completion-chart.tsx:101-110 | distinct known classes get distinct hex colours |
| Reminders.Insert | src/components/reminders-widget.tsx:43 | inserting grows the list by one, and the new head is the inserted reminder or the old head |
| Reminders.InsertSorted | src/components/reminders-widget.tsx:43 | inserting into a sorted list keeps it sorted |
| Reminders.InsertPermutes | src/components/reminders-widget.tsx:43 | inserting adds exactly the new reminder to the multiset |
| Reminders.SortByDueDate | src/components/reminders-widget.tsx:43 | the sort yields a permutation of the input in non-decreasing due-date order |
| Reminders.InsertStable | src/components/reminders-widget.tsx:43 | among reminders due at the same time, the inserted one goes first and the others keep their order |
| Reminders.SortStable | src/components/reminders-widget.tsx:43 | the sort is stable: reminders due at the same time keep their input order |
| Reminders.SortSortedIdentity | src/components/reminders-widget.tsx:43 | an already sorted list is left as it is |
| Reminders.ShownReminders | src/components/reminders-widget.tsx:42-44 | min(5, n) reminders, sorted, drawn from the input, none due later than any reminder left out; of the reminders due at one instant, those shown are the first ones in input order |
| Reminders.PrefixEarliest | src/components/reminders-widget.tsx:43-44 | in a sorted list, everything before a cut is due no later than everything after it |
| Reminders.FewRemindersAllShown | src/components/reminders-widget.tsx:42-44 | with at most five reminders, all of them are shown |
| Selection.OnFetched | src/components/quick-tasks-widget.tsx:42-46 | only quick tasks of the widget's kind ("DAY" here, "MONTH" in the goals widget) are kept, each exactly as often as the server sent it; a failed fetch sets the error |
| Selection.OnFetchedSplits | src/components/quick-tasks-widget.tsx:42-43 | a response split in two is kept part by part, so the kept tasks are in server order |
| Selection.Toggle | src/components/quick-tasks-widget.tsx:61-72 | the toggled id flips its membership and every other id keeps it |
| Selection.ToggleTwice | src/components/quick-tasks-widget.tsx:61-72 | toggling the same id twice restores the selection |
| Selection.TogglesCommute | src/components/quick-tasks-widget.tsx:61-72 | toggles of two ids can be done in either order |
| Selection.DeleteButtonShown | src/components/quick-tasks-widget.tsx:147 | the delete button shows exactly when something is selected |
| Selection.ToggleOnShowsDelete | src/components/quick-tasks-widget.tsx:61-72 | selecting an unselected task shows the delete button |
| Selection.DeleteSelected | src/components/quick-tasks-widget.tsx:75-91 | when every delete succeeds the selection is cleared; at the first failure the loop stops, the selection is kept and the error is set |
| GoalsWidget.WidgetsDisjoint | src/components/goals-widget.tsx:33 | the goals widget keeps kind "MONTH" and the quick-tasks widget kind "DAY", so no quick task appears in both |
| Notes.TrimStart | src/components/AddNote.tsx:12 | the result is the suffix of the input left after a whitespace-only prefix, and it does not start with whitespace |
| Notes.TrimEnd | src/components/AddNote.tsx:12 | the result is the prefix of the input left before a whitespace-only suffix, and it does not end with whitespace |
| Notes.Trim | src/components/AddNote.tsx:12 | the trimmed text is a slice of the input with only whitespace outside it, and it neither starts nor ends with whitespace |
| Notes.TrimStartEmpty | src/components/AddNote.tsx:12 | trimming leaves nothing exactly when the text is all whitespace |
| Notes.AddNote | src/components/AddNote.tsx:11-16 | non-blank input is appended untrimmed and the field is cleared; blank input changes nothing |
| Notes.AddIffNotBlank | src/components/AddNote.tsx:12-13 | the list grows by exactly one when the input has a non-whitespace character, and otherwise stays the same |
| Notes.DeleteNote | src/components/AddNote.tsx:18-20 | every copy of the note is removed, every other note remains exactly as often as before, and the input field is untouched |
| Notes.DeleteNoteSplits | src/components/AddNote.tsx:18-20 | deleting from a concatenation deletes from each part and keeps the parts in order, so the kept notes stay in their original order |
| Notes.AddThenDelete | src/components/AddNote.tsx:11-20 | deleting a freshly added new note restores the list |
| Sidebar.GetColorClass | src/components/sidebar.tsx:91-94 | the fallback colours are taken in turn by position: zinc-950, zinc-400, orange-300 |
| Sidebar.ColorClassPeriodic | src/components/sidebar.tsx:93 | the fallback colour repeats every three positions |
| Sidebar.DotColor | src/components/sidebar.tsx:137 | a present, non-empty family colour is used; otherwise the fallback for the position |
| Sidebar.NeighbourDotsDiffer | src/components/sidebar.tsx:91-94 | neighbouring families without a colour get different dots |
| Sidebar.DeleteFamily | src/components/sidebar.tsx:74-89 | after an accepted delete, no family with the id is left and every other family remains exactly as often as before; a failed delete only sets the error |
| Sidebar.DeleteFamilySplits | src/components/sidebar.tsx:82 | deleting from a concatenation deletes from each part and keeps the parts in order, so the remaining families keep their order |
| Sidebar.DeleteUnknownFamily | src/components/sidebar.tsx:82 | deleting an id no family has changes nothing |
| Sidebar.AtMostOneActive | src/components/sidebar.tsx:12-17 | at most one navigation link is active for any path |
| Decimal.Digits | src/components/PomodoroTImer.tsx:107 | the decimal rendering of a number has no leading zero, and one digit exactly for numbers below 10 |
| Decimal.ValueDigits | src/components/PomodoroTImer.tsx:107 | reading back a rendered number gives the number |
| Decimal.ValueLeadingZero | src/components/PomodoroTImer.tsx:107 | a leading "0" does not change the value read |
| Pomodoro.HandleTimeChange | src/components/PomodoroTImer.tsx:25-42 | only the named length is set to minutes × 60; any other input name changes nothing |
| Pomodoro.HandleCycleChange | src/components/PomodoroTImer.tsx:45-47 | only the cycle count changes |
| Pomodoro.ToggleTimer | src/components/PomodoroTImer.tsx:50-52 | only `isRunning` flips |
| Pomodoro.ToggleTwice | src/components/PomodoroTImer.tsx:50-52 | toggling twice is the identity |
| Pomodoro.ResetTimer | src/components/PomodoroTImer.tsx:55-62 | stopped, 1500/300/900 seconds restored, both counters zeroed; `isBreak` and `cycles` are kept |
| Pomodoro.ResetIdempotent | src/components/PomodoroTImer.tsx:55-62 | resetting twice is the same as resetting once |
| Pomodoro.Tick | src/components/PomodoroTImer.tsx:65-101 | stopped: no change. Above 0: down by one. At 0 in work: break with the short-break length and one more cycle. At 0 in a break: once `shortBreakCount + 1 >= cycles`, the long-break length with `isBreak` false and the cycle count zeroed (the short-break count kept); otherwise `isBreak` false with the captured timer value and one more short break |
| Pomodoro.CountdownReachesZero | src/components/PomodoroTImer.tsx:71-89 | a running timer at `n` seconds is at 0 after `n` ticks with nothing else changed |
| Pomodoro.WorkPhaseEnds | src/components/PomodoroTImer.tsx:83-89 | a running work phase of `n` seconds turns into a break after `n + 1` ticks |
| Pomodoro.RunSplit | src/components/PomodoroTImer.tsx:68-91 | running `a + b` ticks is running `a` ticks and then `b` |
| Pomodoro.ShortBreakRestartsAtZero | src/components/PomodoroTImer.tsx:78-101 | at the end of a short break the captured timer is the current one, 0, so the work phase lasts no time and the next tick starts another break |
| Pomodoro.LongBranchSticks | src/components/PomodoroTImer.tsx:74-81 | once `shortBreakCount + 1 >= cycles` the count never changes again, so every later break ends through the long-break branch |
| Pomodoro.FixedTick | src/components/PomodoroTImer.tsx:73-82 | the corrected break end: a short break starts a work phase of the given length, the long-break branch also zeroes the short-break count, and every other case is the page's tick |
| Pomodoro.FixedCountdown | src/components/PomodoroTImer.tsx:89 | the corrected timer counts down from `n` to 0 in `n` ticks, like the page's |
| Pomodoro.FixedShortBreakStartsWork | src/components/PomodoroTImer.tsx:78-81 | corrected, a short break's end starts a work phase that runs its full length before the next break |
| Pomodoro.FixedLongBreakRestartsCount | src/components/PomodoroTImer.tsx:74-77 | corrected, after the long-break branch the short-break count is 0, so with two or more cycles the next break is short again |
| Pomodoro.PausedStaysPut | src/components/PomodoroTImer.tsx:68-94 | a stopped timer does not change, however many ticks pass |
| Pomodoro.PaddedSeconds | src/components/PomodoroTImer.tsx:106-107 | the seconds are two digits whose value is the seconds |
| Pomodoro.FormatTime | src/components/PomodoroTImer.tsx:104-108 | the display is the whole minutes in canonical decimal with no leading zero, ":", then two-digit seconds below 60, and minutes × 60 + seconds is the time |
| Pomodoro.DefaultDisplay | src/components/PomodoroTImer.tsx:104-108 | the initial 25 minutes display as "25:00" |
| Stopwatch.OnTick | src/components/Timer.tsx:11-19 | a running stopwatch gains one second; a stopped one does not change |
| Stopwatch.HandleStartStop | src/components/Timer.tsx:27-29 | only `isRunning` flips |
| Stopwatch.StartStopTwice | src/components/Timer.tsx:27-29 | starting and stopping returns to the same state |
| Stopwatch.HandleReset | src/components/Timer.tsx:31-34 | the stopwatch is back at 0 seconds, stopped |
| Stopwatch.ResetIdempotent | src/components/Timer.tsx:31-34 | resetting twice is the same as resetting once |
| Stopwatch.NoResetMonotone | src/components/Timer.tsx:14-32 | without a reset the seconds never decrease and grow by at most one per tick |
| Stopwatch.RunningTicksCount | src/components/Timer.tsx:14 | `n` ticks of a running stopwatch add exactly `n` seconds |

## Left out

- HTTP traffic. Every axios call, its headers and the localStorage token are left out. A fetch, PUT or DELETE appears only through its outcome, given as a parameter. The refetch after a quick-task delete and `router.refresh` are not modelled.
- `window.location.reload()` after a family delete is not modelled. React effect lifecycles and `setInterval` scheduling are replaced by explicit step calls.
- Rendering and styling are left out, except the class names and labels the model compares. Recharts is not modelled.
- Parsing and time zones. Parsing `fecha` or `due_date` into a date, the UTC-versus-local question, and `toDateString` are left out. Parsing is the abstract `parse` parameter in the calendar; reminders carry their due timestamp as an integer.
- Dates before year 1 or far in the future get no special handling. The proleptic Gregorian calendar is assumed throughout.
- Dates.MakeDate: JavaScript's `new Date(y, m, d)` reads a year argument 0..99 as 1900 + y; the model takes every year literally. The calendar only reaches such a year from January of year 100, where the previous month's length would be taken from December 1999.
- `formatDate`'s locale formatting, `toFixed` and the `marginDays` figure of the quick-stats widget are left out. They are floating point or wall-clock values.
- NaN inputs are left out:
  - `parseInt` of non-numeric text;
  - a missing reminder due date in the sort comparator;
  - `formatTime` of a negative time.

  Settings are integers, and `formatTime` takes a natural number.
- A task's status is one of the four declared values. A status outside them would fall outside every column and count.
- In the chart's data point, the status label shares the key space with the family ids. `DataPoint` keeps them apart, so a family whose id is the string "status" is not modelled.
- CompletionChart.ColorFromTailwind: `colorMap[color] || color` also finds members inherited from `Object.prototype`, so names such as "toString" or "constructor" come back as those members rather than unchanged. The model treats the map as holding only its eight classes.
- Reminders.SortByDueDate returns a new sequence, while the widget sorts its `tasks` state in place on every render. Nothing is lost: sorting a sorted list changes nothing (`Reminders.SortSortedIdentity`), so every render shows the same reminders.
- Reminders.SortByDueDate: this is insertion sort rather than the engine's sort algorithm. Only the results are compared: a stable sort by due date, which the model proves.
- Selection.DeleteSelected: the JavaScript `Set` iteration order is an input sequence. The server's answer for each id is an `accepts` oracle.
- The task dialog's `handleEditSave` and its own `handleStatusChange` are not modelled as separate steps. Each makes a PUT and hands the returned task to `onTaskUpdated` (`Board.OnTaskUpdated`). The dialog's status change then also calls the board's `handleStatusChange` (`Board.HandleStatusChange`).
- Pomodoro.Tick: the `timer` value captured by the interval closure is an explicit parameter. `SteadyTick` feeds it the current timer. That is the value it has at every tick, because `timer` is a dependency of the effect that creates the interval.
- The goals widget runs the same selection logic as the quick-tasks widget (`src/components/goals-widget.tsx:50-80, 128`). Both are modelled by the `Selection` module.

## Findings

| source | as written | input that shows it | evidently intended | confidence | as-written member | corrected member |
|---|---|---|---|---|---|---|
| src/app/auth/calendar/page.tsx:22-24 | the leading loop runs `i = 1 .. dow - 1`, which gives no leading cell for a month starting on Sunday (dow = 0), while the header row of line 99 starts with "Mon" | September 2024 starts on a Sunday, so September 1 is put in the first column, under "Mon", and every day of that month sits one column to the left of its weekday | `(dow + 6) mod 7` leading cells (six for a Sunday start), so each cell sits under its own weekday | high; derived by proof, not executed | Calendar.MonthGridAlignment, Calendar.SundayStartMisplaced | Calendar.MondayFirstGridAligned, Calendar.MondayFirstGridShape |
| src/components/PomodoroTImer.tsx:78-81 | when a short break runs out, the callback returns `timer`, which the running interval captured as 0 | a running short break reaching 0 with `shortBreakCount + 1 < cycles`, such as the first break with the default 4 cycles: the next work phase lasts 0 seconds and the following tick starts another break | the work phase restarts with the work length | medium; derived by proof, not executed | Pomodoro.ShortBreakRestartsAtZero | Pomodoro.FixedShortBreakStartsWork |
| src/components/PomodoroTImer.tsx:74-77 | the long-break branch zeroes `cycleCount` but not `shortBreakCount` | 4 cycles after three short breaks: `shortBreakCount` is 3, and every later break end takes the long-break branch again | the long break restarts the short-break count, so short breaks come back | medium; derived by proof, not executed | Pomodoro.LongBranchSticks | Pomodoro.FixedLongBreakRestartsCount |
