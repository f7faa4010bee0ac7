/** The Pomodoro timer: a work/break phase machine advanced one second per tick, its settings
    handlers and the mm:ss display. */
module Pomodoro {
  import opened Decimal

  /** Default lengths in seconds and the default number of cycles before a long break. */
  const DefaultPomodoro: int := 25 * 60
  const DefaultShortBreak: int := 5 * 60
  const DefaultLongBreak: int := 15 * 60
  const DefaultCycles: int := 4

  /** The timer's state; `timer` is the seconds left in the current phase. */
  datatype Pomodoro = Pomodoro(timer: int, isRunning: bool, isBreak: bool, breakTime: int,
                               longBreakTime: int, cycles: int, cycleCount: int, shortBreakCount: int)

  const Initial: Pomodoro :=
    Pomodoro(DefaultPomodoro, false, false, DefaultShortBreak, DefaultLongBreak, DefaultCycles, 0, 0)

  /** The settings fields `handleTimeChange` recognises by input name. */
  datatype Setting = PomodoroLength | ShortBreakLength | LongBreakLength | OtherInput

  /** `handleTimeChange`: the named length becomes `minutes` minutes; an input of any other
      name changes nothing. */
  function HandleTimeChange(s: Pomodoro, name: Setting, minutes: int): (r: Pomodoro)
    ensures name == PomodoroLength ==> r == s.(timer := minutes * 60)
    ensures name == ShortBreakLength ==> r == s.(breakTime := minutes * 60)
    ensures name == LongBreakLength ==> r == s.(longBreakTime := minutes * 60)
    ensures name == OtherInput ==> r == s
  {
    match name
    case PomodoroLength => s.(timer := minutes * 60)
    case ShortBreakLength => s.(breakTime := minutes * 60)
    case LongBreakLength => s.(longBreakTime := minutes * 60)
    case OtherInput => s
  }

  /** `handleCycleChange`: the number of cycles before a long break. */
  function HandleCycleChange(s: Pomodoro, cycles: int): (r: Pomodoro)
    ensures r.cycles == cycles && r.(cycles := s.cycles) == s
  {
    s.(cycles := cycles)
  }

  /** `toggleTimer`: start or pause; nothing else changes. */
  function ToggleTimer(s: Pomodoro): (r: Pomodoro)
    ensures r.isRunning != s.isRunning && r.(isRunning := s.isRunning) == s
  {
    s.(isRunning := !s.isRunning)
  }

  /** `resetTimer`: stops and restores the default lengths and the counters; the phase and
      the number of cycles are kept. */
  function ResetTimer(s: Pomodoro): (r: Pomodoro)
    ensures !r.isRunning && r.timer == DefaultPomodoro && r.breakTime == DefaultShortBreak
    ensures r.longBreakTime == DefaultLongBreak && r.cycleCount == 0 && r.shortBreakCount == 0
    ensures r.isBreak == s.isBreak && r.cycles == s.cycles
  {
    s.(isRunning := false, timer := DefaultPomodoro, breakTime := DefaultShortBreak,
       longBreakTime := DefaultLongBreak, cycleCount := 0, shortBreakCount := 0)
  }

  /** One interval callback. No interval exists while the timer is paused. A running timer
      counts down; at zero, a work phase turns into a short break, and a break turns into
      either the long-break length (once `shortBreakCount + 1 >= cycles`) or back into work
      with the length `captured`: the `timer` value the callback's closure captured. */
  function Tick(s: Pomodoro, captured: int): (r: Pomodoro)
    ensures !s.isRunning ==> r == s
    ensures s.isRunning && s.timer != 0 ==> r == s.(timer := s.timer - 1)
    ensures s.isRunning && s.timer == 0 && !s.isBreak ==>
              r == s.(isBreak := true, cycleCount := s.cycleCount + 1, timer := s.breakTime)
    ensures s.isRunning && s.timer == 0 && s.isBreak && s.shortBreakCount + 1 >= s.cycles ==>
              r == s.(isBreak := false, cycleCount := 0, timer := s.longBreakTime)
    ensures s.isRunning && s.timer == 0 && s.isBreak && s.shortBreakCount + 1 < s.cycles ==>
              r == s.(isBreak := false, shortBreakCount := s.shortBreakCount + 1, timer := captured)
    ensures r.isRunning == s.isRunning && r.cycles == s.cycles
    ensures r.breakTime == s.breakTime && r.longBreakTime == s.longBreakTime
  {
    if !s.isRunning then s
    else if s.timer == 0 then
      if s.isBreak then
        if s.shortBreakCount + 1 >= s.cycles then
          s.(isBreak := false, cycleCount := 0, timer := s.longBreakTime)
        else
          s.(shortBreakCount := s.shortBreakCount + 1, isBreak := false, timer := captured)
      else
        s.(isBreak := true, cycleCount := s.cycleCount + 1, timer := s.breakTime)
    else s.(timer := s.timer - 1)
  }

  /** The interval is re-created whenever `timer` changes, so in steady operation the closure
      has captured the current value of `timer`. */
  function SteadyTick(s: Pomodoro): Pomodoro {
    Tick(s, s.timer)
  }

  /** `n` seconds of steady operation. */
  function Run(s: Pomodoro, n: nat): Pomodoro
    decreases n
  {
    if n == 0 then s else Run(SteadyTick(s), n - 1)
  }

  /** The seconds field: a leading zero below ten, then the number. */
  function PaddedSeconds(seconds: nat): (ss: string)
    requires seconds < 60
    ensures |ss| == 2 && AllDigits(ss) && Value(ss) == seconds
  {
    ValueDigits(seconds);
    if seconds < 10 then
      ValueLeadingZero(Digits(seconds));
      "0" + Digits(seconds)
    else Digits(seconds)
  }

  /** `formatTime`: the whole minutes in canonical decimal (no leading zero), a colon, and the
      seconds as two digits. Reading the two fields back gives the time again. */
  function FormatTime(t: nat): (r: string)
    ensures |r| >= 4 && r[|r| - 3] == ':'
    ensures r[..|r| - 3] == Digits(t / 60)
    ensures |r| > 4 ==> r[0] != '0'
    ensures AllDigits(r[..|r| - 3]) && AllDigits(r[|r| - 2..])
    ensures Value(r[|r| - 2..]) < 60
    ensures Value(r[..|r| - 3]) * 60 + Value(r[|r| - 2..]) == t
  {
    var mm := Digits(t / 60);
    var ss := PaddedSeconds(t % 60);
    ValueDigits(t / 60);
    var r := mm + ":" + ss;
    assert r[..|r| - 3] == mm;
    assert r[|r| - 2..] == ss;
    r
  }

  // ---------------------------------------------------------------------------
  // Lemmas
  // ---------------------------------------------------------------------------

  /** A running timer with `n` seconds left reaches zero after `n` ticks, with nothing else
      changed. */
  lemma {:induction false} CountdownReachesZero(s: Pomodoro, n: nat)
    requires s.isRunning && s.timer == n
    ensures Run(s, n) == s.(timer := 0)
    decreases n
  {
    if n > 0 {
      CountdownReachesZero(SteadyTick(s), n - 1);
    }
  }

  /** A work phase of `n` seconds becomes a short break after `n + 1` ticks, with one more
      completed cycle. */
  lemma WorkPhaseEnds(s: Pomodoro, n: nat)
    requires s.isRunning && !s.isBreak && s.timer == n
    ensures Run(s, n + 1) == s.(isBreak := true, cycleCount := s.cycleCount + 1, timer := s.breakTime)
  {
    CountdownReachesZero(s, n);
    RunSplit(s, n, 1);
  }

  /** Running `a + b` seconds is running `a` seconds, then `b`. */
  lemma {:induction false} RunSplit(s: Pomodoro, a: nat, b: nat)
    ensures Run(s, a + b) == Run(Run(s, a), b)
    decreases a
  {
    if a > 0 {
      RunSplit(SteadyTick(s), a - 1, b);
    }
  }

  /** In steady operation the end of a short break starts the next work phase with the value
      `timer` had when the break ran out, which is zero: the work phase is skipped and the
      next tick starts another break. */
  lemma ShortBreakRestartsAtZero(s: Pomodoro)
    requires s.isRunning && s.isBreak && s.timer == 0 && s.shortBreakCount + 1 < s.cycles
    ensures SteadyTick(s).timer == 0 && !SteadyTick(s).isBreak
    ensures Run(s, 2).isBreak && Run(s, 2).timer == s.breakTime
  {
  }

  /** Once `shortBreakCount + 1 >= cycles`, the count never moves again: the long-break
      branch does not reset it and the short-break branch is never taken, so every later
      break ends through the long-break branch. */
  lemma {:induction false} LongBranchSticks(s: Pomodoro, n: nat)
    requires s.shortBreakCount + 1 >= s.cycles
    ensures Run(s, n).shortBreakCount == s.shortBreakCount && Run(s, n).cycles == s.cycles
    decreases n
  {
    if n > 0 {
      LongBranchSticks(SteadyTick(s), n - 1);
    }
  }

  // ---------------------------------------------------------------------------
  // The break endings corrected
  // ---------------------------------------------------------------------------

  /** The interval callback with both break endings corrected: a short break hands over to a
      work phase of `workLength` seconds (the page keeps no work length apart from `timer`,
      so it is a parameter), and the long-break branch also restarts the short-break count.
      Everywhere else it is the page's steady tick. */
  function FixedTick(s: Pomodoro, workLength: int): (r: Pomodoro)
    ensures !(s.isRunning && s.timer == 0 && s.isBreak) ==> r == SteadyTick(s)
    ensures s.isRunning && s.timer == 0 && s.isBreak && s.shortBreakCount + 1 < s.cycles ==>
              r == s.(isBreak := false, shortBreakCount := s.shortBreakCount + 1, timer := workLength)
    ensures s.isRunning && s.timer == 0 && s.isBreak && s.shortBreakCount + 1 >= s.cycles ==>
              r == s.(isBreak := false, cycleCount := 0, shortBreakCount := 0, timer := s.longBreakTime)
  {
    var t := Tick(s, workLength);
    if s.isRunning && s.timer == 0 && s.isBreak && s.shortBreakCount + 1 >= s.cycles then
      t.(shortBreakCount := 0)
    else t
  }

  /** `n` seconds of the corrected timer. */
  function FixedRun(s: Pomodoro, workLength: int, n: nat): Pomodoro
    decreases n
  {
    if n == 0 then s else FixedRun(FixedTick(s, workLength), workLength, n - 1)
  }

  /** The corrected timer counts down like the page's. */
  lemma {:induction false} FixedCountdown(s: Pomodoro, workLength: int, n: nat)
    requires s.isRunning && s.timer == n
    ensures FixedRun(s, workLength, n) == s.(timer := 0)
    decreases n
  {
    if n > 0 {
      FixedCountdown(FixedTick(s, workLength), workLength, n - 1);
    }
  }

  /** Corrected, the end of a short break starts a work phase that runs its full
      `workLength` seconds before the next break. */
  lemma FixedShortBreakStartsWork(s: Pomodoro, workLength: nat)
    requires s.isRunning && s.isBreak && s.timer == 0 && s.shortBreakCount + 1 < s.cycles
    ensures FixedRun(s, workLength, 1).timer == workLength && !FixedRun(s, workLength, 1).isBreak
    ensures FixedRun(s, workLength, workLength + 1)
            == s.(isBreak := false, shortBreakCount := s.shortBreakCount + 1, timer := 0)
  {
    var t := FixedTick(s, workLength);
    assert FixedRun(s, workLength, workLength + 1) == FixedRun(t, workLength, workLength);
    FixedCountdown(t, workLength, workLength);
  }

  /** Corrected, the long-break branch restarts the count, so with two or more cycles the
      next break is a short one again. */
  lemma FixedLongBreakRestartsCount(s: Pomodoro, workLength: int)
    requires s.isRunning && s.isBreak && s.timer == 0 && s.shortBreakCount + 1 >= s.cycles
    requires s.cycles >= 2
    ensures FixedTick(s, workLength).shortBreakCount == 0
    ensures FixedTick(s, workLength).shortBreakCount + 1 < FixedTick(s, workLength).cycles
  {
  }

  /** A paused timer does not move. */
  lemma {:induction false} PausedStaysPut(s: Pomodoro, n: nat)
    requires !s.isRunning
    ensures Run(s, n) == s
    decreases n
  {
    if n > 0 {
      PausedStaysPut(s, n - 1);
    }
  }

  /** Resetting twice is resetting once. */
  lemma ResetIdempotent(s: Pomodoro)
    ensures ResetTimer(ResetTimer(s)) == ResetTimer(s)
  {
  }

  /** Pausing and resuming gives back the same state. */
  lemma ToggleTwice(s: Pomodoro)
    ensures ToggleTimer(ToggleTimer(s)) == s
  {
  }

  /** The default work phase reads "25:00". */
  lemma DefaultDisplay()
    ensures FormatTime(DefaultPomodoro as nat) == "25:00"
  {
    assert Digits(25) == "25";
    assert Digits(0) == "0";
  }
}
