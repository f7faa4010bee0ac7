/** The plain stopwatch: a seconds counter that ticks while running. */
module Stopwatch {

  datatype Stopwatch = Stopwatch(seconds: int, isRunning: bool)

  const Initial: Stopwatch := Stopwatch(0, false)

  /** The user's and the interval's events. */
  datatype Event = Tick | StartStop | Reset

  /** One interval callback: one more second while running; no interval exists while stopped. */
  function OnTick(s: Stopwatch): (r: Stopwatch)
    ensures s.isRunning ==> r.seconds == s.seconds + 1
    ensures !s.isRunning ==> r == s
    ensures r.isRunning == s.isRunning
  {
    if s.isRunning then s.(seconds := s.seconds + 1) else s
  }

  /** `handleStartStop`: flips running, keeps the count. */
  function HandleStartStop(s: Stopwatch): (r: Stopwatch)
    ensures r.isRunning != s.isRunning && r.seconds == s.seconds
  {
    s.(isRunning := !s.isRunning)
  }

  /** `handleReset`: back to zero, stopped. */
  function HandleReset(s: Stopwatch): (r: Stopwatch)
    ensures r == Initial
  {
    Stopwatch(0, false)
  }

  function Step(s: Stopwatch, e: Event): Stopwatch {
    match e
    case Tick => OnTick(s)
    case StartStop => HandleStartStop(s)
    case Reset => HandleReset(s)
  }

  /** The state after a sequence of events. */
  function Run(s: Stopwatch, events: seq<Event>): Stopwatch
    decreases |events|
  {
    if events == [] then s else Run(Step(s, events[0]), events[1..])
  }

  /** The number of ticks in a sequence of events. */
  function Ticks(events: seq<Event>): nat {
    if events == [] then 0 else (if events[0] == Tick then 1 else 0) + Ticks(events[1..])
  }

  // ---------------------------------------------------------------------------
  // Lemmas
  // ---------------------------------------------------------------------------

  /** Without a reset the count never goes down, and it grows by at most one per tick. */
  lemma {:induction false} NoResetMonotone(s: Stopwatch, events: seq<Event>)
    requires forall i :: 0 <= i < |events| ==> events[i] != Reset
    ensures s.seconds <= Run(s, events).seconds <= s.seconds + Ticks(events)
    decreases |events|
  {
    if events != [] {
      NoResetMonotone(Step(s, events[0]), events[1..]);
    }
  }

  /** While running with no start/stop or reset, every tick counts. */
  lemma {:induction false} RunningTicksCount(s: Stopwatch, n: nat)
    requires s.isRunning
    ensures Run(s, seq(n, _ => Tick)) == s.(seconds := s.seconds + n)
    decreases n
  {
    if n > 0 {
      assert seq(n, _ => Tick)[1..] == seq(n - 1, _ => Tick);
      RunningTicksCount(OnTick(s), n - 1);
    }
  }

  /** Resetting twice is resetting once. */
  lemma ResetIdempotent(s: Stopwatch)
    ensures HandleReset(HandleReset(s)) == HandleReset(s)
  {
  }

  /** Start/stop twice gives back the same state. */
  lemma StartStopTwice(s: Stopwatch)
    ensures HandleStartStop(HandleStartStop(s)) == s
  {
  }
}
