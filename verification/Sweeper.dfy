/**
 * The periodic sweeper and its twin, the session reaper, as machines driven by timer ticks
 * and sweep completions (src/server/periodicSweeper.ts, src/server/session-reaper.ts).
 */
module Sweeper {
  const SUSTAINED_FAILURE_CEILING: nat := 3
  const MAX_BACKOFF_TICKS: nat := 24

  datatype LogLine = SweepFailed | SustainedFailure | Recovered

  /** `inFlight` is `currentSweep !== null`; `stopped` means the interval is cleared. */
  datatype State = State(
    inFlight: bool, consecutiveFailures: nat, ticksToSkip: nat, stopped: bool, log: seq<LogLine>)

  const INITIAL: State := State(false, 0, 0, false, [])

  /** What can happen to a sweeper; a sweep settles only while it is in flight, and a
      cleared interval ticks no more. */
  datatype Event = Tick | Success | Failure | Stop

  predicate Enabled(s: State, e: Event) {
    match e
    case Tick => !s.stopped
    case Success => s.inFlight
    case Failure => s.inFlight
    case Stop => true
  }

  function Pow2(n: nat): nat {
    if n == 0 then 1 else 2 * Pow2(n - 1)
  }

  function Backoff(failures: nat): nat {
    if failures < SUSTAINED_FAILURE_CEILING then 0
    else
      var ticks := Pow2(failures - SUSTAINED_FAILURE_CEILING + 1);
      if ticks < MAX_BACKOFF_TICKS then ticks else MAX_BACKOFF_TICKS
  }

  predicate Starts(s: State, e: Event) {
    e == Tick && !s.inFlight && s.ticksToSkip == 0
  }

  function Step(s: State, e: Event): State {
    match e
    case Tick =>
      if s.inFlight then s
      else if s.ticksToSkip > 0 then s.(ticksToSkip := s.ticksToSkip - 1)
      else s.(inFlight := true)
    case Success =>
      s.(inFlight := false, consecutiveFailures := 0, ticksToSkip := 0,
         log := if s.consecutiveFailures >= SUSTAINED_FAILURE_CEILING then s.log + [Recovered] else s.log)
    case Failure =>
      var n := s.consecutiveFailures + 1;
      var failed := s.log + [SweepFailed];
      s.(inFlight := false, consecutiveFailures := n,
         log := if n == SUSTAINED_FAILURE_CEILING then failed + [SustainedFailure] else failed,
         ticksToSkip := if n >= SUSTAINED_FAILURE_CEILING then Backoff(n) else s.ticksToSkip)
    case Stop => s.(stopped := true)
  }

  class PeriodicSweeper {
    var currentSweep: bool
    var consecutiveFailures: nat
    var ticksToSkip: nat
    var cleared: bool
    var log: seq<LogLine>

    ghost function Abstract(): State
      reads this
    {
      State(currentSweep, consecutiveFailures, ticksToSkip, cleared, log)
    }

    constructor ()
      ensures Abstract() == INITIAL
    {
      currentSweep, consecutiveFailures, ticksToSkip, cleared, log := false, 0, 0, false, [];
    }

    /** The interval callback; `started` tells whether it called the sweep body. */
    method OnTick() returns (started: bool)
      modifies this
      ensures Abstract() == Step(old(Abstract()), Tick)
      ensures started == Starts(old(Abstract()), Tick)
    {
      started := false;
      if currentSweep {
        return;
      }
      if ticksToSkip > 0 {
        ticksToSkip := ticksToSkip - 1;
        return;
      }
      currentSweep, started := true, true;
    }

    /** The sweep body resolved: the rest of `runSweep`, then its `finally`. */
    method OnResolved()
      requires currentSweep
      modifies this
      ensures Abstract() == Step(old(Abstract()), Success)
    {
      if consecutiveFailures >= SUSTAINED_FAILURE_CEILING {
        log := log + [Recovered];
      }
      consecutiveFailures := 0;
      ticksToSkip := 0;
      currentSweep := false;
    }

    /** The sweep body rejected: the `catch` of `runSweep`, then its `finally`. */
    method OnRejected()
      requires currentSweep
      modifies this
      ensures Abstract() == Step(old(Abstract()), Failure)
    {
      consecutiveFailures := consecutiveFailures + 1;
      log := log + [SweepFailed];
      if consecutiveFailures == SUSTAINED_FAILURE_CEILING {
        log := log + [SustainedFailure];
      }
      if consecutiveFailures >= SUSTAINED_FAILURE_CEILING {
        ticksToSkip := Backoff(consecutiveFailures);
      }
      currentSweep := false;
    }

    method Stop()
      modifies this
      ensures Abstract() == Step(old(Abstract()), Event.Stop)
    {
      cleared := true;
    }
  }

  // ---- Runs ---------------------------------------------------------------

  ghost predicate ValidRun(s: State, run: seq<Event>)
    decreases run
  {
    run == [] || (Enabled(s, run[0]) && ValidRun(Step(s, run[0]), run[1..]))
  }

  function After(s: State, run: seq<Event>): State
    decreases run
  {
    if run == [] then s else After(Step(s, run[0]), run[1..])
  }

  function CountLines(log: seq<LogLine>, line: LogLine): nat {
    if log == [] then 0 else CountLines(log[..|log| - 1], line) + if log[|log| - 1] == line then 1 else 0
  }

  function CountEvents(run: seq<Event>, e: Event): nat {
    if run == [] then 0 else (if run[0] == e then 1 else 0) + CountEvents(run[1..], e)
  }

  function CountStarts(s: State, run: seq<Event>): nat
    decreases run
  {
    if run == [] then 0 else (if Starts(s, run[0]) then 1 else 0) + CountStarts(Step(s, run[0]), run[1..])
  }

  /** Ticks that find no sweep in flight. */
  function CountIdleTicks(s: State, run: seq<Event>): nat
    decreases run
  {
    if run == [] then 0
    else (if run[0] == Tick && !s.inFlight then 1 else 0) + CountIdleTicks(Step(s, run[0]), run[1..])
  }

  /** The invariant of every reachable state. */
  ghost predicate Inv(s: State) {
    && CountLines(s.log, SustainedFailure)
       == CountLines(s.log, Recovered) + (if s.consecutiveFailures >= SUSTAINED_FAILURE_CEILING then 1 else 0)
    && s.ticksToSkip <= Backoff(s.consecutiveFailures)
    && (s.inFlight ==> s.ticksToSkip == 0)
  }

  lemma CountAppend(log: seq<LogLine>, a: LogLine, line: LogLine)
    ensures CountLines(log + [a], line) == CountLines(log, line) + if a == line then 1 else 0
  {
    assert (log + [a])[..|log|] == log;
  }

  lemma StepKeepsInv(s: State, e: Event)
    requires Inv(s) && Enabled(s, e)
    ensures Inv(Step(s, e))
  {
    if e == Success {
      CountAppend(s.log, Recovered, SustainedFailure);
      CountAppend(s.log, Recovered, Recovered);
    } else if e == Failure {
      var failed := s.log + [SweepFailed];
      CountAppend(s.log, SweepFailed, SustainedFailure);
      CountAppend(s.log, SweepFailed, Recovered);
      CountAppend(failed, SustainedFailure, SustainedFailure);
      CountAppend(failed, SustainedFailure, Recovered);
    }
    hide CountLines, Pow2;
  }

  lemma {:induction false} RunKeepsInv(s: State, run: seq<Event>)
    requires Inv(s) && ValidRun(s, run)
    ensures Inv(After(s, run))
    decreases run
  {
    if run != [] {
      StepKeepsInv(s, run[0]);
      RunKeepsInv(Step(s, run[0]), run[1..]);
    }
  }

  /** In every run the sustained-failure lines exceed the recovered lines by one exactly
      while three or more failures stand, and agree otherwise; and the back-off never
      exceeds its cap, nor does a running sweep owe any skipped tick. */
  lemma LogBalance(run: seq<Event>)
    requires ValidRun(INITIAL, run)
    ensures var s := After(INITIAL, run);
            && CountLines(s.log, SustainedFailure) - CountLines(s.log, Recovered)
               == (if s.consecutiveFailures >= SUSTAINED_FAILURE_CEILING then 1 else 0)
            && s.ticksToSkip <= MAX_BACKOFF_TICKS
            && (s.inFlight ==> s.ticksToSkip == 0)
  {
    RunKeepsInv(INITIAL, run);
  }

  // ---- The state, read off the run -----------------------------------------------

  /** The failures since the last success. */
  function FailuresInARow(run: seq<Event>): nat {
    if run == [] then 0
    else
      var before := run[..|run| - 1];
      match run[|run| - 1]
      case Failure => FailuresInARow(before) + 1
      case Success => 0
      case _ => FailuresInARow(before)
  }

  /** No sweep succeeded from `k` on, and the one before, if any, did. */
  ghost predicate SinceSuccess(run: seq<Event>, k: nat) {
    && k <= |run| && (k > 0 ==> run[k - 1] == Success)
    && forall i :: k <= i < |run| ==> run[i] != Success
  }

  lemma {:induction false} FailuresInARowMeaning(run: seq<Event>, k: nat)
    requires SinceSuccess(run, k)
    ensures FailuresInARow(run) == CountEvents(run[k..], Failure)
  {
    var last := |run| - 1;
    if k < |run| {
      FailuresInARowMeaning(run[..last], k);
      assert run[k..] == run[..last][k..] + [run[last]];
      CountEventsConcat(run[..last][k..], [run[last]], Failure);
      assert CountEvents([run[last]], Failure) == if run[last] == Failure then 1 else 0 by {
        assert [run[last]][1..] == [];
      }
    }
  }

  lemma {:induction false} CountEventsConcat(a: seq<Event>, b: seq<Event>, e: Event)
    ensures CountEvents(a + b, e) == CountEvents(a, e) + CountEvents(b, e)
  {
    if a == [] {
      assert a + b == b;
    } else {
      assert (a + b)[1..] == a[1..] + b;
      CountEventsConcat(a[1..], b, e);
    }
  }

  /** The log: a line for each failure, one more when it is the third in a row, and one for a
      success that ends three or more. */
  function ExpectedLog(run: seq<Event>): seq<LogLine> {
    if run == [] then []
    else
      var before := run[..|run| - 1];
      match run[|run| - 1]
      case Failure =>
        ExpectedLog(before) + [SweepFailed] + (if FailuresInARow(run) == 3 then [SustainedFailure] else [])
      case Success => ExpectedLog(before) + (if FailuresInARow(before) >= 3 then [Recovered] else [])
      case _ => ExpectedLog(before)
  }

  lemma {:induction false} AfterConcat(s: State, a: seq<Event>, b: seq<Event>)
    ensures After(s, a + b) == After(After(s, a), b)
    decreases a
  {
    hide Step;
    if a == [] {
      assert a + b == b;
    } else {
      assert (a + b)[1..] == a[1..] + b;
      AfterConcat(Step(s, a[0]), a[1..], b);
    }
  }

  lemma AfterLast(run: seq<Event>)
    requires run != []
    ensures After(INITIAL, run) == Step(After(INITIAL, run[..|run| - 1]), run[|run| - 1])
  {
    hide Step;
    var before, last := run[..|run| - 1], run[|run| - 1];
    assert run == before + [last] && [last][1..] == [];
    AfterConcat(INITIAL, before, [last]);
    assert After(After(INITIAL, before), [last]) == Step(After(INITIAL, before), last);
  }

  /** Over every run: the count is the failures since the last success, and the log is exactly
      what these call for. */
  lemma {:induction false} StateIsHistory(run: seq<Event>)
    ensures After(INITIAL, run).consecutiveFailures == FailuresInARow(run)
    ensures After(INITIAL, run).log == ExpectedLog(run)
  {
    if run != [] {
      var before := run[..|run| - 1];
      StateIsHistory(before);
      AfterLast(run);
      hide After, Backoff;
    }
  }

  /** So the sustained-failure lines exceed the recovered ones by one exactly while three or
      more sweeps in a row have failed, and agree otherwise. */
  lemma LogBalanceByHistory(run: seq<Event>)
    requires ValidRun(INITIAL, run)
    ensures CountLines(ExpectedLog(run), SustainedFailure) - CountLines(ExpectedLog(run), Recovered)
            == if FailuresInARow(run) >= 3 then 1 else 0
  {
    LogBalance(run);
    StateIsHistory(run);
  }

  function Ticks(k: nat): seq<Event> {
    seq(k, _ => Tick)
  }

  /** How many ticks pass idly after the n-th failure in a row: none up to the second, then 2,
      4, 8, 16 and from the seventh on 24. */
  function IdleAfter(n: nat): nat {
    if n < 3 then 0 else if n == 3 then 2 else if n == 4 then 4 else if n == 5 then 8 else if n == 6 then 16 else 24
  }

  lemma BackoffIs(n: nat)
    ensures Backoff(n) == IdleAfter(n)
  {
    BackoffGap(n);
  }

  lemma {:induction false} IdleTicks(s: State, k: nat)
    requires !s.inFlight && k <= s.ticksToSkip
    ensures After(s, Ticks(k)) == s.(ticksToSkip := s.ticksToSkip - k)
    decreases k
  {
    if k > 0 {
      assert Ticks(k)[1..] == Ticks(k - 1);
      IdleTicks(Step(s, Tick), k - 1);
    }
  }

  /** In every run, after a failed sweep exactly `IdleAfter` ticks pass before the next start,
      by the failures in a row; after a successful one the very next tick starts. */
  lemma NextStart(run: seq<Event>, k: nat)
    requires ValidRun(INITIAL, run) && run != [] && (run[|run| - 1] == Failure || run[|run| - 1] == Success)
    requires k <= IdleAfter(FailuresInARow(run))
    ensures var s := After(INITIAL, run + Ticks(k));
            Starts(s, Tick) <==> k == IdleAfter(FailuresInARow(run))
  {
    var before := run[..|run| - 1];
    AfterLast(run);
    StateIsHistory(run);
    ValidBefore(INITIAL, run);
    RunKeepsInv(INITIAL, before);
    BackoffIs(FailuresInARow(run));
    AfterConcat(INITIAL, run, Ticks(k));
    var s := After(INITIAL, run);
    assert Enabled(After(INITIAL, before), run[|run| - 1]);
    hide After, Backoff, FailuresInARow, ExpectedLog, Pow2, CountLines;
    assert !s.inFlight && s.ticksToSkip == IdleAfter(FailuresInARow(run));
    IdleTicks(s, k);
  }

  lemma {:induction false} ValidBefore(s: State, run: seq<Event>)
    requires ValidRun(s, run) && run != []
    ensures ValidRun(s, run[..|run| - 1]) && Enabled(After(s, run[..|run| - 1]), run[|run| - 1])
    decreases run
  {
    if |run| > 1 {
      ValidBefore(Step(s, run[0]), run[1..]);
      assert run[1..][..|run| - 2] == run[..|run| - 1][1..];
      hide Step;
    }
  }

  lemma StepLogsFailure(s: State, e: Event)
    ensures CountLines(Step(s, e).log, SweepFailed) == CountLines(s.log, SweepFailed) + if e == Failure then 1 else 0
  {
    CountAppend(s.log, SweepFailed, SweepFailed);
    CountAppend(s.log + [SweepFailed], SustainedFailure, SweepFailed);
    CountAppend(s.log, Recovered, SweepFailed);
    hide CountLines, Backoff;
  }

  /** Every failure is logged, and nothing else is logged as one. */
  lemma {:induction false} FailuresLogged(s: State, run: seq<Event>)
    requires ValidRun(s, run)
    ensures CountLines(After(s, run).log, SweepFailed) == CountLines(s.log, SweepFailed) + CountEvents(run, Failure)
    decreases run
  {
    if run != [] {
      StepLogsFailure(s, run[0]);
      FailuresLogged(Step(s, run[0]), run[1..]);
      hide CountLines, Step;
    }
  }

  /** Sweeps never overlap: at every point starts exceed completions by one exactly while
      a sweep is in flight. */
  lemma {:induction false} NoOverlap(s: State, run: seq<Event>)
    requires ValidRun(s, run)
    ensures CountStarts(s, run) + (if s.inFlight then 1 else 0)
            == CountEvents(run, Success) + CountEvents(run, Failure) + if After(s, run).inFlight then 1 else 0
    decreases run
  {
    if run != [] {
      NoOverlap(Step(s, run[0]), run[1..]);
    }
  }

  /** Without a start, idle ticks only work off the back-off. */
  lemma {:induction false} IdleTicksWithoutStart(s: State, run: seq<Event>)
    requires Inv(s) && ValidRun(s, run) && CountStarts(s, run) == 0
    ensures CountIdleTicks(s, run) <= if s.inFlight then MAX_BACKOFF_TICKS else s.ticksToSkip
    decreases run
  {
    if run != [] {
      StepKeepsInv(s, run[0]);
      IdleTicksWithoutStart(Step(s, run[0]), run[1..]);
    }
  }

  /** Any 25 ticks that find no sweep in flight start at least one, wherever in a run they are. */
  lemma TwentyFiveIdleTicksStart(before: seq<Event>, run: seq<Event>)
    requires ValidRun(INITIAL, before) && ValidRun(After(INITIAL, before), run)
    requires CountIdleTicks(After(INITIAL, before), run) >= 25
    ensures CountStarts(After(INITIAL, before), run) >= 1
  {
    RunKeepsInv(INITIAL, before);
    if CountStarts(After(INITIAL, before), run) == 0 {
      IdleTicksWithoutStart(After(INITIAL, before), run);
    }
  }

  /** A stopped sweeper never starts another sweep. */
  lemma {:induction false} StoppedStartsNothing(s: State, run: seq<Event>)
    requires s.stopped && ValidRun(s, run)
    ensures CountStarts(s, run) == 0 && After(s, run).stopped
    decreases run
  {
    if run != [] {
      StoppedStartsNothing(Step(s, run[0]), run[1..]);
    }
  }

  // ---- The schedule of a permanent outage ------------------------------------

  /** Ticks where every started sweep fails before the next tick. */
  function FailingTick(s: State): State {
    if Starts(s, Tick) then Step(Step(s, Tick), Failure) else Step(s, Tick)
  }

  function FailingTicks(ticks: nat): State {
    if ticks == 0 then INITIAL else FailingTick(FailingTicks(ticks - 1))
  }

  /** The tick of attempt `n` >= 1. */
  function AttemptTick(n: nat): nat {
    if n <= 3 then n
    else if n == 4 then 6
    else if n == 5 then 11
    else if n == 6 then 20
    else 12 + 25 * (n - 6)
  }

  lemma BackoffGap(n: nat)
    ensures n >= 1 ==> AttemptTick(n + 1) == AttemptTick(n) + Backoff(n) + 1
  {
    if n == 3 {
      assert Pow2(1) == 2;
    } else if n == 4 {
      assert Pow2(2) == 4;
    } else if n == 5 {
      assert Pow2(3) == 2 * Pow2(2) == 8;
    } else if n == 6 {
      assert Pow2(4) == 2 * Pow2(3) == 4 * Pow2(2) == 16;
    } else if n >= 7 {
      Pow2AtLeast(n - 2);
    }
  }

  lemma {:induction false} Pow2AtLeast(n: nat)
    requires n >= 5
    ensures Pow2(n) >= 32
  {
    if n == 5 {
      assert Pow2(5) == 2 * Pow2(4) == 4 * Pow2(3) == 8 * Pow2(2) == 32;
    } else {
      Pow2AtLeast(n - 1);
    }
  }

  /** One tick of the outage: a skipped one, or one more attempt. */
  lemma FailingTickStep(s: State)
    requires !s.inFlight && !s.stopped
    ensures var t := FailingTick(s);
            && !t.inFlight && !t.stopped
            && t.consecutiveFailures == s.consecutiveFailures + (if s.ticksToSkip > 0 then 0 else 1)
            && (s.ticksToSkip > 0 ==> t.ticksToSkip == s.ticksToSkip - 1)
            && (s.ticksToSkip == 0 && t.consecutiveFailures >= SUSTAINED_FAILURE_CEILING ==>
                  t.ticksToSkip == Backoff(t.consecutiveFailures))
            && (s.ticksToSkip == 0 && t.consecutiveFailures < SUSTAINED_FAILURE_CEILING ==> t.ticksToSkip == 0)
  {
    hide Backoff;
  }

  /** Under a permanent outage attempt n falls on tick 1, 2, 3, 6, 11, 20, then
      37 + 25 (n - 7): between attempts n and n + 1 exactly n failures stand, and the ticks
      still to skip are those left before attempt n + 1. */
  lemma {:induction false} OutageSchedule(ticks: nat, n: nat)
    requires n >= 1 && AttemptTick(n) <= ticks < AttemptTick(n + 1)
    ensures var s := FailingTicks(ticks);
            && s.consecutiveFailures == n && !s.inFlight && !s.stopped
            && s.ticksToSkip == AttemptTick(n + 1) - 1 - ticks
            && (Starts(s, Tick) <==> ticks + 1 == AttemptTick(n + 1))
    ensures n >= 7 ==> AttemptTick(n) == 37 + 25 * (n - 7)
    decreases ticks
  {
    AttemptTicksAscend(n);
    BackoffGap(n);
    BackoffGap(n - 1);
    var before := FailingTicks(ticks - 1);
    assert FailingTicks(ticks) == FailingTick(before);
    if n == 1 {
      assert FailingTicks(0) == INITIAL;
    }
    hide AttemptTick, Backoff, FailingTick, FailingTicks;
    if ticks > AttemptTick(n) {
      OutageSchedule(ticks - 1, n);
    } else if n > 1 {
      OutageSchedule(ticks - 1, n - 1);
    }
    FailingTickStep(before);
  }

  lemma AttemptTicksAscend(n: nat)
    requires n >= 1
    ensures AttemptTick(1) == 1 && Backoff(1) == 0
    ensures n > 1 ==> AttemptTick(n - 1) < AttemptTick(n)
    ensures n >= 7 ==> AttemptTick(n) == 37 + 25 * (n - 7)
    ensures n < SUSTAINED_FAILURE_CEILING ==> Backoff(n) == 0
  {
    hide Pow2;
  }

  // ---- The session reaper -------------------------------------------------------

  datatype ReaperLine = ReaperRecovered | ReaperSweepFailed | ReaperSustained | CleanedUp(deleted: nat)

  class SessionReaper {
    var currentSweep: bool
    var consecutiveFailures: nat
    var ticksToSkip: nat
    var cleared: bool
    var log: seq<ReaperLine>

    /** The reaper seen as a periodic sweeper: its control state and renamed log lines. */
    ghost function Abstract(): State
      reads this
    {
      State(currentSweep, consecutiveFailures, ticksToSkip, cleared, Renamed(log))
    }

    constructor ()
      ensures Abstract() == INITIAL
    {
      currentSweep, consecutiveFailures, ticksToSkip, cleared, log := false, 0, 0, false, [];
    }

    method OnTick() returns (started: bool)
      modifies this
      ensures Abstract() == Step(old(Abstract()), Tick)
      ensures started == Starts(old(Abstract()), Tick)
    {
      started := false;
      if currentSweep {
        return;
      }
      if ticksToSkip > 0 {
        ticksToSkip := ticksToSkip - 1;
        return;
      }
      currentSweep, started := true, true;
    }

    method OnResolved(deleted: nat)
      requires currentSweep
      modifies this
      ensures Abstract() == Step(old(Abstract()), Success)
      ensures var recovered := if old(consecutiveFailures) >= SUSTAINED_FAILURE_CEILING
                               then old(log) + [ReaperRecovered] else old(log);
              log == if deleted > 0 then recovered + [CleanedUp(deleted)] else recovered
    {
      hide Renamed;
      if consecutiveFailures >= SUSTAINED_FAILURE_CEILING {
        RenamedAppend(log, ReaperRecovered);
        log := log + [ReaperRecovered];
      }
      consecutiveFailures := 0;
      ticksToSkip := 0;
      if deleted > 0 {
        RenamedAppend(log, CleanedUp(deleted));
        log := log + [CleanedUp(deleted)];
      }
      currentSweep := false;
    }

    method OnRejected()
      requires currentSweep
      modifies this
      ensures Abstract() == Step(old(Abstract()), Failure)
    {
      hide Renamed, Backoff;
      consecutiveFailures := consecutiveFailures + 1;
      RenamedAppend(log, ReaperSweepFailed);
      log := log + [ReaperSweepFailed];
      if consecutiveFailures == SUSTAINED_FAILURE_CEILING {
        RenamedAppend(log, ReaperSustained);
        log := log + [ReaperSustained];
      }
      if consecutiveFailures >= SUSTAINED_FAILURE_CEILING {
        ticksToSkip := Backoff(consecutiveFailures);
      }
      currentSweep := false;
    }

    method Stop()
      modifies this
      ensures Abstract() == Step(old(Abstract()), Event.Stop)
    {
      cleared := true;
    }
  }

  /** The reaper's lines under the sweeper's names; the clean-up line has no counterpart. */
  function Rename(line: ReaperLine): seq<LogLine> {
    match line
    case ReaperRecovered => [Recovered]
    case ReaperSweepFailed => [SweepFailed]
    case ReaperSustained => [SustainedFailure]
    case CleanedUp(_) => []
  }

  function Renamed(log: seq<ReaperLine>): seq<LogLine> {
    if log == [] then [] else Renamed(log[..|log| - 1]) + Rename(log[|log| - 1])
  }

  lemma RenamedAppend(log: seq<ReaperLine>, line: ReaperLine)
    ensures Renamed(log + [line]) == Renamed(log) + Rename(line)
  {
    assert (log + [line])[..|log|] == log;
  }

  /** Step for step: driven by the same events, the two copies start the same sweeps and are
      in the same state with the same log at every point, however many sessions each sweep of
      the reaper deletes. The traces hold their states before and after every event. */
  method RunTwins(run: seq<Event>, deleted: seq<nat>)
    returns (sweeper: PeriodicSweeper, reaper: SessionReaper,
             ghost sweeperTrace: seq<State>, ghost reaperTrace: seq<State>)
    requires ValidRun(INITIAL, run) && |deleted| == |run|
    ensures fresh(sweeper) && fresh(reaper)
    ensures sweeper.Abstract() == After(INITIAL, run) == reaper.Abstract()
    ensures |sweeperTrace| == |run| + 1 && sweeperTrace == reaperTrace && sweeperTrace[0] == INITIAL
    ensures forall i :: 0 <= i < |run| ==> sweeperTrace[i + 1] == Step(sweeperTrace[i], run[i])
  {
    hide Step;
    sweeper := new PeriodicSweeper();
    reaper := new SessionReaper();
    sweeperTrace, reaperTrace := [sweeper.Abstract()], [reaper.Abstract()];
    assert run[0..] == run;
    for i := 0 to |run|
      invariant fresh(sweeper) && fresh(reaper)
      invariant sweeper.Abstract() == reaper.Abstract()
      invariant ValidRun(sweeper.Abstract(), run[i..])
      invariant After(sweeper.Abstract(), run[i..]) == After(INITIAL, run)
      invariant |sweeperTrace| == i + 1 && sweeperTrace == reaperTrace && sweeperTrace[0] == INITIAL
      invariant sweeperTrace[i] == sweeper.Abstract()
      invariant forall k :: 0 <= k < i ==> sweeperTrace[k + 1] == Step(sweeperTrace[k], run[k])
    {
      assert run[i..][0] == run[i] && run[i..][1..] == run[i + 1..];
      match run[i] {
        case Tick =>
          var a := sweeper.OnTick();
          var b := reaper.OnTick();
          assert a == b;
        case Success => sweeper.OnResolved(); reaper.OnResolved(deleted[i]);
        case Failure => sweeper.OnRejected(); reaper.OnRejected();
        case Stop => sweeper.Stop(); reaper.Stop();
      }
      sweeperTrace, reaperTrace := sweeperTrace + [sweeper.Abstract()], reaperTrace + [reaper.Abstract()];
    }
  }
}
