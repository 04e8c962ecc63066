// cyber/timer/timer.cc: the periodic callback, which re-arms its task for a
// duration that compensates for the drift of its past start times.  Times are
// nanoseconds of the monotonic clock; rounding is exact, not that of a double.
module Timer {
  import opened Wrappers
  import TimingWheel

  const MILLISECOND := 1_000_000
  const TIMER_MAX_INTERVAL_MS := TimingWheel.LAP * TimingWheel.TIMER_RESOLUTION_MS

  // std::llround(ns / 1e6): to the nearest, halves away from zero.
  function RoundToMs(ns: int): (ms: int)
    ensures -MILLISECOND / 2 <= ns - ms * MILLISECOND <= MILLISECOND / 2
    ensures ns >= 0 ==> ns - ms * MILLISECOND < MILLISECOND / 2
  {
    if ns >= 0 then (ns + MILLISECOND / 2) / MILLISECOND
    else -((-ns + MILLISECOND / 2) / MILLISECOND)
  }

  datatype Task = Task(intervalMs: nat, nextFireDurationMs: int, accumulatedErrorNs: int, lastExecuteTimeNs: nat)

  function InitTimerTask(period: nat): (task: Option<Task>) {
    if period == 0 || period >= TIMER_MAX_INTERVAL_MS then None else Some(Task(period, period, 0, 0))
  }

  // A firing: when the callback starts, and how long the user's function runs.
  datatype Firing = Firing(start: nat, run: nat)

  function ErrorAt(task: Task, start: nat): (errorNs: int) {
    if task.lastExecuteTimeNs == 0 then task.accumulatedErrorNs
    else task.accumulatedErrorNs + start - task.lastExecuteTimeNs - task.intervalMs * MILLISECOND
  }

  // For how long the task is armed next, given the run time and the error.
  function NextDuration(intervalMs: nat, run: nat, errorNs: int): (durationMs: int)
    ensures durationMs >= 2
  {
    var executeMs := RoundToMs(run);
    if executeMs >= intervalMs || intervalMs - executeMs - TimingWheel.TIMER_RESOLUTION_MS < RoundToMs(errorNs)
    then TimingWheel.TIMER_RESOLUTION_MS
    else intervalMs - executeMs - RoundToMs(errorNs)
  }

  // The whole periodic callback, up to AddTask.
  function Fire(task: Task, f: Firing): (task': Task)
    ensures task'.intervalMs == task.intervalMs && task'.nextFireDurationMs >= 2 && task'.lastExecuteTimeNs == f.start
  {
    var error := ErrorAt(task, f.start);
    Task(task.intervalMs, NextDuration(task.intervalMs, f.run, error), error, f.start)
  }

  // ---- The grid of ticks ----

  const TICK := 2_000_000

  // The wheel ticks every 2 ms; its tick 0 falls at `phase`.
  function TickTime(phase: nat, tick: nat): (time: nat) {
    phase + TICK * tick
  }

  // A task armed at `armed`, after tick T and before tick T + 1, is fired at the tick
  // that the wheel gives it, and its callback starts with a lateness of its own.
  ghost predicate OnGrid(s: Setting, armed: nat, durationMs: nat, tick: nat, start: nat) {
    && armed >= s.phase && durationMs >= 1
    && tick == TimingWheel.FireTickAt((armed - s.phase) / TICK, TimingWheel.Ticks(durationMs))
    && TickTime(s.phase, tick) <= start <= TickTime(s.phase, tick) + s.lateness
  }

  // A task armed for n ticks starts more than 2(n - 1) ms and at most 2n ms later,
  // but for the lateness.
  predicate StartsInTime(armed: nat, durationMs: nat, start: nat, lateness: nat) {
    var n := TimingWheel.Ticks(durationMs);
    armed + 2 * (n - 1) * MILLISECOND < start <= armed + 2 * n * MILLISECOND + lateness
  }

  // That is so on the grid, for all durations the wheel handles exactly.
  lemma {:induction false} GridGivesStartsInTime(s: Setting, armed: nat, durationMs: nat, tick: nat, start: nat)
    requires OnGrid(s, armed, durationMs, tick, start) && durationMs <= TIMER_MAX_INTERVAL_MS
    ensures StartsInTime(armed, durationMs, start, s.lateness)
  {
  }

  // A period, the time of tick 0, and how late after its tick a callback starts at most.
  datatype Setting = Setting(period: nat, phase: nat, lateness: nat)

  // The firings of one timer so far, the last one outermost, each with its tick, and the
  // time at which it was started, which arms it for its interval.
  datatype History =
    | First(armed: nat, tick: nat, f: Firing)
    | Next(before: History, tick: nat, f: Firing)

  function Start(h: History): (first: History) {
    if h.First? then h else Start(h.before)
  }

  // By how many milliseconds the ticks have fallen behind the schedule since the first.
  function TicksBehind(period: nat, h: History): (ms: int) {
    if h.First? then 0
    else TicksBehind(period, h.before) + TimingWheel.TIMER_RESOLUTION_MS * (h.tick - h.before.tick) - period
  }

  // The task after these firings.
  function After(period: nat, h: History): (task: Task)
    ensures task.intervalMs == period && task.nextFireDurationMs >= 2 && task.lastExecuteTimeNs == h.f.start
  {
    Fire(if h.First? then Task(period, period, 0, 0) else After(period, h.before), h.f)
  }

  // The wheel makes the firings: the first where starting the timer puts it, every other
  // one where the re-arming by the one before does.
  ghost predicate Run(s: Setting, h: History) {
    && InitTimerTask(s.period) == Some(Task(s.period, s.period, 0, 0)) && h.f.start > 0
    && match h
       case First(armed, tick, f) => OnGrid(s, armed, s.period, tick, f.start)
       case Next(before, tick, f) =>
         && Run(s, before)
         && OnGrid(s, before.f.start + before.f.run, After(s.period, before).nextFireDurationMs, tick, f.start)
  }

  // How late the last callback started after its tick.
  function Late(s: Setting, h: History): (late: int) {
    h.f.start - TickTime(s.phase, h.tick)
  }

  // By how much the starts have fallen behind their schedule, as the task counts it.
  function ErrorOf(s: Setting, h: History): (errorNs: int) {
    After(s.period, h).accumulatedErrorNs
  }

  predicate Overruns(task: Task, f: Firing) { RoundToMs(f.run) >= task.intervalMs }

  predicate Compensates(task: Task, f: Firing) {
    && !Overruns(task, f)
    && task.intervalMs - RoundToMs(f.run) - TimingWheel.TIMER_RESOLUTION_MS >= RoundToMs(ErrorAt(task, f.start))
  }

  // Drift is bounded, not accumulated: after one compensating callback the error
  // at the next start lies in (-3 ms, 2 ms + lateness), whatever it was before.
  lemma {:induction false} CompensationForgetsThePast(task: Task, f: Firing, g: Firing, lateness: nat)
    requires f.start > 0 && Compensates(task, f)
    requires StartsInTime(f.start + f.run, Fire(task, f).nextFireDurationMs, g.start, lateness)
    ensures -3 * MILLISECOND < Fire(Fire(task, f), g).accumulatedErrorNs < 2 * MILLISECOND + lateness
  {
  }

  // ---- One firing to the next ----

  lemma {:induction false} TickOfReArming(s: Setting, h: History)
    requires Run(s, h) && h.Next?
    ensures var run, late := h.before.f.run, Late(s, h.before);
      && 0 <= late <= s.lateness
      && h.tick == TimingWheel.FireTickAt(h.before.tick + (late + run) / TICK,
                                          TimingWheel.Ticks(After(s.period, h.before).nextFireDurationMs))
  {
    hide After;
    DivisionByTick(h.before.tick, Late(s, h.before) + h.before.f.run);
  }

  lemma {:induction false} DivisionByTick(tick: nat, rest: nat)
    ensures (TICK * tick + rest) / TICK == tick + rest / TICK
  {
  }

  // From one firing to the next the error without the lateness moves by whole ticks.
  lemma {:induction false} ErrorMovesByTicks(s: Setting, h: History)
    requires Run(s, h)
    ensures h.First? ==> ErrorOf(s, h) == 0
    ensures h.Next? ==>
      ErrorOf(s, h) - Late(s, h)
      == ErrorOf(s, h.before) - Late(s, h.before) + TICK * h.tick - TICK * h.before.tick - s.period * MILLISECOND
  {
    hide OnGrid, NextDuration;
  }

  lemma {:induction false} LastDuration(s: Setting, h: History)
    ensures After(s.period, h).nextFireDurationMs == NextDuration(s.period, h.f.run, ErrorOf(s, h))
  {
    hide NextDuration;
  }

  lemma {:induction false} LatenessInRange(s: Setting, h: History)
    requires Run(s, h)
    ensures 0 <= Late(s, h) <= s.lateness && 0 <= Late(s, Start(h)) <= s.lateness
  {
    if h.Next? {
      LatenessInRange(s, h.before);
    }
  }

  // The error is that, but for the lateness of the first and the last start.
  lemma {:induction false} ErrorIsTicksBehind(s: Setting, h: History)
    requires Run(s, h)
    ensures ErrorOf(s, h) - Late(s, h) + Late(s, Start(h)) == MILLISECOND * TicksBehind(s.period, h)
  {
    ErrorMovesByTicks(s, h);
    hide OnGrid, After, ErrorOf, Late;
    if h.Next? {
      ErrorIsTicksBehind(s, h.before);
    }
  }

  // A callback leaves no time before its next start: it ran for the whole interval, or
  // what is left of it is used up by the error.
  predicate LeavesNoTime(intervalMs: nat, run: nat, errorNs: int) {
    RoundToMs(run) >= intervalMs || RoundToMs(run) + TimingWheel.TIMER_RESOLUTION_MS + RoundToMs(errorNs) > intervalMs
  }

  // It is then followed by the very next tick after its end.  Any other one is followed by
  // the tick that lies what is left of the interval, less the error, after its end.
  lemma {:induction false} NextTick(s: Setting, h: History)
    requires Run(s, h) && h.Next?
    ensures var run, error := h.before.f.run, ErrorOf(s, h.before);
      var end := h.before.tick + (Late(s, h.before) + run) / TICK;
      if LeavesNoTime(s.period, run, error) then h.tick == end + 1
      else && s.period - RoundToMs(run) - RoundToMs(error) >= 2
           && h.tick == TimingWheel.FireTickAt(end, TimingWheel.Ticks(s.period - RoundToMs(run) - RoundToMs(error)))
  {
    TickOfReArming(s, h);
    LastDuration(s, h.before);
    hide Run, After, ErrorOf, Late, RoundToMs;
  }

  // ---- How far ahead of its schedule a timer gets ----

  // An exact re-arming never brings the next start more than 3 ms ahead, whether the
  // callback overran, left too little time or compensated.
  lemma {:induction false} LowerStep(intervalMs: nat, run: nat, errorNs: int, late: nat)
    requires errorNs == 0 || errorNs - late > -3 * MILLISECOND
    ensures var advance := (late + run) / TICK + TimingWheel.Ticks(NextDuration(intervalMs, run, errorNs));
      errorNs - late + TICK * advance - intervalMs * MILLISECOND > -3 * MILLISECOND
  {
    var whole, duration := (late + run) / TICK, NextDuration(intervalMs, run, errorNs);
    assert late + run < TICK * (whole + 1);
    assert TICK * TimingWheel.Ticks(duration) >= duration * MILLISECOND;
    assert TICK * (whole + TimingWheel.Ticks(duration)) == TICK * whole + TICK * TimingWheel.Ticks(duration);
    assert run - RoundToMs(run) * MILLISECOND >= -MILLISECOND / 2;
    assert errorNs - RoundToMs(errorNs) * MILLISECOND >= -MILLISECOND / 2;
    if RoundToMs(run) >= intervalMs {
      assert TimingWheel.Ticks(duration) == 1;
      assert MILLISECOND * (2 * whole + 2) > MILLISECOND * intervalMs - MILLISECOND / 2;
      assert 2 * whole + 2 >= intervalMs;
    }
  }

  // The longest period whose re-armings the wheel handles exactly on every run.
  function LongestSafePeriod(lateness: nat): (periodMs: nat) {
    if lateness < MILLISECOND / 2 then TIMER_MAX_INTERVAL_MS - 2 else TIMER_MAX_INTERVAL_MS - 3
  }

  // Up to that period no callback ever starts 3 ms ahead of its schedule, and every
  // re-arming is for 2 ms at least and at most 3 ms more than the interval; overruns
  // make no difference.
  lemma {:induction false} NeverFarAhead(s: Setting, h: History)
    requires Run(s, h) && s.period <= LongestSafePeriod(s.lateness)
    ensures ErrorOf(s, h) == 0 || ErrorOf(s, h) - Late(s, h) > -3 * MILLISECOND
    ensures ErrorOf(s, h) > -3 * MILLISECOND
    ensures After(s.period, h).nextFireDurationMs <= s.period + 3
    ensures After(s.period, h).nextFireDurationMs <= TIMER_MAX_INTERVAL_MS
  {
    ErrorMovesByTicks(s, h);
    if h.Next? {
      NeverFarAhead(s, h.before);
      AheadStep(s, h);
    }
    DurationInRange(s, h);
    LatenessInRange(s, h);
    hide Run, After, ErrorOf, Late;
  }

  lemma {:induction false} AheadStep(s: Setting, h: History)
    requires Run(s, h) && h.Next? && After(s.period, h.before).nextFireDurationMs <= TIMER_MAX_INTERVAL_MS
    requires ErrorOf(s, h.before) == 0 || ErrorOf(s, h.before) - Late(s, h.before) > -3 * MILLISECOND
    ensures ErrorOf(s, h) - Late(s, h) > -3 * MILLISECOND
  {
    ErrorMovesByTicks(s, h);
    TickOfReArming(s, h);
    LastDuration(s, h.before);
    hide Run, After, ErrorOf, Late, NextDuration;
    var run, late := h.before.f.run, Late(s, h.before);
    LowerStep(s.period, run, ErrorOf(s, h.before), late);
    var advance := (late + run) / TICK + TimingWheel.Ticks(After(s.period, h.before).nextFireDurationMs);
    assert h.tick == h.before.tick + advance;
    assert TICK * h.tick == TICK * h.before.tick + TICK * advance;
  }

  lemma {:induction false} DurationInRange(s: Setting, h: History)
    requires Run(s, h) && s.period <= LongestSafePeriod(s.lateness)
    requires ErrorOf(s, h) == 0 || ErrorOf(s, h) - Late(s, h) > -3 * MILLISECOND
    ensures After(s.period, h).nextFireDurationMs <= s.period + 3
    ensures After(s.period, h).nextFireDurationMs <= TIMER_MAX_INTERVAL_MS
  {
    ErrorIsTicksBehind(s, h);
    LatenessInRange(s, h);
    LastDuration(s, h);
    hide Run, After, ErrorOf, Late;
    assert ErrorOf(s, h) == 0 || TicksBehind(s.period, h) >= -2;
    assert RoundToMs(ErrorOf(s, h)) >= if s.lateness < MILLISECOND / 2 then -2 else -3;
  }

  // Whatever the state of the wheel, it therefore handles every re-arming exactly.
  lemma {:induction false} ReArmingStaysInTheWheel(s: Setting, h: History, wheel: TimingWheel.Wheel)
    requires Run(s, h) && s.period <= LongestSafePeriod(s.lateness) && TimingWheel.Indices(wheel)
    ensures var n := TimingWheel.Ticks(After(s.period, h).nextFireDurationMs);
      TimingWheel.FireTick(wheel, n) == wheel.now + n == TimingWheel.FireTickAt(wheel.now, n)
  {
    NeverFarAhead(s, h);
    hide Run, After;
    var n := TimingWheel.Ticks(After(s.period, h).nextFireDurationMs);
    TimingWheel.FireTickIsExact(wheel, n);
    TimingWheel.FireTickByTick(wheel, n);
  }

  ghost predicate NeverAhead(period: nat, lateness: nat) {
    forall s: Setting, h: History | s.period == period && s.lateness == lateness && Run(s, h) ::
      ErrorOf(s, h) > -3 * MILLISECOND
  }

  // Two of the accepted periods are too long: the third firing, on the last bucket of
  // the work wheel, re-arms for 65537 ms and is fired one tick later, 65 s early.
  lemma {:induction false} TooLongPeriods(period: nat, lateness: nat) returns (s: Setting, h: History)
    requires InitTimerTask(period).Some? && period > LongestSafePeriod(lateness)
    ensures s == Setting(period, 0, lateness) && Run(s, h) && h.Next?
    ensures After(period, h.before).nextFireDurationMs == TIMER_MAX_INTERVAL_MS + 1 && h.tick == h.before.tick + 1
    ensures ErrorOf(s, h) < -65_000 * MILLISECOND
  {
    s := Setting(period, 0, lateness);
    var h1, h2, h3;
    if period == 65535 {
      h1 := First(TICK, 32769, Firing(65_538_000_000, 500_000));
      h2 := Next(h1, 65536, Firing(131_072_000_000, 1_500_000));
      assert After(period, h1) == Task(period, 65534, 0, 65_538_000_000);
      assert After(period, h2) == Task(period, 65534, -MILLISECOND, 131_072_000_000);
    } else {
      h1 := First(3 * TICK, 32770, Firing(65_540_500_000, 0));
      h2 := Next(h1, 65537, Firing(131_074_010_000, 1_500_000));
      assert After(period, h1) == Task(period, 65534, 0, 65_540_500_000);
      assert After(period, h2) == Task(period, 65532, -490_000, 131_074_010_000);
    }
    assert Run(s, h1);
    assert Run(s, h2);
    h3 := Next(h2, 98303, Firing(196_606_000_000, 0));
    ThirdFiring(s, h3);
    h := FourthFiring(s, h3);
  }

  lemma {:induction false} ThirdFiring(s: Setting, h: History)
    requires s.phase == 0 && h.Next? && Run(s, h.before) && h.tick == 98303 && h.f == Firing(196_606_000_000, 0)
    requires || (s.period == 65535 && After(65535, h.before) == Task(65535, 65534, -MILLISECOND, 131_072_000_000))
             || (s.period == 65534 && After(65534, h.before) == Task(65534, 65532, -490_000, 131_074_010_000))
    requires h.before.f.run == 1_500_000
    ensures Run(s, h) && After(s.period, h).nextFireDurationMs == TIMER_MAX_INTERVAL_MS + 1
    ensures ErrorOf(s, h) <= 0
  {
    ThirdReArming(s.period, h);
    hide After;
    assert h.before.f.start == After(s.period, h.before).lastExecuteTimeNs;
    ThirdOnGrid(s, h.before.f.start + h.before.f.run, After(s.period, h.before).nextFireDurationMs);
    hide OnGrid;
  }

  lemma {:induction false} ThirdOnGrid(s: Setting, armed: nat, durationMs: nat)
    requires s.phase == 0
    requires (armed == 131_073_500_000 && durationMs == 65534) || (armed == 131_075_510_000 && durationMs == 65532)
    ensures OnGrid(s, armed, durationMs, 98303, 196_606_000_000)
  {
    var tick := armed / TICK;
    assert tick == if durationMs == 65534 then 65536 else 65537;
    assert TimingWheel.Ticks(durationMs) == 98303 - tick;
  }

  lemma {:induction false} ThirdReArming(period: nat, h: History)
    requires h.Next? && h.f == Firing(196_606_000_000, 0)
    requires || (period == 65535 && After(65535, h.before) == Task(65535, 65534, -MILLISECOND, 131_072_000_000))
             || (period == 65534 && After(65534, h.before) == Task(65534, 65532, -490_000, 131_074_010_000))
    ensures After(period, h).nextFireDurationMs == TIMER_MAX_INTERVAL_MS + 1
    ensures After(period, h).accumulatedErrorNs <= 0
  {
    assert After(period, h) == Fire(After(period, h.before), h.f);
    hide After;
  }

  lemma {:induction false} FourthFiring(s: Setting, before: History) returns (h: History)
    requires s.phase == 0 && s.period >= 65534 && Run(s, before)
    requires before.tick == 98303 && before.f == Firing(196_606_000_000, 0) && ErrorOf(s, before) <= 0
    requires After(s.period, before).nextFireDurationMs == TIMER_MAX_INTERVAL_MS + 1
    ensures h == Next(before, 98304, Firing(196_608_000_000, 0)) && Run(s, h)
    ensures ErrorOf(s, h) < -65_000 * MILLISECOND
  {
    hide After;
    h := Next(before, 98304, Firing(196_608_000_000, 0));
    assert Run(s, h);
    ErrorMovesByTicks(s, h);
  }

  // Every callback starts less than 3 ms ahead of its schedule, on every run, if and
  // only if the period is at most 65533 ms, or 65534 ms when callbacks start less
  // than half a millisecond late.
  lemma {:induction false} NeverAheadIff(period: nat, lateness: nat)
    requires InitTimerTask(period).Some?
    ensures NeverAhead(period, lateness) <==> period <= LongestSafePeriod(lateness)
  {
    if period <= LongestSafePeriod(lateness) {
      forall s: Setting, h: History | s.period == period && s.lateness == lateness && Run(s, h)
        ensures ErrorOf(s, h) > -3 * MILLISECOND
      {
        NeverFarAhead(s, h);
      }
    } else {
      var s, h := TooLongPeriods(period, lateness);
      assert !(ErrorOf(s, h) > -3 * MILLISECOND);
    }
  }

  // ---- How far behind its schedule a timer gets ----

  // There is room for the callback: a timer armed for the least duration, 2 ms, at the
  // end of the longest run after the latest start is fired within the interval.
  predicate Room(period: nat, run: nat, lateness: nat) {
    TimingWheel.TIMER_RESOLUTION_MS * ((lateness + run) / TICK + 1) <= period
  }

  predicate RunsAtMost(h: History, run: nat) {
    h.f.run <= run && (h.Next? ==> RunsAtMost(h.before, run))
  }

  lemma {:induction false} UpperStep(intervalMs: nat, run: nat, errorNs: int, late: nat, longest: nat, lateness: nat,
                                     ticks: nat)
    requires Room(intervalMs, longest, lateness) && run <= longest && late <= lateness
    requires errorNs - late < 2 * MILLISECOND
    requires ticks <= TimingWheel.Ticks(NextDuration(intervalMs, run, errorNs))
    ensures errorNs - late + TICK * ((late + run) / TICK + ticks) - intervalMs * MILLISECOND < 2 * MILLISECOND
  {
    assert (late + run) / TICK <= (lateness + longest) / TICK;
  }

  // With room, no callback starts later than 2 ms and the lateness after its schedule.
  lemma {:induction false} NeverFarBehind(s: Setting, h: History, run: nat)
    requires Run(s, h) && RunsAtMost(h, run) && Room(s.period, run, s.lateness)
    ensures ErrorOf(s, h) - Late(s, h) < 2 * MILLISECOND && ErrorOf(s, h) < 2 * MILLISECOND + s.lateness
  {
    ErrorMovesByTicks(s, h);
    if h.Next? {
      NeverFarBehind(s, h.before, run);
      BehindStep(s, h, run);
    }
    hide After, ErrorOf, OnGrid;
  }

  lemma {:induction false} BehindStep(s: Setting, h: History, run: nat)
    requires Run(s, h) && h.Next? && RunsAtMost(h, run) && Room(s.period, run, s.lateness)
    requires ErrorOf(s, h.before) - Late(s, h.before) < 2 * MILLISECOND
    ensures ErrorOf(s, h) - Late(s, h) < 2 * MILLISECOND
  {
    ErrorMovesByTicks(s, h);
    TickOfReArming(s, h);
    LastDuration(s, h.before);
    hide Run, After, ErrorOf, Late, NextDuration, Room, TimingWheel.FireTickAt;
    var late := Late(s, h.before);
    var whole := (late + h.before.f.run) / TICK;
    var ticks := h.tick - h.before.tick - whole;
    UpperStep(s.period, h.before.f.run, ErrorOf(s, h.before), late, run, s.lateness, ticks);
    assert TICK * h.tick == TICK * h.before.tick + TICK * (whole + ticks);
  }

  // Without it, callbacks that all run that long and start that late fall behind by a
  // millisecond more at every firing.
  lemma {:induction false} FallsBehind(s: Setting, run: nat, k: nat) returns (h: History)
    requires InitTimerTask(s.period).Some? && !Room(s.period, run, s.lateness)
    ensures Run(s, h) && RunsAtMost(h, run) && ErrorOf(s, h) >= MILLISECOND * k
    ensures h.f == Firing(TickTime(s.phase, h.tick) + s.lateness, run)
  {
    if k == 0 {
      var tick := TimingWheel.FireTickAt(0, TimingWheel.Ticks(s.period));
      h := First(s.phase, tick, Firing(TickTime(s.phase, tick) + s.lateness, run));
    } else {
      var before := FallsBehind(s, run, k - 1);
      h := NextLate(s, run, before);
    }
  }

  // The next firing of a run whose last callback started and ran as long as possible.
  lemma {:induction false} NextLate(s: Setting, run: nat, before: History) returns (h: History)
    requires Run(s, before) && RunsAtMost(before, run) && !Room(s.period, run, s.lateness)
    requires before.f == Firing(TickTime(s.phase, before.tick) + s.lateness, run)
    ensures Run(s, h) && RunsAtMost(h, run) && ErrorOf(s, h) >= ErrorOf(s, before) + MILLISECOND
    ensures h.f == Firing(TickTime(s.phase, h.tick) + s.lateness, run)
  {
    hide After, NextDuration;
    var armed, n := before.f.start + run, TimingWheel.Ticks(After(s.period, before).nextFireDurationMs);
    var tick := TimingWheel.FireTickAt((armed - s.phase) / TICK, n);
    h := Next(before, tick, Firing(TickTime(s.phase, tick) + s.lateness, run));
    assert Run(s, h);
    LateByOne(s, run, h);
  }

  lemma {:induction false} LateByOne(s: Setting, run: nat, h: History)
    requires Run(s, h) && h.Next? && !Room(s.period, run, s.lateness)
    requires h.before.f.run == run && Late(s, h.before) == Late(s, h) == s.lateness
    ensures ErrorOf(s, h) >= ErrorOf(s, h.before) + MILLISECOND
  {
    ErrorMovesByTicks(s, h);
    TickOfReArming(s, h);
    hide Run, After, ErrorOf, Late, TimingWheel.FireTickAt;
    var whole := (s.lateness + run) / TICK;
    assert h.tick >= h.before.tick + whole + 1;
    assert TICK * h.tick >= TICK * h.before.tick + TICK * (whole + 1);
  }

  // Some bound holds of the error after every run with callbacks of at most that length.
  ghost predicate ErrorBounded(period: nat, run: nat, lateness: nat) {
    exists bound: int :: BoundedBy(period, run, lateness, bound)
  }

  ghost predicate BoundedBy(period: nat, run: nat, lateness: nat, bound: int) {
    forall s: Setting, h: History
      | s.period == period && s.lateness == lateness && Run(s, h) && RunsAtMost(h, run) :: ErrorOf(s, h) <= bound
  }

  // Drift is bounded if and only if there is room, for every interval, run time and
  // lateness.
  lemma {:induction false} ErrorBoundedIffRoom(period: nat, run: nat, lateness: nat)
    requires InitTimerTask(period).Some?
    ensures ErrorBounded(period, run, lateness) <==> Room(period, run, lateness)
  {
    if Room(period, run, lateness) {
      forall s: Setting, h: History | s.period == period && s.lateness == lateness && Run(s, h) && RunsAtMost(h, run)
        ensures ErrorOf(s, h) <= 2 * MILLISECOND + lateness
      {
        NeverFarBehind(s, h, run);
      }
      assert BoundedBy(period, run, lateness, 2 * MILLISECOND + lateness);
    } else {
      forall bound: int ensures !BoundedBy(period, run, lateness, bound) {
        var s := Setting(period, 0, lateness);
        var h := FallsBehind(s, run, if bound < 0 then 0 else bound + 1);
        assert ErrorOf(s, h) > bound;
      }
    }
  }

  // ---- The object, changed in place ----

  class TimerTask {
    const intervalMs: nat
    var nextFireDurationMs: int
    var accumulatedErrorNs: int
    var lastExecuteTimeNs: nat

    function Model(): (task: Task)
      reads this
    {
      Task(intervalMs, nextFireDurationMs, accumulatedErrorNs, lastExecuteTimeNs)
    }

    constructor (period: nat)
      ensures Model() == Task(period, period, 0, 0)
    {
      intervalMs := period;
      nextFireDurationMs, accumulatedErrorNs, lastExecuteTimeNs := period, 0, 0;
    }

    static method InitTask(period: nat) returns (task: TimerTask?)
      ensures task != null ==> fresh(task)
      ensures InitTimerTask(period) == if task != null then Some(task.Model()) else None
    {
      if period == 0 {
        return null;
      }
      if period >= TIMER_MAX_INTERVAL_MS {
        return null;
      }
      task := new TimerTask(period);
    }

    // The user's function has run from `start` to `end`.
    method Callback(start: nat, end: nat)
      requires start <= end
      modifies this
      ensures Model() == Fire(old(Model()), Firing(start, end - start))
    {
      var executeTimeMs := RoundToMs(end - start);
      if lastExecuteTimeNs == 0 {
        lastExecuteTimeNs := start;
      } else {
        accumulatedErrorNs := accumulatedErrorNs + (start - lastExecuteTimeNs - intervalMs * MILLISECOND);
      }
      lastExecuteTimeNs := start;
      if executeTimeMs >= intervalMs {
        nextFireDurationMs := TimingWheel.TIMER_RESOLUTION_MS;
      } else {
        var accumulatedErrorMs := RoundToMs(accumulatedErrorNs);
        if intervalMs - executeTimeMs - TimingWheel.TIMER_RESOLUTION_MS >= accumulatedErrorMs {
          nextFireDurationMs := intervalMs - executeTimeMs - accumulatedErrorMs;
        } else {
          nextFireDurationMs := TimingWheel.TIMER_RESOLUTION_MS;
        }
      }
    }
  }
}
