/**
 The collector scheduler: on each tick, run every collector that is due, within
 budget and under its daily calls cap, and store on its own row what happened.
 One scheduler ticks at a time, and its clock never goes back.
 */
module Scheduler {
  import opened Wrappers
  import opened Sums

  const DAY_MS: int := 86_400_000

  datatype FreshnessStatus = Fresh | Stale | Unavailable | UnknownStatus

  // Freshness, as the domain defines it

  function FreshnessOf(
      lastSuccessfulAt: Option<int>, lastAttemptAt: Option<int>,
      staleAfterMs: int, failures: int, now: int): FreshnessStatus {
    if lastAttemptAt.None? then UnknownStatus
    else if lastSuccessfulAt.None? then Unavailable
    else if now - lastSuccessfulAt.value <= staleAfterMs then Fresh
    else if failures > 0 then Unavailable else Stale
  }

  function Pow2(n: nat): nat { if n == 0 then 1 else 2 * Pow2(n - 1) }

  function BackoffFactor(failures: int): nat {
    var factor := Pow2(if failures > 0 then failures else 0);
    if factor < 8 then factor else 8
  }

  function NextAttemptDelayMs(frequencyMs: nat, failures: int): nat { frequencyMs * BackoffFactor(failures) }

  // Collectors and their rows

  datatype CostModel = Free | PerRequest | StorageQuery | Fixed | UnknownModel

  datatype Collector = Collector(
    id: string, frequencyMs: nat, staleAfterMs: nat, maxAttemptsPerTick: int, maxCallsPerDay: Option<int>,
    environments: Option<seq<string>>, essential: bool, costModel: CostModel, monthlyMicros: Option<nat>)

  /** One row of `cost_source_freshness` in the scheduler's environment. */
  datatype Row = Row(
    lastSuccessfulAt: Option<int>, lastAttemptAt: Option<int>, staleAfterS: int, status: FreshnessStatus,
    lastErrorCode: Option<string>, failures: int, callsDay: Option<int>, callsCount: int)

  /** How one call of a collector's `run` goes; `stored` is whether the success could then be written. */
  datatype Attempt = Returns(stored: bool) | Throws(code: string) | TimesOut

  /**
   Everything outside the scheduler that decides one collector's tick: each attempt in turn, and whether the row
   can be written.
   */
  datatype World = World(attempt: nat -> Attempt, writes: bool)

  datatype Outcome = Ok | Failed | Timeout | SkippedNotDue | SkippedBudget | SkippedCallsCap | SkippedEnv

  datatype Ending = Succeeded | GaveUp(code: string) | TimedOut

  function Max(a: int, b: int): int { if a >= b then a else b }

  predicate EnabledIn(c: Collector, env: string) { c.environments.None? || env in c.environments.value }

  function DayOf(now: int): int { now / DAY_MS }

  /** `Math.round(ms / 1000)`. */
  function RoundSeconds(ms: nat): nat { (ms + 500) / 1000 }

  // One collector's run

  function CodeOf(a: Attempt): string {
    match a
    case Returns(_) => "ERROR"
    case Throws(code) => code
    case TimesOut => "TIMEOUT"
  }

  /** From attempt `k` on: how many calls are made in all, and how they end. */
  function Attempts(world: World, k: nat, limit: int, last: string): (nat, Ending)
    decreases limit - k
  {
    if k >= limit then (k, GaveUp(last))
    else match world.attempt(k)
      case Returns(true) => (k + 1, Succeeded)
      case TimesOut => (k + 1, TimedOut)
      case a => Attempts(world, k + 1, limit, CodeOf(a))
  }

  function CallsAfter(row: Option<Row>, day: int, callsCount: int): int {
    match row
    case None => callsCount
    case Some(r) => if r.callsDay == Some(day) then Max(r.callsCount, callsCount) else callsCount
  }

  function SuccessRow(row: Option<Row>, c: Collector, now: int, day: int, callsCount: int): Row {
    Row(Some(now), Some(now), RoundSeconds(c.staleAfterMs),
        FreshnessOf(Some(now), Some(now), c.staleAfterMs, 0, now),
        None, 0, Some(day), CallsAfter(row, day, callsCount))
  }

  function FailureRow(
      row: Option<Row>, c: Collector, now: int, day: int, callsCount: int, failures: int, code: string): Row {
    var staleAfterS := RoundSeconds(c.staleAfterMs);
    match row
    case None => Row(None, Some(now), staleAfterS, Unavailable, Some(code), failures, Some(day), callsCount)
    case Some(r) =>
      var status := if r.lastSuccessfulAt.None? then Unavailable
                    else if r.lastSuccessfulAt.value >= now - staleAfterS * 1000 then Fresh else Unavailable;
      Row(r.lastSuccessfulAt, Some(now), staleAfterS, status, Some(code), failures, Some(day),
          CallsAfter(row, day, callsCount))
  }

  function PausedRow(r: Row): Row {
    r.(status := if r.status.UnknownStatus? then UnknownStatus else Stale)
  }

  /**
   What a tick does to one collector: its row afterwards, its outcome, the calls it made, and whether a write
   threw.
   */
  datatype Stepped = Stepped(row: Option<Row>, outcome: Outcome, calls: nat, threw: bool)

  predicate Ran(o: Outcome) { o.Ok? || o.Failed? || o.Timeout? }

  function DueAt(row: Option<Row>, c: Collector, now: int): int {
    if row.None? || row.value.lastAttemptAt.None? then now
    else row.value.lastAttemptAt.value + NextAttemptDelayMs(c.frequencyMs, row.value.failures)
  }

  function CallsToday(row: Option<Row>, day: int): int {
    if row.Some? && row.value.callsDay == Some(day) then row.value.callsCount else 0
  }

  function FailuresOf(row: Option<Row>): int { if row.Some? then row.value.failures else 0 }

  function RunStep(row: Option<Row>, c: Collector, now: int, world: World): Stepped {
    var day := DayOf(now);
    var (calls, ending) := Attempts(world, 0, Max(1, c.maxAttemptsPerTick), "ERROR");
    match ending
    case Succeeded => Stepped(Some(SuccessRow(row, c, now, day, CallsToday(row, day) + calls)), Ok, calls, false)
    case GaveUp(code) => Failing(row, c, now, world, calls, code, Failed)
    case TimedOut => Failing(row, c, now, world, calls, "TIMEOUT", Timeout)
  }

  function Failing(
      row: Option<Row>, c: Collector, now: int, world: World, calls: nat, code: string, outcome: Outcome): Stepped {
    var day := DayOf(now);
    if !world.writes then Stepped(row, outcome, calls, true)
    else
      var after := FailureRow(row, c, now, day, CallsToday(row, day) + calls, FailuresOf(row) + 1, code);
      Stepped(Some(after), outcome, calls, false)
  }

  function Step(row: Option<Row>, c: Collector, env: string, now: int, overBudget: bool, world: World): Stepped {
    if !EnabledIn(c, env) then Stepped(row, SkippedEnv, 0, false)
    else if DueAt(row, c, now) > now then Stepped(row, SkippedNotDue, 0, false)
    else if overBudget && !c.essential then
      if row.None? then Stepped(row, SkippedBudget, 0, false)
      else if !world.writes then Stepped(row, SkippedBudget, 0, true)
      else Stepped(Some(PausedRow(row.value)), SkippedBudget, 0, false)
    else if c.maxCallsPerDay.Some? && CallsToday(row, DayOf(now)) >= c.maxCallsPerDay.value
    then Stepped(row, SkippedCallsCap, 0, false)
    else RunStep(row, c, now, world)
  }

  /** Within one day the stored count never falls, whatever a run believes it was; a new day starts from the run's. */
  lemma CallsNeverFall(row: Option<Row>, c: Collector, now: int, day: int, count: int, failures: int, code: string)
    ensures var ok, bad := SuccessRow(row, c, now, day, count), FailureRow(row, c, now, day, count, failures, code);
      && ok.callsDay == bad.callsDay == Some(day) && ok.callsCount == bad.callsCount >= count
      && (row.Some? && row.value.callsDay == Some(day) ==>
            ok.callsCount >= row.value.callsCount && (ok.callsCount == count || ok.callsCount == row.value.callsCount))
      && (row.None? || row.value.callsDay != Some(day) ==> ok.callsCount == count)
  {
  }

  // The status that is stored

  /** After a run, the stored status is what the stored facts mean at that moment. */
  lemma StoredStatusIsFreshness(row: Option<Row>, c: Collector, env: string, now: int, overBudget: bool, world: World)
    requires var s := Step(row, c, env, now, overBudget, world); Ran(s.outcome) && !s.threw
    requires FailuresOf(row) >= 0
    ensures var r := Step(row, c, env, now, overBudget, world).row;
      r.Some? && r.value.lastAttemptAt == Some(now)
      && r.value.status == FreshnessOf(r.value.lastSuccessfulAt, r.value.lastAttemptAt,
                                       r.value.staleAfterS * 1000, r.value.failures, now)
  {
    hide Attempts, EnabledIn, DueAt;
  }

  /**
   The row keeps its trust window in whole seconds. The status a failure stores is the one the collector's
   own window gives, for every last success, exactly when that window is a whole number of seconds.
   */
  lemma StoredWindowExactly(c: Collector, day: int, callsCount: int, failures: nat, code: string, r: Row)
    requires failures > 0
    ensures (forall lastSuccess: int, now: int :: WindowsAgree(c, r, lastSuccess, now, day, callsCount, failures, code))
      <==> c.staleAfterMs % 1000 == 0
  {
    if c.staleAfterMs % 1000 == 0 {
      assert RoundSeconds(c.staleAfterMs) * 1000 == c.staleAfterMs;
    } else {
      var kept := RoundSeconds(c.staleAfterMs) * 1000;
      assert kept != c.staleAfterMs;
      // A success exactly as old as the longer of the two windows.
      assert !WindowsAgree(c, r, 0, Max(kept, c.staleAfterMs), day, callsCount, failures, code);
    }
  }

  predicate WindowsAgree(
      c: Collector, r: Row, lastSuccess: int, now: int, day: int, callsCount: int, failures: int, code: string) {
    FailureRow(Some(r.(lastSuccessfulAt := Some(lastSuccess))), c, now, day, callsCount, failures, code).status
      == FreshnessOf(Some(lastSuccess), Some(now), c.staleAfterMs, failures, now)
  }

  // One collector over time

  /** A tick in which the collector was actually called, how often, and whether its row could be written. */
  datatype Run = Run(collector: string, at: int, calls: nat, outcome: Outcome, written: bool)

  function RunOf(c: Collector, now: int, step: Stepped): seq<Run> {
    if Ran(step.outcome) then [Run(c.id, now, step.calls, step.outcome, !step.threw)] else []
  }

  datatype Source = Source(row: Option<Row>, runs: seq<Run>)

  function StepSource(s: Source, c: Collector, env: string, now: int, overBudget: bool, world: World): Source {
    var step := Step(s.row, c, env, now, overBudget, world);
    Source(step.row, s.runs + RunOf(c, now, step))
  }

  /** How many runs in a row, ending with the last, were not ok. */
  function FailStreak(runs: seq<Run>): nat {
    if runs == [] || runs[|runs| - 1].outcome.Ok? then 0 else 1 + FailStreak(runs[..|runs| - 1])
  }

  function CallsOn(runs: seq<Run>, day: int): nat {
    if runs == [] then 0
    else CallsOn(runs[..|runs| - 1], day) + if DayOf(runs[|runs| - 1].at) == day then runs[|runs| - 1].calls else 0
  }

  /** Once, twice, four times or eight times the frequency: after no failure, one, two, and any more. */
  predicate LongEnough(earlier: int, now: int, c: Collector, streak: nat) {
    var times := if streak == 0 then 1 else if streak == 1 then 2 else if streak == 2 then 4 else 8;
    now - earlier >= c.frequencyMs * times
  }

  /** Each run comes long enough after the one before it, by the failures in a row that ended with that one. */
  ghost predicate Spaced(runs: seq<Run>, c: Collector) {
    forall k :: 0 < k < |runs| ==> LongEnough(runs[k - 1].at, runs[k].at, c, FailStreak(runs[..k]))
  }

  lemma {:induction false} PowerGrows(n: nat)
    ensures Pow2(n) > 0 && (n >= 3 ==> Pow2(n) >= 8)
  {
    if n > 0 {
      PowerGrows(n - 1);
    }
    assert Pow2(3) == 8;
  }

  lemma DelayIsLongEnough(earlier: int, now: int, c: Collector, streak: nat)
    ensures earlier + NextAttemptDelayMs(c.frequencyMs, streak) <= now <==> LongEnough(earlier, now, c, streak)
  {
    PowerGrows(streak);
    assert Pow2(0) == 1 && Pow2(1) == 2 && Pow2(2) == 4;
  }

  /** When the last run that was ok was made. */
  function LastOk(runs: seq<Run>): Option<int> {
    if runs == [] then None
    else
      var last := runs[|runs| - 1];
      if last.outcome.Ok? then Some(last.at) else LastOk(runs[..|runs| - 1])
  }

  /** The cap is checked before a run, which may then make all its attempts. */
  function DailyCap(c: Collector): int
    requires c.maxCallsPerDay.Some?
  {
    if c.maxCallsPerDay.value <= 0 then 0 else c.maxCallsPerDay.value - 1 + Max(1, c.maxAttemptsPerTick)
  }

  ghost predicate Capped(runs: seq<Run>, c: Collector) {
    c.maxCallsPerDay.Some? ==> forall day :: CallsOn(runs, day) <= DailyCap(c)
  }

  /** Half-up: the stored seconds are the trust window to the nearest second. */
  predicate Nearest(seconds: int, ms: nat) { ms - 500 < 1000 * seconds <= ms + 500 }

  /** The row says of its runs when they last succeeded and were last made, how many failed, and today's calls. */
  ghost predicate Remembers(s: Source, c: Collector, now: int) {
    if s.runs == [] then s.row.None?
    else
      var last := s.runs[|s.runs| - 1];
      && s.row.Some? && last.at <= now
      && s.row.value.lastAttemptAt == Some(last.at) && s.row.value.failures == FailStreak(s.runs)
      && s.row.value.callsDay == Some(DayOf(last.at)) && s.row.value.callsCount == CallsOn(s.runs, DayOf(last.at))
      && s.row.value.lastSuccessfulAt == LastOk(s.runs) && (s.row.value.lastErrorCode.None? <==> last.outcome.Ok?)
      && Nearest(s.row.value.staleAfterS, c.staleAfterMs)
      && forall day :: day > DayOf(last.at) ==> CallsOn(s.runs, day) == 0
  }

  ghost predicate SourceOk(s: Source, c: Collector, now: int) {
    Remembers(s, c, now) && Spaced(s.runs, c) && Capped(s.runs, c)
  }

  lemma {:induction false} AttemptsBounded(world: World, k: nat, limit: int, last: string)
    requires k < limit
    ensures k < Attempts(world, k, limit, last).0 <= limit
    decreases limit - k
  {
    if world.attempt(k) != Returns(true) && world.attempt(k) != TimesOut && k + 1 < limit {
      AttemptsBounded(world, k + 1, limit, CodeOf(world.attempt(k)));
    }
  }

  lemma RunsSnoc(runs: seq<Run>, r: Run, day: int)
    ensures CallsOn(runs + [r], day) == CallsOn(runs, day) + if DayOf(r.at) == day then r.calls else 0
    ensures FailStreak(runs + [r]) == if r.outcome.Ok? then 0 else 1 + FailStreak(runs)
    ensures LastOk(runs + [r]) == if r.outcome.Ok? then Some(r.at) else LastOk(runs)
  {
    assert (runs + [r])[..|runs|] == runs;
  }

  lemma LaterDay(a: int, b: int)
    requires a <= b
    ensures DayOf(a) <= DayOf(b)
  {
  }

  /** What the row says of today is what the runs say. */
  lemma CallsTodayExact(s: Source, c: Collector, now: int, earlier: int)
    requires Remembers(s, c, earlier) && earlier <= now
    ensures CallsToday(s.row, DayOf(now)) == CallsOn(s.runs, DayOf(now))
    ensures FailuresOf(s.row) == FailStreak(s.runs)
    ensures (if s.row.None? then None else s.row.value.lastSuccessfulAt) == LastOk(s.runs)
  {
    hide DayOf;
    if s.runs != [] {
      LaterDay(s.runs[|s.runs| - 1].at, now);
    }
  }

  lemma SpacedSnoc(s: Source, c: Collector, now: int, r: Run)
    requires Spaced(s.runs, c) && r.at == now
    requires s.runs != [] ==> LongEnough(s.runs[|s.runs| - 1].at, now, c, FailStreak(s.runs))
    ensures Spaced(s.runs + [r], c)
  {
    hide LongEnough, FailStreak;
    var runs := s.runs + [r];
    forall k | 0 < k < |runs| ensures LongEnough(runs[k - 1].at, runs[k].at, c, FailStreak(runs[..k])) {
      assert runs[..k] == s.runs[..k];
      if k == |s.runs| {
        assert s.runs[..k] == s.runs;
      }
    }
  }

  lemma CappedSnoc(s: Source, c: Collector, r: Run)
    requires Capped(s.runs, c) && r.calls <= Max(1, c.maxAttemptsPerTick)
    requires c.maxCallsPerDay.Some? ==> CallsOn(s.runs, DayOf(r.at)) < c.maxCallsPerDay.value
    ensures Capped(s.runs + [r], c)
  {
    hide DayOf, CallsOn;
    if c.maxCallsPerDay.Some? {
      forall day ensures CallsOn(s.runs + [r], day) <= DailyCap(c) {
        RunsSnoc(s.runs, r, day);
        assert CallsOn(s.runs, day) <= DailyCap(c);
      }
    }
  }

  lemma RunRemembered(s: Source, c: Collector, row: Row, r: Run, now: int, earlier: int)
    requires Remembers(s, c, earlier) && earlier <= now && r.at == now
    requires row.lastAttemptAt == Some(now) && row.callsDay == Some(DayOf(now))
    requires row.failures == (if r.outcome.Ok? then 0 else FailStreak(s.runs) + 1)
    requires row.callsCount == CallsOn(s.runs, DayOf(now)) + r.calls
    requires row.lastSuccessfulAt == (if r.outcome.Ok? then Some(now) else LastOk(s.runs))
    requires (row.lastErrorCode.None? <==> r.outcome.Ok?) && Nearest(row.staleAfterS, c.staleAfterMs)
    ensures Remembers(Source(Some(row), s.runs + [r]), c, now)
  {
    hide DayOf, CallsOn, FailStreak, Nearest;
    var runs := s.runs + [r];
    RunsSnoc(s.runs, r, DayOf(now));
    forall day | day > DayOf(now) ensures CallsOn(runs, day) == 0 {
      RunsSnoc(s.runs, r, day);
      if s.runs != [] {
        LaterDay(s.runs[|s.runs| - 1].at, now);
      } else {
        NoCalls(day);
      }
    }
  }

  lemma NoCalls(day: int)
    ensures CallsOn([], day) == 0
  {
  }

  /** An attempt after which the collector is called again, if any are left. */
  predicate Retried(a: Attempt) { a == Returns(false) || a.Throws? }

  function ErrorOf(a: Attempt): string { if a.Throws? then a.code else if a.TimesOut? then "TIMEOUT" else "ERROR" }

  lemma {:induction false} AttemptsExact(world: World, k: nat, limit: int, last: string)
    requires k < limit
    ensures var (n, ending) := Attempts(world, k, limit, last);
      && k < n <= limit && (forall i :: k <= i < n - 1 ==> Retried(world.attempt(i)))
      && (match ending
          case Succeeded => world.attempt(n - 1) == Returns(true)
          case TimedOut => world.attempt(n - 1) == TimesOut
          case GaveUp(code) => n == limit && Retried(world.attempt(n - 1)) && code == ErrorOf(world.attempt(n - 1)))
    decreases limit - k
  {
    if Retried(world.attempt(k)) && k + 1 < limit {
      AttemptsExact(world, k + 1, limit, CodeOf(world.attempt(k)));
    }
  }

  /**
   How a run goes: it calls until one attempt is stored or times out, or until the attempts are spent, and the
   last attempt decides its outcome and, if that is not ok, the error code of a row that could be written.
   */
  lemma RunEndsExactly(row: Option<Row>, c: Collector, now: int, world: World)
    ensures var s, limit := RunStep(row, c, now, world), Max(1, c.maxAttemptsPerTick);
      && 1 <= s.calls <= limit && (forall i :: 0 <= i < s.calls - 1 ==> Retried(world.attempt(i)))
      && var final := world.attempt(s.calls - 1);
      && (s.outcome.Ok? <==> final == Returns(true)) && (s.outcome.Timeout? <==> final == TimesOut)
      && (s.outcome.Failed? <==> Retried(final)) && (s.outcome.Failed? ==> s.calls == limit)
      && (s.threw <==> !s.outcome.Ok? && !world.writes)
      && (!s.outcome.Ok? && world.writes ==> s.row.Some? && s.row.value.lastErrorCode == Some(ErrorOf(final)))
  {
    hide Attempts, SuccessRow, RoundSeconds, DayOf;
    AttemptsExact(world, 0, Max(1, c.maxAttemptsPerTick), "ERROR");
  }

  /** What a run leaves: the row says what it did, or, if it gave up and could not be written, nothing. */
  lemma RunStepRow(row: Option<Row>, c: Collector, now: int, world: World)
    ensures var s := RunStep(row, c, now, world);
      && Ran(s.outcome) && s.calls <= Max(1, c.maxAttemptsPerTick)
      && (s.threw ==> !s.outcome.Ok? && s.row == row)
      && (!s.threw ==>
            && s.row.Some?
            && s.row.value.lastAttemptAt == Some(now) && s.row.value.callsDay == Some(DayOf(now))
            && s.row.value.failures == (if s.outcome.Ok? then 0 else FailuresOf(row) + 1)
            && s.row.value.callsCount == CallsToday(row, DayOf(now)) + s.calls
            && s.row.value.lastSuccessfulAt ==
                 (if s.outcome.Ok? then Some(now) else if row.None? then None else row.value.lastSuccessfulAt)
            && (s.row.value.lastErrorCode.None? <==> s.outcome.Ok?)
            && Nearest(s.row.value.staleAfterS, c.staleAfterMs))
  {
    hide Attempts, DayOf, FreshnessOf;
    AttemptsBounded(world, 0, Max(1, c.maxAttemptsPerTick), "ERROR");
  }

  /** One step keeps the guardrails exactly when it is not a run that gave up with its failure unwritten. */
  lemma StepKeepsExactly(
      s: Source, c: Collector, env: string, now: int, overBudget: bool, world: World, earlier: int)
    requires SourceOk(s, c, earlier) && earlier <= now
    ensures var step := Step(s.row, c, env, now, overBudget, world);
      SourceOk(StepSource(s, c, env, now, overBudget, world), c, now) <==> !(Ran(step.outcome) && step.threw)
  {
    hide RunStep, DayOf, CallsOn, FailStreak, LastOk, Spaced, Capped, EnabledIn, NextAttemptDelayMs, LongEnough,
        Nearest;
    CallsTodayExact(s, c, now, earlier);
    if s.runs != [] {
      DelayIsLongEnough(s.runs[|s.runs| - 1].at, now, c, FailStreak(s.runs));
    }
    RunStepRow(s.row, c, now, world);
    var step := Step(s.row, c, env, now, overBudget, world);
    if Ran(step.outcome) {
      var r := Run(c.id, now, step.calls, step.outcome, !step.threw);
      if step.threw {
        ForgottenRun(s, c, r, now, earlier);
      } else {
        SpacedSnoc(s, c, now, r);
        CappedSnoc(s, c, r);
        RunRemembered(s, c, step.row.value, r, now, earlier);
      }
    } else {
      assert s.runs + [] == s.runs;
    }
  }

  /** A failed run that the row does not show leaves a streak longer than the failures it counts. */
  lemma ForgottenRun(s: Source, c: Collector, r: Run, now: int, earlier: int)
    requires Remembers(s, c, earlier) && !r.outcome.Ok?
    ensures !Remembers(Source(s.row, s.runs + [r]), c, now)
  {
    hide CallsOn, DayOf;
    RunsSnoc(s.runs, r, 0);
  }

  /** Enabled here, long enough after its last run, free while over budget, and below its cap. */
  predicate MayRun(runs: seq<Run>, c: Collector, env: string, now: int, overBudget: bool) {
    && (c.environments.Some? ==> env in c.environments.value)
    && (runs != [] ==> LongEnough(runs[|runs| - 1].at, now, c, FailStreak(runs)))
    && (overBudget ==> c.essential)
    && (c.maxCallsPerDay.Some? ==> CallsOn(runs, now / 86_400_000) < c.maxCallsPerDay.value)
  }

  /** A step runs its collector exactly when its history lets it. */
  lemma StepRunsExactly(
      s: Source, c: Collector, env: string, now: int, overBudget: bool, world: World, earlier: int)
    requires SourceOk(s, c, earlier) && earlier <= now
    ensures Ran(Step(s.row, c, env, now, overBudget, world).outcome) <==> MayRun(s.runs, c, env, now, overBudget)
  {
    hide RunStep, CallsOn, FailStreak, LastOk, Spaced, Capped, NextAttemptDelayMs, LongEnough, Nearest;
    CallsTodayExact(s, c, now, earlier);
    RunStepRow(s.row, c, now, world);
    if s.runs != [] {
      DelayIsLongEnough(s.runs[|s.runs| - 1].at, now, c, FailStreak(s.runs));
    }
  }

  /** Which skip is named, the first that applies: and a skip makes no call, and changes no row but a paused one. */
  lemma SkipsExactly(
      s: Source, c: Collector, env: string, now: int, overBudget: bool, world: World, earlier: int)
    requires SourceOk(s, c, earlier) && earlier <= now
    ensures var step := Step(s.row, c, env, now, overBudget, world);
      var enabled := c.environments.Some? ==> env in c.environments.value;
      var due := s.runs != [] ==> LongEnough(s.runs[|s.runs| - 1].at, now, c, FailStreak(s.runs));
      && (step.outcome.SkippedEnv? <==> !enabled)
      && (step.outcome.SkippedNotDue? <==> enabled && !due)
      && (step.outcome.SkippedBudget? <==> enabled && due && overBudget && !c.essential)
      && (step.outcome.SkippedCallsCap? <==>
            && enabled && due && (overBudget ==> c.essential)
            && c.maxCallsPerDay.Some? && CallsOn(s.runs, now / 86_400_000) >= c.maxCallsPerDay.value)
      && (!Ran(step.outcome) ==> step.calls == 0 && (step.outcome.SkippedBudget? || (step.row == s.row && !step.threw)))
  {
    hide RunStep, CallsOn, FailStreak, LastOk, Spaced, Capped, NextAttemptDelayMs, LongEnough, Nearest;
    CallsTodayExact(s, c, now, earlier);
    RunStepRow(s.row, c, now, world);
    if s.runs != [] {
      DelayIsLongEnough(s.runs[|s.runs| - 1].at, now, c, FailStreak(s.runs));
    }
  }

  /**
   Over budget, a collector that is not essential and could otherwise be considered is paused: its row is
   labelled stale, unless nothing is known of it, and keeps every fact.
   */
  lemma PauseKeepsFacts(row: Option<Row>, c: Collector, env: string, now: int, world: World)
    ensures var s := Step(row, c, env, now, true, world);
      s.outcome.SkippedBudget? ==>
        && !c.essential && s.calls == 0 && (s.row.Some? <==> row.Some?) && (s.threw <==> row.Some? && !world.writes)
        && (s.threw ==> s.row == row)
        && (row.Some? && !s.threw ==>
              && s.row.value == row.value.(status := s.row.value.status)
              && (row.value.status.UnknownStatus? <==> s.row.value.status.UnknownStatus?)
              && (!row.value.status.UnknownStatus? ==> s.row.value.status.Stale?))
  {
    hide RunStep, DueAt, EnabledIn;
    assert !RunStep(row, c, now, world).outcome.SkippedBudget? by {
      RunStepRow(row, c, now, world);
    }
  }

  // Every collector, tick by tick

  type Rows = map<string, Row>

  type Worlds = string -> World

  datatype State = State(rows: Rows, runs: seq<Run>)

  datatype Ticked = Ticked(rows: Rows, runs: seq<Run>, results: seq<(string, Outcome)>, threw: bool)

  function RowOf(rows: Rows, id: string): Option<Row> { if id in rows then Some(rows[id]) else None }

  function Put(rows: Rows, id: string, row: Option<Row>): Rows { if row.Some? then rows[id := row.value] else rows }

  /** The first `n` collectors of one tick, which read the rows once; a write that throws ends the tick. */
  function TickFirst(
      s: State, cs: seq<Collector>, env: string, overBudget: bool, now: int, worlds: Worlds, n: nat): Ticked
    requires n <= |cs|
  {
    if n == 0 then Ticked(s.rows, s.runs, [], false)
    else
      var before := TickFirst(s, cs, env, overBudget, now, worlds, n - 1);
      if before.threw then before
      else
        var c := cs[n - 1];
        Advance(before, c, Step(RowOf(s.rows, c.id), c, env, now, overBudget, worlds(c.id)), now)
  }

  function Advance(t: Ticked, c: Collector, step: Stepped, now: int): Ticked {
    var runs := t.runs + RunOf(c, now, step);
    if step.threw then t.(runs := runs, threw := true)
    else Ticked(Put(t.rows, c.id, step.row), runs, t.results + [(c.id, step.outcome)], false)
  }

  ghost predicate Distinct(cs: seq<Collector>) {
    forall i, j :: 0 <= i < j < |cs| ==> cs[i].id != cs[j].id
  }

  function ById(id: string): Run -> bool { (r: Run) => r.collector == id }

  function SourceIn(rows: Rows, runs: seq<Run>, id: string): Source { Source(RowOf(rows, id), Filter(runs, ById(id))) }

  lemma AdvanceOthers(t: Ticked, c: Collector, step: Stepped, now: int, id: string)
    requires c.id != id
    ensures var u := Advance(t, c, step, now); SourceIn(u.rows, u.runs, id) == SourceIn(t.rows, t.runs, id)
  {
    var r := Run(c.id, now, step.calls, step.outcome, !step.threw);
    FilterAppend(t.runs, [r], ById(id));
    assert [r][1..] == [];
    assert t.runs + [] == t.runs;
  }

  lemma AdvanceOwn(t: Ticked, c: Collector, step: Stepped, now: int)
    requires step.row.None? ==> c.id !in t.rows
    requires step.threw ==> step.row == RowOf(t.rows, c.id)
    ensures var u := Advance(t, c, step, now);
      SourceIn(u.rows, u.runs, c.id) ==
        Source(step.row, Filter(t.runs, ById(c.id)) + RunOf(c, now, step))
  {
    var r := Run(c.id, now, step.calls, step.outcome, !step.threw);
    FilterAppend(t.runs, [r], ById(c.id));
    assert [r][1..] == [] && Filter([r], ById(c.id)) == [r] + Filter([], ById(c.id));
    assert t.runs + [] == t.runs;
    assert Filter(t.runs, ById(c.id)) + [] == Filter(t.runs, ById(c.id));
  }

  lemma StepKeepsRow(row: Option<Row>, c: Collector, env: string, now: int, overBudget: bool, world: World)
    ensures var s := Step(row, c, env, now, overBudget, world);
      && (s.row.None? ==> row.None?) && (s.threw ==> s.row == row) && (world.writes ==> !s.threw)
  {
    hide Attempts, SuccessRow, FailureRow, EnabledIn, DueAt;
  }

  /**
   Failure isolation: a tick leaves each collector as its own step would, unless an earlier collector's write
   threw first.
   */
  lemma {:induction false} TickIsolates(
      s: State, cs: seq<Collector>, env: string, overBudget: bool, now: int, worlds: Worlds, k: nat, n: nat)
    requires Distinct(cs) && k < |cs| && n <= |cs|
    ensures var t := TickFirst(s, cs, env, overBudget, now, worlds, n);
      var before, c := SourceIn(s.rows, s.runs, cs[k].id), cs[k];
      && (n <= k ==> SourceIn(t.rows, t.runs, c.id) == before)
      && (SourceIn(t.rows, t.runs, c.id) == before
          || SourceIn(t.rows, t.runs, c.id) == StepSource(before, c, env, now, overBudget, worlds(c.id)))
      && (k < n && !t.threw ==>
            SourceIn(t.rows, t.runs, c.id) == StepSource(before, c, env, now, overBudget, worlds(c.id)))
  {
    if n > 0 {
      hide Step, Advance, SourceIn;
      TickIsolates(s, cs, env, overBudget, now, worlds, k, n - 1);
      var before, last := TickFirst(s, cs, env, overBudget, now, worlds, n - 1), cs[n - 1];
      if !before.threw {
        var step := Step(RowOf(s.rows, last.id), last, env, now, overBudget, worlds(last.id));
        if n - 1 == k {
          OwnStep(s, before, last, env, overBudget, now, worlds);
        } else {
          AdvanceOthers(before, last, step, now, cs[k].id);
        }
        AdvanceThrows(before, last, step, now);
      }
    }
  }

  /** Up to a write that throws, the tick reports every collector in order, by the outcome of its own step. */
  lemma {:induction false} ResultsExact(
      s: State, cs: seq<Collector>, env: string, overBudget: bool, now: int, worlds: Worlds, n: nat)
    requires n <= |cs|
    ensures var t := TickFirst(s, cs, env, overBudget, now, worlds, n);
      && |t.results| <= n && (!t.threw ==> |t.results| == n)
      && forall k :: 0 <= k < |t.results| ==>
           t.results[k] ==
             (cs[k].id, Step(RowOf(s.rows, cs[k].id), cs[k], env, now, overBudget, worlds(cs[k].id)).outcome)
  {
    if n > 0 {
      hide Step, RunOf, Put;
      ResultsExact(s, cs, env, overBudget, now, worlds, n - 1);
    }
  }

  lemma AdvanceThrows(t: Ticked, c: Collector, step: Stepped, now: int)
    requires !t.threw
    ensures Advance(t, c, step, now).threw == step.threw
  {
  }

  lemma OwnStep(s: State, t: Ticked, c: Collector, env: string, overBudget: bool, now: int, worlds: Worlds)
    requires SourceIn(t.rows, t.runs, c.id) == SourceIn(s.rows, s.runs, c.id)
    ensures var u := Advance(t, c, Step(RowOf(s.rows, c.id), c, env, now, overBudget, worlds(c.id)), now);
      SourceIn(u.rows, u.runs, c.id) ==
        StepSource(SourceIn(s.rows, s.runs, c.id), c, env, now, overBudget, worlds(c.id))
  {
    hide Step, Advance;
    StepKeepsRow(RowOf(s.rows, c.id), c, env, now, overBudget, worlds(c.id));
    assert c.id in t.rows <==> c.id in s.rows;
    AdvanceOwn(t, c, Step(RowOf(s.rows, c.id), c, env, now, overBudget, worlds(c.id)), now);
  }

  datatype TickInput = TickInput(now: int, overBudget: bool, worlds: Worlds)

  function Tick(s: State, cs: seq<Collector>, env: string, i: TickInput): State {
    var t := TickFirst(s, cs, env, i.overBudget, i.now, i.worlds, |cs|);
    State(t.rows, t.runs)
  }

  function Ticks(cs: seq<Collector>, env: string, inputs: seq<TickInput>): State {
    if inputs == [] then State(map[], [])
    else Tick(Ticks(cs, env, inputs[..|inputs| - 1]), cs, env, inputs[|inputs| - 1])
  }

  ghost predicate Monotone(inputs: seq<TickInput>) {
    forall i, j :: 0 <= i < j < |inputs| ==> inputs[i].now <= inputs[j].now
  }

  /** Every run of this collector got its row written. */
  ghost predicate AllWritten(runs: seq<Run>, id: string) {
    forall r :: r in runs && r.collector == id ==> r.written
  }

  /** Runs are only ever added. */
  lemma {:induction false} TickAdds(
      s: State, cs: seq<Collector>, env: string, overBudget: bool, now: int, worlds: Worlds, n: nat)
    requires n <= |cs|
    ensures s.runs <= TickFirst(s, cs, env, overBudget, now, worlds, n).runs
  {
    if n > 0 {
      hide Step, RunOf;
      TickAdds(s, cs, env, overBudget, now, worlds, n - 1);
    }
  }

  /**
   Over every sequence of ticks, whatever the other collectors and their writes do: as long as no run of it
   gave up unwritten, a collector is called at backoff distance, and never past its daily cap by more than
   one run's retries.
   */
  lemma {:induction false} GuardrailsHold(cs: seq<Collector>, env: string, inputs: seq<TickInput>, k: nat, now: int)
    requires Distinct(cs) && k < |cs| && Monotone(inputs) && AllWritten(Ticks(cs, env, inputs).runs, cs[k].id)
    requires inputs != [] ==> inputs[|inputs| - 1].now <= now
    ensures var s := Ticks(cs, env, inputs); SourceOk(SourceIn(s.rows, s.runs, cs[k].id), cs[k], now)
  {
    if inputs == [] {
      NothingRun(cs[k], now);
    } else {
      hide TickFirst, StepSource, SourceIn, SourceOk, Step;
      var n := |inputs| - 1;
      var before, last, c := Ticks(cs, env, inputs[..n]), inputs[n], cs[k];
      TickAdds(before, cs, env, last.overBudget, last.now, last.worlds, |cs|);
      GuardrailsHold(cs, env, inputs[..n], k, last.now);
      var src := SourceIn(before.rows, before.runs, c.id);
      TickIsolates(before, cs, env, last.overBudget, last.now, last.worlds, k, |cs|);
      var end := Ticks(cs, env, inputs);
      var after := SourceIn(end.rows, end.runs, c.id);
      if after != src {
        StepKeepsExactly(src, c, env, last.now, last.overBudget, last.worlds(c.id), last.now);
        WrittenStep(src, end, c, env, last.overBudget, last.now, last.worlds(c.id));
      }
      SourceLater(after, c, last.now, now);
    }
  }

  /**
   After any such sequence, the next tick that no write aborts runs the collector once if its history lets it,
   else not at all.
   */
  lemma RunsWhenDue(cs: seq<Collector>, env: string, inputs: seq<TickInput>, k: nat, next: TickInput)
    requires Distinct(cs) && k < |cs| && Monotone(inputs) && (inputs != [] ==> inputs[|inputs| - 1].now <= next.now)
    requires AllWritten(Ticks(cs, env, inputs).runs, cs[k].id)
    requires !TickFirst(Ticks(cs, env, inputs), cs, env, next.overBudget, next.now, next.worlds, |cs|).threw
    ensures var c, before, after := cs[k], Ticks(cs, env, inputs), Tick(Ticks(cs, env, inputs), cs, env, next);
      var mine, now := Filter(before.runs, ById(c.id)), Filter(after.runs, ById(c.id));
      && mine <= now
      && (MayRun(mine, c, env, next.now, next.overBudget) ==> |now| == |mine| + 1 && now[|mine|].at == next.now)
      && (!MayRun(mine, c, env, next.now, next.overBudget) ==> now == mine)
  {
    hide TickFirst, Step, SourceOk, MayRun, Ticks;
    var c, before := cs[k], Ticks(cs, env, inputs);
    var src := SourceIn(before.rows, before.runs, c.id);
    GuardrailsHold(cs, env, inputs, k, next.now);
    StepRunsExactly(src, c, env, next.now, next.overBudget, next.worlds(c.id), next.now);
    TickIsolates(before, cs, env, next.overBudget, next.now, next.worlds, k, |cs|);
  }

  lemma WrittenStep(src: Source, end: State, c: Collector, env: string, overBudget: bool, now: int, world: World)
    requires SourceIn(end.rows, end.runs, c.id) == StepSource(src, c, env, now, overBudget, world)
    requires AllWritten(end.runs, c.id)
    ensures var step := Step(src.row, c, env, now, overBudget, world); !(Ran(step.outcome) && step.threw)
  {
    hide Step;
    var step := Step(src.row, c, env, now, overBudget, world);
    if Ran(step.outcome) {
      var own := Filter(end.runs, ById(c.id));
      assert own == src.runs + RunOf(c, now, step);
      var r := own[|own| - 1];
      FilterMember(end.runs, ById(c.id));
    }
  }

  lemma NothingRun(c: Collector, now: int)
    ensures SourceOk(SourceIn(map[], [], c.id), c, now)
  {
  }

  lemma SourceLater(s: Source, c: Collector, earlier: int, now: int)
    requires SourceOk(s, c, earlier) && earlier <= now
    ensures SourceOk(s, c, now)
  {
  }

  /**
   The guardrails live in the row: a failure that cannot be written is not counted, and the next tick calls
   again at once.
   */
  lemma UnwrittenFailureRepeats(c: Collector, env: string, now: int, code: string)
    requires EnabledIn(c, env) && c.maxCallsPerDay.None?
    ensures var world := World(_ => Throws(code), false);
      var once := StepSource(Source(None, []), c, env, now, false, world);
      once.row.None? && |once.runs| == 1 && |StepSource(once, c, env, now, false, world).runs| == 2
  {
    hide Attempts;
    NeverReturns(World(_ => Throws(code), false), 0, Max(1, c.maxAttemptsPerTick), "ERROR", code);
  }

  lemma {:induction false} NeverReturns(world: World, k: nat, limit: int, last: string, code: string)
    requires forall i :: world.attempt(i) == Throws(code)
    ensures Attempts(world, k, limit, last).1.GaveUp?
    decreases limit - k
  {
    if k < limit {
      NeverReturns(world, k + 1, limit, CodeOf(world.attempt(k)), code);
    }
  }

  // The monitoring budget

  predicate CostKnown(c: Collector) { c.costModel.Free? || (!c.costModel.UnknownModel? && c.monthlyMicros.Some?) }

  /** Unknown is left out of the sum, never counted as zero elsewhere. */
  function KnownCost(env: string): Collector -> int {
    (c: Collector) => if EnabledIn(c, env) && CostKnown(c) && !c.costModel.Free? then c.monthlyMicros.value else 0
  }

  /** Only an enabled collector with a price counts, at its price; a free one, or one of unknown cost, adds nothing. */
  lemma KnownCostExact(c: Collector, env: string)
    ensures KnownCost(env)(c) >= 0
    ensures KnownCost(env)(c) > 0 ==>
              && (c.environments.Some? ==> env in c.environments.value)
              && !c.costModel.Free? && !c.costModel.UnknownModel? && c.monthlyMicros == Some(KnownCost(env)(c))
    ensures c.monthlyMicros.Some? && !c.costModel.Free? && !c.costModel.UnknownModel?
            && (c.environments.Some? ==> env in c.environments.value)
            ==> KnownCost(env)(c) == c.monthlyMicros.value
  {
  }

  /** What registration guarantees. */
  ghost predicate Registered(cs: seq<Collector>) {
    Distinct(cs) && forall i :: 0 <= i < |cs| && cs[i].essential ==> cs[i].costModel.Free?
  }

  /** The run is of a collector that is essential, and costs nothing. */
  ghost predicate OfEssential(r: Run, cs: seq<Collector>) {
    exists k :: 0 <= k < |cs| && cs[k].id == r.collector && cs[k].essential && cs[k].costModel.Free?
  }

  lemma OverBudgetRuns(cs: seq<Collector>, k: nat, row: Option<Row>, env: string, now: int, world: World)
    requires Registered(cs) && k < |cs|
    ensures forall r :: r in RunOf(cs[k], now, Step(row, cs[k], env, now, true, world)) ==> OfEssential(r, cs)
  {
    hide RunStep, DueAt;
  }

  lemma {:induction false} OverBudgetTick(s: State, cs: seq<Collector>, env: string, now: int, worlds: Worlds, n: nat)
    requires Registered(cs) && n <= |cs|
    ensures var t := TickFirst(s, cs, env, true, now, worlds, n);
      s.runs <= t.runs && forall r :: r in t.runs[|s.runs|..] ==> OfEssential(r, cs)
  {
    if n > 0 {
      hide Step, RunOf, OfEssential;
      OverBudgetTick(s, cs, env, now, worlds, n - 1);
      var before, after := TickFirst(s, cs, env, true, now, worlds, n - 1), TickFirst(s, cs, env, true, now, worlds, n);
      OverBudgetRuns(cs, n - 1, RowOf(s.rows, cs[n - 1].id), env, now, worlds(cs[n - 1].id));
      if !before.threw {
        var c := cs[n - 1];
        var more := RunOf(c, now, Step(RowOf(s.rows, c.id), c, env, now, true, worlds(c.id)));
        assert after.runs[|s.runs|..] == before.runs[|s.runs|..] + more;
      }
    }
  }

  lemma {:induction false} TicksAdd(cs: seq<Collector>, env: string, inputs: seq<TickInput>, j: nat)
    requires j <= |inputs|
    ensures Ticks(cs, env, inputs[..j]).runs <= Ticks(cs, env, inputs).runs
  {
    var n := |inputs| - 1;
    if j <= n {
      hide TickFirst;
      TicksAdd(cs, env, inputs[..n], j);
      assert inputs[..n][..j] == inputs[..j];
      var last := inputs[n];
      TickAdds(Ticks(cs, env, inputs[..n]), cs, env, last.overBudget, last.now, last.worlds, |cs|);
    } else {
      assert inputs[..j] == inputs;
    }
  }

  /**
   Over any sequence of ticks: every run made in a tick over budget is of an essential collector, which costs
   nothing.
   */
  lemma OverBudgetRunsOnlyFree(cs: seq<Collector>, env: string, inputs: seq<TickInput>, j: nat)
    requires Registered(cs) && j < |inputs| && inputs[j].overBudget
    ensures var before, after := Ticks(cs, env, inputs[..j]).runs, Ticks(cs, env, inputs[..j + 1]).runs;
      var all := Ticks(cs, env, inputs).runs;
      && before <= after <= all
      && forall i :: |before| <= i < |after| ==> OfEssential(all[i], cs)
  {
    hide TickFirst, OfEssential;
    var before := Ticks(cs, env, inputs[..j]);
    assert inputs[..j + 1][..j] == inputs[..j];
    OverBudgetTick(before, cs, env, inputs[j].now, inputs[j].worlds, |cs|);
    TicksAdd(cs, env, inputs, j + 1);
    var after, all := Ticks(cs, env, inputs[..j + 1]).runs, Ticks(cs, env, inputs).runs;
    forall i | |before.runs| <= i < |after| ensures OfEssential(all[i], cs) {
      assert all[i] == after[i] == after[|before.runs|..][i - |before.runs|];
    }
  }

  // The service

  class CollectorScheduler {
    const env: string
    const budgetMicros: int
    var collectors: seq<Collector>
    var rows: Rows
    ghost var runs: seq<Run>

    ghost predicate Valid()
      reads this
    {
      Registered(collectors)
    }

    constructor (env: string, budgetMicros: int)
      ensures Valid() && rows == map[] && runs == [] && collectors == []
      ensures this.env == env && this.budgetMicros == budgetMicros
    {
      this.env, this.budgetMicros := env, budgetMicros;
      collectors, rows, runs := [], map[], [];
    }

    /** `declared`: the registry knows the provider, its capability and the service. */
    method Register(c: Collector, declared: bool) returns (accepted: bool)
      requires Valid()
      modifies this`collectors
      ensures Valid()
      ensures accepted <==>
              declared && (c.essential ==> c.costModel.Free?) && forall x :: x in old(collectors) ==> x.id != c.id
      ensures collectors == if accepted then old(collectors) + [c] else old(collectors)
    {
      var i := 0;
      while i < |collectors|
        invariant 0 <= i <= |collectors|
        invariant forall j :: 0 <= j < i ==> collectors[j].id != c.id
      {
        if collectors[i].id == c.id {
          return false;
        }
        i := i + 1;
      }
      accepted := declared && !(c.essential && !c.costModel.Free?);
      if accepted {
        collectors := collectors + [c];
      }
    }

    method KnownMonthlyMicros() returns (known: int)
      ensures known == SumBy(collectors, KnownCost(env))
    {
      known := 0;
      for i := 0 to |collectors|
        invariant known == SumBy(collectors[..i], KnownCost(env))
      {
        SumSnoc(collectors, i, KnownCost(env));
        var c := collectors[i];
        if EnabledIn(c, env) {
          var estimate := if c.costModel.Free? then Some(0) else c.monthlyMicros;
          if !c.costModel.UnknownModel? && estimate.Some? {
            known := known + estimate.value;
          }
        }
      }
      assert collectors[..|collectors|] == collectors;
    }

    /** Calls the collector until it returns and is stored, it times out, or its attempts are spent. */
    method RunOne(c: Collector, row: Option<Row>, now: int, world: World) returns (step: Stepped)
      ensures step == RunStep(row, c, now, world)
    {
      hide SuccessRow, FailureRow, FailuresOf;
      var day, callsToday := DayOf(now), CallsToday(row, DayOf(now));
      var limit := Max(1, c.maxAttemptsPerTick);
      var attempts: nat, code := 0, "ERROR";
      var timedOut := false;
      while attempts < limit && !timedOut
        invariant 0 <= attempts <= limit
        invariant Attempts(world, 0, limit, "ERROR") ==
                  if timedOut then (attempts, TimedOut) else Attempts(world, attempts, limit, code)
      {
        var attempt := world.attempt(attempts);
        attempts := attempts + 1;
        match attempt {
          case Returns(stored) =>
            if stored {
              return Stepped(Some(SuccessRow(row, c, now, day, callsToday + attempts)), Ok, attempts, false);
            }
            code := "ERROR";
          case Throws(thrown) =>
            code := thrown;
          case TimesOut =>
            timedOut := true;
        }
      }
      var outcome := if timedOut then Timeout else Failed;
      if !world.writes {
        return Stepped(row, outcome, attempts, true);
      }
      var errorCode := if timedOut then "TIMEOUT" else code;
      var after := FailureRow(row, c, now, day, callsToday + attempts, FailuresOf(row) + 1, errorCode);
      step := Stepped(Some(after), outcome, attempts, false);
    }

    method TickOne(c: Collector, row: Option<Row>, now: int, overBudget: bool, world: World) returns (step: Stepped)
      ensures step == Step(row, c, env, now, overBudget, world)
    {
      hide RunStep;
      if !EnabledIn(c, env) {
        return Stepped(row, SkippedEnv, 0, false);
      }
      var lastAttempt := if row.Some? then row.value.lastAttemptAt else None;
      var delay := NextAttemptDelayMs(c.frequencyMs, FailuresOf(row));
      var dueAt := if lastAttempt.None? then now else lastAttempt.value + delay;
      if dueAt > now {
        return Stepped(row, SkippedNotDue, 0, false);
      }
      if overBudget && !c.essential {
        if row.None? {
          return Stepped(row, SkippedBudget, 0, false);
        }
        if !world.writes {
          return Stepped(row, SkippedBudget, 0, true);
        }
        return Stepped(Some(PausedRow(row.value)), SkippedBudget, 0, false);
      }
      if c.maxCallsPerDay.Some? && CallsToday(row, DayOf(now)) >= c.maxCallsPerDay.value {
        return Stepped(row, SkippedCallsCap, 0, false);
      }
      step := RunOne(c, row, now, world);
    }

    /** One tick: the rows are read once, and a write that throws ends it. */
    method TickAll(now: int, worlds: Worlds) returns (results: seq<(string, Outcome)>, threw: bool)
      requires Valid()
      modifies this`rows, this`runs
      ensures var overBudget := SumBy(collectors, KnownCost(env)) > budgetMicros;
        Ticked(rows, runs, results, threw) ==
          TickFirst(State(old(rows), old(runs)), collectors, env, overBudget, now, worlds, |collectors|)
    {
      hide Step, SumBy;
      var known := KnownMonthlyMicros();
      var overBudget := known > budgetMicros;
      var before := rows;
      ghost var start := State(rows, runs);
      results, threw := [], false;
      for i := 0 to |collectors|
        invariant Ticked(rows, runs, results, threw) == TickFirst(start, collectors, env, overBudget, now, worlds, i)
        invariant !threw
      {
        var c := collectors[i];
        var step := TickOne(c, RowOf(before, c.id), now, overBudget, worlds(c.id));
        runs := runs + RunOf(c, now, step);
        if step.threw {
          threw := true;
          TickStops(start, collectors, env, overBudget, now, worlds, i + 1, |collectors|);
          return;
        }
        rows := Put(rows, c.id, step.row);
        results := results + [(c.id, step.outcome)];
      }
    }
  }

  lemma {:induction false} TickStops(
      s: State, cs: seq<Collector>, env: string, overBudget: bool, now: int, worlds: Worlds, i: nat, n: nat)
    requires i <= n <= |cs| && TickFirst(s, cs, env, overBudget, now, worlds, i).threw
    ensures TickFirst(s, cs, env, overBudget, now, worlds, n) == TickFirst(s, cs, env, overBudget, now, worlds, i)
  {
    if i < n {
      TickStops(s, cs, env, overBudget, now, worlds, i, n - 1);
    }
  }
}
