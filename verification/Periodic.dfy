/**
 The worker's periodic runner. Each await is a point where other jobs, timers or
 `stop` may run, so a tick is a chain of events that interleave with every other.
 */
module Periodic {

  /** Where a tick in flight is waiting: on the lock, on the job, or on the release, after which it may still reject. */
  datatype Stage = Acquiring | Running | Releasing(rejects: bool)

  datatype Entry =
    | TickStarts(name: string)
    | RunStarts(name: string)
    | OkRun(name: string)
    | Captured(name: string)
    | TickEnds(name: string)
    | StopCalled

  /**
   A tick is started and never awaited, so one that rejects is unhandled: the worker reports, flushes and then
   exits.
   */
  datatype Fate = Alive | Exiting | Exited

  /** `leased`: the jobs whose lease this process took and has not asked to release. */
  datatype State = State(
    timers: set<string>, inFlight: map<string, Stage>, failing: set<string>, stopping: bool,
    leased: set<string>, fate: Fate, log: seq<Entry>)

  datatype LockAnswer = Granted | Taken | Unreached

  /**
   Which metric calls throw at the end of a run: the try's `record`, the catch's, and `observe`, each if it is
   reached.
   */
  datatype Faults = Faults(tryRecord: bool, catchRecord: bool, observe: bool)

  datatype Event =
    | Fire(name: string)
    | LockAnswers(name: string, answer: LockAnswer, recordThrows: bool)
    | JobEnds(name: string, threw: bool, held: bool, faults: Faults)
    | ReleaseSettles(name: string)
    | Stop
    | ProcessExits

  function Log(s: State, e: Entry): State { s.(log := s.log + [e]) }

  /** Told once per failure streak; a reporter that throws changes nothing. */
  function ReportFailure(s: State, name: string): State {
    if name in s.failing then s else Log(s.(failing := s.failing + {name}), Captured(name))
  }

  /**
   The tick's `finally`: whatever was thrown, out of flight and back on a timer unless stopping; then it may
   reject.
   */
  function Finish(s: State, name: string, rejects: bool): State {
    var timers := if s.stopping then s.timers else s.timers + {name};
    var ended := Log(s.(inFlight := s.inFlight - {name}, timers := timers), TickEnds(name));
    if rejects && s.fate.Alive? then ended.(fate := Exiting) else ended
  }

  function RunOk(s: State, name: string): State {
    Log(s.(failing := s.failing - {name}), OkRun(name))
  }

  // The try and the catch around the run: the state each leaves, and whether it throws

  function TryBlock(s: State, name: string, threw: bool, held: bool, faults: Faults): (State, bool) {
    if threw then (s, true)
    else (if held then RunOk(s, name) else s, faults.tryRecord)
  }

  function CatchBlock(s: State, name: string, held: bool, faults: Faults): (State, bool) {
    if faults.catchRecord then (s, true)
    else (if held then ReportFailure(s, name) else s, false)
  }

  function TryCatch(s: State, name: string, threw: bool, held: bool, faults: Faults): (State, bool) {
    var (tried, thrown) := TryBlock(s, name, threw, held, faults);
    if thrown then CatchBlock(tried, name, held, faults) else (tried, false)
  }

  predicate At(s: State, name: string, stage: Stage) { name in s.inFlight && s.inFlight[name] == stage }

  function Step(s: State, e: Event): State {
    match e
    case Fire(name) =>
      if name !in s.timers then s
      else if s.stopping || name in s.inFlight then s.(timers := s.timers - {name})
      else Log(s.(timers := s.timers - {name}, inFlight := s.inFlight[name := Acquiring]), TickStarts(name))
    case LockAnswers(name, answer, recordThrows) =>
      if !At(s, name, Acquiring) then s
      else (match answer
            case Granted => Log(s.(inFlight := s.inFlight[name := Running], leased := s.leased + {name}),
                RunStarts(name))
            case Taken => Finish(s, name, recordThrows)
            case Unreached => Finish(ReportFailure(s, name), name, recordThrows))
    case JobEnds(name, threw, held, faults) =>
      if !At(s, name, Running) then s
      else
        var (judged, thrown) := TryCatch(s, name, threw, held, faults);
        // A throw from `observe` leaves the finally block before the release.
        if faults.observe then Finish(judged, name, true)
        else judged.(inFlight := judged.inFlight[name := Releasing(thrown)], leased := judged.leased - {name})
    case ReleaseSettles(name) =>
      if name in s.inFlight && s.inFlight[name].Releasing? then Finish(s, name, s.inFlight[name].rejects) else s
    case Stop => Log(s.(stopping := true, timers := {}), StopCalled)
    case ProcessExits => if s.fate.Exiting? then s.(fate := Exited) else s
  }

  /** Timers and awaits go on while the exit is being flushed; nothing runs after it. */
  function Next(s: State, e: Event): State { if s.fate.Exited? then s else Step(s, e) }

  function Start(names: set<string>): State { State(names, map[], {}, false, {}, Alive, []) }

  function After(names: set<string>, run: seq<Event>, i: nat): State
    requires i <= |run|
  {
    if i == 0 then Start(names) else Next(After(names, run, i - 1), run[i - 1])
  }

  lemma AfterStep(names: set<string>, run: seq<Event>, i: nat)
    requires i <= |run|
    ensures After(names, run, i) == if i == 0 then Start(names) else Next(After(names, run, i - 1), run[i - 1])
  {
    hide Next;
  }

  // Every job is somewhere, exactly once

  ghost predicate Placed(s: State, names: set<string>) {
    && s.timers <= names && s.inFlight.Keys <= names && s.timers !! s.inFlight.Keys
    && (if s.stopping then s.timers == {} else names <= s.timers + s.inFlight.Keys)
  }

  /** Judging a run moves no tick, timer or lease. */
  lemma TryCatchFrame(s: State, name: string, threw: bool, held: bool, faults: Faults)
    ensures var t := TryCatch(s, name, threw, held, faults).0;
      t == s.(failing := t.failing, log := t.log)
  {
  }

  lemma StepKeepsPlaced(s: State, e: Event, names: set<string>)
    requires Placed(s, names)
    ensures Placed(Next(s, e), names)
  {
    hide TryCatch;
    if e.JobEnds? {
      TryCatchFrame(s, e.name, e.threw, e.held, e.faults);
    }
  }

  /**
   Whatever throws, in every run and up to its exit, each job is in exactly one of: timer pending, in flight, or
   stopped.
   */
  lemma {:induction false} AlwaysPlaced(names: set<string>, run: seq<Event>, i: nat)
    requires i <= |run|
    ensures Placed(After(names, run, i), names)
  {
    if i > 0 {
      hide Next, Placed;
      AlwaysPlaced(names, run, i - 1);
      StepKeepsPlaced(After(names, run, i - 1), run[i - 1], names);
    }
  }

  // Between two openings there is a closing

  /** The last of `a` and `b` in the log is an `a`. */
  predicate Open(log: seq<Entry>, a: Entry, b: Entry) {
    log != [] && (log[|log| - 1] == a || (log[|log| - 1] != b && Open(log[..|log| - 1], a, b)))
  }

  /** Each `a` came when none was open. */
  predicate Alternates(log: seq<Entry>, a: Entry, b: Entry) {
    log == [] || (Alternates(log[..|log| - 1], a, b) && (log[|log| - 1] == a ==> !Open(log[..|log| - 1], a, b)))
  }

  ghost predicate ClosedBetween(log: seq<Entry>, a: Entry, b: Entry) {
    forall i, j :: 0 <= i < j < |log| && log[i] == a && log[j] == a ==> exists k :: i < k < j && log[k] == b
  }

  lemma {:induction false} NotOpenIsClosed(log: seq<Entry>, a: Entry, b: Entry, i: nat)
    requires a != b && !Open(log, a, b) && i < |log| && log[i] == a
    ensures exists k :: i < k < |log| && log[k] == b
  {
    var n := |log| - 1;
    if log[n] == b {
      assert i < n;
    } else {
      NotOpenIsClosed(log[..n], a, b, i);
      var k :| i < k < n && log[..n][k] == b;
      assert log[k] == b;
    }
  }

  lemma {:induction false} AlternatingCloses(log: seq<Entry>, a: Entry, b: Entry)
    requires a != b && Alternates(log, a, b)
    ensures ClosedBetween(log, a, b)
  {
    if log != [] {
      var n := |log| - 1;
      AlternatingCloses(log[..n], a, b);
      forall i, j | 0 <= i < j < |log| && log[i] == a && log[j] == a ensures exists k :: i < k < j && log[k] == b {
        if j == n {
          NotOpenIsClosed(log[..n], a, b, i);
          var k :| i < k < n && log[..n][k] == b;
          assert log[k] == b;
        } else {
          assert log[..n][i] == a && log[..n][j] == a;
          var k :| i < k < j && log[..n][k] == b;
          assert log[k] == b;
        }
      }
    }
  }

  lemma Snoc(log: seq<Entry>, e: Entry, a: Entry, b: Entry)
    ensures Open(log + [e], a, b) <==> e == a || (e != b && Open(log, a, b))
    ensures Alternates(log + [e], a, b) <==> Alternates(log, a, b) && (e == a ==> !Open(log, a, b))
  {
    assert (log + [e])[..|log|] == log;
  }

  /** A tick is open while it is in flight, and a failure streak while it is failing. */
  ghost predicate LogOk(s: State, name: string) {
    && Alternates(s.log, TickStarts(name), TickEnds(name))
    && (Open(s.log, TickStarts(name), TickEnds(name)) <==> name in s.inFlight)
    && Alternates(s.log, Captured(name), OkRun(name))
    && (Open(s.log, Captured(name), OkRun(name)) <==> name in s.failing)
  }

  lemma LogSnoc(s: State, e: Entry, name: string)
    ensures var log := Log(s, e).log;
      && (Open(log, TickStarts(name), TickEnds(name)) <==>
            e == TickStarts(name) || (e != TickEnds(name) && Open(s.log, TickStarts(name), TickEnds(name))))
      && (Open(log, Captured(name), OkRun(name)) <==>
            e == Captured(name) || (e != OkRun(name) && Open(s.log, Captured(name), OkRun(name))))
      && (Alternates(log, TickStarts(name), TickEnds(name)) <==>
            Alternates(s.log, TickStarts(name), TickEnds(name))
                && (e == TickStarts(name) ==> !Open(s.log, TickStarts(name), TickEnds(name))))
      && (Alternates(log, Captured(name), OkRun(name)) <==>
            Alternates(s.log, Captured(name), OkRun(name))
                && (e == Captured(name) ==> !Open(s.log, Captured(name), OkRun(name))))
  {
    Snoc(s.log, e, TickStarts(name), TickEnds(name));
    Snoc(s.log, e, Captured(name), OkRun(name));
  }

  lemma ReportKeepsLog(s: State, job: string, name: string)
    requires LogOk(s, name)
    ensures LogOk(ReportFailure(s, job), name)
  {
    hide Open, Alternates;
    LogSnoc(s, Captured(job), name);
  }

  lemma OkKeepsLog(s: State, job: string, name: string)
    requires LogOk(s, name)
    ensures LogOk(RunOk(s, job), name)
  {
    hide Open, Alternates;
    LogSnoc(s, OkRun(job), name);
  }

  lemma FinishKeepsLog(s: State, job: string, rejects: bool, name: string)
    requires LogOk(s, name)
    ensures LogOk(Finish(s, job, rejects), name)
  {
    hide Open, Alternates;
    LogSnoc(s, TickEnds(job), name);
  }

  lemma TryCatchKeepsLog(s: State, job: string, threw: bool, held: bool, faults: Faults, name: string)
    requires LogOk(s, name)
    ensures LogOk(TryCatch(s, job, threw, held, faults).0, name)
    ensures TryCatch(s, job, threw, held, faults).0.inFlight == s.inFlight
  {
    hide LogOk;
    ReportKeepsLog(s, job, name);
    OkKeepsLog(s, job, name);
    ReportKeepsLog(RunOk(s, job), job, name);
  }

  lemma StepKeepsLog(s: State, e: Event, name: string)
    requires LogOk(s, name)
    ensures LogOk(Next(s, e), name)
  {
    hide Open, Alternates, Finish, ReportFailure, TryCatch;
    match e
    case Fire(job) => LogSnoc(s, TickStarts(job), name);
    case LockAnswers(job, answer, recordThrows) =>
      LogSnoc(s, RunStarts(job), name);
      FinishKeepsLog(s, job, recordThrows, name);
      ReportKeepsLog(s, job, name);
      FinishKeepsLog(ReportFailure(s, job), job, recordThrows, name);
    case JobEnds(job, threw, held, faults) =>
      TryCatchKeepsLog(s, job, threw, held, faults, name);
      FinishKeepsLog(TryCatch(s, job, threw, held, faults).0, job, true, name);
    case ReleaseSettles(job) =>
      FinishKeepsLog(s, job, true, name);
      FinishKeepsLog(s, job, false, name);
    case Stop => LogSnoc(s, StopCalled, name);
    case ProcessExits =>
  }

  lemma {:induction false} LogReachable(names: set<string>, run: seq<Event>, i: nat, name: string)
    requires i <= |run|
    ensures LogOk(After(names, run, i), name)
  {
    if i > 0 {
      hide Next, LogOk;
      LogReachable(names, run, i - 1, name);
      StepKeepsLog(After(names, run, i - 1), run[i - 1], name);
    }
  }

  /** No two ticks of one job overlap: between two starts there is an end. */
  lemma TicksNeverOverlap(names: set<string>, run: seq<Event>, name: string)
    ensures ClosedBetween(After(names, run, |run|).log, TickStarts(name), TickEnds(name))
  {
    LogReachable(names, run, |run|, name);
    AlternatingCloses(After(names, run, |run|).log, TickStarts(name), TickEnds(name));
  }

  /**
   One capture per failure streak: between two captures of a job there is a run that ended well with its lease
   held.
   */
  lemma OneCapturePerStreak(names: set<string>, run: seq<Event>, name: string)
    ensures ClosedBetween(After(names, run, |run|).log, Captured(name), OkRun(name))
  {
    LogReachable(names, run, |run|, name);
    AlternatingCloses(After(names, run, |run|).log, Captured(name), OkRun(name));
  }

  // What is logged, read off the log itself

  function Count(log: seq<Entry>, e: Entry): nat {
    if log == [] then 0 else Count(log[..|log| - 1], e) + if log[|log| - 1] == e then 1 else 0
  }

  lemma CountSnoc(log: seq<Entry>, last: Entry, e: Entry)
    ensures Count(log + [last], e) == Count(log, e) + if last == e then 1 else 0
  {
    assert (log + [last])[..|log|] == log;
  }

  /** The last thing logged of the job's outcomes was a capture. */
  predicate Streak(s: State, name: string) { Open(s.log, Captured(name), OkRun(name)) }

  /** What the end of a run says: a capture for a failure, unless the streak has one; a good run, which ends it. */
  function Outcomes(s: State, name: string, threw: bool, held: bool, faults: Faults): seq<Entry> {
    if !held then []
    else if threw then if faults.catchRecord || Streak(s, name) then [] else [Captured(name)]
    else if faults.tryRecord && !faults.catchRecord then [OkRun(name), Captured(name)]
    else [OkRun(name)]
  }

  function Entries(s: State, e: Event): seq<Entry> {
    match e
    case Fire(name) => if name in s.timers && !s.stopping && name !in s.inFlight then [TickStarts(name)] else []
    case LockAnswers(name, answer, _) =>
      if !At(s, name, Acquiring) then []
      else if answer.Granted? then [RunStarts(name)]
      else if answer.Taken? || Streak(s, name) then [TickEnds(name)]
      else [Captured(name), TickEnds(name)]
    case JobEnds(name, threw, held, faults) =>
      if !At(s, name, Running) then []
      else Outcomes(s, name, threw, held, faults) + if faults.observe then [TickEnds(name)] else []
    case ReleaseSettles(name) => if name in s.inFlight && s.inFlight[name].Releasing? then [TickEnds(name)] else []
    case Stop => [StopCalled]
    case ProcessExits => []
  }

  lemma TryCatchLogs(s: State, name: string, threw: bool, held: bool, faults: Faults)
    requires Streak(s, name) <==> name in s.failing
    ensures TryCatch(s, name, threw, held, faults).0.log == s.log + Outcomes(s, name, threw, held, faults)
  {
    hide Open;
  }

  lemma StepLogs(s: State, e: Event)
    requires forall name :: Streak(s, name) <==> name in s.failing
    ensures !s.fate.Exited? ==> Next(s, e).log == s.log + Entries(s, e)
  {
    hide Open, TryCatch, Outcomes;
    match e
    case JobEnds(name, threw, held, faults) => TryCatchLogs(s, name, threw, held, faults);
    case _ =>
  }

  /** In every run, until the process has exited, each event logs exactly that. */
  lemma LoggedExactly(names: set<string>, run: seq<Event>, i: nat)
    requires i < |run| && !After(names, run, i).fate.Exited?
    ensures After(names, run, i + 1).log == After(names, run, i).log + Entries(After(names, run, i), run[i])
  {
    hide Next;
    var s := After(names, run, i);
    forall name ensures Streak(s, name) <==> name in s.failing {
      LogReachable(names, run, i, name);
    }
    StepLogs(s, run[i]);
  }

  /** The job failed with its lease held, or could not reach the lock. */
  predicate Fails(s: State, e: Event, name: string) {
    || (e.JobEnds? && e.name == name && At(s, name, Running) && e.threw && e.held && !e.faults.catchRecord)
    || (e.LockAnswers? && e.name == name && At(s, name, Acquiring) && e.answer.Unreached?)
  }

  /**
   In every run a failure leaves a capture of its job later than the job's last good run, and captures it itself,
   once, exactly if no failure since that run was captured.
   */
  lemma FailureIsCaptured(names: set<string>, run: seq<Event>, i: nat, name: string)
    requires i < |run| && !After(names, run, i).fate.Exited? && Fails(After(names, run, i), run[i], name)
    ensures var s, t := After(names, run, i), After(names, run, i + 1);
      && Streak(t, name)
      && Count(t.log, Captured(name)) == Count(s.log, Captured(name)) + (if Streak(s, name) then 0 else 1)
  {
    hide Next, Open, After, Entries, Count, Fails;
    var s := After(names, run, i);
    LoggedExactly(names, run, i);
    FailureEntries(s, run[i], name);
    AppendLogs(s.log, Entries(s, run[i]), Captured(name), OkRun(name));
  }

  lemma FailureEntries(s: State, e: Event, name: string)
    requires Fails(s, e, name)
    ensures OkRun(name) !in Entries(s, e)
    ensures Count(Entries(s, e), Captured(name)) == if Streak(s, name) then 0 else 1
  {
    hide Streak, Count;
    ShortCounts(Captured(name), TickEnds(name));
    if Streak(s, name) {
      assert Entries(s, e) == [] || Entries(s, e) == [TickEnds(name)];
    } else {
      assert Entries(s, e) == [Captured(name)] || Entries(s, e) == [Captured(name), TickEnds(name)];
    }
  }

  lemma ShortCounts(a: Entry, other: Entry)
    requires a != other
    ensures Count([], a) == Count([other], a) == 0 && Count([a], a) == Count([a, other], a) == 1
  {
    CountSnoc([], a, a);
    CountSnoc([], other, a);
    CountSnoc([a], other, a);
    assert [] + [a] == [a] && [] + [other] == [other] && [a] + [other] == [a, other];
  }

  /** Logging more, with no `b` in it. */
  lemma {:induction false} AppendLogs(log: seq<Entry>, more: seq<Entry>, a: Entry, b: Entry)
    requires b !in more
    ensures Open(log + more, a, b) <==> Count(more, a) > 0 || Open(log, a, b)
    ensures Count(log + more, a) == Count(log, a) + Count(more, a)
  {
    if more == [] {
      assert log + more == log;
    } else {
      hide Open;
      var n := |more| - 1;
      AppendLogs(log, more[..n], a, b);
      assert log + more == (log + more[..n]) + [more[n]] && more == more[..n] + [more[n]];
      Snoc(log + more[..n], more[n], a, b);
      CountSnoc(log + more[..n], more[n], a);
      CountSnoc(more[..n], more[n], a);
    }
  }

  // After stop

  function Owed(s: State, name: string): nat { if At(s, name, Acquiring) then 1 else 0 }

  /** Reports, good runs and tick ends add no start to the log. */
  lemma TailCounts(s: State, job: string, rejects: bool, name: string)
    ensures forall e :: e == TickStarts(name) || e == RunStarts(name) ==>
              Count(Finish(s, job, rejects).log, e) == Count(s.log, e)
              && Count(ReportFailure(s, job).log, e) == Count(s.log, e)
              && Count(RunOk(s, job).log, e) == Count(s.log, e)
  {
    hide Count;
    forall e: Entry | e == TickStarts(name) || e == RunStarts(name)
      ensures Count(s.log + [TickEnds(job)], e) == Count(s.log, e)
      ensures Count(s.log + [Captured(job)], e) == Count(s.log, e)
      ensures Count(s.log + [OkRun(job)], e) == Count(s.log, e)
    {
      CountSnoc(s.log, TickEnds(job), e);
      CountSnoc(s.log, Captured(job), e);
      CountSnoc(s.log, OkRun(job), e);
    }
  }

  /**
   From `s` to `t`, both after a stop: no tick has started, and a job has run only if its tick was already
   waiting for the lock.
   */
  ghost predicate WindsDown(s: State, t: State, name: string) {
    && t.stopping && t.timers == {} && t.inFlight.Keys <= s.inFlight.Keys
    && Count(t.log, TickStarts(name)) == Count(s.log, TickStarts(name))
    && Count(t.log, RunStarts(name)) + Owed(t, name) <= Count(s.log, RunStarts(name)) + Owed(s, name)
  }

  lemma EndsWindDown(s: State, job: string, threw: bool, held: bool, faults: Faults, name: string)
    requires s.stopping && s.timers == {} && At(s, job, Running)
    ensures WindsDown(s, Step(s, JobEnds(job, threw, held, faults)), name)
  {
    hide Count, TryCatch;
    TryCatchFrame(s, job, threw, held, faults);
    TryCatchCounts(s, job, threw, held, faults, name);
    TailCounts(TryCatch(s, job, threw, held, faults).0, job, true, name);
  }

  lemma TryCatchCounts(s: State, job: string, threw: bool, held: bool, faults: Faults, name: string)
    ensures var log := TryCatch(s, job, threw, held, faults).0.log;
      && Count(log, TickStarts(name)) == Count(s.log, TickStarts(name))
      && Count(log, RunStarts(name)) == Count(s.log, RunStarts(name))
  {
    hide Count, RunOk, ReportFailure;
    TailCounts(s, job, false, name);
    TailCounts(RunOk(s, job), job, false, name);
  }

  lemma StepWindsDown(s: State, e: Event, name: string)
    requires s.stopping && s.timers == {}
    ensures WindsDown(s, Next(s, e), name)
  {
    hide Count, TryCatch;
    match e
    case Fire(_) =>
    case LockAnswers(job, answer, recordThrows) =>
      CountSnoc(s.log, RunStarts(job), TickStarts(name));
      CountSnoc(s.log, RunStarts(job), RunStarts(name));
      TailCounts(s, job, recordThrows, name);
      TailCounts(ReportFailure(s, job), job, recordThrows, name);
    case JobEnds(job, threw, held, faults) =>
      if At(s, job, Running) { EndsWindDown(s, job, threw, held, faults, name); }
    case ReleaseSettles(job) =>
      TailCounts(s, job, true, name);
      TailCounts(s, job, false, name);
    case Stop =>
      CountSnoc(s.log, StopCalled, TickStarts(name));
      CountSnoc(s.log, StopCalled, RunStarts(name));
    case ProcessExits =>
  }

  lemma WindDownChains(s: State, t: State, u: State, name: string)
    requires WindsDown(s, t, name) && WindsDown(t, u, name)
    ensures WindsDown(s, u, name)
  {
  }

  /** Once stopping, the runner only winds down. */
  lemma {:induction false} StopIsFinal(names: set<string>, run: seq<Event>, i: nat, j: nat, name: string)
    requires i <= j <= |run| && After(names, run, i).stopping
    ensures WindsDown(After(names, run, i), After(names, run, j), name)
  {
    AlwaysPlaced(names, run, i);
    if i < j {
      hide Next, Count, Owed;
      StopIsFinal(names, run, i, j - 1, name);
      StepWindsDown(After(names, run, j - 1), run[j - 1], name);
      WindDownChains(After(names, run, i), After(names, run, j - 1), After(names, run, j), name);
    }
  }

  /** A run can still start after `stop` was called: its tick was waiting for the lock. */
  lemma RunStartsAfterStop(job: string)
    ensures var run := [Fire(job), Stop, LockAnswers(job, Granted, false)];
      After({job}, run, 3).log == [TickStarts(job), StopCalled, RunStarts(job)]
  {
    var run := [Fire(job), Stop, LockAnswers(job, Granted, false)];
    assert After({job}, run, 1) == State({}, map[job := Acquiring], {}, false, {}, Alive, [TickStarts(job)]);
    assert After({job}, run, 2) == State({}, map[job := Acquiring], {}, true, {}, Alive, [TickStarts(job), StopCalled]);
  }

  // What ends the process

  /** No metric call throws: the lock, the job, the reporter and the release may. */
  predicate MetricsHold(e: Event) {
    match e
    case LockAnswers(_, _, recordThrows) => !recordThrows
    case JobEnds(_, _, _, faults) => !faults.tryRecord && !faults.catchRecord && !faults.observe
    case _ => true
  }

  /** No tick is waiting to reject. */
  ghost predicate Sound(s: State) {
    s.fate.Alive? && forall name :: name in s.inFlight ==> s.inFlight[name] != Releasing(true)
  }

  lemma StepKeepsSound(s: State, e: Event)
    requires Sound(s) && MetricsHold(e)
    ensures Sound(Next(s, e))
  {
  }

  /**
   Whatever the lock, the job, the reporter and the release throw, and whenever: only a throwing metric can end
   the process.
   */
  lemma {:induction false} OnlyMetricsEndIt(names: set<string>, run: seq<Event>, i: nat)
    requires i <= |run| && forall e :: e in run ==> MetricsHold(e)
    ensures Sound(After(names, run, i))
  {
    if i > 0 {
      hide Next, Sound, MetricsHold;
      OnlyMetricsEndIt(names, run, i - 1);
      assert run[i - 1] in run;
      StepKeepsSound(After(names, run, i - 1), run[i - 1]);
    } else {
      NothingRejects(names);
    }
  }

  lemma NothingRejects(names: set<string>)
    ensures Sound(Start(names))
  {
  }

  /**
   Which ends of a run reject the tick, and so end the process: a throwing `observe`, or a throw inside the
   catch, which is entered by a job that threw or by the try's own `record`. Whether the lease was held makes
   no difference to that; it is left unreleased exactly by a throwing `observe`.
   */
  lemma RunRejectsExactly(s: State, job: string, threw: bool, held: bool, faults: Faults)
    requires s.fate.Alive? && At(s, job, Running) && job in s.leased
    ensures var ended := Next(s, JobEnds(job, threw, held, faults));
      var settled := Next(ended, ReleaseSettles(job));
      && job !in settled.inFlight && (job in settled.timers <==> !s.stopping || job in s.timers)
      && (settled.fate.Exiting? <==> faults.observe || (faults.catchRecord && (threw || faults.tryRecord)))
      && (!settled.fate.Exiting? ==> settled.fate.Alive?)
      && (job in settled.leased <==> faults.observe)
  {
  }

  /** A tick that gets no lease rejects exactly when its `lock_skipped` record throws, lock failure or not. */
  lemma SkipRejectsExactly(s: State, job: string, answer: LockAnswer, recordThrows: bool)
    requires s.fate.Alive? && At(s, job, Acquiring)
    ensures var t := Next(s, LockAnswers(job, answer, recordThrows));
      && (t.fate.Exiting? <==> !answer.Granted? && recordThrows)
      && (!answer.Granted? ==> job !in t.inFlight && (job in t.timers <==> !s.stopping || job in s.timers))
  {
  }

  /** While a release is awaited no other event changes whether its tick will reject. */
  lemma ReleaseWaits(s: State, e: Event, job: string)
    requires job in s.inFlight && s.inFlight[job].Releasing? && e != ReleaseSettles(job)
    ensures job in Next(s, e).inFlight && Next(s, e).inFlight[job] == s.inFlight[job]
  {
    hide TryCatch;
    if e.JobEnds? {
      TryCatchFrame(s, e.name, e.threw, e.held, e.faults);
    }
  }

  /** The event ends a tick whose body threw past its catch. */
  predicate RejectsNow(s: State, e: Event) {
    match e
    case LockAnswers(name, answer, recordThrows) => At(s, name, Acquiring) && !answer.Granted? && recordThrows
    case JobEnds(name, _, _, faults) => At(s, name, Running) && faults.observe
    case ReleaseSettles(name) => At(s, name, Releasing(true))
    case _ => false
  }

  lemma StepExits(s: State, e: Event)
    ensures Next(s, e).fate.Alive? <==> s.fate.Alive? && !RejectsNow(s, e)
  {
    hide TryCatch;
    if e.JobEnds? {
      TryCatchFrame(s, e.name, e.threw, e.held, e.faults);
    }
  }

  /** The process is on its way out exactly when some tick of the run so far rejected. */
  lemma {:induction false} ExitExactly(names: set<string>, run: seq<Event>, i: nat)
    requires i <= |run|
    ensures After(names, run, i).fate.Alive? <==> forall j :: 0 <= j < i ==> !RejectsNow(After(names, run, j), run[j])
  {
    hide Next, RejectsNow, After;
    AfterStep(names, run, i);
    if i > 0 {
      ExitExactly(names, run, i - 1);
      StepExits(After(names, run, i - 1), run[i - 1]);
    }
  }

  // Leases

  ghost predicate LeasesRun(s: State) { forall name :: name in s.leased <==> At(s, name, Running) }

  lemma StepKeepsLeases(s: State, e: Event)
    requires s.fate.Alive? ==> LeasesRun(s)
    ensures Next(s, e).fate.Alive? ==> LeasesRun(Next(s, e))
  {
    hide TryCatch;
    if e.JobEnds? {
      TryCatchFrame(s, e.name, e.threw, e.held, e.faults);
    }
    if Next(s, e).fate.Alive? {
      forall name ensures name in Next(s, e).leased <==> At(Next(s, e), name, Running) {
        assert name in s.leased <==> At(s, name, Running);
      }
    }
  }

  /** In every run, as long as the process is not on its way out, a lease is held exactly while its job runs. */
  lemma {:induction false} LeasesAreReleased(names: set<string>, run: seq<Event>, i: nat)
    requires i <= |run|
    ensures After(names, run, i).fate.Alive? ==> LeasesRun(After(names, run, i))
  {
    if i > 0 {
      hide Next, LeasesRun;
      LeasesAreReleased(names, run, i - 1);
      StepKeepsLeases(After(names, run, i - 1), run[i - 1]);
    }
  }

  // The runner itself

  class PeriodicRunner {
    var timers: set<string>
    var inFlight: map<string, Stage>
    var failing: set<string>
    var stopping: bool
    var fate: Fate
    ghost var leased: set<string>
    ghost var log: seq<Entry>

    ghost function View(): State
      reads this
    {
      State(timers, inFlight, failing, stopping, leased, fate, log)
    }

    /** `startPeriodic`: every job is scheduled once. */
    constructor (jobs: seq<string>)
      ensures View() == Start(set name | name in jobs)
    {
      timers, inFlight, failing, stopping, fate := {}, map[], {}, false, Alive;
      leased, log := {}, [];
      new;
      for i := 0 to |jobs|
        invariant View() == Start(set name | name in jobs[..i])
      {
        Schedule(jobs[i]);
        assert jobs[..i + 1] == jobs[..i] + [jobs[i]];
      }
      assert jobs[..|jobs|] == jobs;
    }

    method Schedule(name: string)
      modifies this`timers
      ensures timers == if stopping then old(timers) else old(timers) + {name}
    {
      if stopping {
        return;
      }
      timers := timers + {name};
    }

    method Report(name: string)
      modifies this`failing, this`log
      ensures View() == ReportFailure(old(View()), name)
    {
      if name in failing {
        return;
      }
      failing := failing + {name};
      log := log + [Captured(name)];
    }

    /** The outer `finally`, and the unhandled rejection if what it awaited had thrown. */
    method EndTick(name: string, rejects: bool)
      modifies this`timers, this`inFlight, this`fate, this`log
      ensures View() == Finish(old(View()), name, rejects)
    {
      inFlight := inFlight - {name};
      Schedule(name);
      log := log + [TickEnds(name)];
      if rejects && fate.Alive? {
        fate := Exiting;
      }
    }

    /** A pending timer fires: up to the await on the lock. */
    method Tick(name: string)
      requires name in timers && !fate.Exited?
      modifies this
      ensures View() == Next(old(View()), Fire(name))
    {
      timers := timers - {name};
      if stopping || name in inFlight {
        return;
      }
      inFlight := inFlight[name := Acquiring];
      log := log + [TickStarts(name)];
    }

    method LockAnswered(name: string, answer: LockAnswer, recordThrows: bool)
      requires At(View(), name, Acquiring) && !fate.Exited?
      modifies this
      ensures View() == Next(old(View()), LockAnswers(name, answer, recordThrows))
    {
      match answer {
        case Granted =>
          inFlight := inFlight[name := Running];
          leased := leased + {name};
          log := log + [RunStarts(name)];
        case Taken =>
          EndTick(name, recordThrows);
        case Unreached =>
          Report(name);
          EndTick(name, recordThrows);
      }
    }

    /** The try, catch and finally around the run, each call that may throw taken in the order it is made. */
    method JobEnded(name: string, threw: bool, held: bool, faults: Faults)
      requires At(View(), name, Running) && !fate.Exited?
      modifies this
      ensures View() == Next(old(View()), JobEnds(name, threw, held, faults))
    {
      var thrown := threw;
      if !thrown {
        if held {
          failing := failing - {name};
          log := log + [OkRun(name)];
        }
        thrown := faults.tryRecord;
      }
      if thrown {
        thrown := faults.catchRecord;
        if !thrown && held {
          Report(name);
        }
      }
      if faults.observe {
        EndTick(name, true);
      } else {
        inFlight := inFlight[name := Releasing(thrown)];
        leased := leased - {name};
      }
    }

    /** The release is caught, so how it settled makes no difference. */
    method ReleaseSettled(name: string)
      requires name in inFlight && inFlight[name].Releasing? && !fate.Exited?
      modifies this
      ensures View() == Next(old(View()), ReleaseSettles(name))
    {
      EndTick(name, inFlight[name].rejects);
    }

    method StopAll()
      requires !fate.Exited?
      modifies this
      ensures View() == Next(old(View()), Stop)
    {
      stopping := true;
      timers := {};
      log := log + [StopCalled];
    }
  }
}
