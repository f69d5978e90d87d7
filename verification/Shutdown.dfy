/** Draining the worker's goroutines before the databases close
    (core/worker/worker.go, core/app/lifecycle.go). */
module Shutdown {

  /** How far the goroutine that closes the application has come. */
  datatype Closer = Serving | Waiting | Drained | WorkerClosed | AppClosed {
    predicate WaitReturned() { Drained? || WorkerClosed? || AppClosed? }
  }

  /** `counter` is the wait group; the other numbers count live goroutines.  `late` counts
      the live triggered jobs that were triggered after `Wait` had returned. */
  datatype State = State(
    started: bool, cancelled: bool, counter: int,
    scheduled: nat, polling: bool, executors: nat, triggered: nat, late: nat,
    closer: Closer)

  const INIT := State(false, false, 0, 0, false, 0, 0, 0, Serving)

  datatype Step =
    | Start(scheduledJobs: nat)
    | Signal                       // the context given to Start is cancelled
    | SpawnExecutor                // one iteration of processQueue's loop
    | PollLoopReturns
    | ScheduledReturns
    | ExecutorReturns
    | TriggerJob
    | TriggeredReturns(wasLate: bool)
    | BeginClose
    | WaitReturns
    | CloseWorkerDatabase
    | CloseAppDatabase

  predicate Enabled(s: State, step: Step) {
    match step
    case Start(_) => !s.started && s.closer.Serving?
    case Signal => s.started
    case SpawnExecutor => s.polling
    case PollLoopReturns => s.polling && s.cancelled
    case ScheduledReturns => s.scheduled > 0 && s.cancelled
    case ExecutorReturns => s.executors > 0
    case TriggerJob => true
    case TriggeredReturns(wasLate) => s.triggered > 0 && (if wasLate then s.late > 0 else s.triggered > s.late)
    case BeginClose => s.closer.Serving?
    case WaitReturns => s.closer.Waiting? && s.counter == 0
    case CloseWorkerDatabase => s.closer.Drained?
    case CloseAppDatabase => s.closer.WorkerClosed?
  }

  function Do(s: State, step: Step): State
    requires Enabled(s, step)
  {
    match step
    case Start(n) => s.(started := true, scheduled := n, polling := true, counter := s.counter + n + 1)
    case Signal => s.(cancelled := true)
    case SpawnExecutor => s.(executors := s.executors + 1, counter := s.counter + 1)
    case PollLoopReturns => s.(polling := false, counter := s.counter - 1)
    case ScheduledReturns => s.(scheduled := s.scheduled - 1, counter := s.counter - 1)
    case ExecutorReturns => s.(executors := s.executors - 1, counter := s.counter - 1)
    case TriggerJob =>
      s.(triggered := s.triggered + 1, counter := s.counter + 1,
         late := if s.closer.WaitReturned() then s.late + 1 else s.late)
    case TriggeredReturns(wasLate) =>
      s.(triggered := s.triggered - 1, counter := s.counter - 1, late := if wasLate then s.late - 1 else s.late)
    case BeginClose => s.(cancelled := s.cancelled || s.started, closer := Waiting)
    case WaitReturns => s.(closer := Drained)
    case CloseWorkerDatabase => s.(closer := WorkerClosed)
    case CloseAppDatabase => s.(closer := AppClosed)
  }

  ghost predicate IsRun(s: State, steps: seq<Step>)
    decreases |steps|
  {
    steps == [] || (Enabled(s, steps[0]) && IsRun(Do(s, steps[0]), steps[1..]))
  }

  function After(s: State, steps: seq<Step>): State
    requires IsRun(s, steps)
    decreases |steps|
  {
    if steps == [] then s else After(Do(s, steps[0]), steps[1..])
  }

  ghost predicate Inv(s: State) {
    && s.counter == s.scheduled + (if s.polling then 1 else 0) + s.executors + s.triggered
    && s.late <= s.triggered
    && (s.scheduled > 0 || s.polling || s.executors > 0 ==> s.started)
    && (s.closer.WaitReturned() ==> s.scheduled == 0 && !s.polling && s.executors == 0 && s.triggered == s.late)
    && (!s.closer.WaitReturned() ==> s.late == 0)
    && (!s.closer.Serving? && s.started ==> s.cancelled)
  }

  lemma {:induction false} RunKeeps(s: State, steps: seq<Step>)
    requires Inv(s) && IsRun(s, steps)
    ensures Inv(After(s, steps))
    decreases |steps|
  {
    if steps != [] {
      RunKeeps(Do(s, steps[0]), steps[1..]);
    }
  }

  /** The wait group counts the live goroutines exactly.  Once `Wait` has returned no
      scheduled job, poll loop or executor is live, and the only other live goroutines are
      those a later `TriggerJob` spawned. */
  lemma DrainedBeforeDatabasesClose(steps: seq<Step>)
    requires IsRun(INIT, steps)
    ensures var s := After(INIT, steps);
      && s.counter == s.scheduled + (if s.polling then 1 else 0) + s.executors + s.triggered
      && (s.closer.WaitReturned() ==> s.scheduled == 0 && !s.polling && s.executors == 0)
      && (s.closer.WaitReturned() ==> (s.counter == 0 <==> s.late == 0))
  {
    RunKeeps(INIT, steps);
  }

  /** No goroutine is live at any moment of the run. */
  ghost predicate Quiet(s: State, steps: seq<Step>)
    requires IsRun(s, steps)
    decreases |steps|
  {
    s.counter == 0 && (steps != [] ==> Quiet(Do(s, steps[0]), steps[1..]))
  }

  lemma {:induction false} QuietToTheEnd(s: State, steps: seq<Step>)
    requires IsRun(s, steps) && Quiet(s, steps)
    ensures After(s, steps).counter == 0
    decreases |steps|
  {
    if steps != [] {
      QuietToTheEnd(Do(s, steps[0]), steps[1..]);
    }
  }

  /** From the moment `Wait` returns, and so while the databases close, no goroutine is live
      exactly when no job is triggered. */
  lemma {:induction false} NothingSpawnsAfterWait(s: State, steps: seq<Step>)
    requires Inv(s) && s.closer.WaitReturned() && s.late == 0 && IsRun(s, steps)
    ensures Quiet(s, steps) <==> TriggerJob !in steps
    ensures After(s, steps).closer.WaitReturned()
    ensures TriggerJob !in steps ==> After(s, steps).counter == 0
    decreases |steps|
  {
    if steps != [] {
      var s' := Do(s, steps[0]);
      assert steps == [steps[0]] + steps[1..];
      RunKeeps(s, [steps[0]]);
      AfterWaitStays(s', steps[1..]);
      if steps[0] != TriggerJob {
        NothingSpawnsAfterWait(s', steps[1..]);
      }
    }
    if Quiet(s, steps) {
      QuietToTheEnd(s, steps);
    }
  }

  lemma {:induction false} AfterWaitStays(s: State, steps: seq<Step>)
    requires s.closer.WaitReturned() && IsRun(s, steps)
    ensures After(s, steps).closer.WaitReturned()
    decreases |steps|
  {
    if steps != [] {
      AfterWaitStays(Do(s, steps[0]), steps[1..]);
    }
  }

  /** Closing never blocks for good: whatever state it finds, the goroutines that are left
      can all return, after which `Wait` returns. */
  lemma {:induction false} CloseCanFinish(s: State) returns (steps: seq<Step>)
    requires Inv(s) && s.closer.Waiting?
    ensures IsRun(s, steps) && After(s, steps).closer.Drained? && TriggerJob !in steps
    ensures |steps| == s.counter + 1
    decreases s.counter
  {
    if s.counter == 0 {
      steps := [WaitReturns];
      assert IsRun(Do(s, WaitReturns), steps[1..]);
    } else {
      var first :=
        if s.polling then PollLoopReturns
        else if s.scheduled > 0 then ScheduledReturns
        else if s.executors > 0 then ExecutorReturns
        else TriggeredReturns(false);
      var rest := CloseCanFinish(Do(s, first));
      steps := [first] + rest;
      assert steps[1..] == rest;
    }
  }

  /** A job triggered after `Wait` returned is live while both databases are closed. */
  lemma LateTriggerOutlivesDatabases() returns (steps: seq<Step>)
    ensures IsRun(INIT, steps)
    ensures After(INIT, steps).closer.AppClosed? && After(INIT, steps).counter == 1
  {
    steps := [BeginClose, WaitReturns, TriggerJob, CloseWorkerDatabase, CloseAppDatabase];
    var s1 := Do(INIT, BeginClose);
    var s2 := Do(s1, WaitReturns);
    var s3 := Do(s2, TriggerJob);
    var s4 := Do(s3, CloseWorkerDatabase);
    var s5 := Do(s4, CloseAppDatabase);
    assert steps[1..][1..][1..][1..][1..] == [];
    assert IsRun(s5, []) && After(s5, []) == s5;
    assert steps[1..][1..][1..][1..] == [CloseAppDatabase];
    assert IsRun(s4, [CloseAppDatabase]) && After(s4, [CloseAppDatabase]) == s5;
    assert steps[1..][1..][1..] == [CloseWorkerDatabase, CloseAppDatabase];
    assert steps[1..][1..] == [TriggerJob, CloseWorkerDatabase, CloseAppDatabase];
    assert steps[1..] == [WaitReturns, TriggerJob, CloseWorkerDatabase, CloseAppDatabase];
  }
}
