/** Any number of processes that validate at any time and apply later, with possibly
    different lists of files, against one database (core/db/migrate/migrate.go). */
module Migrators {
  import opened Wrappers
  import opened MigrationFiles
  import opened Migrations
  import opened MigrationApply

  /** `seen` is the number of rows the process validated against. */
  datatype Process = Idle | Planned(files: seq<MigrationFile>, plan: seq<MigrationFile>, seen: nat)

  /** `log` is bookkeeping: the files committed so far, in order. */
  datatype State = State(db: Database, processes: map<nat, Process>, log: seq<MigrationFile>)

  datatype Step =
    | Validate(p: nat, files: seq<MigrationFile>)
    | Apply(p: nat, clock: int -> int, trouble: Trouble)
    | Stop(p: nat)

  function Init(schema: Schema): State {
    State(Database(schema, None), map[], [])
  }

  /** A process that fails validation stops; only successful validation is a step. */
  ghost predicate Enabled(s: State, step: Step) {
    match step
    case Validate(_, files) => Numbered(files) && Accepts(files, AppliedRows(s.db))
    case Apply(p, _, _) => p in s.processes && s.processes[p].Planned?
    case Stop(p) => p in s.processes
  }

  ghost predicate Commits(run: Runner, s: State, step: Step)
    requires Enabled(s, step)
  {
    && step.Apply?
    && s.processes[step.p].plan != []
    && Transaction(run, step.clock, s.db, s.processes[step.p].plan).Some?
    && step.trouble.CommitEnds? && step.trouble.commit.Durable()
  }

  ghost function Do(run: Runner, s: State, step: Step): State
    requires Enabled(s, step)
  {
    match step
    case Validate(p, files) =>
      var applied := AppliedRows(s.db);
      s.(processes := s.processes[p := Planned(files, Pending(files, applied), |applied|)])
    case Apply(p, clock, trouble) =>
      var plan := s.processes[p].plan;
      State(AfterApply(run, clock, s.db, plan, trouble),
            s.processes[p := Idle],
            if Commits(run, s, step) then s.log + plan else s.log)
    case Stop(p) => s.(processes := s.processes - {p})
  }

  ghost predicate IsRun(run: Runner, s: State, steps: seq<Step>)
    decreases |steps|
  {
    steps == [] || (Enabled(s, steps[0]) && IsRun(run, Do(run, s, steps[0]), steps[1..]))
  }

  ghost function After(run: Runner, s: State, steps: seq<Step>): State
    requires IsRun(run, s, steps)
    decreases |steps|
  {
    if steps == [] then s else After(run, Do(run, s, steps[0]), steps[1..])
  }

  predicate SameRecord(a: MigrationFile, b: MigrationFile) {
    a.sequence == b.sequence && a.filename == b.filename && a.checksum == b.checksum
  }

  /** What a process planned still fits the log it was validated against. */
  ghost predicate PlanFits(log: seq<MigrationFile>, process: Process) {
    process.Planned? ==>
      && Numbered(process.files)
      && process.seen <= |process.files| && process.seen <= |log|
      && process.plan == process.files[process.seen..]
      && forall i :: 0 <= i < process.seen ==> SameRecord(process.files[i], log[i])
  }

  ghost predicate Inv(run: Runner, schema: Schema, s: State) {
    && Numbered(s.log)
    && Tracks(AppliedRows(s.db), s.log)
    && RunAll(run, schema, s.log) == Some(s.db.schema)
    && forall p :: p in s.processes ==> PlanFits(s.log, s.processes[p])
  }

  lemma ValidateKeeps(run: Runner, schema: Schema, s: State, step: Step)
    requires Inv(run, schema, s) && step.Validate? && Enabled(s, step)
    ensures Inv(run, schema, Do(run, s, step))
  {
    PlanMadeNowFits(s.log, AppliedRows(s.db), step.files);
  }

  lemma PlanMadeNowFits(log: seq<MigrationFile>, applied: Tracking, files: seq<MigrationFile>)
    requires Numbered(files) && Numbered(log) && Tracks(applied, log) && Accepts(files, applied)
    ensures PlanFits(log, Planned(files, Pending(files, applied), |applied|))
  {
    KeyCount(applied, |log|);
    AcceptedIsPrefix(files, applied);
    PlanOfPrefix(files, applied, |log|);
    PrefixFitsLog(log, applied, files);
  }

  lemma PrefixFitsLog(log: seq<MigrationFile>, applied: Tracking, files: seq<MigrationFile>)
    requires Numbered(files) && Numbered(log) && Tracks(applied, log) && AppliedPrefix(files, applied, |log|)
    ensures forall i :: 0 <= i < |log| ==> SameRecord(files[i], log[i])
  {
    forall i | 0 <= i < |log|
      ensures SameRecord(files[i], log[i])
    {
      assert Agrees(applied[i + 1], files[i]) && Agrees(applied[i + 1], log[i]);
    }
  }

  /** A non-empty plan made from fewer rows than there are now changes nothing. */
  lemma StalePlanIsHarmless(run: Runner, schema: Schema, s: State, step: Step)
    requires Inv(run, schema, s) && step.Apply? && Enabled(s, step)
    requires s.processes[step.p].plan != [] && s.processes[step.p].seen < |s.log|
    ensures Do(run, s, step).db == s.db && Do(run, s, step).log == s.log
    ensures !ApplySucceeds(run, step.clock, s.db, s.processes[step.p].plan, step.trouble)
  {
    var process := s.processes[step.p];
    assert PlanFits(s.log, process);
    assert process.plan[0] == process.files[process.seen];
    StalePlanRollsBack(run, step.clock, s.db, process.plan);
  }

  /** A plan that does commit was made from all the rows there are; afterwards the table
      is the committing process's whole list of files. */
  lemma CommitMatchesWholeList(run: Runner, schema: Schema, s: State, step: Step)
    requires Inv(run, schema, s) && Enabled(s, step) && Commits(run, s, step)
    ensures var process := s.processes[step.p]; var s' := Do(run, s, step);
      && process.seen == |s.log|
      && s'.log == s.log + process.plan && Numbered(s'.log)
      && Tracks(AppliedRows(s'.db), process.files)
      && Tracks(AppliedRows(s'.db), s'.log)
      && RunAll(run, schema, s'.log) == Some(s'.db.schema)
      && |s'.log| == |process.files| && forall i :: 0 <= i < |s'.log| ==> SameRecord(process.files[i], s'.log[i])
  {
    var process := s.processes[step.p];
    assert PlanFits(s.log, process);
    if process.seen < |s.log| {
      StalePlanIsHarmless(run, schema, s, step);
    }
    LogThenPlan(s.log, process);
    FreshPlanExtends(run, step.clock, s.db, s.log, process.plan);
    RunAllConcat(run, schema, s.log, process.plan);
    TracksSame(AppliedRows(Do(run, s, step).db), s.log + process.plan, process.files);
  }

  /** The log and a plan made from all of it name the process's own files. */
  lemma LogThenPlan(log: seq<MigrationFile>, process: Process)
    requires Numbered(log) && process.Planned? && PlanFits(log, process) && process.seen == |log|
    ensures var all := log + process.plan;
      Numbered(all) && |all| == |process.files| && forall i :: 0 <= i < |all| ==> SameRecord(process.files[i], all[i])
  {
    var all := log + process.plan;
    forall i | 0 <= i < |all|
      ensures all[i].sequence == i + 1 && SameRecord(process.files[i], all[i])
    {
    }
  }

  lemma TracksSame(rows: Tracking, log: seq<MigrationFile>, files: seq<MigrationFile>)
    requires Tracks(rows, log) && |log| == |files| && forall i :: 0 <= i < |log| ==> SameRecord(files[i], log[i])
    ensures Tracks(rows, files)
  {
    forall k | 1 <= k <= |files|
      ensures rows[k].sequence == k && Agrees(rows[k], files[k - 1])
    {
      assert SameRecord(files[k - 1], log[k - 1]);
    }
  }

  lemma ApplyKeeps(run: Runner, schema: Schema, s: State, step: Step)
    requires Inv(run, schema, s) && step.Apply? && Enabled(s, step)
    ensures Inv(run, schema, Do(run, s, step))
  {
    var s' := Do(run, s, step);
    if Commits(run, s, step) {
      CommitMatchesWholeList(run, schema, s, step);
      forall p | p in s'.processes
        ensures PlanFits(s'.log, s'.processes[p])
      {
        assert p != step.p ==> PlanFits(s.log, s.processes[p]);
      }
    } else {
      assert s'.db == s.db;
    }
  }

  lemma StepKeeps(run: Runner, schema: Schema, s: State, step: Step)
    requires Inv(run, schema, s) && Enabled(s, step)
    ensures Inv(run, schema, Do(run, s, step))
    ensures s.log <= Do(run, s, step).log
  {
    match step
    case Validate(_, _) => ValidateKeeps(run, schema, s, step);
    case Apply(_, _, _) => ApplyKeeps(run, schema, s, step);
    case Stop(_) =>
  }

  lemma {:induction false} RunKeeps(run: Runner, schema: Schema, s: State, steps: seq<Step>)
    requires Inv(run, schema, s) && IsRun(run, s, steps)
    ensures Inv(run, schema, After(run, s, steps))
    ensures s.log <= After(run, s, steps).log
    decreases |steps|
  {
    if steps != [] {
      StepKeeps(run, schema, s, steps[0]);
      RunKeeps(run, schema, Do(run, s, steps[0]), steps[1..]);
    }
  }

  /** Whatever the processes do, the table holds exactly 1..n, and the schema is what the n
      committed files give when each is run once, in sequence order. */
  lemma TableHasNoGap(run: Runner, schema: Schema, steps: seq<Step>)
    requires IsRun(run, Init(schema), steps)
    ensures var s := After(run, Init(schema), steps);
      && (forall k :: k in AppliedRows(s.db) <==> 1 <= k <= |s.log|)
      && Numbered(s.log)
      && Tracks(AppliedRows(s.db), s.log)
      && RunAll(run, schema, s.log) == Some(s.db.schema)
  {
    RunKeeps(run, schema, Init(schema), steps);
  }

  /** A committed sequence is committed once: later steps only append to the log, and its
      row keeps its name and checksum. */
  lemma CommittedOnce(run: Runner, schema: Schema, before: seq<Step>, later: seq<Step>, k: int)
    requires IsRun(run, Init(schema), before) && IsRun(run, After(run, Init(schema), before), later)
    requires k in AppliedRows(After(run, Init(schema), before).db)
    ensures var s := After(run, Init(schema), before); var t := After(run, s, later);
      && s.log <= t.log
      && k in AppliedRows(t.db)
      && AppliedRows(t.db)[k].filename == AppliedRows(s.db)[k].filename
      && AppliedRows(t.db)[k].checksum == AppliedRows(s.db)[k].checksum
      && (forall i :: 0 <= i < |t.log| && t.log[i].sequence == k ==> i == k - 1)
  {
    RunKeeps(run, schema, Init(schema), before);
    var s := After(run, Init(schema), before);
    RunKeeps(run, schema, s, later);
    assert After(run, s, later).log[k - 1] == s.log[k - 1];
  }
}
