/** The worker as a transition system over its tables, its executor goroutines and
    its process (core/worker/worker.go).  One process runs at a time; it boots, resets
    orphans once, then polls.  Every write may be lost or have its reply lost, and the
    process may die at any point. */
module WorkerProtocol {
  import opened Wrappers
  import opened JobTables

  /** `decodeError` is the JSON decoder: `None` when the text decodes. */
  datatype Config = Config(maxAttempts: int, decodeError: string -> Option<string>)

  datatype Cause = UnknownJob | BadPayload | Exhausted

  /** The single write an executor ends with. */
  datatype Action =
    | ToHistory(attempts: int)
    | BackToQueue(attempts: int)
    | ToGraveyard(attempts: int, lastError: string, cause: Cause)

  /** `None` when the job can be run: it is registered and its payload decodes. */
  function Rejection(cfg: Config, jobs: set<string>, record: JobRecord): Option<Action> {
    if record.name !in jobs then
      Some(ToGraveyard(record.attempts, "unknown job: " + record.name, UnknownJob))
    else if record.payload.Some? && cfg.decodeError(record.payload.value).Some? then
      Some(ToGraveyard(record.attempts, cfg.decodeError(record.payload.value).value, BadPayload))
    else
      None
  }

  /** What follows a call of `Run`; `failure` is its error, `None` when it succeeded. */
  function Verdict(cfg: Config, record: JobRecord, failure: Option<string>): Action {
    var newAttempts := record.attempts + 1;
    if failure.None? then ToHistory(newAttempts)
    else if newAttempts >= cfg.maxAttempts then ToGraveyard(newAttempts, failure.value, Exhausted)
    else BackToQueue(newAttempts)
  }

  function Effect(t: Tables, record: JobRecord, action: Action, now: int): Option<Tables> {
    match action
    case ToHistory(attempts) => Complete(t, record, attempts, now)
    case BackToQueue(attempts) => Some(Retry(t, record.id, attempts, now))
    case ToGraveyard(attempts, lastError, _) => Bury(t, record, attempts, lastError, now)
  }

  /** The write that ends the work on `record`; `failure` is what a call of `Run` would return. */
  function ActionFor(cfg: Config, jobs: set<string>, record: JobRecord, failure: Option<string>): Action {
    var rejection := Rejection(cfg, jobs, record);
    if rejection.Some? then rejection.value else Verdict(cfg, record, failure)
  }

  // ---------- what must become of a claimed job ----------

  /** `Run` may be called: the name is registered and the payload, if any, decodes. */
  predicate Runs(cfg: Config, jobs: set<string>, name: string, payload: Option<string>) {
    name in jobs && (payload.Some? ==> cfg.decodeError(payload.value).None?)
  }

  /** The place of a claimed row once its executor has ended and its write is in, if `Run`
      was called with this outcome:
      an unknown name or a payload that does not decode is buried with that error and its
      attempts as they were; a success is completed; a failure waits for its next attempt
      exactly while attempts are left, and is buried with its error otherwise. */
  predicate EndsAt(
    cfg: Config, jobs: set<string>, row: QueueRow, failure: Option<string>, now: int, before: Place, after: Place)
  {
    && (row.name !in jobs ==>
          after == before.(queue := None, graveyard :=
            Some(GraveRow(row.name, row.payload, row.attempts, "unknown job: " + row.name, now))))
    && (row.name in jobs && row.payload.Some? && cfg.decodeError(row.payload.value).Some? ==>
          after == before.(queue := None, graveyard :=
            Some(GraveRow(row.name, row.payload, row.attempts, cfg.decodeError(row.payload.value).value, now))))
    && (Runs(cfg, jobs, row.name, row.payload) && failure.None? ==>
          after == before.(queue := None, history :=
            Some(HistoryRow(row.name, row.payload, row.attempts + 1, now))))
    && (Runs(cfg, jobs, row.name, row.payload) && failure.Some? && row.attempts + 1 < cfg.maxAttempts ==>
          after == before.(queue := Some(row.(status := Pending, attempts := row.attempts + 1, updatedAt := now))))
    && (Runs(cfg, jobs, row.name, row.payload) && failure.Some? && row.attempts + 1 >= cfg.maxAttempts ==>
          after == before.(queue := None, graveyard :=
            Some(GraveRow(row.name, row.payload, row.attempts + 1, failure.value, now))))
  }

  /** The record is what the queue holds of its job, and the job is nowhere else. */
  predicate Claimed(t: Tables, record: JobRecord) {
    && record.id in t.queue && Matches(record, t.queue[record.id])
    && record.id !in t.history && record.id !in t.graveyard
  }

  /** Where the job of a claimed record ends. */
  lemma OutcomeOfRow(
    cfg: Config, jobs: set<string>, t: Tables, record: JobRecord, failure: Option<string>, now: int)
    requires Claimed(t, record)
    ensures var effect := Effect(t, record, ActionFor(cfg, jobs, record, failure), now);
      && effect.Some?
      && EndsAt(cfg, jobs, t.queue[record.id], failure, now, PlaceOf(t, record.id), PlaceOf(effect.value, record.id))
      && forall id :: id != record.id ==> PlaceOf(effect.value, id) == PlaceOf(t, id)
  {
  }

  // ---------- states ----------

  datatype Phase = Spawned | InRun | Returned(failure: Option<string>)

  datatype Executor = Executor(record: JobRecord, phase: Phase)

  datatype Process = Down | Booted(jobs: set<string>) | Polling(jobs: set<string>)

  /** Bookkeeping only: what was accepted into the queue for an id. */
  datatype Job = Job(name: string, payload: Option<string>)

  /** Bookkeeping only: calls of `Run` for one id.  A lost call is one whose outcome
      never reached the tables; `lostOk` counts those of them that had returned success. */
  datatype Ledger = Ledger(started: nat, succeeded: nat, failed: nat, lost: nat, lostOk: nat) {
    function Plus(more: Ledger): Ledger {
      Ledger(started + more.started, succeeded + more.succeeded, failed + more.failed,
             lost + more.lost, lostOk + more.lostOk)
    }
  }

  const NO_CALLS := Ledger(0, 0, 0, 0, 0)

  /** A call returning. */
  function ReturnOf(failure: Option<string>): Ledger {
    if failure.None? then Ledger(0, 1, 0, 0, 0) else Ledger(0, 0, 1, 0, 0)
  }

  /** The outcome of a call being lost. */
  function LossOf(phase: Phase): Ledger {
    if phase.Returned? then Ledger(0, 0, 0, 1, if phase.failure.None? then 1 else 0) else NO_CALLS
  }

  datatype State = State(
    tables: Tables,
    process: Process,
    executors: map<nat, Executor>,
    nextGoroutine: nat,
    accepted: map<Id, Job>,
    ledger: map<Id, Ledger>,
    causes: map<Id, Cause>)

  const INIT := State(EMPTY, Down, map[], 0, map[], map[], map[])

  datatype Step =
    | Boot(jobs: set<string>)
    | ResetOrphans(now: int, commit: Commit)
    | Enqueue(id: Id, name: string, payload: Option<string>, now: int, commit: Commit)
    | Poll(records: seq<JobRecord>, now: int, commit: Commit)
    | StartRun(g: nat)
    | FinishRun(g: nat, failure: Option<string>)
    | Settle(g: nat, now: int, commit: Commit)
    | Crash

  /** The write due from executor `g`, if it has reached it. */
  function Due(cfg: Config, s: State, g: nat): Option<Action>
    requires g in s.executors && s.process.Polling?
  {
    var e := s.executors[g];
    match e.phase
    case Spawned => Rejection(cfg, s.process.jobs, e.record)
    case InRun => None
    case Returned(failure) => Some(Verdict(cfg, e.record, failure))
  }

  ghost predicate Enabled(cfg: Config, s: State, step: Step) {
    match step
    case Boot(_) => s.process.Down?
    case ResetOrphans(_, _) => s.process.Booted?
    // Ids are fresh random UUIDs.
    case Enqueue(id, name, _, _, _) => !s.process.Down? && name in s.process.jobs && id !in s.accepted
    case Poll(records, _, _) => s.process.Polling? && ListsPending(s.tables.queue, records)
    case StartRun(g) =>
      s.process.Polling? && g in s.executors && s.executors[g].phase.Spawned? && Due(cfg, s, g).None?
    case FinishRun(g, _) => s.process.Polling? && g in s.executors && s.executors[g].phase.InRun?
    case Settle(g, _, _) => s.process.Polling? && g in s.executors && Due(cfg, s, g).Some?
    case Crash => !s.process.Down?
  }

  ghost function Do(cfg: Config, s: State, step: Step): State
    requires Enabled(cfg, s, step)
  {
    match step
    case Boot(jobs) => s.(process := Booted(jobs))
    case ResetOrphans(now, commit) =>
      // A failed reset is logged and polling starts all the same.
      s.(process := Polling(s.process.jobs), tables := Written(s.tables, Some(Reset(s.tables, now)), commit))
    case Enqueue(id, name, payload, now, commit) => DoEnqueue(s, id, name, payload, now, commit)
    case Poll(records, now, commit) => DoPoll(s, records, now, commit)
    case StartRun(g) =>
      var e := s.executors[g];
      Note(s.(executors := s.executors[g := e.(phase := InRun)]), e.record.id, Ledger(1, 0, 0, 0, 0))
    case FinishRun(g, failure) =>
      var e := s.executors[g];
      Note(s.(executors := s.executors[g := e.(phase := Returned(failure))]), e.record.id, ReturnOf(failure))
    case Settle(g, now, commit) => DoSettle(cfg, s, g, now, commit)
    case Crash => DoCrash(s)
  }

  /** Every call in progress is lost. */
  ghost function DoCrash(s: State): State {
    s.(process := Down, executors := map[],
       ledger := map id | id in s.ledger :: s.ledger[id].Plus(Ledger(0, 0, 0, Live(s, id), LiveOk(s, id))))
  }

  function Note(s: State, id: Id, more: Ledger): State {
    if id !in s.ledger then s else s.(ledger := s.ledger[id := s.ledger[id].Plus(more)])
  }

  function DoEnqueue(s: State, id: Id, name: string, payload: Option<string>, now: int, commit: Commit): State {
    var effect := Insert(s.tables, id, name, payload, now);
    if effect.None? || commit.Lost? then s
    else s.(tables := effect.value,
            accepted := s.accepted[id := Job(name, payload)],
            ledger := s.ledger[id := NO_CALLS])
  }

  /** One executor per claimed record, unless the claim reported an error. */
  function DoPoll(s: State, records: seq<JobRecord>, now: int, commit: Commit): State {
    s.(tables := Written(s.tables, Some(Claim(s.tables, now)), commit),
       executors := if commit.Reported() then s.executors + Spawn(s.nextGoroutine, records) else s.executors,
       nextGoroutine := if commit.Reported() then s.nextGoroutine + |records| else s.nextGoroutine)
  }

  function Spawn(base: nat, records: seq<JobRecord>): map<nat, Executor> {
    map g: nat {:trigger g - base} | base <= g < base + |records| :: Executor(records[g - base], Spawned)
  }

  /** Outcome errors are only logged: the executor ends whether or not the write landed. */
  function DoSettle(cfg: Config, s: State, g: nat, now: int, commit: Commit): State
    requires s.process.Polling? && g in s.executors && Due(cfg, s, g).Some?
  {
    var e := s.executors[g];
    var action := Due(cfg, s, g).value;
    var effect := Effect(s.tables, e.record, action, now);
    var landed := effect.Some? && commit.Durable();
    Note(s.(tables := Written(s.tables, effect, commit),
            executors := s.executors - {g},
            causes := if landed && action.ToGraveyard? then s.causes[e.record.id := action.cause] else s.causes),
         e.record.id, if landed then NO_CALLS else LossOf(e.phase))
  }

  /** 1 when a call of `Run` for `id` has started and its outcome is not yet settled. */
  ghost function Live(s: State, id: Id): nat {
    if exists g :: g in s.executors && s.executors[g].record.id == id && !s.executors[g].phase.Spawned? then 1 else 0
  }

  /** 1 when a call of `Run` for `id` has returned success and its outcome is not yet settled. */
  ghost function LiveOk(s: State, id: Id): nat {
    if exists g :: g in s.executors && s.executors[g].record.id == id && s.executors[g].phase == Returned(None)
    then 1 else 0
  }

  // ---------- runs ----------

  ghost predicate IsRun(cfg: Config, s: State, steps: seq<Step>)
    decreases |steps|
  {
    steps == [] || (Enabled(cfg, s, steps[0]) && IsRun(cfg, Do(cfg, s, steps[0]), steps[1..]))
  }

  ghost function After(cfg: Config, s: State, steps: seq<Step>): State
    requires IsRun(cfg, s, steps)
    decreases |steps|
  {
    if steps == [] then s else After(cfg, Do(cfg, s, steps[0]), steps[1..])
  }

  ghost predicate Reachable(cfg: Config, s: State) {
    exists steps :: IsRun(cfg, INIT, steps) && After(cfg, INIT, steps) == s
  }
}
