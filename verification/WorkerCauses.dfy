/** Why a job is where it is: what an outcome write does to its row, what takes a row out of the
    queue, and what the cause of a burial says (core/worker/worker.go). */
module WorkerCauses {
  import opened Wrappers
  import opened JobTables
  import opened WorkerProtocol
  import opened WorkerInvariant

  // ---------- what is run ----------

  /** An executor that called `Run` holds a registered job whose payload decodes. */
  ghost predicate CalledRuns(cfg: Config, s: State, e: Executor) {
    !e.phase.Spawned? ==> s.process.Polling? && Runs(cfg, s.process.jobs, e.record.name, e.record.payload)
  }

  ghost predicate AllCalledRun(cfg: Config, s: State) {
    forall g :: g in s.executors ==> CalledRuns(cfg, s, s.executors[g])
  }

  /** `Run` is called on a claimed job exactly when it may be. */
  lemma StartsExactly(cfg: Config, s: State, g: nat)
    requires s.process.Polling? && g in s.executors && s.executors[g].phase.Spawned?
    ensures Enabled(cfg, s, StartRun(g)) <==>
      Runs(cfg, s.process.jobs, s.executors[g].record.name, s.executors[g].record.payload)
  {
  }

  lemma StepKeepsCalled(cfg: Config, s: State, step: Step)
    requires Exclusive(s) && AllCalledRun(cfg, s) && Enabled(cfg, s, step)
    ensures AllCalledRun(cfg, Do(cfg, s, step))
  {
    var s' := Do(cfg, s, step);
    forall g | g in s'.executors
      ensures CalledRuns(cfg, s', s'.executors[g])
    {
      if g in s.executors {
        assert CalledRuns(cfg, s, s.executors[g]);
        if step.Poll? {
          PollKeepsOwner(s, step.records, step.now, step.commit, g);
        }
      } else {
        PollMakesOwner(s, step.records, step.now, step.commit, g);
      }
    }
  }

  // ---------- why a job was buried ----------

  /** An unknown job was buried with its name, an undecodable payload with the decoder's error,
      and an exhausted job after all its attempts. */
  ghost predicate Explained(cfg: Config, row: GraveRow, cause: Cause) {
    match cause
    case UnknownJob => row.lastError == "unknown job: " + row.name && row.attempts < cfg.maxAttempts
    case BadPayload =>
      && row.payload.Some? && cfg.decodeError(row.payload.value) == Some(row.lastError)
      && row.attempts < cfg.maxAttempts
    case Exhausted => row.attempts == cfg.maxAttempts
  }

  ghost predicate ExplainedAt(cfg: Config, s: State, id: Id) {
    id in s.tables.graveyard ==> id in s.causes && Explained(cfg, s.tables.graveyard[id], s.causes[id])
  }

  /** Only an outcome write buries, and it buries its own job alone. */
  lemma StepBuriesOwn(cfg: Config, s: State, step: Step, id: Id)
    requires Enabled(cfg, s, step)
    requires !step.Settle? || s.executors[step.g].record.id != id
    ensures var s' := Do(cfg, s, step);
      && (id in s'.tables.graveyard <==> id in s.tables.graveyard)
      && (id in s.tables.graveyard ==> s'.tables.graveyard[id] == s.tables.graveyard[id])
      && (id in s'.causes <==> id in s.causes) && (id in s.causes ==> s'.causes[id] == s.causes[id])
  {
  }

  lemma BurialExplained(cfg: Config, s: State, g: nat, now: int)
    requires s.process.Polling? && g in s.executors && s.executors[g].record.attempts < cfg.maxAttempts
    requires Due(cfg, s, g).Some? && Due(cfg, s, g).value.ToGraveyard?
    ensures var record, action := s.executors[g].record, Due(cfg, s, g).value;
      Explained(cfg, GraveRow(record.name, record.payload, action.attempts, action.lastError, now), action.cause)
  {
  }

  lemma SettleExplains(cfg: Config, s: State, step: Step)
    requires Inv(cfg, s) && Enabled(cfg, s, step) && step.Settle?
    ensures ExplainedAt(cfg, Do(cfg, s, step), s.executors[step.g].record.id)
  {
    var id := s.executors[step.g].record.id;
    assert Owns(s.executors[step.g], s.tables.queue) && ConservedAt(s, id) && BoundedAt(cfg, s, id);
    if Due(cfg, s, step.g).value.ToGraveyard? {
      BurialExplained(cfg, s, step.g, step.now);
    }
  }

  lemma StepKeepsExplained(cfg: Config, s: State, step: Step, id: Id)
    requires Inv(cfg, s) && Enabled(cfg, s, step) && ExplainedAt(cfg, s, id)
    ensures ExplainedAt(cfg, Do(cfg, s, step), id)
  {
    if step.Settle? && s.executors[step.g].record.id == id {
      SettleExplains(cfg, s, step);
    } else {
      StepBuriesOwn(cfg, s, step, id);
    }
  }

  lemma {:induction false} RunKeepsExplained(cfg: Config, s: State, steps: seq<Step>, id: Id)
    requires Inv(cfg, s) && AllCalledRun(cfg, s) && ExplainedAt(cfg, s, id) && IsRun(cfg, s, steps)
    ensures var s' := After(cfg, s, steps);
      Inv(cfg, s') && AllCalledRun(cfg, s') && ExplainedAt(cfg, s', id)
    decreases |steps|
  {
    if steps != [] {
      StepKeeps(cfg, s, steps[0]);
      StepKeepsCalled(cfg, s, steps[0]);
      StepKeepsExplained(cfg, s, steps[0], id);
      RunKeepsExplained(cfg, Do(cfg, s, steps[0]), steps[1..], id);
    }
  }

  lemma ReachableExplained(cfg: Config, s: State, id: Id)
    requires cfg.maxAttempts >= 1 && Reachable(cfg, s)
    ensures Inv(cfg, s) && AllCalledRun(cfg, s) && ExplainedAt(cfg, s, id)
  {
    var steps :| IsRun(cfg, INIT, steps) && After(cfg, INIT, steps) == s;
    assert Inv(cfg, INIT) && AllCalledRun(cfg, INIT) && ExplainedAt(cfg, INIT, id);
    RunKeepsExplained(cfg, INIT, steps, id);
  }

  /** In every reachable state `Run` is only ever called on a registered job whose payload
      decodes. */
  lemma OnlyRunnableJobsRun(cfg: Config, s: State, g: nat)
    requires cfg.maxAttempts >= 1 && Reachable(cfg, s) && g in s.executors && !s.executors[g].phase.Spawned?
    ensures s.process.Polling?
    ensures Runs(cfg, s.process.jobs, s.executors[g].record.name, s.executors[g].record.payload)
  {
    ReachableExplained(cfg, s, s.executors[g].record.id);
    assert CalledRuns(cfg, s, s.executors[g]);
  }

  /** In every reachable state an accepted job that is not waiting has succeeded, or is buried:
      as unknown, as undecodable, or after `maxAttempts` attempts that all failed. */
  lemma FinishedForAReason(cfg: Config, s: State, id: Id)
    requires cfg.maxAttempts >= 1 && Reachable(cfg, s) && id in s.accepted && id !in s.tables.queue
    ensures id in s.ledger
    ensures id in s.tables.history ==> s.ledger[id].succeeded >= 1
    ensures id !in s.tables.history ==>
      && id in s.tables.graveyard
      && var row := s.tables.graveyard[id];
         || (row.lastError == "unknown job: " + row.name && row.attempts < cfg.maxAttempts)
         || (row.payload.Some? && cfg.decodeError(row.payload.value) == Some(row.lastError)
             && row.attempts < cfg.maxAttempts)
         || (row.attempts == cfg.maxAttempts && s.ledger[id].failed >= cfg.maxAttempts)
  {
    ReachableExplained(cfg, s, id);
    assert ConservedAt(s, id) && BoundedAt(cfg, s, id) && AccountedAt(s, id);
  }

  // ---------- what a step does to a row ----------

  /** The write due from an executor is the one that its job's outcome calls for. */
  lemma DueIsTheAction(cfg: Config, s: State, g: nat, failure: Option<string>)
    requires s.process.Polling? && g in s.executors && CalledRuns(cfg, s, s.executors[g]) && Due(cfg, s, g).Some?
    requires s.executors[g].phase.Returned? ==> s.executors[g].phase.failure == failure
    ensures Due(cfg, s, g).value == ActionFor(cfg, s.process.jobs, s.executors[g].record, failure)
  {
  }

  lemma SettledTables(cfg: Config, s: State, step: Step)
    requires Enabled(cfg, s, step) && step.Settle?
    ensures var effect := Effect(s.tables, s.executors[step.g].record, Due(cfg, s, step.g).value, step.now);
      Do(cfg, s, step).tables == Written(s.tables, effect, step.commit)
  {
  }

  /** An outcome write that lands puts the job where the outcome belongs, and moves no other; one
      that is lost moves nothing. */
  lemma SettleEndsAt(cfg: Config, s: State, step: Step, failure: Option<string>)
    requires cfg.maxAttempts >= 1 && Reachable(cfg, s) && Enabled(cfg, s, step) && step.Settle?
    requires s.executors[step.g].phase.Returned? ==> s.executors[step.g].phase.failure == failure
    ensures var s' := Do(cfg, s, step);
      var id := s.executors[step.g].record.id;
      && id in s.tables.queue
      && (step.commit.Lost? ==> s'.tables == s.tables)
      && (!step.commit.Lost? ==>
            EndsAt(cfg, s.process.jobs, s.tables.queue[id], failure, step.now,
                   PlaceOf(s.tables, id), PlaceOf(s'.tables, id)))
      && (forall k :: k != id ==> PlaceOf(s'.tables, k) == PlaceOf(s.tables, k))
  {
    var record := s.executors[step.g].record;
    ReachableExplained(cfg, s, record.id);
    assert Owns(s.executors[step.g], s.tables.queue) && ConservedAt(s, record.id);
    DueIsTheAction(cfg, s, step.g, failure);
    OutcomeOfRow(cfg, s.process.jobs, s.tables, record, failure, step.now);
    SettledTables(cfg, s, step);
  }

  /** A job whose call failed leaves the queue if and only if that was its last attempt. */
  lemma FailureLeavesExactly(cfg: Config, s: State, step: Step)
    requires cfg.maxAttempts >= 1 && Reachable(cfg, s) && Enabled(cfg, s, step) && step.Settle?
    requires s.executors[step.g].phase.Returned? && s.executors[step.g].phase.failure.Some? && !step.commit.Lost?
    ensures var s' := Do(cfg, s, step);
      var id := s.executors[step.g].record.id;
      var error := s.executors[step.g].phase.failure.value;
      && id in s.tables.queue
      && var attempts := s.tables.queue[id].attempts + 1;
         && (id in s'.tables.queue <==> attempts < cfg.maxAttempts)
         && (id in s'.tables.queue ==>
               s'.tables.queue[id].status == Pending && s'.tables.queue[id].attempts == attempts)
         && (id !in s'.tables.queue ==>
               && id in s'.tables.graveyard && s'.tables.graveyard[id].lastError == error
               && s'.tables.graveyard[id].attempts == attempts == cfg.maxAttempts)
  {
    var id := s.executors[step.g].record.id;
    var failure := s.executors[step.g].phase.failure;
    SettleEndsAt(cfg, s, step, failure);
    ReachableInv(cfg, s);
    assert BoundedAt(cfg, s, id);
    OnlyRunnableJobsRun(cfg, s, step.g);
    assert Owns(s.executors[step.g], s.tables.queue);
  }

  /** A row leaves the queue only by an outcome write of its own executor: after a success, after
      the last attempt, or because it may not be run. */
  lemma LeavesOnlyBySettling(cfg: Config, s: State, step: Step, id: Id)
    requires Inv(cfg, s) && Enabled(cfg, s, step)
    requires id in s.tables.queue && id !in Do(cfg, s, step).tables.queue
    ensures step.Settle? && s.executors[step.g].record.id == id && !step.commit.Lost?
    ensures var e := s.executors[step.g];
      || e.phase == Returned(None)
      || (e.phase.Returned? && s.tables.queue[id].attempts + 1 == cfg.maxAttempts)
      || (e.phase.Spawned? && !Runs(cfg, s.process.jobs, e.record.name, e.record.payload))
  {
    if step.Settle? {
      if s.executors[step.g].record.id != id {
        SettleLeavesOthers(cfg, s, step.g, step.now, step.commit, id);
      } else {
        assert Owns(s.executors[step.g], s.tables.queue) && BoundedAt(cfg, s, id);
      }
    }
  }

  /** An enqueue that takes effect adds a waiting row without attempts, and nothing else. */
  lemma EnqueuedWaits(cfg: Config, s: State, step: Step)
    requires Inv(cfg, s) && Enabled(cfg, s, step) && step.Enqueue?
    ensures var s' := Do(cfg, s, step);
      && s'.tables.history == s.tables.history && s'.tables.graveyard == s.tables.graveyard
      && s'.tables.queue == if step.commit.Lost? then s.tables.queue
           else s.tables.queue[step.id := QueueRow(step.name, step.payload, 0, Pending, step.now, step.now)]
  {
    assert ConservedAt(s, step.id);
  }

  /** A poll that reports success gives every waiting row an executor, with what the row holds. */
  lemma WaitingRowsAreClaimed(cfg: Config, s: State, step: Step, id: Id)
    requires Inv(cfg, s) && Enabled(cfg, s, step) && step.Poll? && step.commit.Committed?
    requires id in s.tables.queue && s.tables.queue[id].status == Pending
    ensures var s' := Do(cfg, s, step);
      var row := s.tables.queue[id];
      && id in s'.tables.queue && s'.tables.queue[id] == row.(status := Running, updatedAt := step.now)
      && exists g :: g in s'.executors
                     && s'.executors[g] == Executor(JobRecord(id, row.name, row.payload, row.attempts), Spawned)
  {
    var s' := Do(cfg, s, step);
    var i :| 0 <= i < |step.records| && step.records[i].id == id;
    var g := s.nextGoroutine + i;
    assert g - s.nextGoroutine == i;
    assert s'.executors[g] == Executor(step.records[i], Spawned);
  }
}
