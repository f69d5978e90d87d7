/** What every run of the worker guarantees. */
module WorkerTheorems {
  import opened Wrappers
  import opened JobTables
  import opened WorkerProtocol
  import opened WorkerInvariant

  /** Each executor's record equals a running row, and no two executors hold one id; so
      two calls of `Run` for one id never overlap. */
  lemma ExclusiveOwnership(cfg: Config, s: State)
    requires cfg.maxAttempts >= 1 && Reachable(cfg, s)
    ensures forall g :: g in s.executors ==>
      var r := s.executors[g].record;
      && r.id in s.tables.queue
      && s.tables.queue[r.id].status == Running
      && s.tables.queue[r.id].name == r.name
      && s.tables.queue[r.id].payload == r.payload
      && s.tables.queue[r.id].attempts == r.attempts
    ensures forall g, h :: g in s.executors && h in s.executors && g != h ==>
      s.executors[g].record.id != s.executors[h].record.id
  {
    ReachableInv(cfg, s);
    assert forall g :: g in s.executors ==> Owns(s.executors[g], s.tables.queue);
  }

  /** The accepted ids are split between the three tables, each row keeping the name and
      payload that were enqueued. */
  lemma Conservation(cfg: Config, s: State)
    requires cfg.maxAttempts >= 1 && Reachable(cfg, s)
    ensures s.accepted.Keys == s.tables.queue.Keys + s.tables.history.Keys + s.tables.graveyard.Keys
    ensures s.tables.queue.Keys !! s.tables.history.Keys !! s.tables.graveyard.Keys
    ensures forall id :: id in s.tables.queue ==>
      s.accepted[id] == Job(s.tables.queue[id].name, s.tables.queue[id].payload)
    ensures forall id :: id in s.tables.history ==>
      s.accepted[id] == Job(s.tables.history[id].name, s.tables.history[id].payload)
    ensures forall id :: id in s.tables.graveyard ==>
      s.accepted[id] == Job(s.tables.graveyard[id].name, s.tables.graveyard[id].payload)
  {
    ReachableInv(cfg, s);
    var t := s.tables;
    forall id: Id
      ensures id in s.accepted <==> id in t.queue || id in t.history || id in t.graveyard
      ensures !(id in t.queue && id in t.history)
      ensures !(id in t.queue && id in t.graveyard)
      ensures !(id in t.history && id in t.graveyard)
      ensures id in t.queue ==> s.accepted[id] == Job(t.queue[id].name, t.queue[id].payload)
      ensures id in t.history ==> s.accepted[id] == Job(t.history[id].name, t.history[id].payload)
      ensures id in t.graveyard ==> s.accepted[id] == Job(t.graveyard[id].name, t.graveyard[id].payload)
    {
      assert ConservedAt(s, id);
    }
  }

  /** One step removes or rewrites no finished row and forgets no accepted job. */
  lemma StepKeepsFinished(cfg: Config, s: State, step: Step)
    requires Inv(cfg, s) && Enabled(cfg, s, step)
    ensures var s' := Do(cfg, s, step);
      && (forall id :: id in s.tables.history ==>
            id in s'.tables.history && s'.tables.history[id] == s.tables.history[id])
      && (forall id :: id in s.tables.graveyard ==>
            id in s'.tables.graveyard && s'.tables.graveyard[id] == s.tables.graveyard[id])
      && (forall id :: id in s.accepted ==> id in s'.accepted && s'.accepted[id] == s.accepted[id])
  {
    if step.Settle? {
      var id := s.executors[step.g].record.id;
      assert Owns(s.executors[step.g], s.tables.queue);
      assert ConservedAt(s, id);
      forall k | k != id
        ensures k in s.tables.history ==>
          k in Do(cfg, s, step).tables.history && Do(cfg, s, step).tables.history[k] == s.tables.history[k]
        ensures k in s.tables.graveyard ==>
          k in Do(cfg, s, step).tables.graveyard && Do(cfg, s, step).tables.graveyard[k] == s.tables.graveyard[k]
      {
        SettleLeavesOthers(cfg, s, step.g, step.now, step.commit, k);
      }
    }
  }

  /** Whatever happens later, a finished row stays as it was written and an accepted job
      keeps its name and payload. */
  lemma {:induction false} FinishedRowsAreFinal(cfg: Config, s: State, steps: seq<Step>)
    requires cfg.maxAttempts >= 1 && Inv(cfg, s) && IsRun(cfg, s, steps)
    ensures var s' := After(cfg, s, steps);
      && (forall id :: id in s.tables.history ==>
            id in s'.tables.history && s'.tables.history[id] == s.tables.history[id])
      && (forall id :: id in s.tables.graveyard ==>
            id in s'.tables.graveyard && s'.tables.graveyard[id] == s.tables.graveyard[id])
      && (forall id :: id in s.accepted ==> id in s'.accepted && s'.accepted[id] == s.accepted[id])
    decreases |steps|
  {
    if steps != [] {
      StepKeepsFinished(cfg, s, steps[0]);
      StepKeeps(cfg, s, steps[0]);
      FinishedRowsAreFinal(cfg, Do(cfg, s, steps[0]), steps[1..]);
    }
  }

  /** No outcome write is ever rejected: its insert meets no primary key. */
  lemma OutcomeIsNeverRejected(cfg: Config, s: State, g: nat, now: int)
    requires cfg.maxAttempts >= 1 && Reachable(cfg, s)
    requires s.process.Polling? && g in s.executors && Due(cfg, s, g).Some?
    ensures Effect(s.tables, s.executors[g].record, Due(cfg, s, g).value, now).Some?
  {
    ReachableInv(cfg, s);
    SettleMeetsNoKey(cfg, s, g, now);
  }

  /** Calls of `Run` started for an id are those its row records, plus one in progress,
      plus those whose outcome was lost; finished rows imply the calls they stand for. */
  lemma CallsAreAccountedFor(cfg: Config, s: State, id: Id)
    requires cfg.maxAttempts >= 1 && Reachable(cfg, s) && id in s.accepted
    ensures id in s.ledger
    ensures s.ledger[id].started == Recorded(s.tables, id) + Live(s, id) + s.ledger[id].lost
    ensures id in s.tables.history ==> s.ledger[id].succeeded >= 1
    ensures id in s.tables.graveyard && id in s.causes && s.causes[id] == Exhausted ==>
      s.ledger[id].failed >= cfg.maxAttempts
  {
    ReachableInv(cfg, s);
    assert ConservedAt(s, id) && BoundedAt(cfg, s, id) && AccountedAt(s, id);
  }

  lemma AttemptBounds(cfg: Config, s: State, id: Id)
    requires cfg.maxAttempts >= 1 && Reachable(cfg, s)
    ensures id in s.tables.queue ==> 0 <= s.tables.queue[id].attempts < cfg.maxAttempts
    ensures id in s.tables.history ==> 1 <= s.tables.history[id].attempts <= cfg.maxAttempts
    ensures id in s.tables.graveyard ==>
      && id in s.causes
      && 0 <= s.tables.graveyard[id].attempts <= cfg.maxAttempts
      && (s.tables.graveyard[id].attempts == cfg.maxAttempts <==> s.causes[id] == Exhausted)
  {
    ReachableInv(cfg, s);
    assert BoundedAt(cfg, s, id);
  }

  // ---------- why nothing stronger holds ----------

  lemma {:induction false} Append(cfg: Config, s: State, steps: seq<Step>, last: Step)
    requires IsRun(cfg, s, steps) && Enabled(cfg, After(cfg, s, steps), last)
    ensures IsRun(cfg, s, steps + [last])
    ensures After(cfg, s, steps + [last]) == Do(cfg, After(cfg, s, steps), last)
    decreases |steps|
  {
    var all := steps + [last];
    if steps == [] {
      assert all == [last] && all[1..] == [];
      assert IsRun(cfg, Do(cfg, s, last), []);
    } else {
      Append(cfg, Do(cfg, s, steps[0]), steps[1..], last);
      assert all[0] == steps[0] && all[1..] == steps[1..] + [last];
    }
  }

  lemma ReachableStep(cfg: Config, s: State, step: Step) returns (s': State)
    requires Reachable(cfg, s) && Enabled(cfg, s, step)
    ensures s' == Do(cfg, s, step) && Reachable(cfg, s')
  {
    var steps :| IsRun(cfg, INIT, steps) && After(cfg, INIT, steps) == s;
    Append(cfg, INIT, steps, step);
    s' := Do(cfg, s, step);
  }

  lemma InitReachable(cfg: Config)
    ensures Reachable(cfg, INIT)
  {
    assert IsRun(cfg, INIT, []) && After(cfg, INIT, []) == INIT;
  }

  /** Boots and resets a worker whose queue holds one job. */
  lemma ReachPolling(cfg: Config, s: State, record: JobRecord) returns (s': State)
    requires Reachable(cfg, s) && s.process.Down?
    requires s.tables.queue.Keys == {record.id} && Matches(record, s.tables.queue[record.id])
    ensures Reachable(cfg, s')
    ensures s'.process == Polling({record.name}) && s'.tables.queue.Keys == {record.id}
    ensures Matches(record, s'.tables.queue[record.id]) && s'.tables.queue[record.id].status == Pending
    ensures s' == s.(process := s'.process, tables := s.tables.(queue := s'.tables.queue))
  {
    s' := ReachableStep(cfg, s, Boot({record.name}));
    s' := ReachableStep(cfg, s', ResetOrphans(0, Committed));
    assert s'.tables.queue.Keys == {record.id};
  }

  /** Boots, resets and claims the one job there is. */
  lemma ReachSpawned(cfg: Config, s: State, record: JobRecord) returns (s': State)
    requires Reachable(cfg, s) && s.process.Down? && s.executors == map[]
    requires s.tables.queue.Keys == {record.id} && Matches(record, s.tables.queue[record.id])
    ensures Reachable(cfg, s') && s'.process == Polling({record.name})
    ensures s'.executors == map[s.nextGoroutine := Executor(record, Spawned)]
    ensures s'.tables.queue.Keys == {record.id} && Matches(record, s'.tables.queue[record.id])
    ensures s' == s.(process := s'.process, executors := s'.executors, nextGoroutine := s.nextGoroutine + 1,
                     tables := s.tables.(queue := s'.tables.queue))
  {
    var up := ReachPolling(cfg, s, record);
    var records := [record];
    assert ListsPending(up.tables.queue, records) by {
      assert records[0].id == record.id;
    }
    s' := ReachableStep(cfg, up, Poll(records, 0, Committed));
    assert s' == DoPoll(up, records, 0, Committed);
    assert Spawn(up.nextGoroutine, records) == map[up.nextGoroutine := Executor(record, Spawned)];
    ClaimMarks(up.tables, 0, record.id);
    assert s'.tables.queue.Keys == {record.id};
  }

  lemma NoteTwice(s: State, id: Id, first: Ledger, second: Ledger)
    ensures Note(Note(s, id, first), id, second) == Note(s, id, first.Plus(second))
  {
    if id in s.ledger {
      assert s.ledger[id := s.ledger[id].Plus(first)][id := s.ledger[id].Plus(first).Plus(second)]
        == s.ledger[id := s.ledger[id].Plus(first.Plus(second))];
    }
  }

  /** A process without executors loses nothing when it dies. */
  lemma IdleCrash(s: State)
    requires s.executors == map[]
    ensures DoCrash(s) == s.(process := Down)
  {
    assert forall id :: Live(s, id) == 0 && LiveOk(s, id) == 0;
    assert DoCrash(s).ledger == s.ledger;
  }

  lemma ReachCrash(cfg: Config, s: State) returns (s': State)
    requires Reachable(cfg, s) && !s.process.Down? && s.executors == map[]
    ensures Reachable(cfg, s') && s' == s.(process := Down)
  {
    s' := ReachableStep(cfg, s, Crash);
    IdleCrash(s);
  }

  /** Calls `Run` once, to its end. */
  lemma ReachReturned(cfg: Config, s: State, g: nat, failure: Option<string>) returns (s': State)
    requires Reachable(cfg, s)
    requires g in s.executors && s.executors[g].phase.Spawned? && s.process.Polling?
    requires s.executors[g].record.name in s.process.jobs && s.executors[g].record.payload.None?
    ensures Reachable(cfg, s')
    ensures var called := s.(executors := s.executors[g := s.executors[g].(phase := Returned(failure))]);
      s' == Note(called, s.executors[g].record.id, Ledger(1, 0, 0, 0, 0).Plus(ReturnOf(failure)))
  {
    var id := s.executors[g].record.id;
    var called := s.(executors := s.executors[g := s.executors[g].(phase := Returned(failure))]);
    var up := ReachableStep(cfg, s, StartRun(g));
    s' := ReachableStep(cfg, up, FinishRun(g, failure));
    assert up.executors[g := up.executors[g].(phase := Returned(failure))] == called.executors;
    assert s' == Note(Note(called, id, Ledger(1, 0, 0, 0, 0)), id, ReturnOf(failure));
    NoteTwice(called, id, Ledger(1, 0, 0, 0, 0), ReturnOf(failure));
  }

  /** Calls `Run` once and tries to store its outcome. */
  lemma ReachSettled(cfg: Config, s: State, g: nat, failure: Option<string>, commit: Commit) returns (s': State)
    requires Reachable(cfg, s)
    requires g in s.executors && s.executors[g].phase.Spawned? && s.process.Polling?
    requires s.executors[g].record.name in s.process.jobs && s.executors[g].record.payload.None?
    ensures Reachable(cfg, s')
    ensures var called := s.(executors := s.executors[g := s.executors[g].(phase := Returned(failure))]);
      var id := s.executors[g].record.id;
      s' == DoSettle(cfg, Note(called, id, Ledger(1, 0, 0, 0, 0).Plus(ReturnOf(failure))),
                     g, 0, commit)
  {
    var returned := ReachReturned(cfg, s, g, failure);
    s' := ReachableStep(cfg, returned, Settle(g, 0, commit));
  }

  /** The state in which the only executor's call has returned. */
  function Called(s: State, g: nat, record: JobRecord, failure: Option<string>): State {
    Note(s.(executors := map[g := Executor(record, Returned(failure))]), record.id,
         Ledger(1, 0, 0, 0, 0).Plus(ReturnOf(failure)))
  }

  /** The one job's success is lost. */
  lemma LoseSuccess(cfg: Config, s: State, g: nat, record: JobRecord)
    requires s.process.Polling? && record.id in s.ledger
    ensures var s' := DoSettle(cfg, Called(s, g, record, None), g, 0, Lost);
      && s'.ledger == s.ledger[record.id := s.ledger[record.id].Plus(Ledger(1, 1, 0, 1, 1))]
      && s'.executors == map[] && s'.tables == s.tables
      && s'.process == s.process && s'.nextGoroutine == s.nextGoroutine
  {
    var called := Called(s, g, record, None);
    assert called.executors - {g} == map[];
  }

  /** The one job's failure is its last. */
  lemma BuryFailure(cfg: Config, s: State, g: nat, record: JobRecord, failure: string)
    requires s.process.Polling? && record.id in s.ledger && record.attempts + 1 >= cfg.maxAttempts
    requires record.id !in s.tables.graveyard
    ensures var s' := DoSettle(cfg, Called(s, g, record, Some(failure)), g, 0, Committed);
      && record.id in s'.tables.graveyard
      && record.id in s'.causes && s'.causes[record.id] == Exhausted
      && s'.ledger == s.ledger[record.id := s.ledger[record.id].Plus(Ledger(1, 0, 1, 0, 0))]
  {
  }

  ghost predicate OnlySpawned(s: State, g: nat, record: JobRecord) {
    && s.process == Polling({record.name}) && record.payload.None? && record.id in s.ledger
    && s.executors == map[g := Executor(record, Spawned)]
  }

  lemma ReachLoss(cfg: Config, s: State, g: nat, record: JobRecord) returns (s': State)
    requires Reachable(cfg, s) && OnlySpawned(s, g, record)
    ensures Reachable(cfg, s')
    ensures s'.ledger == s.ledger[record.id := s.ledger[record.id].Plus(Ledger(1, 1, 0, 1, 1))]
    ensures s'.executors == map[] && s'.tables == s.tables
    ensures s'.process == s.process && s'.nextGoroutine == s.nextGoroutine
  {
    s' := ReachSettled(cfg, s, g, None, Lost);
    assert s.executors[g := Executor(record, Returned(None))] == map[g := Executor(record, Returned(None))];
    LoseSuccess(cfg, s, g, record);
  }

  lemma ReachBurial(cfg: Config, s: State, g: nat, record: JobRecord, failure: string) returns (s': State)
    requires Reachable(cfg, s) && OnlySpawned(s, g, record)
    requires record.attempts + 1 >= cfg.maxAttempts && record.id !in s.tables.graveyard
    ensures Reachable(cfg, s') && record.id in s'.tables.graveyard
    ensures record.id in s'.causes && s'.causes[record.id] == Exhausted
    ensures s'.ledger == s.ledger[record.id := s.ledger[record.id].Plus(Ledger(1, 0, 1, 0, 0))]
  {
    s' := ReachSettled(cfg, s, g, Some(failure), Committed);
    var returned := Executor(record, Returned(Some(failure)));
    assert s.executors[g := returned] == map[g := returned];
    BuryFailure(cfg, s, g, record, failure);
  }

  /** A worker that accepted one job and died before it ran. */
  lemma ReachAccepted(cfg: Config, record: JobRecord) returns (s: State)
    requires record.payload.None? && record.attempts == 0
    ensures Reachable(cfg, s) && s.process.Down? && s.executors == map[] && s.nextGoroutine == 0
    ensures s.tables.queue.Keys == {record.id} && Matches(record, s.tables.queue[record.id])
    ensures s.tables.history == map[] && s.tables.graveyard == map[]
    ensures s.ledger == map[record.id := NO_CALLS]
  {
    InitReachable(cfg);
    var up := ReachableStep(cfg, INIT, Boot({record.name}));
    assert up == INIT.(process := Booted({record.name}));
    var accepted := ReachableStep(cfg, up, Enqueue(record.id, record.name, None, 0, Committed));
    assert accepted == DoEnqueue(up, record.id, record.name, None, 0, Committed);
    assert accepted.ledger == map[record.id := NO_CALLS] && accepted.executors == map[];
    s := ReachCrash(cfg, accepted);
  }

  /** A job that ran once with success, its outcome write lost, and then the process died. */
  lemma ReachLostSuccess(cfg: Config, record: JobRecord) returns (s: State)
    requires record.payload.None? && record.attempts == 0
    ensures Reachable(cfg, s) && s.process.Down? && s.executors == map[] && s.nextGoroutine == 1
    ensures s.tables.queue.Keys == {record.id} && Matches(record, s.tables.queue[record.id])
    ensures s.tables.history == map[] && s.tables.graveyard == map[]
    ensures s.ledger == map[record.id := Ledger(1, 1, 0, 1, 1)]
  {
    var accepted := ReachAccepted(cfg, record);
    var spawned := ReachSpawned(cfg, accepted, record);
    var settled := ReachLoss(cfg, spawned, 0, record);
    s := ReachCrash(cfg, settled);
  }

  /** A successful call whose outcome write is lost can be followed by a failing one that
      buries the job: a buried job may have succeeded, and `Run` was called more than
      `maxAttempts` times. */
  lemma BuriedJobMayHaveSucceeded() returns (cfg: Config, s: State, id: Id)
    ensures cfg.maxAttempts == 1 && Reachable(cfg, s)
    ensures id in s.tables.graveyard && id in s.causes && s.causes[id] == Exhausted
    ensures id in s.ledger && s.ledger[id].succeeded == 1 && s.ledger[id].started == 2
  {
    cfg := Config(1, text => None);
    id := "job";
    var record := JobRecord(id, "backup", None, 0);
    var lost := ReachLostSuccess(cfg, record);
    var spawned := ReachSpawned(cfg, lost, record);
    s := ReachBurial(cfg, spawned, 1, record, "no space");
  }
}
