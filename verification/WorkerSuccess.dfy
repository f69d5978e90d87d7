/** How often a job succeeds: exactly when no success was lost is it once for a completed job
    and never for a buried one. */
module WorkerSuccess {
  import opened Wrappers
  import opened JobTables
  import opened WorkerProtocol
  import opened WorkerInvariant

  /** Successful calls are recorded, lost, or not yet settled. */
  ghost predicate SuccessAt(s: State, id: Id) {
    id in s.ledger ==>
      s.ledger[id].succeeded == s.ledger[id].lostOk + LiveOk(s, id) + (if id in s.tables.history then 1 else 0)
  }

  // ---------- which executors hold a success ----------

  /** An executor of one id changing phase changes no other id. */
  lemma MoveSuccess(s: State, s': State, g: nat, phase: Phase)
    requires Exclusive(s) && g in s.executors
    requires s'.executors == s.executors[g := s.executors[g].(phase := phase)]
    ensures LiveOk(s, s.executors[g].record.id) == if s.executors[g].phase == Returned(None) then 1 else 0
    ensures LiveOk(s', s.executors[g].record.id) == if phase == Returned(None) then 1 else 0
    ensures forall k :: k != s.executors[g].record.id ==> LiveOk(s', k) == LiveOk(s, k)
  {
    var id := s.executors[g].record.id;
    assert s'.executors[g].record.id == id && s'.executors[g].phase == phase;
    forall k | k != id
      ensures LiveOk(s', k) == LiveOk(s, k)
    {
      assert forall h :: h in s.executors && s.executors[h].record.id == k ==> s'.executors[h] == s.executors[h];
      assert forall h :: h in s'.executors && s'.executors[h].record.id == k ==> s'.executors[h] == s.executors[h];
    }
  }

  lemma DropSuccess(s: State, s': State, g: nat)
    requires Exclusive(s) && g in s.executors && s'.executors == s.executors - {g}
    ensures LiveOk(s, s.executors[g].record.id) == if s.executors[g].phase == Returned(None) then 1 else 0
    ensures LiveOk(s', s.executors[g].record.id) == 0
    ensures forall k :: k != s.executors[g].record.id ==> LiveOk(s', k) == LiveOk(s, k)
  {
    forall k | k != s.executors[g].record.id
      ensures LiveOk(s', k) == LiveOk(s, k)
    {
      assert forall h :: h in s.executors && s.executors[h].record.id == k ==> h in s'.executors;
    }
  }

  lemma PollFindsNoSuccess(s: State, records: seq<JobRecord>, now: int, commit: Commit, id: Id)
    requires Exclusive(s) && ListsPending(s.tables.queue, records)
    ensures LiveOk(DoPoll(s, records, now, commit), id) == LiveOk(s, id)
  {
    var s' := DoPoll(s, records, now, commit);
    if LiveOk(s, id) == 1 {
      var g :| g in s.executors && s.executors[g].record.id == id && s.executors[g].phase == Returned(None);
      PollKeepsOwner(s, records, now, commit, g);
    }
    if LiveOk(s', id) == 1 {
      var g :| g in s'.executors && s'.executors[g].record.id == id && s'.executors[g].phase == Returned(None);
      if g in s.executors {
        PollKeepsOwner(s, records, now, commit, g);
      } else {
        PollMakesOwner(s, records, now, commit, g);
      }
    }
  }

  // ---------- step by step ----------

  lemma EnqueueKeepsSuccess(s: State, id: Id, name: string, payload: Option<string>, now: int, commit: Commit, k: Id)
    requires Conserved(s) && Exclusive(s) && id !in s.accepted && SuccessAt(s, k)
    ensures SuccessAt(DoEnqueue(s, id, name, payload, now, commit), k)
  {
    FreshIsUnowned(s, id);
    assert ConservedAt(s, id);
    assert LiveOk(DoEnqueue(s, id, name, payload, now, commit), k) == LiveOk(s, k);
  }

  lemma RunStepKeepsSuccess(cfg: Config, s: State, step: Step, k: Id)
    requires step.StartRun? || step.FinishRun?
    requires Exclusive(s) && Enabled(cfg, s, step) && SuccessAt(s, k)
    ensures SuccessAt(Do(cfg, s, step), k)
  {
    MoveSuccess(s, Do(cfg, s, step), step.g, PhaseAfter(step));
  }

  lemma SettleKeepsSuccess(cfg: Config, s: State, g: nat, now: int, commit: Commit, k: Id)
    requires Inv(cfg, s) && s.process.Polling? && g in s.executors && Due(cfg, s, g).Some? && SuccessAt(s, k)
    ensures SuccessAt(DoSettle(cfg, s, g, now, commit), k)
  {
    var s' := DoSettle(cfg, s, g, now, commit);
    DropSuccess(s, s', g);
    if k != s.executors[g].record.id {
      SettleLeavesOthers(cfg, s, g, now, commit, k);
    } else {
      SettleMeetsNoKey(cfg, s, g, now);
      assert Owns(s.executors[g], s.tables.queue);
      assert ConservedAt(s, k);
    }
  }

  lemma CrashKeepsSuccess(s: State, k: Id)
    requires SuccessAt(s, k)
    ensures SuccessAt(DoCrash(s), k)
  {
    assert LiveOk(DoCrash(s), k) == 0;
  }

  lemma StepKeepsSuccess(cfg: Config, s: State, step: Step, k: Id)
    requires Inv(cfg, s) && SuccessAt(s, k) && Enabled(cfg, s, step)
    ensures SuccessAt(Do(cfg, s, step), k)
  {
    match step
    case Boot(_) => assert LiveOk(Do(cfg, s, step), k) == LiveOk(s, k);
    case ResetOrphans(_, _) => assert LiveOk(Do(cfg, s, step), k) == LiveOk(s, k);
    case Enqueue(id, name, payload, now, commit) => EnqueueKeepsSuccess(s, id, name, payload, now, commit, k);
    case Poll(records, now, commit) => PollFindsNoSuccess(s, records, now, commit, k);
    case StartRun(_) => RunStepKeepsSuccess(cfg, s, step, k);
    case FinishRun(_, _) => RunStepKeepsSuccess(cfg, s, step, k);
    case Settle(g, now, commit) => SettleKeepsSuccess(cfg, s, g, now, commit, k);
    case Crash => CrashKeepsSuccess(s, k);
  }

  lemma {:induction false} RunKeepsSuccess(cfg: Config, s: State, steps: seq<Step>, k: Id)
    requires Inv(cfg, s) && SuccessAt(s, k) && IsRun(cfg, s, steps)
    ensures SuccessAt(After(cfg, s, steps), k)
    decreases |steps|
  {
    if steps != [] {
      StepKeeps(cfg, s, steps[0]);
      StepKeepsSuccess(cfg, s, steps[0], k);
      RunKeepsSuccess(cfg, Do(cfg, s, steps[0]), steps[1..], k);
    }
  }

  lemma ReachableSuccess(cfg: Config, s: State, id: Id)
    requires cfg.maxAttempts >= 1 && Reachable(cfg, s)
    ensures SuccessAt(s, id)
  {
    var steps :| IsRun(cfg, INIT, steps) && After(cfg, INIT, steps) == s;
    assert Inv(cfg, INIT);
    RunKeepsSuccess(cfg, INIT, steps, id);
  }

  /** A finished row has no executor left. */
  lemma FinishedIsIdle(cfg: Config, s: State, id: Id)
    requires Inv(cfg, s) && (id in s.tables.history || id in s.tables.graveyard)
    ensures id in s.ledger && Live(s, id) == 0 && LiveOk(s, id) == 0
  {
    assert ConservedAt(s, id) && AccountedAt(s, id);
    assert forall g :: g in s.executors ==> Owns(s.executors[g], s.tables.queue);
  }

  // ---------- the exact conditions ----------

  /** In every reachable state a completed job succeeded exactly once, and a buried one never,
      exactly when no success of it was lost; and `Run` was called exactly as often as the row
      says exactly when no outcome was lost. */
  lemma ExactlyOnce(cfg: Config, s: State, id: Id)
    requires cfg.maxAttempts >= 1 && Reachable(cfg, s) && (id in s.tables.history || id in s.tables.graveyard)
    ensures id in s.ledger
    ensures id in s.tables.history ==> (s.ledger[id].succeeded == 1 <==> s.ledger[id].lostOk == 0)
    ensures id in s.tables.graveyard ==> (s.ledger[id].succeeded == 0 <==> s.ledger[id].lostOk == 0)
    ensures s.ledger[id].started == Recorded(s.tables, id) <==> s.ledger[id].lost == 0
  {
    ReachableInv(cfg, s);
    ReachableSuccess(cfg, s, id);
    FinishedIsIdle(cfg, s, id);
    assert ConservedAt(s, id) && AccountedAt(s, id);
  }

  /** Without any lost outcome the failures are exact as well: `attempts - 1` before the one
      success, or `maxAttempts` and no success. */
  lemma ExactlyOnceWithoutLoss(cfg: Config, s: State, id: Id)
    requires cfg.maxAttempts >= 1 && Reachable(cfg, s) && id in s.ledger && s.ledger[id].lost == 0
    ensures id in s.tables.history ==>
      && s.ledger[id].started == s.tables.history[id].attempts
      && s.ledger[id].succeeded == 1
      && s.ledger[id].failed == s.tables.history[id].attempts - 1
    ensures id in s.tables.graveyard && id in s.causes && s.causes[id] == Exhausted ==>
      && s.ledger[id].started == s.ledger[id].failed == cfg.maxAttempts
      && s.ledger[id].succeeded == 0
  {
    ReachableInv(cfg, s);
    if id in s.tables.history || id in s.tables.graveyard {
      FinishedIsIdle(cfg, s, id);
      assert ConservedAt(s, id) && BoundedAt(cfg, s, id) && AccountedAt(s, id);
    }
  }
}
