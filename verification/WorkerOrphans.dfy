/** Where a healthy worker comes to rest: its queue then holds exactly the rows that were
    orphaned before, running and no executor's (core/worker/worker.go). */
module WorkerOrphans {
  import opened Wrappers
  import opened JobTables
  import opened WorkerProtocol
  import opened WorkerInvariant
  import opened WorkerDrain

  ghost predicate HasExecutor(s: State, id: Id) {
    exists g :: g in s.executors && s.executors[g].record.id == id
  }

  /** A running row that no executor holds. */
  ghost predicate Orphan(s: State, id: Id) {
    id in s.tables.queue && s.tables.queue[id].status == Running && !HasExecutor(s, id)
  }

  ghost predicate NoOrphans(s: State) {
    forall id :: !Orphan(s, id)
  }

  // ---------- how orphans arise and go ----------

  /** A reset that lands leaves no orphan, whatever the previous process left behind. */
  lemma ResetClearsOrphans(cfg: Config, s: State, now: int, commit: Commit)
    requires Enabled(cfg, s, ResetOrphans(now, commit)) && commit.Durable()
    ensures NoOrphans(Do(cfg, s, ResetOrphans(now, commit)))
  {
  }

  /** An executor leaves its row orphaned exactly when its outcome is lost. */
  lemma LostOutcomeStrands(cfg: Config, s: State, step: Step)
    requires Inv(cfg, s) && Enabled(cfg, s, step) && step.Settle?
    ensures Orphan(Do(cfg, s, step), s.executors[step.g].record.id) <==> step.commit.Lost?
  {
    var s' := Do(cfg, s, step);
    var id := s.executors[step.g].record.id;
    assert Owns(s.executors[step.g], s.tables.queue);
    SettleMeetsNoKey(cfg, s, step.g, step.now);
    assert s'.executors == s.executors - {step.g};
    assert !HasExecutor(s', id);
  }

  lemma PollSpawns(s: State, records: seq<JobRecord>, now: int, i: nat)
    requires i < |records|
    ensures HasExecutor(DoPoll(s, records, now, Committed), records[i].id)
  {
    var s' := DoPoll(s, records, now, Committed);
    var g := s.nextGoroutine + i;
    assert g - s.nextGoroutine == i;
    assert s'.executors[g] == Executor(records[i], Spawned);
  }

  /** A poll orphans a pending row exactly when the claim takes effect but reports an error. */
  lemma LostClaimStrands(cfg: Config, s: State, step: Step, id: Id)
    requires Inv(cfg, s) && Enabled(cfg, s, step) && step.Poll?
    requires id in s.tables.queue && s.tables.queue[id].status == Pending
    ensures Orphan(Do(cfg, s, step), id) <==> step.commit.Ambiguous?
  {
    ClaimMarks(s.tables, step.now, id);
    if step.commit.Committed? {
      var i :| 0 <= i < |step.records| && step.records[i].id == id;
      PollSpawns(s, step.records, step.now, i);
    } else if step.commit.Ambiguous? {
      assert Do(cfg, s, step).executors == s.executors;
      assert forall g :: g in s.executors ==> Owns(s.executors[g], s.tables.queue);
    }
  }

  // ---------- healthy steps ----------

  lemma PollKeepsOrphans(cfg: Config, s: State, step: Step, id: Id)
    requires Inv(cfg, s) && Healthy(cfg, s, step) && step.Poll?
    ensures Orphan(Do(cfg, s, step), id) <==> Orphan(s, id)
    ensures Orphan(s, id) ==> Do(cfg, s, step).tables.queue[id] == s.tables.queue[id]
  {
    var s' := Do(cfg, s, step);
    if id in s.tables.queue && s.tables.queue[id].status == Pending {
      LostClaimStrands(cfg, s, step, id);
    } else {
      if HasExecutor(s, id) {
        var g :| g in s.executors && s.executors[g].record.id == id;
        PollKeepsOwner(s, step.records, step.now, Committed, g);
      }
      if HasExecutor(s', id) {
        var g :| g in s'.executors && s'.executors[g].record.id == id;
        if g !in s.executors {
          PollMakesOwner(s, step.records, step.now, Committed, g);
        } else {
          PollKeepsOwner(s, step.records, step.now, Committed, g);
        }
      }
    }
  }

  lemma SettleKeepsOrphans(cfg: Config, s: State, step: Step, id: Id)
    requires Inv(cfg, s) && Healthy(cfg, s, step) && step.Settle?
    ensures Orphan(Do(cfg, s, step), id) <==> Orphan(s, id)
    ensures Orphan(s, id) ==> Do(cfg, s, step).tables.queue[id] == s.tables.queue[id]
  {
    var s' := Do(cfg, s, step);
    assert s'.executors == s.executors - {step.g};
    if id == s.executors[step.g].record.id {
      LostOutcomeStrands(cfg, s, step);
    } else {
      SettleLeavesOthers(cfg, s, step.g, step.now, step.commit, id);
      if HasExecutor(s, id) {
        var g :| g in s.executors && s.executors[g].record.id == id;
        assert g in s'.executors && s'.executors[g] == s.executors[g];
      }
    }
  }

  lemma RunStepKeepsOrphans(cfg: Config, s: State, step: Step, id: Id)
    requires Inv(cfg, s) && Healthy(cfg, s, step) && (step.StartRun? || step.FinishRun?)
    ensures Orphan(Do(cfg, s, step), id) <==> Orphan(s, id)
    ensures Orphan(s, id) ==> Do(cfg, s, step).tables.queue[id] == s.tables.queue[id]
  {
    var s' := Do(cfg, s, step);
    assert forall g :: g in s'.executors <==> g in s.executors;
    assert forall g :: g in s.executors ==> s'.executors[g].record == s.executors[g].record;
  }

  /** No healthy step makes an orphan, clears one, or changes its row. */
  lemma HealthyStepKeepsOrphans(cfg: Config, s: State, step: Step, id: Id)
    requires Inv(cfg, s) && Healthy(cfg, s, step)
    ensures Orphan(Do(cfg, s, step), id) <==> Orphan(s, id)
    ensures Orphan(s, id) ==> Do(cfg, s, step).tables.queue[id] == s.tables.queue[id]
  {
    if step.Poll? {
      PollKeepsOrphans(cfg, s, step, id);
    } else if step.Settle? {
      SettleKeepsOrphans(cfg, s, step, id);
    } else {
      RunStepKeepsOrphans(cfg, s, step, id);
    }
  }

  // ---------- where it stops ----------

  lemma PendingCanMove(cfg: Config, s: State, some: Id) returns (step: Step)
    requires s.process.Polling? && some in s.tables.queue && s.tables.queue[some].status == Pending
    ensures Healthy(cfg, s, step)
  {
    var queue := s.tables.queue;
    var pending := set id | id in queue && queue[id].status == Pending;
    var records := SomeListing(queue, pending);
    forall i | 0 <= i < |records|
      ensures records[i].id in pending
    {
      assert records[i].id in IdsOf(records);
    }
    forall id | id in queue && queue[id].status == Pending
      ensures exists i :: 0 <= i < |records| && records[i].id == id
    {
      assert id in pending && id in IdsOf(records);
    }
    assert records != [] by {
      assert some in pending && some in IdsOf(records);
    }
    assert ListsPending(queue, records);
    step := Poll(records, 0, Committed);
  }

  lemma ExecutorCanMove(cfg: Config, s: State, g: nat) returns (step: Step)
    requires s.process.Polling? && g in s.executors
    ensures Healthy(cfg, s, step)
  {
    if s.executors[g].phase.InRun? {
      step := FinishRun(g, None);
    } else if Due(cfg, s, g).Some? {
      step := Settle(g, 0, Committed);
    } else {
      step := StartRun(g);
    }
  }

  /** While the queue holds a row that is not orphaned, a polling worker has a step to take. */
  lemma NonEmptyQueueCanMove(cfg: Config, s: State, id: Id) returns (step: Step)
    requires s.process.Polling? && id in s.tables.queue && !Orphan(s, id)
    ensures Healthy(cfg, s, step)
  {
    if s.tables.queue[id].status == Pending {
      step := PendingCanMove(cfg, s, id);
    } else {
      var g :| g in s.executors && s.executors[g].record.id == id;
      step := ExecutorCanMove(cfg, s, g);
    }
  }

  /** No healthy step is left to take. */
  ghost predicate Stuck(cfg: Config, s: State) {
    forall step :: !Healthy(cfg, s, step)
  }

  lemma StuckHoldsOrphans(cfg: Config, s: State)
    requires s.process.Polling? && Stuck(cfg, s)
    ensures s.executors == map[] && forall id :: id in s.tables.queue ==> Orphan(s, id)
  {
    if s.executors != map[] {
      var g :| g in s.executors;
      var step := ExecutorCanMove(cfg, s, g);
    }
    forall id | id in s.tables.queue
      ensures Orphan(s, id)
    {
      if !Orphan(s, id) {
        var step := NonEmptyQueueCanMove(cfg, s, id);
      }
    }
  }

  lemma {:induction false} HealthyRunKeepsOrphans(cfg: Config, s: State, steps: seq<Step>, id: Id)
    requires Inv(cfg, s) && s.process.Polling? && IsHealthyRun(cfg, s, steps)
    ensures IsRun(cfg, s, steps) && After(cfg, s, steps).process.Polling?
    ensures Orphan(After(cfg, s, steps), id) <==> Orphan(s, id)
    ensures Orphan(s, id) ==> After(cfg, s, steps).tables.queue[id] == s.tables.queue[id]
    decreases |steps|
  {
    if steps != [] {
      StepKeeps(cfg, s, steps[0]);
      HealthyStepKeepsOrphans(cfg, s, steps[0], id);
      HealthyRunKeepsOrphans(cfg, Do(cfg, s, steps[0]), steps[1..], id);
    }
  }

  /** A healthy run that can go no further has no executor left, and its queue holds exactly the
      rows that were orphaned at its start, unchanged: it is empty if and only if there were
      none. */
  lemma QueueDrains(cfg: Config, s: State, steps: seq<Step>)
    requires Inv(cfg, s) && s.process.Polling? && IsHealthyRun(cfg, s, steps)
    ensures IsRun(cfg, s, steps)
    ensures Stuck(cfg, After(cfg, s, steps)) ==>
      var t := After(cfg, s, steps);
      && t.executors == map[]
      && (forall id :: id in t.tables.queue <==> Orphan(s, id))
      && (forall id :: Orphan(s, id) ==> t.tables.queue[id] == s.tables.queue[id])
      && (t.tables.queue == map[] <==> NoOrphans(s))
  {
    forall id
      ensures IsRun(cfg, s, steps) && After(cfg, s, steps).process.Polling?
      ensures Orphan(After(cfg, s, steps), id) <==> Orphan(s, id)
      ensures Orphan(s, id) ==> After(cfg, s, steps).tables.queue[id] == s.tables.queue[id]
    {
      HealthyRunKeepsOrphans(cfg, s, steps, id);
    }
    HealthyRunKeepsOrphans(cfg, s, steps, "");
    var t := After(cfg, s, steps);
    if Stuck(cfg, t) {
      StuckHoldsOrphans(cfg, t);
      EmptyExactly(s, t.tables.queue);
    }
  }

  lemma EmptyExactly(s: State, queue: map<Id, QueueRow>)
    requires forall id :: id in queue <==> Orphan(s, id)
    ensures queue == map[] <==> NoOrphans(s)
  {
    if queue != map[] {
      var id := Member(queue.Keys);
      assert Orphan(s, id);
    }
  }

  /** A restart whose reset lands clears the way: whatever the last process left behind, a
      healthy run that can go no further has emptied the queue. */
  lemma RestartDrains(cfg: Config, s: State, now: int, commit: Commit, steps: seq<Step>)
    requires cfg.maxAttempts >= 1 && Reachable(cfg, s)
    requires Enabled(cfg, s, ResetOrphans(now, commit)) && commit.Durable()
    requires IsHealthyRun(cfg, Do(cfg, s, ResetOrphans(now, commit)), steps)
    ensures var up := Do(cfg, s, ResetOrphans(now, commit));
      && IsRun(cfg, up, steps)
      && (Stuck(cfg, After(cfg, up, steps)) ==>
            After(cfg, up, steps).tables.queue == map[] && After(cfg, up, steps).executors == map[])
  {
    ReachableInv(cfg, s);
    StepKeeps(cfg, s, ResetOrphans(now, commit));
    ResetClearsOrphans(cfg, s, now, commit);
    QueueDrains(cfg, Do(cfg, s, ResetOrphans(now, commit)), steps);
  }
}
