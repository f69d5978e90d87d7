/** The inductive invariant of the worker protocol. */
module WorkerInvariant {
  import opened Wrappers
  import opened JobTables
  import opened WorkerProtocol

  // ---------- conservation ----------

  /** An accepted id is in exactly one table, under the name and payload it came with;
      no other id is in any. */
  ghost predicate ConservedAt(s: State, id: Id) {
    var t := s.tables;
    if id !in s.accepted then
      id !in t.queue && id !in t.history && id !in t.graveyard
    else
      || (id in t.queue && id !in t.history && id !in t.graveyard
          && s.accepted[id] == Job(t.queue[id].name, t.queue[id].payload))
      || (id !in t.queue && id in t.history && id !in t.graveyard
          && s.accepted[id] == Job(t.history[id].name, t.history[id].payload))
      || (id !in t.queue && id !in t.history && id in t.graveyard
          && s.accepted[id] == Job(t.graveyard[id].name, t.graveyard[id].payload))
  }

  ghost predicate Conserved(s: State) {
    forall id :: ConservedAt(s, id)
  }

  // ---------- ownership ----------

  ghost predicate Owns(e: Executor, queue: map<Id, QueueRow>) {
    && e.record.id in queue
    && queue[e.record.id].status == Running
    && Matches(e.record, queue[e.record.id])
  }

  /** Every executor holds a running row that agrees with its record; no two hold one id. */
  ghost predicate Exclusive(s: State) {
    && (s.executors != map[] ==> s.process.Polling?)
    && (forall g :: g in s.executors ==> g < s.nextGoroutine && Owns(s.executors[g], s.tables.queue))
    && (forall g, h :: g in s.executors && h in s.executors && g != h ==>
          s.executors[g].record.id != s.executors[h].record.id)
  }

  // ---------- attempts ----------

  ghost predicate BoundedAt(cfg: Config, s: State, id: Id) {
    var t := s.tables;
    && (id in s.causes <==> id in t.graveyard)
    && (id in t.queue ==> 0 <= t.queue[id].attempts < cfg.maxAttempts)
    && (id in t.history ==> 1 <= t.history[id].attempts <= cfg.maxAttempts)
    && (id in t.graveyard ==>
          && 0 <= t.graveyard[id].attempts <= cfg.maxAttempts
          && (s.causes[id] == Exhausted <==> t.graveyard[id].attempts == cfg.maxAttempts))
  }

  ghost predicate Bounded(cfg: Config, s: State) {
    forall id :: BoundedAt(cfg, s, id)
  }

  // ---------- calls of Run ----------

  /** The attempts the tables record for `id`. */
  function Recorded(t: Tables, id: Id): int {
    if id in t.queue then t.queue[id].attempts
    else if id in t.history then t.history[id].attempts
    else if id in t.graveyard then t.graveyard[id].attempts
    else 0
  }

  ghost predicate AccountedAt(s: State, id: Id) {
    var t := s.tables;
    && (id in s.ledger <==> id in s.accepted)
    && (id in s.ledger ==>
          var l := s.ledger[id];
          && l.started == Recorded(t, id) + Live(s, id) + l.lost
          && l.succeeded + l.failed <= l.started
          && (id in t.queue ==> l.failed >= t.queue[id].attempts)
          && (id in t.history ==> l.succeeded >= 1 && l.failed >= t.history[id].attempts - 1)
          && (id in t.graveyard ==> l.failed >= t.graveyard[id].attempts))
  }

  ghost predicate CallNoted(s: State, e: Executor) {
    e.record.id in s.ledger ==>
      var l := s.ledger[e.record.id];
      match e.phase
      case Spawned => true
      case InRun => l.succeeded + l.failed < l.started
      case Returned(failure) => if failure.None? then l.succeeded >= 1 else l.failed >= e.record.attempts + 1
  }

  ghost predicate Accounted(s: State) {
    && (forall id :: AccountedAt(s, id))
    && (forall g :: g in s.executors ==> CallNoted(s, s.executors[g]))
  }

  ghost predicate Inv(cfg: Config, s: State) {
    && cfg.maxAttempts >= 1
    && Conserved(s)
    && Exclusive(s)
    && Bounded(cfg, s)
    && Accounted(s)
  }

  // ---------- preservation, step by step ----------

  lemma BootKeeps(cfg: Config, s: State, jobs: set<string>)
    requires Inv(cfg, s) && Enabled(cfg, s, Boot(jobs))
    ensures Inv(cfg, Do(cfg, s, Boot(jobs)))
  {
    var s' := Do(cfg, s, Boot(jobs));
    forall id
      ensures ConservedAt(s', id) && BoundedAt(cfg, s', id) && AccountedAt(s', id)
    {
      assert ConservedAt(s, id) && BoundedAt(cfg, s, id) && AccountedAt(s, id);
      assert Live(s', id) == Live(s, id);
    }
  }

  lemma ResetKeeps(cfg: Config, s: State, now: int, commit: Commit)
    requires Inv(cfg, s) && Enabled(cfg, s, ResetOrphans(now, commit))
    ensures Inv(cfg, Do(cfg, s, ResetOrphans(now, commit)))
  {
    var s' := Do(cfg, s, ResetOrphans(now, commit));
    // No executor exists before the first poll, so the reset takes no row from one.
    assert s.executors == map[];
    forall id
      ensures ConservedAt(s', id) && BoundedAt(cfg, s', id) && AccountedAt(s', id)
    {
      assert ConservedAt(s, id) && BoundedAt(cfg, s, id) && AccountedAt(s, id);
      assert Live(s', id) == Live(s, id);
    }
  }

  /** No executor holds a fresh id. */
  lemma FreshIsUnowned(s: State, id: Id)
    requires Conserved(s) && Exclusive(s) && id !in s.accepted
    ensures forall g :: g in s.executors ==> s.executors[g].record.id != id
  {
    assert ConservedAt(s, id);
    assert forall g :: g in s.executors ==> Owns(s.executors[g], s.tables.queue);
  }

  lemma EnqueueKeepsAt(
    cfg: Config, s: State, id: Id, name: string, payload: Option<string>, now: int, commit: Commit, k: Id)
    requires Inv(cfg, s) && id !in s.accepted
    ensures var s' := DoEnqueue(s, id, name, payload, now, commit);
      ConservedAt(s', k) && BoundedAt(cfg, s', k) && AccountedAt(s', k)
  {
    assert ConservedAt(s, k) && BoundedAt(cfg, s, k) && AccountedAt(s, k);
    FreshIsUnowned(s, id);
    assert Live(DoEnqueue(s, id, name, payload, now, commit), k) == Live(s, k);
  }

  lemma EnqueueExclusive(s: State, id: Id, name: string, payload: Option<string>, now: int, commit: Commit)
    requires Conserved(s) && Exclusive(s) && id !in s.accepted
    ensures Exclusive(DoEnqueue(s, id, name, payload, now, commit))
  {
    FreshIsUnowned(s, id);
    var s' := DoEnqueue(s, id, name, payload, now, commit);
    forall g | g in s'.executors
      ensures g < s'.nextGoroutine && Owns(s'.executors[g], s'.tables.queue)
    {
      assert Owns(s.executors[g], s.tables.queue);
    }
  }

  lemma EnqueueKeeps(cfg: Config, s: State, id: Id, name: string, payload: Option<string>, now: int, commit: Commit)
    requires Inv(cfg, s) && Enabled(cfg, s, Enqueue(id, name, payload, now, commit))
    ensures Inv(cfg, Do(cfg, s, Enqueue(id, name, payload, now, commit)))
  {
    var s' := DoEnqueue(s, id, name, payload, now, commit);
    forall k
      ensures ConservedAt(s', k) && BoundedAt(cfg, s', k) && AccountedAt(s', k)
    {
      EnqueueKeepsAt(cfg, s, id, name, payload, now, commit, k);
    }
    EnqueueExclusive(s, id, name, payload, now, commit);
    forall g | g in s'.executors
      ensures CallNoted(s', s'.executors[g])
    {
      assert CallNoted(s, s.executors[g]);
    }
  }

  /** A claim marks rows running and changes nothing else in them but the time stamp. */
  lemma ClaimMarks(t: Tables, now: int, id: Id)
    ensures id in Claim(t, now).queue <==> id in t.queue
    ensures id in t.queue ==>
      var row := Claim(t, now).queue[id];
      && row.status == Running && row.name == t.queue[id].name && row.payload == t.queue[id].payload
      && row.attempts == t.queue[id].attempts
  {
  }

  /** An executor already at work keeps its row through a poll. */
  lemma PollKeepsOwner(s: State, records: seq<JobRecord>, now: int, commit: Commit, g: nat)
    requires Exclusive(s) && g in s.executors
    ensures var s' := DoPoll(s, records, now, commit);
      g in s'.executors && s'.executors[g] == s.executors[g] && Owns(s.executors[g], s'.tables.queue)
  {
    assert Owns(s.executors[g], s.tables.queue);
    ClaimMarks(s.tables, now, s.executors[g].record.id);
  }

  /** A newly spawned executor owns a row that was pending, so one no executor held. */
  lemma PollMakesOwner(s: State, records: seq<JobRecord>, now: int, commit: Commit, g: nat)
    requires ListsPending(s.tables.queue, records)
    requires g in DoPoll(s, records, now, commit).executors && g !in s.executors
    ensures var s' := DoPoll(s, records, now, commit);
      && s.nextGoroutine <= g < s.nextGoroutine + |records| == s'.nextGoroutine
      && s'.executors[g] == Executor(records[g - s.nextGoroutine], Spawned)
      && Owns(s'.executors[g], s'.tables.queue)
      && s.tables.queue[s'.executors[g].record.id].status == Pending
  {
    ClaimMarks(s.tables, now, records[g - s.nextGoroutine].id);
  }

  lemma PollKeepsApart(s: State, records: seq<JobRecord>, now: int, commit: Commit, g: nat, h: nat)
    requires Exclusive(s) && ListsPending(s.tables.queue, records)
    requires var x := DoPoll(s, records, now, commit).executors; g in x && h in x && g != h
    ensures var x := DoPoll(s, records, now, commit).executors; x[g].record.id != x[h].record.id
  {
    if g in s.executors {
      PollKeepsOwner(s, records, now, commit, g);
      assert Owns(s.executors[g], s.tables.queue);
    } else {
      PollMakesOwner(s, records, now, commit, g);
    }
    if h in s.executors {
      PollKeepsOwner(s, records, now, commit, h);
      assert Owns(s.executors[h], s.tables.queue);
    } else {
      PollMakesOwner(s, records, now, commit, h);
    }
    if g !in s.executors && h !in s.executors {
      var i, j := g - s.nextGoroutine, h - s.nextGoroutine;
      assert if i < j then records[i].id != records[j].id else records[j].id != records[i].id;
    }
  }

  lemma PollExclusive(s: State, records: seq<JobRecord>, now: int, commit: Commit)
    requires Exclusive(s) && s.process.Polling? && ListsPending(s.tables.queue, records)
    ensures Exclusive(DoPoll(s, records, now, commit))
  {
    var s' := DoPoll(s, records, now, commit);
    forall g | g in s'.executors
      ensures g < s'.nextGoroutine && Owns(s'.executors[g], s'.tables.queue)
    {
      if g in s.executors {
        PollKeepsOwner(s, records, now, commit, g);
      } else {
        PollMakesOwner(s, records, now, commit, g);
      }
    }
    forall g, h | g in s'.executors && h in s'.executors && g != h
      ensures s'.executors[g].record.id != s'.executors[h].record.id
    {
      PollKeepsApart(s, records, now, commit, g, h);
    }
  }

  /** A spawned executor has called nothing yet, so a poll starts no call. */
  lemma PollStartsNoCall(s: State, records: seq<JobRecord>, now: int, commit: Commit, id: Id)
    requires Exclusive(s) && ListsPending(s.tables.queue, records)
    ensures Live(DoPoll(s, records, now, commit), id) == Live(s, id)
  {
    var s' := DoPoll(s, records, now, commit);
    if Live(s, id) == 1 {
      var g :| g in s.executors && s.executors[g].record.id == id && !s.executors[g].phase.Spawned?;
      PollKeepsOwner(s, records, now, commit, g);
    }
    if Live(s', id) == 1 {
      var g :| g in s'.executors && s'.executors[g].record.id == id && !s'.executors[g].phase.Spawned?;
      if g in s.executors {
        PollKeepsOwner(s, records, now, commit, g);
      } else {
        PollMakesOwner(s, records, now, commit, g);
      }
    }
  }

  lemma PollKeeps(cfg: Config, s: State, records: seq<JobRecord>, now: int, commit: Commit)
    requires Inv(cfg, s) && Enabled(cfg, s, Poll(records, now, commit))
    ensures Inv(cfg, Do(cfg, s, Poll(records, now, commit)))
  {
    var s' := DoPoll(s, records, now, commit);
    PollExclusive(s, records, now, commit);
    forall id
      ensures ConservedAt(s', id) && BoundedAt(cfg, s', id) && AccountedAt(s', id)
    {
      assert ConservedAt(s, id) && BoundedAt(cfg, s, id) && AccountedAt(s, id);
      ClaimMarks(s.tables, now, id);
      PollStartsNoCall(s, records, now, commit, id);
    }
    forall g | g in s'.executors
      ensures CallNoted(s', s'.executors[g])
    {
      if g in s.executors {
        PollKeepsOwner(s, records, now, commit, g);
        assert CallNoted(s, s.executors[g]);
      } else {
        PollMakesOwner(s, records, now, commit, g);
      }
    }
  }

  /** Changing the phase of executor `g` changes which ids have a live call only at its own id. */
  lemma MoveExecutor(s: State, s': State, g: nat, phase: Phase)
    requires Exclusive(s) && g in s.executors && !phase.Spawned?
    requires s'.executors == s.executors[g := s.executors[g].(phase := phase)]
    ensures Live(s', s.executors[g].record.id) == 1
    ensures Live(s, s.executors[g].record.id) == if s.executors[g].phase.Spawned? then 0 else 1
    ensures forall k :: k != s.executors[g].record.id ==> Live(s', k) == Live(s, k)
  {
    assert s'.executors[g].record.id == s.executors[g].record.id;
    forall k | k != s.executors[g].record.id
      ensures Live(s', k) == Live(s, k)
    {
      assert forall h :: h in s.executors && s.executors[h].record.id == k ==> s'.executors[h] == s.executors[h];
      assert forall h :: h in s'.executors && s'.executors[h].record.id == k ==> s'.executors[h] == s.executors[h];
    }
  }

  function PhaseAfter(step: Step): Phase
    requires step.StartRun? || step.FinishRun?
  {
    if step.StartRun? then InRun else Returned(step.failure)
  }

  lemma RunStepKeepsAt(cfg: Config, s: State, step: Step, k: Id)
    requires step.StartRun? || step.FinishRun?
    requires Inv(cfg, s) && Enabled(cfg, s, step)
    ensures var s' := Do(cfg, s, step);
      ConservedAt(s', k) && BoundedAt(cfg, s', k) && AccountedAt(s', k)
  {
    assert ConservedAt(s, k) && BoundedAt(cfg, s, k);
    RunStepAccounts(cfg, s, step, k);
  }

  lemma RunStepAccounts(cfg: Config, s: State, step: Step, k: Id)
    requires step.StartRun? || step.FinishRun?
    requires Exclusive(s) && Accounted(s) && Enabled(cfg, s, step)
    ensures AccountedAt(Do(cfg, s, step), k)
  {
    assert CallNoted(s, s.executors[step.g]);
    assert AccountedAt(s, k);
    MoveExecutor(s, Do(cfg, s, step), step.g, PhaseAfter(step));
  }

  lemma RunStepExclusive(cfg: Config, s: State, step: Step)
    requires step.StartRun? || step.FinishRun?
    requires Exclusive(s) && Enabled(cfg, s, step)
    ensures Exclusive(Do(cfg, s, step))
  {
    var s' := Do(cfg, s, step);
    assert s'.executors == s.executors[step.g := s.executors[step.g].(phase := PhaseAfter(step))];
    forall h | h in s'.executors
      ensures h < s'.nextGoroutine && Owns(s'.executors[h], s'.tables.queue)
    {
      assert Owns(s.executors[h], s.tables.queue);
    }
  }

  lemma RunStepNotes(cfg: Config, s: State, step: Step, h: nat)
    requires step.StartRun? || step.FinishRun?
    requires Inv(cfg, s) && Enabled(cfg, s, step) && h in s.executors
    ensures var s' := Do(cfg, s, step); h in s'.executors && CallNoted(s', s'.executors[h])
  {
    var id := s.executors[step.g].record.id;
    assert CallNoted(s, s.executors[h]);
    if h == step.g {
      assert Owns(s.executors[h], s.tables.queue) && ConservedAt(s, id) && AccountedAt(s, id);
    } else {
      assert s.executors[h].record.id != id;
    }
  }

  /** An executor changing phase touches no table. */
  lemma RunStepKeeps(cfg: Config, s: State, step: Step)
    requires step.StartRun? || step.FinishRun?
    requires Inv(cfg, s) && Enabled(cfg, s, step)
    ensures Inv(cfg, Do(cfg, s, step))
  {
    var s' := Do(cfg, s, step);
    forall k
      ensures ConservedAt(s', k) && BoundedAt(cfg, s', k) && AccountedAt(s', k)
    {
      RunStepKeepsAt(cfg, s, step, k);
    }
    RunStepExclusive(cfg, s, step);
    forall h | h in s'.executors
      ensures CallNoted(s', s'.executors[h])
    {
      RunStepNotes(cfg, s, step, h);
    }
  }

  /** Taking executor `g` away leaves other ids' calls alone and its own id with none. */
  lemma DropExecutor(s: State, s': State, g: nat)
    requires Exclusive(s) && g in s.executors && s'.executors == s.executors - {g}
    ensures Live(s', s.executors[g].record.id) == 0
    ensures forall k :: k != s.executors[g].record.id ==> Live(s', k) == Live(s, k)
    ensures Live(s, s.executors[g].record.id) == if s.executors[g].phase.Spawned? then 0 else 1
  {
    forall k | k != s.executors[g].record.id
      ensures Live(s', k) == Live(s, k)
    {
      assert forall h :: h in s.executors && s.executors[h].record.id == k ==> h in s'.executors;
    }
  }

  /** A settling executor never meets a primary key in the table it inserts into. */
  lemma SettleMeetsNoKey(cfg: Config, s: State, g: nat, now: int)
    requires Conserved(s) && Exclusive(s) && s.process.Polling? && g in s.executors && Due(cfg, s, g).Some?
    ensures Effect(s.tables, s.executors[g].record, Due(cfg, s, g).value, now).Some?
  {
    assert Owns(s.executors[g], s.tables.queue);
    assert ConservedAt(s, s.executors[g].record.id);
  }

  /** The tables other than at the settled id stay. */
  lemma SettleLeavesOthers(cfg: Config, s: State, g: nat, now: int, commit: Commit, k: Id)
    requires s.process.Polling? && g in s.executors && Due(cfg, s, g).Some? && k != s.executors[g].record.id
    ensures var s' := DoSettle(cfg, s, g, now, commit);
      && (ConservedAt(s, k) ==> ConservedAt(s', k))
      && (BoundedAt(cfg, s, k) ==> BoundedAt(cfg, s', k))
      && (k in s'.tables.queue <==> k in s.tables.queue)
      && (k in s.tables.queue ==> s'.tables.queue[k] == s.tables.queue[k])
      && (k in s'.tables.history <==> k in s.tables.history)
      && (k in s.tables.history ==> s'.tables.history[k] == s.tables.history[k])
      && (k in s'.tables.graveyard <==> k in s.tables.graveyard)
      && (k in s.tables.graveyard ==> s'.tables.graveyard[k] == s.tables.graveyard[k])
      && (k in s'.ledger <==> k in s.ledger) && (k in s.ledger ==> s'.ledger[k] == s.ledger[k])
  {
  }

  /** The rows other executors hold stay theirs. */
  lemma SettleExclusive(cfg: Config, s: State, g: nat, now: int, commit: Commit)
    requires Exclusive(s) && s.process.Polling? && g in s.executors && Due(cfg, s, g).Some?
    ensures Exclusive(DoSettle(cfg, s, g, now, commit))
  {
    var s' := DoSettle(cfg, s, g, now, commit);
    assert s'.executors == s.executors - {g};
    forall h | h in s'.executors
      ensures h < s'.nextGoroutine && Owns(s'.executors[h], s'.tables.queue)
    {
      assert Owns(s.executors[h], s.tables.queue);
      SettleLeavesOthers(cfg, s, g, now, commit, s.executors[h].record.id);
    }
  }

  /** What settling does at its own id. */
  lemma SettleAtOwnId(cfg: Config, s: State, g: nat, now: int, commit: Commit)
    requires Inv(cfg, s) && s.process.Polling? && g in s.executors && Due(cfg, s, g).Some?
    ensures var s' := DoSettle(cfg, s, g, now, commit); var id := s.executors[g].record.id;
      ConservedAt(s', id) && BoundedAt(cfg, s', id) && AccountedAt(s', id)
  {
    var s' := DoSettle(cfg, s, g, now, commit);
    var id := s.executors[g].record.id;
    assert Owns(s.executors[g], s.tables.queue);
    assert ConservedAt(s, id) && BoundedAt(cfg, s, id) && AccountedAt(s, id);
    assert CallNoted(s, s.executors[g]);
    SettleMeetsNoKey(cfg, s, g, now);
    DropExecutor(s, s', g);
  }

  lemma SettleKeeps(cfg: Config, s: State, g: nat, now: int, commit: Commit)
    requires Inv(cfg, s) && Enabled(cfg, s, Settle(g, now, commit))
    ensures Inv(cfg, Do(cfg, s, Settle(g, now, commit)))
  {
    var s' := DoSettle(cfg, s, g, now, commit);
    var id := s.executors[g].record.id;
    SettleExclusive(cfg, s, g, now, commit);
    SettleAtOwnId(cfg, s, g, now, commit);
    DropExecutor(s, s', g);
    forall k
      ensures ConservedAt(s', k) && BoundedAt(cfg, s', k) && AccountedAt(s', k)
    {
      assert ConservedAt(s, k) && BoundedAt(cfg, s, k) && AccountedAt(s, k);
      if k != id {
        SettleLeavesOthers(cfg, s, g, now, commit, k);
      }
    }
    forall h | h in s'.executors
      ensures CallNoted(s', s'.executors[h])
    {
      assert CallNoted(s, s.executors[h]);
      SettleLeavesOthers(cfg, s, g, now, commit, s.executors[h].record.id);
    }
  }

  lemma CrashKeeps(cfg: Config, s: State)
    requires Inv(cfg, s) && Enabled(cfg, s, Crash)
    ensures Inv(cfg, Do(cfg, s, Crash))
  {
    var s' := Do(cfg, s, Crash);
    forall id
      ensures ConservedAt(s', id) && BoundedAt(cfg, s', id) && AccountedAt(s', id)
    {
      assert ConservedAt(s, id) && BoundedAt(cfg, s, id) && AccountedAt(s, id);
      assert Live(s', id) == 0;
    }
  }

  lemma StepKeeps(cfg: Config, s: State, step: Step)
    requires Inv(cfg, s) && Enabled(cfg, s, step)
    ensures Inv(cfg, Do(cfg, s, step))
  {
    match step
    case Boot(jobs) => BootKeeps(cfg, s, jobs);
    case ResetOrphans(now, commit) => ResetKeeps(cfg, s, now, commit);
    case Enqueue(id, name, payload, now, commit) => EnqueueKeeps(cfg, s, id, name, payload, now, commit);
    case Poll(records, now, commit) => PollKeeps(cfg, s, records, now, commit);
    case StartRun(g) => RunStepKeeps(cfg, s, step);
    case FinishRun(g, _) => RunStepKeeps(cfg, s, step);
    case Settle(g, now, commit) => SettleKeeps(cfg, s, g, now, commit);
    case Crash => CrashKeeps(cfg, s);
  }

  lemma {:induction false} RunKeeps(cfg: Config, s: State, steps: seq<Step>)
    requires Inv(cfg, s) && IsRun(cfg, s, steps)
    ensures Inv(cfg, After(cfg, s, steps))
    decreases |steps|
  {
    if steps != [] {
      StepKeeps(cfg, s, steps[0]);
      RunKeeps(cfg, Do(cfg, s, steps[0]), steps[1..]);
    }
  }

  lemma ReachableInv(cfg: Config, s: State)
    requires cfg.maxAttempts >= 1 && Reachable(cfg, s)
    ensures Inv(cfg, s)
  {
    var steps :| IsRun(cfg, INIT, steps) && After(cfg, INIT, steps) == s;
    assert Inv(cfg, INIT);
    RunKeeps(cfg, INIT, steps);
  }
}
