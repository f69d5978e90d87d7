/** The queue empties when nothing is added, no write is lost and the process lives. */
module WorkerDrain {
  import opened Wrappers
  import opened JobTables
  import opened WorkerProtocol
  import opened WorkerInvariant
  import opened MapSums

  /** A step of a healthy worker with no new jobs.  A poll that finds nothing is not counted. */
  ghost predicate Healthy(cfg: Config, s: State, step: Step) {
    && Enabled(cfg, s, step)
    && match step
       case Poll(records, _, commit) => commit.Committed? && records != []
       case StartRun(_) => true
       case FinishRun(_, _) => true
       case Settle(_, _, commit) => commit.Committed?
       case _ => false
  }

  ghost predicate IsHealthyRun(cfg: Config, s: State, steps: seq<Step>)
    decreases |steps|
  {
    steps == [] || (Healthy(cfg, s, steps[0]) && IsHealthyRun(cfg, Do(cfg, s, steps[0]), steps[1..]))
  }

  // ---------- the measure ----------

  ghost function RowWeight(cfg: Config): QueueRow -> int {
    (row: QueueRow) => 4 * (cfg.maxAttempts - row.attempts) - (if row.status == Running then 3 else 0)
  }

  ghost function ExecutorWeight(): Executor -> int {
    (e: Executor) => match e.phase case Spawned => 2 case InRun => 1 case Returned(_) => 0
  }

  /** The steps a healthy worker can still take at most. */
  ghost function Measure(cfg: Config, s: State): int {
    Sum(s.tables.queue, RowWeight(cfg)) + Sum<nat, Executor>(s.executors, ExecutorWeight())
  }

  lemma MeasureNonNegative(cfg: Config, s: State)
    requires Inv(cfg, s)
    ensures 0 <= Measure(cfg, s)
  {
    forall id | id in s.tables.queue
      ensures 0 <= RowWeight(cfg)(s.tables.queue[id])
    {
      assert BoundedAt(cfg, s, id);
    }
    SumNonNegative(s.tables.queue, RowWeight(cfg));
    SumNonNegative<nat, Executor>(s.executors, ExecutorWeight());
  }

  function IdsOf(records: seq<JobRecord>): set<Id> {
    set i | 0 <= i < |records| :: records[i].id
  }

  lemma IdsOfAppend(records: seq<JobRecord>, last: JobRecord)
    ensures IdsOf(records + [last]) == IdsOf(records) + {last.id}
  {
    var all := records + [last];
    forall id | id in IdsOf(records) + {last.id}
      ensures id in IdsOf(all)
    {
      if id in IdsOf(records) {
        var i :| 0 <= i < |records| && records[i].id == id;
        assert all[i].id == id;
      } else {
        assert all[|records|].id == id;
      }
    }
  }

  lemma {:induction false} DistinctIdsCount(records: seq<JobRecord>)
    requires DistinctIds(records)
    ensures |IdsOf(records)| == |records|
  {
    if records != [] {
      var n := |records| - 1;
      DistinctIdsCount(records[..n]);
      IdsOfAppend(records[..n], records[n]);
      assert records[..n] + [records[n]] == records;
    }
  }

  lemma {:induction false} SpawnWeight(base: nat, records: seq<JobRecord>)
    ensures Sum<nat, Executor>(Spawn(base, records), ExecutorWeight()) == 2 * |records|
  {
    if records == [] {
      assert Spawn(base, records) == map[];
    } else {
      var n := |records| - 1;
      SpawnWeight(base, records[..n]);
      var e := Executor(records[n], Spawned);
      var before := Spawn(base, records[..n]);
      assert forall g :: g in before ==> g - base < n;
      assert Spawn(base, records) == before[base + n := e];
      assert base + n !in before;
      SumPut<nat, Executor>(before, ExecutorWeight(), base + n, e);
    }
  }

  /** Claiming a row costs it 3 and buys its executor 2. */
  lemma PollLowers(cfg: Config, s: State, step: Step)
    requires Inv(cfg, s) && Healthy(cfg, s, step) && step.Poll?
    ensures Measure(cfg, Do(cfg, s, step)) == Measure(cfg, s) - |step.records|
  {
    var queue := s.tables.queue;
    var pending := IdsOf(step.records);
    assert forall id :: id in pending <==> id in queue && queue[id].status == Pending;
    DistinctIdsCount(step.records);
    SumLowered(queue, Claim(s.tables, step.now).queue, RowWeight(cfg), pending);
    SpawnWeight(s.nextGoroutine, step.records);
    SumUnion<nat, Executor>(s.executors, Spawn(s.nextGoroutine, step.records), ExecutorWeight());
  }

  lemma RunStepLowers(cfg: Config, s: State, step: Step)
    requires Inv(cfg, s) && Healthy(cfg, s, step) && (step.StartRun? || step.FinishRun?)
    ensures Measure(cfg, Do(cfg, s, step)) == Measure(cfg, s) - 1
  {
    var g := step.g;
    SumPut<nat, Executor>(s.executors, ExecutorWeight(), g, Do(cfg, s, step).executors[g]);
  }

  /** Putting a claimed row back with one attempt more lowers its weight by 1. */
  lemma RetryLowers(cfg: Config, t: Tables, id: Id, now: int)
    requires id in t.queue && t.queue[id].status == Running
    ensures Sum(Retry(t, id, t.queue[id].attempts + 1, now).queue, RowWeight(cfg)) == Sum(t.queue, RowWeight(cfg)) - 1
  {
    SumPut(t.queue, RowWeight(cfg), id, Retry(t, id, t.queue[id].attempts + 1, now).queue[id]);
  }

  /** Taking a claimed row out lowers the sum by its weight, at least 1. */
  lemma RemovalLowers(cfg: Config, queue: map<Id, QueueRow>, id: Id)
    requires id in queue && queue[id].status == Running && queue[id].attempts < cfg.maxAttempts
    ensures Sum(queue - {id}, RowWeight(cfg)) <= Sum(queue, RowWeight(cfg)) - 1
  {
    SumDrop(queue, RowWeight(cfg), id);
  }

  /** The queue once an executor has settled. */
  lemma SettledQueue(cfg: Config, s: State, step: Step)
    requires Inv(cfg, s) && Healthy(cfg, s, step) && step.Settle?
    ensures var t := s.tables; var id := s.executors[step.g].record.id;
      && id in t.queue && t.queue[id].status == Running && t.queue[id].attempts < cfg.maxAttempts
      && Do(cfg, s, step).tables.queue ==
           if Due(cfg, s, step.g).value.BackToQueue? then Retry(t, id, t.queue[id].attempts + 1, step.now).queue
           else t.queue - {id}
  {
    assert Owns(s.executors[step.g], s.tables.queue) && BoundedAt(cfg, s, s.executors[step.g].record.id);
    SettleMeetsNoKey(cfg, s, step.g, step.now);
  }

  lemma SettledQueueLowers(cfg: Config, s: State, step: Step)
    requires Inv(cfg, s) && Healthy(cfg, s, step) && step.Settle?
    ensures Sum(Do(cfg, s, step).tables.queue, RowWeight(cfg)) < Sum(s.tables.queue, RowWeight(cfg))
  {
    var id := s.executors[step.g].record.id;
    SettledQueue(cfg, s, step);
    if Due(cfg, s, step.g).value.BackToQueue? {
      RetryLowers(cfg, s.tables, id, step.now);
    } else {
      RemovalLowers(cfg, s.tables.queue, id);
    }
  }

  lemma SettleLowers(cfg: Config, s: State, step: Step)
    requires Inv(cfg, s) && Healthy(cfg, s, step) && step.Settle?
    ensures Measure(cfg, Do(cfg, s, step)) < Measure(cfg, s)
  {
    SettledQueueLowers(cfg, s, step);
    SumDrop<nat, Executor>(s.executors, ExecutorWeight(), step.g);
    assert Do(cfg, s, step).executors == s.executors - {step.g};
  }

  lemma HealthyStepLowers(cfg: Config, s: State, step: Step)
    requires Inv(cfg, s) && Healthy(cfg, s, step)
    ensures Measure(cfg, Do(cfg, s, step)) < Measure(cfg, s)
  {
    match step
    case Poll(_, _, _) => PollLowers(cfg, s, step);
    case StartRun(_) => RunStepLowers(cfg, s, step);
    case FinishRun(_, _) => RunStepLowers(cfg, s, step);
    case Settle(_, _, _) => SettleLowers(cfg, s, step);
    case _ =>
  }

  /** In any interleaving, a healthy worker takes no more steps than the measure. */
  lemma {:induction false} HealthyRunsAreBounded(cfg: Config, s: State, steps: seq<Step>)
    requires Inv(cfg, s) && IsHealthyRun(cfg, s, steps)
    ensures |steps| <= Measure(cfg, s)
    decreases |steps|
  {
    if steps == [] {
      MeasureNonNegative(cfg, s);
    } else {
      var s' := Do(cfg, s, steps[0]);
      HealthyStepLowers(cfg, s, steps[0]);
      StepKeeps(cfg, s, steps[0]);
      HealthyRunsAreBounded(cfg, s', steps[1..]);
    }
  }

  /** Any finite set of pending rows can be listed. */
  lemma {:induction false} SomeListing(queue: map<Id, QueueRow>, ids: set<Id>) returns (records: seq<JobRecord>)
    requires ids <= queue.Keys
    ensures DistinctIds(records) && IdsOf(records) == ids
    ensures forall i :: 0 <= i < |records| ==> records[i].id in queue && Matches(records[i], queue[records[i].id])
    decreases |ids|
  {
    if ids == {} {
      records := [];
    } else {
      var id :| id in ids;
      var rest := SomeListing(queue, ids - {id});
      var row := queue[id];
      records := rest + [JobRecord(id, row.name, row.payload, row.attempts)];
      forall i | 0 <= i < |rest|
        ensures records[i].id != id
      {
        assert rest[i].id in IdsOf(rest);
      }
      IdsOfAppend(rest, records[|rest|]);
    }
  }
}
