/** The three tables of the worker database and the statements that change them
    (core/worker/repository.go and core/worker/queries). */
module JobTables {
  import opened Wrappers

  type Id = string

  datatype Status = Pending | Running

  datatype QueueRow = QueueRow(
    name: string, payload: Option<string>, attempts: int, status: Status, createdAt: int, updatedAt: int)

  datatype HistoryRow = HistoryRow(name: string, payload: Option<string>, attempts: int, completedAt: int)

  datatype GraveRow = GraveRow(
    name: string, payload: Option<string>, attempts: int, lastError: string, buriedAt: int)

  datatype JobRecord = JobRecord(id: Id, name: string, payload: Option<string>, attempts: int)

  datatype Tables = Tables(
    queue: map<Id, QueueRow>, history: map<Id, HistoryRow>, graveyard: map<Id, GraveRow>)

  const EMPTY := Tables(map[], map[], map[])

  // ---------- the effect of each statement, once it is durable ----------

  /** `None` is a primary key violation: the statement has no effect. */
  function Insert(t: Tables, id: Id, name: string, payload: Option<string>, now: int): Option<Tables> {
    if id in t.queue then None
    else Some(t.(queue := t.queue[id := QueueRow(name, payload, 0, Pending, now, now)]))
  }

  function Claim(t: Tables, now: int): Tables {
    t.(queue := map id | id in t.queue ::
      if t.queue[id].status == Pending then t.queue[id].(status := Running, updatedAt := now) else t.queue[id])
  }

  function Reset(t: Tables, now: int): Tables {
    t.(queue := map id | id in t.queue ::
      if t.queue[id].status == Running then t.queue[id].(status := Pending, updatedAt := now) else t.queue[id])
  }

  function Retry(t: Tables, id: Id, attempts: int, now: int): Tables {
    if id !in t.queue then t
    else t.(queue := t.queue[id := t.queue[id].(status := Pending, attempts := attempts, updatedAt := now)])
  }

  function Complete(t: Tables, record: JobRecord, attempts: int, now: int): Option<Tables> {
    if record.id in t.history then None
    else Some(t.(queue := t.queue - {record.id},
                 history := t.history[record.id := HistoryRow(record.name, record.payload, attempts, now)]))
  }

  function Bury(t: Tables, record: JobRecord, attempts: int, lastError: string, now: int): Option<Tables> {
    if record.id in t.graveyard then None
    else Some(t.(queue := t.queue - {record.id},
                 graveyard := t.graveyard[record.id :=
                   GraveRow(record.name, record.payload, attempts, lastError, now)]))
  }

  /** The table after an attempted write: unchanged when it was rejected or lost. */
  function Written(t: Tables, effect: Option<Tables>, commit: Commit): Tables {
    if effect.Some? && commit.Durable() then effect.value else t
  }

  /** What the tables hold for one id. */
  datatype Place = Place(queue: Option<QueueRow>, history: Option<HistoryRow>, graveyard: Option<GraveRow>)

  function PlaceOf(t: Tables, id: Id): Place {
    Place(if id in t.queue then Some(t.queue[id]) else None,
          if id in t.history then Some(t.history[id]) else None,
          if id in t.graveyard then Some(t.graveyard[id]) else None)
  }

  // ---------- what a claim hands out ----------

  predicate Matches(record: JobRecord, row: QueueRow) {
    record.name == row.name && record.payload == row.payload && record.attempts == row.attempts
  }

  ghost predicate DistinctIds(records: seq<JobRecord>) {
    forall i, j :: 0 <= i < j < |records| ==> records[i].id != records[j].id
  }

  /** `records` lists every pending row of the queue exactly once, in some order. */
  ghost predicate ListsPending(queue: map<Id, QueueRow>, records: seq<JobRecord>) {
    && DistinctIds(records)
    && (forall i :: 0 <= i < |records| ==>
          records[i].id in queue && queue[records[i].id].status == Pending && Matches(records[i], queue[records[i].id]))
    && (forall id :: id in queue && queue[id].status == Pending ==>
          exists i :: 0 <= i < |records| && records[i].id == id)
  }

  /** The repository object.  `commit` says how the database treats the write. */
  class Repository {
    var queue: map<Id, QueueRow>
    var history: map<Id, HistoryRow>
    var graveyard: map<Id, GraveRow>

    function View(): Tables reads this {
      Tables(queue, history, graveyard)
    }

    constructor ()
      ensures View() == EMPTY
    {
      queue, history, graveyard := map[], map[], map[];
    }

    method EnqueueJob(id: Id, name: string, payload: Option<string>, now: int, commit: Commit) returns (ok: bool)
      modifies this
      ensures ok <==> commit.Committed? && id !in old(queue)
      ensures View() == Written(old(View()), Insert(old(View()), id, name, payload, now), commit)
      ensures history == old(history) && graveyard == old(graveyard)
      ensures queue == if commit.Lost? || id in old(queue) then old(queue)
                       else old(queue)[id := QueueRow(name, payload, 0, Pending, now, now)]
    {
      if id in queue {
        return false;
      }
      if commit.Durable() {
        queue := queue[id := QueueRow(name, payload, 0, Pending, now, now)];
      }
      ok := commit.Reported();
    }

    /** Rows come back in no particular order; an error anywhere discards all of them,
        although the update itself may be durable. */
    method ClaimPending(now: int, commit: Commit) returns (records: Option<seq<JobRecord>>)
      modifies this
      ensures View() == if commit.Durable() then Claim(old(View()), now) else old(View())
      ensures records.Some? <==> commit.Committed?
      ensures records.Some? ==> ListsPending(old(queue), records.value)
      ensures history == old(history) && graveyard == old(graveyard) && queue.Keys == old(queue).Keys
      ensures forall id :: id in queue ==>
        queue[id] == if commit.Lost? || old(queue)[id].status == Running then old(queue)[id]
                     else old(queue)[id].(status := Running, updatedAt := now)
    {
      var found: seq<JobRecord> := [];
      var rest := set id | id in queue && queue[id].status == Pending;
      ghost var pending := rest;
      while rest != {}
        invariant rest <= pending
        invariant DistinctIds(found)
        invariant forall i :: 0 <= i < |found| ==>
          found[i].id in pending && found[i].id !in rest && Matches(found[i], queue[found[i].id])
        invariant forall id :: id in pending && id !in rest ==> exists i :: 0 <= i < |found| && found[i].id == id
      {
        var id :| id in rest;
        var row := queue[id];
        ghost var before := found;
        found := found + [JobRecord(id, row.name, row.payload, row.attempts)];
        rest := rest - {id};
        assert found[|before|].id == id;
        forall other | other in pending && other !in rest
          ensures exists i :: 0 <= i < |found| && found[i].id == other
        {
          if other != id {
            var i :| 0 <= i < |before| && before[i].id == other;
            assert found[i].id == other;
          }
        }
      }
      assert forall id :: id in queue && queue[id].status == Pending ==> id in pending;
      assert ListsPending(queue, found);
      if commit.Durable() {
        queue := Claim(View(), now).queue;
      }
      records := if commit.Reported() then Some(found) else None;
    }

    method CompleteJob(record: JobRecord, attempts: int, now: int, commit: Commit) returns (ok: bool)
      modifies this
      ensures ok <==> commit.Committed? && record.id !in old(history)
      ensures View() == Written(old(View()), Complete(old(View()), record, attempts, now), commit)
      ensures commit.Lost? || record.id in old(history) ==> queue == old(queue) && history == old(history)
      ensures !commit.Lost? && record.id !in old(history) ==>
        && queue == old(queue) - {record.id}
        && history == old(history)[record.id := HistoryRow(record.name, record.payload, attempts, now)]
      ensures graveyard == old(graveyard)
    {
      if record.id in history {
        return false;
      }
      if commit.Durable() {
        history := history[record.id := HistoryRow(record.name, record.payload, attempts, now)];
        queue := queue - {record.id};
      }
      ok := commit.Reported();
    }

    method RetryJob(id: Id, attempts: int, now: int, commit: Commit) returns (ok: bool)
      modifies this
      ensures ok <==> commit.Committed?
      ensures View() == Written(old(View()), Some(Retry(old(View()), id, attempts, now)), commit)
      ensures history == old(history) && graveyard == old(graveyard)
      ensures queue == if commit.Lost? || id !in old(queue) then old(queue)
                       else old(queue)[id := old(queue)[id].(status := Pending, attempts := attempts, updatedAt := now)]
    {
      if commit.Durable() && id in queue {
        queue := queue[id := queue[id].(status := Pending, attempts := attempts, updatedAt := now)];
      }
      ok := commit.Reported();
    }

    method BuryJob(record: JobRecord, attempts: int, lastError: string, now: int, commit: Commit) returns (ok: bool)
      modifies this
      ensures ok <==> commit.Committed? && record.id !in old(graveyard)
      ensures View() == Written(old(View()), Bury(old(View()), record, attempts, lastError, now), commit)
      ensures commit.Lost? || record.id in old(graveyard) ==> queue == old(queue) && graveyard == old(graveyard)
      ensures !commit.Lost? && record.id !in old(graveyard) ==>
        && queue == old(queue) - {record.id}
        && graveyard
           == old(graveyard)[record.id := GraveRow(record.name, record.payload, attempts, lastError, now)]
      ensures history == old(history)
    {
      if record.id in graveyard {
        return false;
      }
      if commit.Durable() {
        graveyard := graveyard[record.id := GraveRow(record.name, record.payload, attempts, lastError, now)];
        queue := queue - {record.id};
      }
      ok := commit.Reported();
    }

    method ResetOrphaned(now: int, commit: Commit) returns (affected: Option<nat>)
      modifies this
      ensures View() == if commit.Durable() then Reset(old(View()), now) else old(View())
      ensures affected == if commit.Committed?
                          then Some(|set id | id in old(queue) && old(queue)[id].status == Running|) else None
      ensures history == old(history) && graveyard == old(graveyard) && queue.Keys == old(queue).Keys
      ensures forall id :: id in queue ==>
        queue[id] == if commit.Lost? || old(queue)[id].status == Pending then old(queue)[id]
                     else old(queue)[id].(status := Pending, updatedAt := now)
    {
      var orphans := set id | id in queue && queue[id].status == Running;
      if commit.Durable() {
        queue := Reset(View(), now).queue;
      }
      affected := if commit.Reported() then Some(|orphans|) else None;
    }
  }
}
