/** The runtime object: one executor's work, and one poll whose executors run to their
    end one after another (core/worker/worker.go). */
module WorkerRuntime {
  import opened Wrappers
  import opened JobTables
  import opened WorkerProtocol
  import opened WorkerInvariant
  import opened WorkerDrain

  function RecordOf(id: Id, row: QueueRow): JobRecord {
    JobRecord(id, row.name, row.payload, row.attempts)
  }

  predicate Disjoint(t: Tables) {
    t.queue.Keys !! t.history.Keys && t.queue.Keys !! t.graveyard.Keys
  }

  /** What the handler returns for each record. */
  type Handler = JobRecord -> Option<string>

  function RowAction(cfg: Config, jobs: set<string>, t: Tables, run: Handler, id: Id): Action
    requires id in t.queue
  {
    ActionFor(cfg, jobs, RecordOf(id, t.queue[id]), run(RecordOf(id, t.queue[id])))
  }

  /** Where id `id` of `t` is once every pending row is claimed and those in `done` are settled. */
  function Expected(cfg: Config, jobs: set<string>, t: Tables, run: Handler, now: int, done: set<Id>, id: Id): Place {
    var place := PlaceOf(t, id);
    if place.queue.None? || place.queue.value.status == Running then place
    else
      var row := place.queue.value;
      if id !in done then place.(queue := Some(row.(status := Running, updatedAt := now)))
      else
        match RowAction(cfg, jobs, t, run, id)
        case BackToQueue(n) => place.(queue := Some(row.(attempts := n, updatedAt := now)))
        case ToHistory(n) => place.(queue := None, history := Some(HistoryRow(row.name, row.payload, n, now)))
        case ToGraveyard(n, lastError, _) =>
          place.(queue := None, graveyard := Some(GraveRow(row.name, row.payload, n, lastError, now)))
  }

  ghost predicate IsRound(
    cfg: Config, jobs: set<string>, t: Tables, run: Handler, now: int, done: set<Id>, t': Tables)
  {
    forall id :: PlaceOf(t', id) == Expected(cfg, jobs, t, run, now, done, id)
  }

  lemma ClaimBeginsRound(cfg: Config, jobs: set<string>, t: Tables, run: Handler, now: int)
    ensures IsRound(cfg, jobs, t, run, now, {}, Claim(t, now))
  {
  }

  /** A settled write moves its own id and no other. */
  lemma EffectMovesOne(t: Tables, record: JobRecord, action: Action, now: int, id: Id)
    requires Effect(t, record, action, now).Some? && id != record.id
    ensures PlaceOf(Effect(t, record, action, now).value, id) == PlaceOf(t, id)
  {
  }

  /** Settling one more claimed row. */
  lemma RoundStep(
    cfg: Config, jobs: set<string>, t: Tables, run: Handler, now: int, done: set<Id>, before: Tables, id: Id)
    requires Disjoint(t) && id in t.queue && t.queue[id].status == Pending && id !in done
    requires IsRound(cfg, jobs, t, run, now, done, before)
    ensures var effect := Effect(before, RecordOf(id, t.queue[id]), RowAction(cfg, jobs, t, run, id), now);
      effect.Some? && IsRound(cfg, jobs, t, run, now, done + {id}, effect.value)
  {
    var record := RecordOf(id, t.queue[id]);
    var action := RowAction(cfg, jobs, t, run, id);
    assert PlaceOf(before, id) == Expected(cfg, jobs, t, run, now, done, id);
    assert id !in before.history && id !in before.graveyard && id in before.queue;
    var after := Effect(before, record, action, now).value;
    forall k
      ensures PlaceOf(after, k) == Expected(cfg, jobs, t, run, now, done + {id}, k)
    {
      assert PlaceOf(before, k) == Expected(cfg, jobs, t, run, now, done, k);
      if k != id {
        EffectMovesOne(before, record, action, now, k);
      }
    }
  }

  // ---------- what the work comes to ----------

  /** What a round leaves: a pending row among those settled is where its outcome puts it, the
      other pending rows are running, and nothing else has changed. */
  lemma RoundMeans(
    cfg: Config, jobs: set<string>, t: Tables, run: Handler, now: int, done: set<Id>, t': Tables, id: Id)
    requires IsRound(cfg, jobs, t, run, now, done, t')
    ensures var before, after := PlaceOf(t, id), PlaceOf(t', id);
      && (id !in t.queue || t.queue[id].status == Running ==> after == before)
      && (id in t.queue && t.queue[id].status == Pending && id !in done ==>
            after == before.(queue := Some(t.queue[id].(status := Running, updatedAt := now))))
      && (id in t.queue && t.queue[id].status == Pending && id in done ==>
            var row := t.queue[id];
            EndsAt(cfg, jobs, row, run(JobRecord(id, row.name, row.payload, row.attempts)), now, before, after))
  {
    assert PlaceOf(t', id) == Expected(cfg, jobs, t, run, now, done, id);
  }

  class Runtime {
    const cfg: Config
    const repository: Repository
    var jobs: set<string>

    constructor (cfg: Config)
      requires cfg.maxAttempts >= 1
      ensures this.cfg == cfg && jobs == {} && fresh(repository) && repository.View() == EMPTY
    {
      this.cfg := cfg;
      this.jobs := {};
      this.repository := new Repository();
    }

    /** `encoded` is the payload's JSON form, `None` when it has none. */
    method Enqueue(name: string, encoded: Option<Option<string>>, id: Id, now: int, commit: Commit) returns (ok: bool)
      modifies repository
      ensures ok <==> name in jobs && encoded.Some? && id !in old(repository.queue) && commit.Reported()
      ensures repository.View() ==
        if name !in jobs || encoded.None? then old(repository.View())
        else Written(old(repository.View()), Insert(old(repository.View()), id, name, encoded.value, now), commit)
    {
      if name !in jobs || encoded.None? {
        return false;
      }
      ok := repository.EnqueueJob(id, name, encoded.value, now, commit);
    }

    /** Errors of the final write are only logged, so nothing is returned. */
    method ExecuteQueued(record: JobRecord, run: Handler, now: int, commit: Commit)
      modifies repository
      ensures repository.View() ==
        Written(old(repository.View()),
                Effect(old(repository.View()), record, ActionFor(cfg, jobs, record, run(record)), now), commit)
      ensures commit.Lost? ==> repository.View() == old(repository.View())
      ensures !commit.Lost? && Claimed(old(repository.View()), record) ==>
        && EndsAt(cfg, jobs, old(repository.queue)[record.id], run(record), now,
                  PlaceOf(old(repository.View()), record.id), PlaceOf(repository.View(), record.id))
        && forall id :: id != record.id ==> PlaceOf(repository.View(), id) == PlaceOf(old(repository.View()), id)
    {
      if Claimed(repository.View(), record) {
        OutcomeOfRow(cfg, jobs, repository.View(), record, run(record), now);
      }
      if record.name !in jobs {
        var _ := repository.BuryJob(record, record.attempts, "unknown job: " + record.name, now, commit);
        return;
      }
      if record.payload.Some? {
        var decodeError := cfg.decodeError(record.payload.value);
        if decodeError.Some? {
          var _ := repository.BuryJob(record, record.attempts, decodeError.value, now, commit);
          return;
        }
      }
      var newAttempts := record.attempts + 1;
      var failure := run(record);
      if failure.None? {
        var _ := repository.CompleteJob(record, newAttempts, now, commit);
        return;
      }
      if newAttempts >= cfg.maxAttempts {
        var _ := repository.BuryJob(record, newAttempts, failure.value, now, commit);
        return;
      }
      var _ := repository.RetryJob(record.id, newAttempts, now, commit);
    }

    /** One poll whose executors finish one after another.  `commits` says what becomes of each
        outcome: those that land move their rows, the other rows stay running. */
    method ProcessQueue(run: Handler, now: int, claim: Commit, commits: Id -> Commit)
      requires Disjoint(repository.View())
      modifies repository
      ensures claim.Lost? ==> repository.View() == old(repository.View())
      ensures claim.Ambiguous? ==> IsRound(cfg, jobs, old(repository.View()), run, now, {}, repository.View())
      ensures claim.Committed? ==>
        IsRound(cfg, jobs, old(repository.View()), run, now, Landing(old(repository.queue).Keys, commits),
                repository.View())
    {
      ghost var t := repository.View();
      ClaimBeginsRound(cfg, jobs, t, run, now);
      var claimed := repository.ClaimPending(now, claim);
      if claimed.None? {
        return;
      }
      var records := claimed.value;
      assert Landing(IdsOf(records[..0]), commits) == {};
      for i := 0 to |records|
        invariant IsRound(cfg, jobs, t, run, now, Landing(IdsOf(records[..i]), commits), repository.View())
      {
        var record := records[i];
        ghost var done := Landing(IdsOf(records[..i]), commits);
        assert record == RecordOf(record.id, t.queue[record.id]);
        assert record.id !in IdsOf(records[..i]);
        RoundStep(cfg, jobs, t, run, now, done, repository.View(), record.id);
        IdsOfAppend(records[..i], record);
        assert records[..i] + [record] == records[..i + 1];
        LandingNext(IdsOf(records[..i]), record.id, commits);
        ExecuteQueued(record, run, now, commits(record.id));
      }
      assert records[..|records|] == records;
      AllPendingSettled(cfg, jobs, t, run, now, records, commits, repository.View());
    }
  }

  /** The ids whose outcome takes effect. */
  function Landing(ids: set<Id>, commits: Id -> Commit): set<Id> {
    set id | id in ids && commits(id).Durable()
  }

  lemma LandingNext(ids: set<Id>, id: Id, commits: Id -> Commit)
    ensures commits(id).Durable() ==> Landing(ids + {id}, commits) == Landing(ids, commits) + {id}
    ensures !commits(id).Durable() ==> Landing(ids + {id}, commits) == Landing(ids, commits)
  {
  }

  lemma AllPendingSettled(
    cfg: Config, jobs: set<string>, t: Tables, run: Handler, now: int, records: seq<JobRecord>,
    commits: Id -> Commit, t': Tables)
    requires ListsPending(t.queue, records)
    requires IsRound(cfg, jobs, t, run, now, Landing(IdsOf(records), commits), t')
    ensures IsRound(cfg, jobs, t, run, now, Landing(t.queue.Keys, commits), t')
  {
    forall id
      ensures PlaceOf(t', id) == Expected(cfg, jobs, t, run, now, Landing(t.queue.Keys, commits), id)
    {
      assert PlaceOf(t', id) == Expected(cfg, jobs, t, run, now, Landing(IdsOf(records), commits), id);
    }
  }

  // ---------- rounds ----------

  /** `states[i + 1]` follows from `states[i]` by a full round with handler `runs[i]`. */
  ghost predicate IsRounds(cfg: Config, jobs: set<string>, runs: seq<Handler>, times: seq<int>, states: seq<Tables>) {
    && |states| == |runs| + 1 == |times| + 1
    && forall i :: 0 <= i < |runs| ==>
         IsRound(cfg, jobs, states[i], runs[i], times[i], states[i].queue.Keys, states[i + 1])
  }

  /** No row is left running, and each has at least `low` attempts. */
  ghost predicate Waiting(cfg: Config, t: Tables, low: int) {
    && Disjoint(t)
    && forall id :: id in t.queue ==> t.queue[id].status == Pending && low <= t.queue[id].attempts < cfg.maxAttempts
  }

  /** A freshly reset worker is waiting, whatever came before. */
  lemma ResetTablesWait(cfg: Config, s: State, now: int)
    requires cfg.maxAttempts >= 1 && Reachable(cfg, s) && s.process.Booted?
    ensures Waiting(cfg, Do(cfg, s, ResetOrphans(now, Committed)).tables, 0)
  {
    ReachableInv(cfg, s);
    var t := Reset(s.tables, now);
    forall id: Id
      ensures !(id in t.queue && id in t.history) && !(id in t.queue && id in t.graveyard)
      ensures id in t.queue ==> 0 <= t.queue[id].attempts < cfg.maxAttempts
    {
      assert ConservedAt(s, id) && BoundedAt(cfg, s, id);
    }
  }

  lemma RoundRaisesAttempts(cfg: Config, jobs: set<string>, t: Tables, run: Handler, now: int, low: int, t': Tables)
    requires Waiting(cfg, t, low) && IsRound(cfg, jobs, t, run, now, t.queue.Keys, t')
    ensures Waiting(cfg, t', low + 1)
    ensures forall id :: id in t'.queue || id in t'.history || id in t'.graveyard <==>
                         id in t.queue || id in t.history || id in t.graveyard
  {
    forall id: Id
      ensures id in t'.queue || id in t'.history || id in t'.graveyard <==>
              id in t.queue || id in t.history || id in t.graveyard
      ensures id in t'.queue ==> t'.queue[id].status == Pending && low + 1 <= t'.queue[id].attempts < cfg.maxAttempts
      ensures !(id in t'.queue && id in t'.history) && !(id in t'.queue && id in t'.graveyard)
    {
      assert PlaceOf(t', id) == Expected(cfg, jobs, t, run, now, t.queue.Keys, id);
    }
  }

  /** Whatever the handlers do, `maxAttempts` rounds empty the queue, and every id is then
      in the history or the graveyard. */
  lemma RoundsEmptyTheQueue(
    cfg: Config, jobs: set<string>, runs: seq<Handler>, times: seq<int>, states: seq<Tables>)
    requires IsRounds(cfg, jobs, runs, times, states) && Waiting(cfg, states[0], 0)
    requires |runs| >= cfg.maxAttempts
    ensures states[|runs|].queue == map[]
    ensures forall id :: id in states[|runs|].history || id in states[|runs|].graveyard <==>
      id in states[0].queue || id in states[0].history || id in states[0].graveyard
  {
    for i := 0 to |runs|
      invariant Waiting(cfg, states[i], i)
      invariant forall id :: id in states[i].queue || id in states[i].history || id in states[i].graveyard <==>
        id in states[0].queue || id in states[0].history || id in states[0].graveyard
    {
      RoundRaisesAttempts(cfg, jobs, states[i], runs[i], times[i], i, states[i + 1]);
    }
    assert forall id :: id !in states[|runs|].queue;
  }
}
