/** Applying a plan in one transaction, and any number of processes that plan and apply
    against one database (core/db/migrate/migrate.go). */
module MigrationApply {
  import opened Wrappers
  import opened MigrationFiles
  import opened Migrations

  /** The rest of the database, as the text of its dump. */
  type Schema = string

  /** Running a migration's SQL: `None` when it fails. */
  type Runner = (Schema, string) -> Option<Schema>

  /** `tracking` is `None` until the table is created. */
  datatype Database = Database(schema: Schema, tracking: Option<Tracking>)

  /** `loadAppliedMigrations`: a missing table counts as empty. */
  function AppliedRows(db: Database): Tracking {
    if db.tracking.None? then map[] else db.tracking.value
  }

  /** Inside the transaction: run the SQL, then record it under its primary key. */
  function ApplyOne(run: Runner, clock: int -> int, db: Database, file: MigrationFile): Option<Database> {
    var ran := run(db.schema, file.sql);
    if ran.None? || file.sequence in AppliedRows(db) then None
    else
      var row := Applied(file.sequence, file.filename, file.checksum, clock(file.sequence));
      Some(Database(ran.value, Some(AppliedRows(db)[file.sequence := row])))
  }

  function ApplyAll(run: Runner, clock: int -> int, db: Database, plan: seq<MigrationFile>): Option<Database> {
    if plan == [] then Some(db)
    else
      match ApplyAll(run, clock, db, plan[..|plan| - 1])
      case None => None
      case Some(before) => ApplyOne(run, clock, before, plan[|plan| - 1])
  }

  /** What can go wrong around the statements of the plan. */
  datatype Trouble = BeginFails | TableFails | CommitEnds(commit: Commit)

  /** The transaction's own result: `None` means it was rolled back. */
  function Transaction(run: Runner, clock: int -> int, db: Database, plan: seq<MigrationFile>): Option<Database> {
    ApplyAll(run, clock, db.(tracking := Some(AppliedRows(db))), plan)
  }

  function AfterApply(
    run: Runner, clock: int -> int, db: Database, plan: seq<MigrationFile>, trouble: Trouble): Database
  {
    var done := Transaction(run, clock, db, plan);
    if plan == [] || done.None? || !trouble.CommitEnds? || trouble.commit.Lost? then db else done.value
  }

  predicate ApplySucceeds(
    run: Runner, clock: int -> int, db: Database, plan: seq<MigrationFile>, trouble: Trouble)
  {
    plan == [] || (Transaction(run, clock, db, plan).Some? && trouble == CommitEnds(Committed))
  }

  // ---------- what a transaction does ----------

  /** `schemas` are the database before the first file, between the files, and after the last,
      each file's SQL taking one to the next. */
  ghost predicate RunsThrough(run: Runner, plan: seq<MigrationFile>, schemas: seq<Schema>) {
    && |schemas| == |plan| + 1
    && forall i :: 0 <= i < |plan| ==> run(schemas[i], plan[i].sql) == Some(schemas[i + 1])
  }

  /** No file of the plan is recorded yet, and no two would be recorded as one. */
  ghost predicate Unrecorded(rows: Tracking, plan: seq<MigrationFile>) {
    && (forall i :: 0 <= i < |plan| ==> plan[i].sequence !in rows)
    && (forall i, j :: 0 <= i < j < |plan| ==> plan[i].sequence != plan[j].sequence)
  }

  /** The new rows are the old ones and one for each file of the plan. */
  ghost predicate Records(clock: int -> int, rows: Tracking, plan: seq<MigrationFile>, rows': Tracking) {
    && (forall k :: k in rows' <==> k in rows || HasSequence(plan, k))
    && (forall k :: k in rows ==> rows'[k] == rows[k])
    && (forall f :: f in plan ==>
          && f.sequence in rows'
          && rows'[f.sequence] == Applied(f.sequence, f.filename, f.checksum, clock(f.sequence)))
  }

  /** Running the whole plan on `db` gives `db'`. */
  ghost predicate Applies(run: Runner, clock: int -> int, db: Database, plan: seq<MigrationFile>, db': Database) {
    && Unrecorded(AppliedRows(db), plan)
    && (exists schemas :: RunsThrough(run, plan, schemas) && schemas[0] == db.schema && schemas[|plan|] == db'.schema)
    && db'.tracking.Some? && Records(clock, AppliedRows(db), plan, db'.tracking.value)
  }

  lemma RunsThroughNext(run: Runner, plan: seq<MigrationFile>, last: MigrationFile, first: Schema, end: Schema)
    ensures
      (exists schemas ::
         RunsThrough(run, plan + [last], schemas) && schemas[0] == first && schemas[|plan| + 1] == end)
      <==>
      (exists schemas, mid ::
         RunsThrough(run, plan, schemas) && schemas[0] == first && schemas[|plan|] == mid
         && run(mid, last.sql) == Some(end))
  {
    var n, all := |plan|, plan + [last];
    assert all[n] == last && forall i :: 0 <= i < n ==> all[i] == plan[i];
    if schemas :| RunsThrough(run, all, schemas) && schemas[0] == first && schemas[n + 1] == end {
      assert RunsThrough(run, plan, schemas[..n + 1]) && schemas[..n + 1][n] == schemas[n];
    }
    if schemas, mid :| RunsThrough(run, plan, schemas) && schemas[0] == first && schemas[n] == mid
                       && run(mid, last.sql) == Some(end) {
      assert RunsThrough(run, all, schemas + [end]);
    }
  }

  lemma UnrecordedNext(rows: Tracking, plan: seq<MigrationFile>, last: MigrationFile)
    ensures Unrecorded(rows, plan + [last]) <==>
      Unrecorded(rows, plan) && last.sequence !in rows && !HasSequence(plan, last.sequence)
  {
    var n, all := |plan|, plan + [last];
    assert all[n] == last && forall i :: 0 <= i < n ==> all[i] == plan[i];
    assert forall i :: 0 <= i < n ==> plan[i] in plan;
  }

  lemma RecordsNext(
    clock: int -> int, rows: Tracking, plan: seq<MigrationFile>, last: MigrationFile, mid: Tracking, rows': Tracking)
    requires Records(clock, rows, plan, mid) && last.sequence !in mid
    ensures Records(clock, rows, plan + [last], rows') <==>
      rows' == mid[last.sequence := Applied(last.sequence, last.filename, last.checksum, clock(last.sequence))]
  {
    HasSequenceAppend(plan, last);
    assert forall f :: f in plan + [last] <==> f in plan || f == last;
    var row := Applied(last.sequence, last.filename, last.checksum, clock(last.sequence));
    assert forall f :: f in plan ==> f.sequence in mid;
    if Records(clock, rows, plan + [last], rows') {
      forall k
        ensures k in rows' <==> k in mid || k == last.sequence
      {
        assert HasSequence(plan + [last], k) <==> HasSequence(plan, k) || k == last.sequence;
      }
      forall k | k in mid
        ensures k in rows' && rows'[k] == mid[k]
      {
        if HasSequence(plan, k) {
          var f :| f in plan && f.sequence == k;
          assert f in plan + [last];
        }
      }
      assert rows' == mid[last.sequence := row];
    }
  }

  lemma RecordsInit(clock: int -> int, rows: Tracking, plan: seq<MigrationFile>, last: MigrationFile, rows': Tracking)
    requires Unrecorded(rows, plan + [last]) && Records(clock, rows, plan + [last], rows')
    ensures Records(clock, rows, plan, rows' - {last.sequence})
  {
    UnrecordedNext(rows, plan, last);
    HasSequenceAppend(plan, last);
    assert forall f :: f in plan + [last] <==> f in plan || f == last;
    forall k
      ensures k in rows' - {last.sequence} <==> k in rows || HasSequence(plan, k)
    {
      assert HasSequence(plan + [last], k) <==> HasSequence(plan, k) || k == last.sequence;
    }
  }

  lemma NothingRecorded(clock: int -> int, rows: Tracking, rows': Tracking)
    requires Records(clock, rows, [], rows')
    ensures rows' == rows
  {
    forall k
      ensures k in rows' <==> k in rows
    {
      assert !HasSequence([], k);
    }
    assert rows'.Keys == rows.Keys;
    assert forall k :: k in rows ==> rows'[k] == rows[k];
  }

  lemma AppliesNothing(run: Runner, clock: int -> int, db: Database, db': Database)
    ensures Applies(run, clock, db, [], db') <==> db' == db.(tracking := Some(AppliedRows(db)))
  {
    assert RunsThrough(run, [], [db.schema]);
    assert forall k :: !HasSequence([], k);
    if Applies(run, clock, db, [], db') {
      NothingRecorded(clock, AppliedRows(db), db'.tracking.value);
      var schemas :| RunsThrough(run, [], schemas) && schemas[0] == db.schema && schemas[0] == db'.schema;
    }
  }

  /** One file more: the plan before it, its SQL, and its row. */
  lemma AppliesNext(
    run: Runner, clock: int -> int, db: Database, plan: seq<MigrationFile>, last: MigrationFile,
    mid: Database, db': Database)
    requires Applies(run, clock, db, plan, mid)
    ensures ApplyOne(run, clock, mid, last) == Some(db') ==> Applies(run, clock, db, plan + [last], db')
  {
    if ApplyOne(run, clock, mid, last) == Some(db') {
      RunsThroughNext(run, plan, last, db.schema, db'.schema);
      UnrecordedNext(AppliedRows(db), plan, last);
      RecordsNext(clock, AppliedRows(db), plan, last, mid.tracking.value, db'.tracking.value);
    }
  }

  /** What a plan gives, the plan without its last file gives before that file is applied. */
  lemma AppliesInit(
    run: Runner, clock: int -> int, db: Database, plan: seq<MigrationFile>, last: MigrationFile, db': Database)
    returns (mid: Database)
    requires Applies(run, clock, db, plan + [last], db')
    ensures Applies(run, clock, db, plan, mid) && ApplyOne(run, clock, mid, last) == Some(db')
  {
    var rows := AppliedRows(db);
    UnrecordedNext(rows, plan, last);
    RunsThroughNext(run, plan, last, db.schema, db'.schema);
    var schemas, schema :| RunsThrough(run, plan, schemas) && schemas[0] == db.schema && schemas[|plan|] == schema
                           && run(schema, last.sql) == Some(db'.schema);
    RecordsInit(clock, rows, plan, last, db'.tracking.value);
    mid := Database(schema, Some(db'.tracking.value - {last.sequence}));
    RecordsNext(clock, rows, plan, last, mid.tracking.value, db'.tracking.value);
  }

  /** The transaction ends in a result exactly when none of its files is recorded yet, each only
      once, and all of their SQL runs, each on what the last one left; the result is what it
      leaves with a row for every file, all old rows as they were. */
  lemma {:induction false} TransactionExactly(
    run: Runner, clock: int -> int, db: Database, plan: seq<MigrationFile>, db': Database)
    ensures Transaction(run, clock, db, plan) == Some(db') <==> Applies(run, clock, db, plan, db')
    decreases |plan|
  {
    if plan == [] {
      AppliesNothing(run, clock, db, db');
    } else {
      var n := |plan| - 1;
      assert plan == plan[..n] + [plan[n]];
      if Transaction(run, clock, db, plan) == Some(db') {
        var mid := Transaction(run, clock, db, plan[..n]).value;
        TransactionExactly(run, clock, db, plan[..n], mid);
        AppliesNext(run, clock, db, plan[..n], plan[n], mid, db');
      }
      if Applies(run, clock, db, plan, db') {
        var mid := AppliesInit(run, clock, db, plan[..n], plan[n], db');
        TransactionExactly(run, clock, db, plan[..n], mid);
      }
    }
  }

  /** The plan can be applied to the database. */
  ghost predicate CanApply(run: Runner, clock: int -> int, db: Database, plan: seq<MigrationFile>) {
    exists db' :: Applies(run, clock, db, plan, db')
  }

  /** What applying a plan may end in: an empty plan succeeds and does nothing; any other is
      reported as applied exactly when it can be applied and the commit reports success.  The
      database then holds all of it, and otherwise nothing has changed, but for a commit that took
      effect and reported an error. */
  ghost predicate IsApplied(
    run: Runner, clock: int -> int, db: Database, plan: seq<MigrationFile>, trouble: Trouble, db': Database, ok: bool)
  {
    if plan == [] then ok && db' == db
    else
      && (ok <==> trouble == CommitEnds(Committed) && CanApply(run, clock, db, plan))
      && if (trouble == CommitEnds(Committed) || trouble == CommitEnds(Ambiguous)) && CanApply(run, clock, db, plan)
         then Applies(run, clock, db, plan, db') else db' == db
  }

  lemma ApplyMeans(run: Runner, clock: int -> int, db: Database, plan: seq<MigrationFile>, trouble: Trouble)
    ensures IsApplied(run, clock, db, plan, trouble,
                      AfterApply(run, clock, db, plan, trouble), ApplySucceeds(run, clock, db, plan, trouble))
  {
    var done := Transaction(run, clock, db, plan);
    if done.Some? {
      TransactionExactly(run, clock, db, plan, done.value);
    }
    if db' :| Applies(run, clock, db, plan, db') {
      TransactionExactly(run, clock, db, plan, db');
    }
  }

  class Connection {
    var schema: Schema
    var tracking: Option<Tracking>

    function View(): Database reads this {
      Database(schema, tracking)
    }

    constructor (schema: Schema)
      ensures View() == Database(schema, None)
    {
      this.schema, this.tracking := schema, None;
    }

    /** All of the plan or none of it. */
    method ApplyPlan(run: Runner, clock: int -> int, plan: seq<MigrationFile>, trouble: Trouble) returns (ok: bool)
      modifies this
      ensures View() == AfterApply(run, clock, old(View()), plan, trouble)
      ensures ok <==> ApplySucceeds(run, clock, old(View()), plan, trouble)
    {
      if plan == [] {
        return true;
      }
      if trouble.BeginFails? || trouble.TableFails? {
        return false;
      }
      var txSchema, txTracking := schema, if tracking.None? then map[] else tracking.value;
      ghost var start := View().(tracking := Some(AppliedRows(View())));
      for i := 0 to |plan|
        invariant ApplyAll(run, clock, start, plan[..i]) == Some(Database(txSchema, Some(txTracking)))
        invariant View() == old(View())
      {
        var file := plan[i];
        assert plan[..i + 1][..i] == plan[..i];
        var ran := run(txSchema, file.sql);
        if ran.None? || file.sequence in txTracking {
          StuckStaysStuck(run, clock, start, plan, i + 1);
          return false;
        }
        txSchema := ran.value;
        txTracking := txTracking[file.sequence :=
          Applied(file.sequence, file.filename, file.checksum, clock(file.sequence))];
      }
      assert plan[..|plan|] == plan;
      if trouble.commit.Durable() {
        schema, tracking := txSchema, Some(txTracking);
      }
      ok := trouble.commit.Reported();
    }
  }

  lemma {:induction false} StuckStaysStuck(
    run: Runner, clock: int -> int, db: Database, plan: seq<MigrationFile>, i: nat)
    requires i <= |plan| && ApplyAll(run, clock, db, plan[..i]).None?
    ensures ApplyAll(run, clock, db, plan).None?
    decreases |plan| - i
  {
    if i == |plan| {
      assert plan[..i] == plan;
    } else {
      assert plan[..i + 1][..i] == plan[..i];
      StuckStaysStuck(run, clock, db, plan, i + 1);
    }
  }

  // ---------- what a transaction leaves behind ----------

  /** The table holds exactly the files of `log`: rows 1..n, each with its file's name and checksum. */
  ghost predicate Tracks(applied: Tracking, log: seq<MigrationFile>) {
    && (forall k :: k in applied <==> 1 <= k <= |log|)
    && (forall k :: 1 <= k <= |log| ==> applied[k].sequence == k && Agrees(applied[k], log[k - 1]))
  }

  /** The SQL of `log`, run once each, in order. */
  function RunAll(run: Runner, schema: Schema, log: seq<MigrationFile>): Option<Schema> {
    if log == [] then Some(schema)
    else
      match RunAll(run, schema, log[..|log| - 1])
      case None => None
      case Some(before) => run(before, log[|log| - 1].sql)
  }

  lemma {:induction false} RunAllConcat(run: Runner, schema: Schema, a: seq<MigrationFile>, b: seq<MigrationFile>)
    ensures RunAll(run, schema, a + b) ==
      match RunAll(run, schema, a)
      case None => None
      case Some(mid) => RunAll(run, mid, b)
    decreases |b|
  {
    if b == [] {
      assert a + b == a;
    } else {
      var n := |b| - 1;
      RunAllConcat(run, schema, a, b[..n]);
      assert (a + b)[..|a + b| - 1] == a + b[..n];
    }
  }

  /** A plan that continues the log commits exactly when its SQL runs, and extends the table
      by exactly its files. */
  lemma {:induction false} FreshPlanExtends(
    run: Runner, clock: int -> int, db: Database, log: seq<MigrationFile>, plan: seq<MigrationFile>)
    requires Tracks(AppliedRows(db), log) && Numbered(log + plan)
    ensures var done := Transaction(run, clock, db, plan);
      && (done.Some? <==> RunAll(run, db.schema, plan).Some?)
      && (done.Some? ==>
            && done.value.schema == RunAll(run, db.schema, plan).value
            && done.value.tracking.Some?
            && Tracks(done.value.tracking.value, log + plan))
    decreases |plan|
  {
    if plan == [] {
      assert log + plan == log;
    } else {
      var n := |plan| - 1;
      var last := plan[n];
      forall i | 0 <= i < |log + plan[..n]|
        ensures (log + plan[..n])[i].sequence == i + 1
      {
        assert (log + plan[..n])[i] == (log + plan)[i];
      }
      FreshPlanExtends(run, clock, db, log, plan[..n]);
      assert (log + plan)[|log| + n] == last;
      assert last.sequence == |log| + n + 1;
      var before := Transaction(run, clock, db, plan[..n]);
      if before.Some? && run(before.value.schema, last.sql).Some? {
        var rows := before.value.tracking.value;
        var rows' := Transaction(run, clock, db, plan).value.tracking.value;
        var row := Applied(last.sequence, last.filename, last.checksum, clock(last.sequence));
        assert rows' == rows[last.sequence := row];
        forall k | 1 <= k <= |log + plan|
          ensures rows'[k].sequence == k && Agrees(rows'[k], (log + plan)[k - 1])
        {
          assert k <= |log| + n ==> (log + plan)[k - 1] == (log + plan[..n])[k - 1];
        }
      }
    }
  }

  /** A plan whose first file is already recorded is rolled back whole. */
  lemma {:induction false} StalePlanRollsBack(run: Runner, clock: int -> int, db: Database, plan: seq<MigrationFile>)
    requires plan != [] && plan[0].sequence in AppliedRows(db)
    ensures Transaction(run, clock, db, plan).None?
    decreases |plan|
  {
    var n := |plan| - 1;
    if n == 0 {
      var start := db.(tracking := Some(AppliedRows(db)));
      assert plan[..0] == [] && ApplyAll(run, clock, start, []) == Some(start);
      assert ApplyOne(run, clock, start, plan[0]).None?;
    } else {
      assert plan[..n][0] == plan[0];
      StalePlanRollsBack(run, clock, db, plan[..n]);
    }
  }

  /** Once the plan of a validated list has committed, validating the same list finds nothing to do. */
  lemma RevalidationIsEmpty(run: Runner, clock: int -> int, db: Database, files: seq<MigrationFile>)
    requires Numbered(files) && KeyedBySequence(AppliedRows(db)) && Accepts(files, AppliedRows(db))
    requires Transaction(run, clock, db, Pending(files, AppliedRows(db))).Some?
    ensures var after := AppliedRows(Transaction(run, clock, db, Pending(files, AppliedRows(db))).value);
      Accepts(files, after) && Pending(files, after) == []
  {
    var applied := AppliedRows(db);
    var m := |applied|;
    AcceptedIsPrefix(files, applied);
    PrefixIsAccepted(files, applied, m);
    SuffixCommits(run, clock, db, files, m);
  }

  /** Committing the files after a matching prefix makes the whole list the prefix. */
  lemma SuffixCommits(run: Runner, clock: int -> int, db: Database, files: seq<MigrationFile>, m: nat)
    requires Numbered(files) && KeyedBySequence(AppliedRows(db)) && AppliedPrefix(files, AppliedRows(db), m)
    requires Transaction(run, clock, db, files[m..]).Some?
    ensures var after := AppliedRows(Transaction(run, clock, db, files[m..]).value);
      Accepts(files, after) && Pending(files, after) == []
  {
    assert files[..m] + files[m..] == files;
    FreshPlanExtends(run, clock, db, files[..m], files[m..]);
    var after := AppliedRows(Transaction(run, clock, db, files[m..]).value);
    assert AppliedPrefix(files, after, |files|);
    PrefixIsAccepted(files, after, |files|);
  }

  /** The plan made when a prefix of the files has committed. */
  lemma PlanAfterPrefix(files: seq<MigrationFile>, applied: Tracking, m: nat)
    requires Numbered(files) && m <= |files| && Tracks(applied, files[..m])
    ensures Pending(files, applied) == files[m..]
  {
    assert AppliedPrefix(files, applied, m);
    PlanOfPrefix(files, applied, m);
  }

  /** A plan of the files that a prefix leaves. */
  lemma SecondPlan(
    run: Runner, clock: int -> int, db: Database,
    files: seq<MigrationFile>, before: seq<MigrationFile>, rest: seq<MigrationFile>)
    requires files == before + rest && Numbered(files) && Tracks(AppliedRows(db), before)
    ensures var done := Transaction(run, clock, db, rest);
      && (done.Some? <==> RunAll(run, db.schema, rest).Some?)
      && (done.Some? ==>
            && done.value.schema == RunAll(run, db.schema, rest).value
            && Tracks(AppliedRows(done.value), files))
  {
    FreshPlanExtends(run, clock, db, before, rest);
  }

  /** What validating the files and applying their plan gives. */
  function Migrated(run: Runner, clock: int -> int, db: Database, files: seq<MigrationFile>): Option<Database> {
    Transaction(run, clock, db, Pending(files, AppliedRows(db)))
  }

  /** From a table that holds the first `k` files. */
  lemma MigratedFrom(run: Runner, clock: int -> int, db: Database, files: seq<MigrationFile>, k: nat)
    requires Numbered(files) && k <= |files| && Tracks(AppliedRows(db), files[..k])
    ensures var done := Migrated(run, clock, db, files);
      && (done.Some? <==> RunAll(run, db.schema, files[k..]).Some?)
      && (done.Some? ==>
            && done.value.schema == RunAll(run, db.schema, files[k..]).value
            && Tracks(AppliedRows(done.value), files))
  {
    PlanAfterPrefix(files, AppliedRows(db), k);
    assert files == files[..k] + files[k..];
    SecondPlan(run, clock, db, files, files[..k], files[k..]);
  }

  /** Migrating to the first `m` files and then to all of them. */
  function Staged(
    run: Runner, clock1: int -> int, clock2: int -> int, db: Database, files: seq<MigrationFile>, m: nat)
    : Option<Database>
    requires m <= |files|
  {
    match Migrated(run, clock1, db, files[..m])
    case None => None
    case Some(first) => Migrated(run, clock2, first, files)
  }

  /** From a table that holds any prefix of the files, migrating to a longer prefix and then to
      the whole list does what migrating at once does: both succeed or neither, with the same
      schema and the same sequence, filename and checksum records. */
  lemma StagedEqualsWhole(
    run: Runner, clock1: int -> int, clock2: int -> int, clock: int -> int,
    db: Database, files: seq<MigrationFile>, k: nat, m: nat)
    requires Numbered(files) && k <= m <= |files| && Tracks(AppliedRows(db), files[..k])
    ensures
      var whole := Migrated(run, clock, db, files);
      var staged := Staged(run, clock1, clock2, db, files, m);
      && (whole.Some? <==> staged.Some?)
      && (whole.Some? ==>
            && staged.value.schema == whole.value.schema
            && Tracks(AppliedRows(staged.value), files)
            && Tracks(AppliedRows(whole.value), files))
  {
    MigratedFrom(run, clock, db, files, k);
    StagedRuns(run, clock1, clock2, db, files, k, m);
  }

  lemma StagedRuns(
    run: Runner, clock1: int -> int, clock2: int -> int, db: Database, files: seq<MigrationFile>, k: nat, m: nat)
    requires Numbered(files) && k <= m <= |files| && Tracks(AppliedRows(db), files[..k])
    ensures
      var staged := Staged(run, clock1, clock2, db, files, m);
      && (staged.Some? <==> RunAll(run, db.schema, files[k..]).Some?)
      && (staged.Some? ==>
            && staged.value.schema == RunAll(run, db.schema, files[k..]).value
            && Tracks(AppliedRows(staged.value), files))
  {
    var before, middle, rest := files[..m], files[k..m], files[m..];
    assert before[..k] == files[..k] && before[k..] == middle && files[k..] == middle + rest;
    RunAllConcat(run, db.schema, middle, rest);
    MigratedFrom(run, clock1, db, before, k);
    match Migrated(run, clock1, db, before)
    case None =>
    case Some(first) => MigratedFrom(run, clock2, first, files, m);
  }
}
