/** The retention passes over the backup directory (app/jobs/backup/service.go,
    app/jobs/backup/backup.go). */
module BackupDirectory {
  import opened BackupFiles
  import opened Calendar
  import opened Sorting
  import opened Wrappers

  datatype Error = UnknownSuffix | SnapshotFailed | OpenFailed | ZipFailed | CloseFailed | ReadFailed

  /** The error `createBackup` reports. */
  function CreateError(attempt: Attempt): Option<Error> {
    if !attempt.appSnapshot || attempt.workerSnapshot == Some(false) then Some(SnapshotFailed)
    else if !attempt.created then Some(OpenFailed)
    else if !attempt.zipped then Some(ZipFailed)
    else if !attempt.closed then Some(CloseFailed)
    else None
  }

  datatype Backup = Backup(name: string, day: int)

  predicate OlderBackup(a: Backup, b: Backup) { a.day < b.day }

  /** The backup is in the directory, with the day its name says. */
  predicate IsListed(backup: Backup, entries: Entries, suffix: string) {
    IsBackup(entries, backup.name, suffix) && backup.day == Day(backup.name, suffix)
  }

  function Gone(due: set<string>, seen: seq<string>): set<string> {
    set name | name in due && name in seen
  }

  /** Of the files due, exactly the ones seen so far are gone. */
  ghost predicate Pruned(entries: Entries, deleted: nat, all: Entries, due: set<string>, seen: seq<string>) {
    entries == all - Gone(due, seen) && deleted == |Gone(due, seen)|
  }

  lemma PruneStarts(all: Entries, due: set<string>, names: seq<string>)
    ensures Pruned(all, 0, all, due, names[..0])
  {
    assert Gone(due, names[..0]) == {};
    assert all - {} == all;
  }

  /** Names of the directory, none twice. */
  ghost predicate Distinct(names: seq<string>, all: Entries) {
    && (forall i, j :: 0 <= i < j < |names| ==> names[i] != names[j])
    && (forall i :: 0 <= i < |names| ==> names[i] in all)
  }

  lemma GoneNext(due: set<string>, names: seq<string>, i: nat)
    requires i < |names| && forall j, k :: 0 <= j < k < |names| ==> names[j] != names[k]
    ensures names[i] !in Gone(due, names[..i])
    ensures names[i] in due ==> Gone(due, names[..i + 1]) == Gone(due, names[..i]) + {names[i]}
    ensures names[i] !in due ==> Gone(due, names[..i + 1]) == Gone(due, names[..i])
  {
    assert names[..i + 1] == names[..i] + [names[i]];
  }

  lemma DropOne(all: Entries, gone: set<string>, name: string)
    requires name in all && name !in gone
    ensures name in all - gone && (all - gone)[name] == all[name]
    ensures (all - gone) - {name} == all - (gone + {name})
    ensures |gone + {name}| == |gone| + 1
  {
  }

  /** A file due is still there when its turn comes, and then it goes or nothing does. */
  lemma PruneNext(entries: Entries, deleted: nat, all: Entries, due: set<string>, names: seq<string>, i: nat)
    requires Distinct(names, all) && i < |names| && Pruned(entries, deleted, all, due, names[..i])
    ensures names[i] in entries && entries[names[i]] == all[names[i]]
    ensures names[i] in due ==> Pruned(entries - {names[i]}, deleted + 1, all, due, names[..i + 1])
    ensures names[i] !in due ==> Pruned(entries, deleted, all, due, names[..i + 1])
  {
    GoneNext(due, names, i);
    DropOne(all, Gone(due, names[..i]), names[i]);
  }

  lemma PruneEnds(entries: Entries, deleted: nat, all: Entries, due: set<string>, seen: seq<string>)
    requires Pruned(entries, deleted, all, due, seen)
    requires forall name :: name in due ==> name in seen
    ensures entries == all - due && deleted == |due|
  {
    assert Gone(due, seen) == due;
  }

  class BackupDir {
    var entries: Entries

    constructor (entries: Entries)
      ensures this.entries == entries
    {
      this.entries := entries;
    }

    /** The names in the directory, in some order. */
    method ReadNames() returns (names: seq<string>)
      ensures Distinct(names, entries)
      ensures forall name :: name in entries ==> name in names
    {
      names := [];
      var rest := entries.Keys;
      while rest != {}
        invariant rest <= entries.Keys
        invariant forall i, j :: 0 <= i < j < |names| ==> names[i] != names[j]
        invariant forall name :: name in names <==> name in entries && name !in rest
        decreases |rest|
      {
        var name :| name in rest;
        names := names + [name];
        rest := rest - {name};
      }
    }

    /** `os.Remove`, which fails for the stuck names. */
    method Remove(name: string, stuck: set<string>) returns (removed: bool)
      requires name in entries
      modifies this
      ensures removed <==> name !in stuck
      ensures entries == if removed then old(entries) - {name} else old(entries)
    {
      removed := name !in stuck;
      if removed {
        entries := entries - {name};
      }
    }

    /** `deleteStrayFiles`. */
    method DeleteStrayFiles(reading: Reading, stuck: set<string>) returns (r: Result<nat, Error>)
      requires reading.Missing? ==> entries == map[]
      modifies this
      ensures r.Err? <==> reading.Unreadable?
      ensures r.Err? ==> r.error == ReadFailed
      ensures entries == if r.Err? then old(entries) else WithoutStray(old(entries), stuck)
      ensures r.Ok? ==> r.value == |Stray(old(entries)) - stuck|
    {
      match reading {
        case Missing =>
          assert Stray(entries) == {};
          return Ok(0);
        case Unreadable => return Err(ReadFailed);
        case Listed =>
      }
      var names := ReadNames();
      var deleted := 0;
      ghost var all := entries;
      ghost var due := Stray(all) - stuck;
      PruneStarts(all, due, names);
      for i := 0 to |names|
        invariant Pruned(entries, deleted, all, due, names[..i])
      {
        var name := names[i];
        PruneNext(entries, deleted, all, due, names, i);
        if entries[name].Directory? || MatchName(name).Some? {
          continue;
        }
        var removed := Remove(name, stuck);
        if removed {
          deleted := deleted + 1;
        }
      }
      assert names[..|names|] == names;
      PruneEnds(entries, deleted, all, due, names);
      r := Ok(deleted);
    }

    /** `pruneByDate`. */
    method PruneByDate(suffix: string, cutoff: int, reading: Reading, stuck: set<string>)
      returns (r: Result<nat, Error>)
      requires reading.Missing? ==> entries == map[]
      modifies this
      ensures r.Err? <==> reading.Unreadable?
      ensures r.Err? ==> r.error == ReadFailed
      ensures entries == if r.Err? then old(entries) else old(entries) - (Expired(old(entries), suffix, cutoff) - stuck)
      ensures r.Ok? ==> r.value == |Expired(old(entries), suffix, cutoff) - stuck|
    {
      match reading {
        case Missing =>
          assert Expired(entries, suffix, cutoff) == {};
          return Ok(0);
        case Unreadable => return Err(ReadFailed);
        case Listed =>
      }
      var names := ReadNames();
      var deleted := 0;
      ghost var all := entries;
      ghost var due := Expired(all, suffix, cutoff) - stuck;
      PruneStarts(all, due, names);
      for i := 0 to |names|
        invariant Pruned(entries, deleted, all, due, names[..i])
      {
        var name := names[i];
        PruneNext(entries, deleted, all, due, names, i);
        if entries[name].Directory? {
          continue;
        }
        var date := DateIn(name, suffix);
        if date.None? {
          continue;
        }
        if Midnight(date.value) < cutoff {
          var removed := Remove(name, stuck);
          if removed {
            deleted := deleted + 1;
          }
        }
      }
      assert names[..|names|] == names;
      PruneEnds(entries, deleted, all, due, names);
      r := Ok(deleted);
    }

    /** `listBackupsBySuffix`: every backup of the suffix once, oldest first. */
    method ListBackupsBySuffix(suffix: string, reading: Reading) returns (r: Result<seq<Backup>, Error>)
      requires KnownSuffix(suffix) && (reading.Missing? ==> entries == map[])
      ensures r.Err? <==> reading.Unreadable?
      ensures r.Err? ==> r.error == ReadFailed
      ensures r.Ok? ==> Ranked(r.value, entries, suffix)
    {
      match reading {
        case Missing => return Ok([]);
        case Unreadable => return Err(ReadFailed);
        case Listed =>
      }
      var found := CollectBackups(suffix);
      var backups := SortSlice(found, OlderBackup);
      SameMembers(found, backups);
      SortedDaysRise(found, backups, entries, suffix);
      r := Ok(backups);
    }

    /** The loop over the directory, before the sort. */
    method CollectBackups(suffix: string) returns (found: seq<Backup>)
      ensures forall j, k :: 0 <= j < k < |found| ==> found[j].name != found[k].name
      ensures forall b :: b in found ==> IsListed(b, entries, suffix)
      ensures forall name :: IsBackup(entries, name, suffix) ==> Backup(name, Day(name, suffix)) in found
    {
      var names := ReadNames();
      found := [];
      for i := 0 to |names|
        invariant forall j, k :: 0 <= j < k < |found| ==> found[j].name != found[k].name
        invariant forall j :: 0 <= j < |found| ==> found[j].name in names[..i]
        invariant forall b :: b in found ==> IsListed(b, entries, suffix)
        invariant forall p :: 0 <= p < i && IsBackup(entries, names[p], suffix) ==>
          Backup(names[p], Day(names[p], suffix)) in found
      {
        var name := names[i];
        assert name in entries && name !in names[..i] && names[..i + 1] == names[..i] + [name];
        if entries[name].Directory? {
          continue;
        }
        var date := DateIn(name, suffix);
        if date.None? {
          continue;
        }
        found := found + [Backup(name, DayNumber(date.value))];
      }
    }

    /** `pruneByCount`, keeping the newest. */
    method PruneByCount(suffix: string, keep: nat, reading: Reading, stuck: set<string>)
      returns (r: Result<nat, Error>)
      requires KnownSuffix(suffix) && (reading.Missing? ==> entries == map[])
      modifies this
      ensures r.Err? <==> reading.Unreadable?
      ensures r.Err? ==> r.error == ReadFailed
      ensures entries == if r.Err? then old(entries) else old(entries) - (Excess(old(entries), suffix, keep) - stuck)
      ensures r.Ok? ==> r.value == |Excess(old(entries), suffix, keep) - stuck|
    {
      var listed := ListBackupsBySuffix(suffix, reading);
      if listed.Err? {
        return Err(listed.error);
      }
      var backups := listed.value;
      ghost var all := entries;
      OldestAreExcess(all, suffix, backups, keep);
      ghost var names, due := Names(backups), Excess(all, suffix, keep) - stuck;
      if |backups| <= keep {
        assert due == {};
        return Ok(0);
      }
      var deleted := 0;
      PruneStarts(all, due, names);
      var surplus := |backups| - keep;
      for i := 0 to surplus
        invariant Pruned(entries, deleted, all, due, names[..i])
      {
        PruneNext(entries, deleted, all, due, names, i);
        var removed := Remove(backups[i].name, stuck);
        if removed {
          deleted := deleted + 1;
        }
      }
      forall name | name in due
        ensures name in names[..surplus]
      {
        assert name in Excess(all, suffix, keep);
      }
      PruneEnds(entries, deleted, all, due, names[..surplus]);
      r := Ok(deleted);
    }

    /** `createBackup`. */
    method CreateBackup(started: Instant, suffix: string, attempt: Attempt) returns (r: Result<string, Error>)
      requires KnownSuffix(suffix) && ValidInstant(started)
      requires Possible(entries, ZipName(started.date, suffix), OutcomeOf(attempt))
      modifies this
      ensures entries == Created(old(entries), ZipName(started.date, suffix), OutcomeOf(attempt))
      ensures r == match CreateError(attempt)
                   case Some(error) => Err(error)
                   case None => Ok(ZipName(started.date, suffix))
      ensures r == Err(SnapshotFailed) <==> !attempt.appSnapshot || attempt.workerSnapshot == Some(false)
      ensures r == Err(SnapshotFailed) || (r == Err(OpenFailed) <==> !attempt.created)
      ensures r == Err(SnapshotFailed) || r == Err(OpenFailed) || (r == Err(ZipFailed) <==> !attempt.zipped)
      ensures r == Ok(ZipName(started.date, suffix)) <==>
        && attempt.appSnapshot && attempt.workerSnapshot != Some(false)
        && attempt.created && attempt.zipped && attempt.closed
    {
      var zip := ZipName(started.date, suffix);
      if !attempt.appSnapshot {
        return Err(SnapshotFailed);
      }
      if attempt.workerSnapshot == Some(false) {
        return Err(SnapshotFailed);
      }
      if !attempt.created {
        return Err(OpenFailed);
      }
      ghost var before := entries;
      entries := entries[zip := File(if attempt.zipped && attempt.closed then attempt.whole else attempt.part)];
      assert entries - {zip} == before - {zip};
      if !attempt.zipped {
        if attempt.removed {
          entries := entries - {zip};
        }
        return Err(ZipFailed);
      }
      if !attempt.closed {
        if attempt.removed {
          entries := entries - {zip};
        }
        return Err(CloseFailed);
      }
      r := Ok(zip);
    }

    /** `Run`: the new backup first, then the expired ones of its suffix. */
    method Run(call: RunCall) returns (failed: Option<Error>)
      requires ValidInstant(call.started) && ValidInstant(call.finished)
      requires Possible(entries, ZipName(call.started.date, call.suffix), call.Outcome())
      requires call.reading.Missing? ==> !call.Outcome().Written?
      modifies this
      ensures entries == RunLeaves(old(entries), call)
      ensures LeftByRun(old(entries), call, entries)
      ensures failed ==
        if !KnownSuffix(call.suffix) then Some(UnknownSuffix)
        else if CreateError(call.attempt).Some? then CreateError(call.attempt)
        else if call.reading.Unreadable? then Some(ReadFailed)
        else None
    {
      RunMeans(entries, call);
      var maxAge := MaxAge(call.suffix);
      if maxAge.None? {
        return Some(UnknownSuffix);
      }
      var created := CreateBackup(call.started, call.suffix, call.attempt);
      if created.Err? {
        return Some(created.error);
      }
      var pruned := PruneByDate(call.suffix, Time(call.finished) - maxAge.value, call.reading, call.stuck);
      failed := if pruned.Err? then Some(pruned.error) else None;
    }

    /** `Cleanup`: the stray files, then the excess of each suffix. */
    method Cleanup(readings: Readings, stuck: Stuck) returns (failed: Option<Error>)
      requires readings.FindNone() ==> entries == map[]
      modifies this
      ensures failed.Some? <==> readings.Fail()
      ensures failed.Some? ==> failed.value == ReadFailed
      ensures entries == Cleaned(old(entries), readings, stuck)
    {
      var strays := DeleteStrayFiles(readings.stray, stuck.stray);
      if strays.Err? {
        return Some(strays.error);
      }
      var total := PruneByCount("daily", RETAINED, readings.daily, stuck.daily);
      if total.Err? {
        return Some(total.error);
      }
      var weekly := PruneByCount("weekly", RETAINED, readings.weekly, stuck.weekly);
      if weekly.Err? {
        return Some(weekly.error);
      }
      failed := None;
    }
  }

  function Names(backups: seq<Backup>): (names: seq<string>)
    ensures |names| == |backups| && forall i :: 0 <= i < |names| ==> names[i] == backups[i].name
  {
    seq(|backups|, i requires 0 <= i < |backups| => backups[i].name)
  }

  /** The list of one suffix's backups, oldest first. */
  ghost predicate Ranked(backups: seq<Backup>, all: Entries, suffix: string) {
    && (forall b :: b in backups ==> IsListed(b, all, suffix))
    && (forall name :: IsBackup(all, name, suffix) ==> Backup(name, Day(name, suffix)) in backups)
    && (forall i, j :: 0 <= i < j < |backups| ==> backups[i].day < backups[j].day)
  }

  function Members(names: seq<string>): set<string> {
    set i | 0 <= i < |names| :: names[i]
  }

  /** The newer backups are the later ones in the list. */
  lemma NewerAreLater(all: Entries, suffix: string, backups: seq<Backup>, i: nat)
    requires Ranked(backups, all, suffix) && i < |backups|
    ensures Newer(all, backups[i].name, suffix) == Members(Names(backups)[i + 1..])
  {
    var names := Names(backups);
    assert backups[i] in backups;
    forall other
      ensures other in Newer(all, backups[i].name, suffix) <==> other in names[i + 1..]
    {
      if other in Newer(all, backups[i].name, suffix) {
        var j :| 0 <= j < |backups| && backups[j] == Backup(other, Day(other, suffix));
        assert i < j && names[i + 1..][j - i - 1] == other;
      }
      if other in names[i + 1..] {
        var j :| 0 <= j < |names| - i - 1 && names[i + 1..][j] == other;
        assert backups[i + 1 + j].name == other && backups[i + 1 + j] in backups;
      }
    }
  }

  lemma {:induction false} DistinctCount(names: seq<string>)
    requires forall i, j :: 0 <= i < j < |names| ==> names[i] != names[j]
    ensures |Members(names)| == |names|
    decreases |names|
  {
    if names != [] {
      var rest := names[1..];
      DistinctCount(rest);
      assert names[0] !in rest;
      assert forall i :: 0 <= i < |rest| ==> rest[i] == names[i + 1];
      assert Members(names) == Members(rest) + {names[0]};
    }
  }

  /** All but the last `keep` of the list are the excess. */
  lemma OldestAreExcess(all: Entries, suffix: string, backups: seq<Backup>, keep: nat)
    requires Ranked(backups, all, suffix)
    ensures Distinct(Names(backups), all)
    ensures forall i :: 0 <= i < |backups| ==> (backups[i].name in Excess(all, suffix, keep) <==> i < |backups| - keep)
    ensures forall name :: name in Excess(all, suffix, keep) ==>
      0 < |backups| - keep && name in Names(backups)[..|backups| - keep]
  {
    forall i, j | 0 <= i < j < |backups|
      ensures backups[i].name != backups[j].name
    {
      assert backups[i] in backups && backups[j] in backups;
    }
    forall i | 0 <= i < |backups|
      ensures backups[i].name in all
      ensures backups[i].name in Excess(all, suffix, keep) <==> i < |backups| - keep
    {
      assert backups[i] in backups;
      NewerAreLater(all, suffix, backups, i);
      DistinctCount(Names(backups)[i + 1..]);
    }
    forall name | name in Excess(all, suffix, keep)
      ensures 0 < |backups| - keep && name in Names(backups)[..|backups| - keep]
    {
      var i :| 0 <= i < |backups| && backups[i] == Backup(name, Day(name, suffix));
      assert Names(backups)[..|backups| - keep][i] == name;
    }
  }

  /** Backups listed once come out with rising days: no two share one. */
  lemma SortedDaysRise(found: seq<Backup>, backups: seq<Backup>, entries: Entries, suffix: string)
    requires KnownSuffix(suffix) && multiset(found) == multiset(backups) && Ordered(backups, OlderBackup)
    requires forall j, k :: 0 <= j < k < |found| ==> found[j].name != found[k].name
    requires forall b :: b in backups ==> IsListed(b, entries, suffix)
    ensures forall i, j :: 0 <= i < j < |backups| ==> backups[i].day < backups[j].day
  {
    forall i, j | 0 <= i < j < |backups|
      ensures backups[i].day < backups[j].day
    {
      assert backups[i] in backups && backups[j] in backups;
      if backups[i].day == backups[j].day {
        SameDaySameName(backups[i].name, backups[j].name, suffix);
        TwoPlacesCount(backups, i, j);
        var p, q := CountHasTwoPlaces(found, backups[i]);
      }
    }
  }
}
