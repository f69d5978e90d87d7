/** `Cleanup` is exact, repeatable, and recovers from its own failures
    (app/jobs/backup/backup.go, app/jobs/backup/service.go). */
module BackupCleanup {
  import opened BackupFiles
  import opened BackupRanks
  import opened Calendar
  import opened Wrappers

  /** Everything a `Cleanup` wants gone. */
  function Due(entries: Entries): set<string> {
    Stray(entries) + Excess(entries, "daily", RETAINED) + Excess(entries, "weekly", RETAINED)
  }

  /** The three passes want different files. */
  lemma DueAreDisjoint(entries: Entries)
    ensures forall name :: name in Stray(entries) ==> forall suffix :: !IsBackup(entries, name, suffix)
    ensures forall name :: !(IsBackup(entries, name, "daily") && IsBackup(entries, name, "weekly"))
  {
    forall name
      ensures !(IsBackup(entries, name, "daily") && IsBackup(entries, name, "weekly"))
    {
      SuffixesDiffer(name);
    }
  }

  lemma MinusTwo(entries: Entries, a: set<string>, b: set<string>)
    ensures (entries - a) - b == entries - (a + b)
  {
  }

  /** Some files of each kind gone: what is still due is the rest. */
  lemma DueAfterPart(entries: Entries, stray: set<string>, daily: set<string>, weekly: set<string>)
    requires stray <= Stray(entries)
    requires daily <= Excess(entries, "daily", RETAINED) && weekly <= Excess(entries, "weekly", RETAINED)
    ensures var after := entries - (stray + daily + weekly);
      && Stray(after) == Stray(entries) - stray
      && Excess(after, "daily", RETAINED) == Excess(entries, "daily", RETAINED) - daily
      && Excess(after, "weekly", RETAINED) == Excess(entries, "weekly", RETAINED) - weekly
  {
    DueAreDisjoint(entries);
    MinusTwo(entries, daily, stray + weekly);
    assert daily + (stray + weekly) == stray + daily + weekly;
    PartOfExcess(entries, daily, "daily", RETAINED);
    OthersKeepExcess(entries - daily, stray + weekly, "daily", RETAINED);
    MinusTwo(entries, weekly, stray + daily);
    assert weekly + (stray + daily) == stray + daily + weekly;
    PartOfExcess(entries, weekly, "weekly", RETAINED);
    OthersKeepExcess(entries - weekly, stray + daily, "weekly", RETAINED);
  }

  /** A count pass, after files that are no backups of its suffix went. */
  lemma CountPass(entries: Entries, gone: set<string>, suffix: string, stuck: set<string>)
    requires forall other :: other in gone ==> !IsBackup(entries, other, suffix)
    ensures WithoutExcess(entries - gone, suffix, stuck)
      == entries - (gone + (Excess(entries, suffix, RETAINED) - stuck))
  {
    OthersKeepExcess(entries, gone, suffix, RETAINED);
    MinusTwo(entries, gone, Excess(entries, suffix, RETAINED) - stuck);
  }

  /** Whatever fails on the way, a `Cleanup` removes files that are due and no others. */
  lemma CleanedIsPart(entries: Entries, readings: Readings, stuck: Stuck)
    returns (stray: set<string>, daily: set<string>, weekly: set<string>)
    ensures stray <= Stray(entries)
    ensures daily <= Excess(entries, "daily", RETAINED) && weekly <= Excess(entries, "weekly", RETAINED)
    ensures Cleaned(entries, readings, stuck) == entries - (stray + daily + weekly)
    ensures stray == if readings.stray.Unreadable? then {} else Stray(entries) - stuck.stray
    ensures daily == if readings.stray.Unreadable? || readings.daily.Unreadable? then {}
                     else Excess(entries, "daily", RETAINED) - stuck.daily
    ensures weekly == if readings.Fail() then {} else Excess(entries, "weekly", RETAINED) - stuck.weekly
  {
    DueAreDisjoint(entries);
    stray := if readings.stray.Unreadable? then {} else Stray(entries) - stuck.stray;
    daily := if readings.stray.Unreadable? || readings.daily.Unreadable? then {}
             else Excess(entries, "daily", RETAINED) - stuck.daily;
    weekly := if readings.Fail() then {} else Excess(entries, "weekly", RETAINED) - stuck.weekly;
    if readings.stray.Unreadable? {
      assert entries - (stray + daily + weekly) == entries;
    } else if readings.daily.Unreadable? {
      assert stray + daily + weekly == stray;
    } else {
      CountPass(entries, stray, "daily", stuck.daily);
      if readings.weekly.Unreadable? {
        assert stray + daily + weekly == stray + daily;
      } else {
        CountPass(entries, stray + daily, "weekly", stuck.weekly);
      }
    }
  }

  /** A `Cleanup` without failures removes exactly the stray files and, of each suffix, all
      but the three newest backups. */
  lemma CleanupIsExact(entries: Entries)
    ensures Cleaned(entries, ALL_LISTED, NONE_STUCK) == entries - Due(entries)
  {
    var stray, daily, weekly := CleanedIsPart(entries, ALL_LISTED, NONE_STUCK);
    assert Due(entries) == stray + daily + weekly;
  }

  // ---------- what goes, file by file ----------

  predicate HasFile(entries: Entries, name: string) { name in entries && entries[name].File? }

  /** Files of three later days are there for the suffix. */
  ghost predicate ThreeLater(entries: Entries, suffix: string, date: Date) {
    exists a: Date, b: Date, c: Date ::
      && ValidDate(a) && ValidDate(b) && ValidDate(c)
      && Earlier(date, a) && Earlier(a, b) && Earlier(b, c)
      && HasFile(entries, ZipName(a, suffix)) && HasFile(entries, ZipName(b, suffix))
      && HasFile(entries, ZipName(c, suffix))
  }

  lemma NewerByDate(entries: Entries, suffix: string, date: Date, other: Date)
    requires KnownSuffix(suffix) && ValidDate(date) && ValidDate(other)
    ensures ZipName(other, suffix) in Newer(entries, ZipName(date, suffix), suffix) <==>
      HasFile(entries, ZipName(other, suffix)) && Earlier(date, other)
  {
    NameIsZipName(ZipName(date, suffix), suffix, date);
    NameIsZipName(ZipName(other, suffix), suffix, other);
    LaterDateHasLaterNumber(date, other);
  }

  lemma NewerHasDate(entries: Entries, suffix: string, date: Date, name: string) returns (other: Date)
    requires KnownSuffix(suffix) && ValidDate(date) && name in Newer(entries, ZipName(date, suffix), suffix)
    ensures ValidDate(other) && name == ZipName(other, suffix)
    ensures HasFile(entries, name) && Earlier(date, other)
  {
    other := DateIn(name, suffix).value;
    NameIsZipName(name, suffix, other);
    NewerByDate(entries, suffix, date, other);
  }

  lemma LaterAreThree(entries: Entries, suffix: string, date: Date, a: Date, b: Date, c: Date)
    requires KnownSuffix(suffix) && ValidDate(date) && ValidDate(a) && ValidDate(b) && ValidDate(c)
    requires Earlier(date, a) && Earlier(a, b) && Earlier(b, c)
    requires HasFile(entries, ZipName(a, suffix)) && HasFile(entries, ZipName(b, suffix))
    requires HasFile(entries, ZipName(c, suffix))
    ensures |Newer(entries, ZipName(date, suffix), suffix)| >= 3
  {
    var x, y, z := ZipName(a, suffix), ZipName(b, suffix), ZipName(c, suffix);
    NewerByDate(entries, suffix, date, a);
    NewerByDate(entries, suffix, date, b);
    NewerByDate(entries, suffix, date, c);
    NewerByDate(entries, suffix, a, b);
    NewerByDate(entries, suffix, a, c);
    NewerByDate(entries, suffix, b, c);
    assert x !in Newer(entries, x, suffix) && y !in Newer(entries, y, suffix);
    assert |{x, y, z}| == 3;
    SubsetCount({x, y, z}, Newer(entries, ZipName(date, suffix), suffix));
  }

  /** The oldest of the newer backups. */
  lemma NextNewer(entries: Entries, suffix: string, date: Date) returns (next: Date)
    requires KnownSuffix(suffix) && ValidDate(date) && |Newer(entries, ZipName(date, suffix), suffix)| >= 1
    ensures ValidDate(next) && Earlier(date, next) && HasFile(entries, ZipName(next, suffix))
    ensures |Newer(entries, ZipName(next, suffix), suffix)| == |Newer(entries, ZipName(date, suffix), suffix)| - 1
  {
    var newer := Newer(entries, ZipName(date, suffix), suffix);
    var oldest := Oldest(newer, suffix);
    BelowOldest(entries, ZipName(date, suffix), suffix, oldest);
    next := NewerHasDate(entries, suffix, date, oldest);
  }

  lemma ThreeNewerExactly(entries: Entries, suffix: string, date: Date)
    requires KnownSuffix(suffix) && ValidDate(date)
    ensures |Newer(entries, ZipName(date, suffix), suffix)| >= 3 <==> ThreeLater(entries, suffix, date)
  {
    if |Newer(entries, ZipName(date, suffix), suffix)| >= 3 {
      var a := NextNewer(entries, suffix, date);
      var b := NextNewer(entries, suffix, a);
      var c := NextNewer(entries, suffix, b);
    }
    if ThreeLater(entries, suffix, date) {
      var a: Date, b: Date, c: Date :|
        && ValidDate(a) && ValidDate(b) && ValidDate(c)
        && Earlier(date, a) && Earlier(a, b) && Earlier(b, c)
        && HasFile(entries, ZipName(a, suffix)) && HasFile(entries, ZipName(b, suffix))
        && HasFile(entries, ZipName(c, suffix));
      LaterAreThree(entries, suffix, date, a, b, c);
    }
  }

  /** The file is a backup of the suffix with files of three later days. */
  ghost predicate Outnumbered(entries: Entries, suffix: string, name: string) {
    exists date :: ValidDate(date) && name == ZipName(date, suffix) && ThreeLater(entries, suffix, date)
  }

  lemma ExcessExactly(entries: Entries, suffix: string, name: string)
    requires KnownSuffix(suffix)
    ensures name in Excess(entries, suffix, RETAINED) <==> HasFile(entries, name) && Outnumbered(entries, suffix, name)
  {
    if DateIn(name, suffix).Some? {
      var date := DateIn(name, suffix).value;
      NameIsZipName(name, suffix, date);
      ThreeNewerExactly(entries, suffix, date);
    }
    if date :| ValidDate(date) && name == ZipName(date, suffix) && ThreeLater(entries, suffix, date) {
      NameIsZipName(name, suffix, date);
      ThreeNewerExactly(entries, suffix, date);
    }
  }

  /** The file's name does not have the form of a backup's. */
  ghost predicate IsStray(name: string) {
    forall digits, suffix :: !IsBackupName(name, digits, suffix)
  }

  lemma StrayExactly(entries: Entries, name: string)
    ensures name in Stray(entries) <==> HasFile(entries, name) && IsStray(name)
  {
    if MatchName(name).Some? {
      var found := MatchName(name).value;
      MatchIsExact(name, found.digits, found.suffix);
    }
    if digits, suffix :| IsBackupName(name, digits, suffix) {
      MatchIsExact(name, digits, suffix);
    }
  }

  /** What `Cleanup` must leave: of all the files those go that have no backup's name, the daily
      ones with three later, and the weekly ones with three later, pass by pass up to the first
      listing that fails, but for those whose removal fails. */
  lemma CleanupMeans(entries: Entries, readings: Readings, stuck: Stuck, name: string)
    ensures var after := Cleaned(entries, readings, stuck);
      && (name in after ==> name in entries && after[name] == entries[name])
      && (name in entries && name !in after <==>
            && HasFile(entries, name) && !readings.stray.Unreadable?
            && (|| (IsStray(name) && name !in stuck.stray)
                || (Outnumbered(entries, "daily", name) && name !in stuck.daily && !readings.daily.Unreadable?)
                || (Outnumbered(entries, "weekly", name) && name !in stuck.weekly && !readings.daily.Unreadable?
                    && !readings.weekly.Unreadable?)))
  {
    var stray, daily, weekly := CleanedIsPart(entries, readings, stuck);
    StrayExactly(entries, name);
    ExcessExactly(entries, "daily", name);
    ExcessExactly(entries, "weekly", name);
  }

  lemma BackupsAfterCleanup(entries: Entries, suffix: string, name: string)
    requires KnownSuffix(suffix)
    ensures IsBackup(entries - Due(entries), name, suffix) <==>
      IsBackup(entries, name, suffix) && name !in Excess(entries, suffix, RETAINED)
  {
    SuffixesDiffer(name);
  }

  /** What `Cleanup` leaves of one suffix: as many as the cap allows, and the newest. */
  lemma CleanupKeepsNewest(entries: Entries, suffix: string)
    requires KnownSuffix(suffix)
    ensures var after := Cleaned(entries, ALL_LISTED, NONE_STUCK);
      && |Backups(after, suffix)|
         == (if |Backups(entries, suffix)| <= RETAINED then |Backups(entries, suffix)| else RETAINED)
      && forall kept, gone ::
           IsBackup(after, kept, suffix) && IsBackup(entries, gone, suffix) && gone !in after ==>
             Day(gone, suffix) < Day(kept, suffix)
  {
    CleanupIsExact(entries);
    var after := entries - Due(entries);
    forall name
      ensures name in Backups(after, suffix) <==>
        name in Backups(entries, suffix) - Excess(entries, suffix, RETAINED)
    {
      BackupsAfterCleanup(entries, suffix, name);
    }
    assert Backups(after, suffix) == Backups(entries, suffix) - Excess(entries, suffix, RETAINED);
    RetainedCount(entries, suffix, RETAINED);
    forall kept, gone | IsBackup(after, kept, suffix) && IsBackup(entries, gone, suffix) && gone !in after
      ensures Day(gone, suffix) < Day(kept, suffix)
    {
      BackupsAfterCleanup(entries, suffix, kept);
      BackupsAfterCleanup(entries, suffix, gone);
      NewerIsKept(entries, suffix, RETAINED, kept, gone);
    }
  }

  /** Directories stay, and so do names that match the pattern with a date that does not
      exist: no pass counts them and no pass removes them. */
  lemma CleanupLeavesAlone(entries: Entries, readings: Readings, stuck: Stuck, name: string)
    requires name in entries
    requires entries[name].Directory? || (MatchName(name).Some? && ParseDate(MatchName(name).value.digits).None?)
    ensures name in Cleaned(entries, readings, stuck)
    ensures Cleaned(entries, readings, stuck)[name] == entries[name]
  {
    var stray, daily, weekly := CleanedIsPart(entries, readings, stuck);
    assert !IsBackup(entries, name, "daily") && !IsBackup(entries, name, "weekly");
    assert name !in stray + daily + weekly;
  }

  /** Cleaning again after a `Cleanup` in which any listings or removals failed gives what one
      without failures gives. */
  lemma CleanupConverges(entries: Entries, readings: Readings, stuck: Stuck)
    ensures Cleaned(Cleaned(entries, readings, stuck), ALL_LISTED, NONE_STUCK)
      == Cleaned(entries, ALL_LISTED, NONE_STUCK)
  {
    var stray, daily, weekly := CleanedIsPart(entries, readings, stuck);
    var after := Cleaned(entries, readings, stuck);
    DueAfterPart(entries, stray, daily, weekly);
    CleanupIsExact(entries);
    CleanupIsExact(after);
    MinusTwo(entries, stray + daily + weekly, Due(after));
    assert stray + daily + weekly + Due(after) == Due(entries);
  }

  /** Cleaning a clean directory changes nothing. */
  lemma CleanupIsIdempotent(entries: Entries)
    ensures Due(Cleaned(entries, ALL_LISTED, NONE_STUCK)) == {}
  {
    var stray, daily, weekly := CleanedIsPart(entries, ALL_LISTED, NONE_STUCK);
    DueAfterPart(entries, stray, daily, weekly);
  }
}
