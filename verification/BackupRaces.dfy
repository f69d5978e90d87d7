/** Overlapping passes over one backup directory (app/jobs/backup/service.go): the worker runs
    the daily, the weekly and the cleanup job in goroutines of their own
    (core/worker/worker.go).  At most one `Run` of a suffix is under way at a time; listings and
    single removals of any number of passes interleave with it. */
module BackupRaces {
  import opened BackupFiles
  import opened BackupRanks
  import opened Calendar
  import opened Wrappers

  import BackupHistory

  type Good = BackupHistory.Good

  // ---------- states and steps ----------

  /** How far a `Run` is: its file is named, being written, or finished and not yet pruned by. */
  datatype Phase = Dated(started: Instant) | Making(started: Instant) | Made(started: Instant)

  /** `sweeps` holds, for each pruning pass under way, the names it still wants to remove.
      `good` and `debris` are bookkeeping: the backup of each suffix that was finished last,
      and the names of files left unfinished. */
  datatype State = State(
    clock: int, entries: Entries, runs: map<string, Phase>, sweeps: map<nat, set<string>>,
    good: map<string, Good>, debris: set<string>)

  datatype Step =
    | Tick(elapsed: nat)
    | Begin(suffix: string, started: Instant)
    | FailEarly(suffix: string)
    | Open(suffix: string)
    | Write(suffix: string, bytes: string)
    | Finish(suffix: string, bytes: string)
    | FailLate(suffix: string, removed: bool)
    | ListExpired(suffix: string, p: nat, now: int)
    | SkipPruning(suffix: string)
    | ListStray(p: nat)
    | ListExcess(suffix: string, p: nat)
    | Remove(p: nat, name: string, ok: bool)

  function Zip(suffix: string, phase: Phase): string {
    ZipName(phase.started.date, suffix)
  }

  predicate Enabled(s: State, step: Step) {
    match step
    case Tick(_) => true
    case Begin(suffix, started) =>
      KnownSuffix(suffix) && suffix !in s.runs && ValidInstant(started) && Time(started) == s.clock
    case FailEarly(suffix) => suffix in s.runs && s.runs[suffix].Dated?
    case Open(suffix) =>
      suffix in s.runs && s.runs[suffix].Dated?
      && (Zip(suffix, s.runs[suffix]) in s.entries ==> s.entries[Zip(suffix, s.runs[suffix])].File?)
    case Write(suffix, _) => suffix in s.runs && s.runs[suffix].Making?
    case Finish(suffix, _) => suffix in s.runs && s.runs[suffix].Making?
    case FailLate(suffix, _) => suffix in s.runs && s.runs[suffix].Making?
    // The clock is read before the listing; a backup takes less than three days.
    case ListExpired(suffix, p, now) =>
      suffix in s.runs && s.runs[suffix].Made? && p !in s.sweeps && KnownSuffix(suffix) && now <= s.clock
      && ValidInstant(s.runs[suffix].started) && now < Time(s.runs[suffix].started) + RETAINED * DAY
    case SkipPruning(suffix) => suffix in s.runs && s.runs[suffix].Made?
    case ListStray(p) => p !in s.sweeps
    case ListExcess(suffix, p) => KnownSuffix(suffix) && p !in s.sweeps
    case Remove(p, name, _) => p in s.sweeps && name in s.sweeps[p]
  }

  /** Writing to a file that was removed meanwhile brings no name back. */
  function Put(entries: Entries, name: string, bytes: string): Entries {
    if name in entries then entries[name := File(bytes)] else entries
  }

  function Do(s: State, step: Step): State
    requires Enabled(s, step)
  {
    match step
    case Tick(elapsed) => s.(clock := s.clock + elapsed)
    case Begin(suffix, started) => s.(runs := s.runs[suffix := Dated(started)])
    case FailEarly(suffix) => s.(runs := s.runs - {suffix})
    case Open(suffix) =>
      var zip := Zip(suffix, s.runs[suffix]);
      s.(entries := s.entries[zip := File("")],
         runs := s.runs[suffix := Making(s.runs[suffix].started)],
         // A run of the same suffix and day takes the file over.
         good := if suffix in s.good && s.good[suffix].name == zip then s.good - {suffix} else s.good)
    case Write(suffix, bytes) => s.(entries := Put(s.entries, Zip(suffix, s.runs[suffix]), bytes))
    case Finish(suffix, bytes) =>
      var zip := Zip(suffix, s.runs[suffix]);
      s.(entries := Put(s.entries, zip, bytes),
         runs := s.runs[suffix := Made(s.runs[suffix].started)],
         good := if zip in s.entries then s.good[suffix := BackupHistory.Good(zip, bytes)] else s.good,
         debris := s.debris - {zip})
    case FailLate(suffix, removed) =>
      var zip := Zip(suffix, s.runs[suffix]);
      s.(entries := if removed then s.entries - {zip} else s.entries,
         runs := s.runs - {suffix},
         debris := if removed then s.debris else s.debris + {zip})
    case ListExpired(suffix, p, now) =>
      s.(sweeps := s.sweeps[p := Expired(s.entries, suffix, now - MaxAge(suffix).value)],
         runs := s.runs - {suffix})
    case SkipPruning(suffix) => s.(runs := s.runs - {suffix})
    case ListStray(p) => s.(sweeps := s.sweeps[p := Stray(s.entries)])
    case ListExcess(suffix, p) => s.(sweeps := s.sweeps[p := Excess(s.entries, suffix, RETAINED)])
    case Remove(p, name, ok) =>
      s.(entries := if ok then s.entries - {name} else s.entries, sweeps := s.sweeps[p := s.sweeps[p] - {name}])
  }

  // ---------- the invariant ----------

  /** The day is not after the run's, or today. */
  predicate NotAfter(s: State, suffix: string, day: int) {
    if suffix in s.runs && ValidInstant(s.runs[suffix].started)
    then day <= DayNumber(s.runs[suffix].started.date) else day * DAY <= s.clock
  }

  /** The day is before the run's, or before today: no file of that day will be made. */
  predicate Past(s: State, suffix: string, day: int) {
    if suffix in s.runs && ValidInstant(s.runs[suffix].started)
    then day < DayNumber(s.runs[suffix].started.date) else (day + 1) * DAY <= s.clock
  }

  predicate RunOk(s: State, suffix: string) {
    suffix in s.runs ==>
      var run := s.runs[suffix];
      && ValidInstant(run.started) && Time(run.started) <= s.clock
      && (run.Making? ==> IsBackup(s.entries, Zip(suffix, run), suffix))
      && (run.Making? && suffix in s.good ==> s.good[suffix].name != Zip(suffix, run))
      && (run.Made? ==> suffix in s.good && s.good[suffix].name == Zip(suffix, run))
  }

  ghost predicate FilesOk(s: State, suffix: string) {
    forall name :: IsBackup(s.entries, name, suffix) ==> NotAfter(s, suffix, Day(name, suffix))
  }

  /** What a pass still wants to remove is of the past, and older than the good backup. */
  predicate DueOk(s: State, suffix: string, name: string) {
    DateIn(name, suffix).Some? ==>
      && Past(s, suffix, Day(name, suffix))
      && (suffix in s.good ==> Day(name, suffix) < Day(s.good[suffix].name, suffix))
  }

  ghost predicate SweepsOk(s: State, suffix: string) {
    forall p, name :: p in s.sweeps && name in s.sweeps[p] ==> DueOk(s, suffix, name)
  }

  /** The good backup is there, whole, and only unfinished files are newer. */
  ghost predicate GoodOk(s: State, suffix: string) {
    suffix in s.good ==>
      var good := s.good[suffix];
      && IsBackup(s.entries, good.name, suffix) && s.entries[good.name] == File(good.bytes)
      && forall name :: name in Newer(s.entries, good.name, suffix) ==>
           name in s.debris || (suffix in s.runs && s.runs[suffix].Making? && name == Zip(suffix, s.runs[suffix]))
  }

  ghost predicate SuffixOk(s: State, suffix: string) {
    RunOk(s, suffix) && FilesOk(s, suffix) && SweepsOk(s, suffix) && GoodOk(s, suffix)
  }

  /** No cleanup lists a suffix while three unfinished files are newer than its good backup. */
  predicate Calm(s: State, step: Step) {
    step.ListExcess? && step.suffix in s.good ==>
      |Newer(s.entries, s.good[step.suffix].name, step.suffix)| < RETAINED
  }

  // ---------- a suffix that a step does not concern ----------

  /** The backups of the suffix are the same in both. */
  ghost predicate SameBackups(a: Entries, b: Entries, suffix: string) {
    && (forall name :: IsBackup(a, name, suffix) <==> IsBackup(b, name, suffix))
    && (forall name :: IsBackup(a, name, suffix) ==> name in b && a[name] == b[name])
  }

  lemma SameNewer(a: Entries, b: Entries, suffix: string, name: string)
    requires SameBackups(a, b, suffix)
    ensures Newer(a, name, suffix) == Newer(b, name, suffix)
  {
    assert forall other :: other in Newer(a, name, suffix) <==> other in Newer(b, name, suffix);
  }

  lemma OtherNameChanges(entries: Entries, name: string, node: Node, suffix: string)
    requires DateIn(name, suffix).None?
    ensures SameBackups(entries, entries[name := node], suffix)
    ensures SameBackups(entries, entries - {name}, suffix)
  {
  }

  lemma ZipIsDated(suffix: string, phase: Phase, other: string)
    requires KnownSuffix(suffix) && ValidInstant(phase.started)
    ensures DateIn(Zip(suffix, phase), suffix) == Some(phase.started.date)
    ensures other != suffix ==> DateIn(Zip(suffix, phase), other).None?
  {
    NameIsZipName(Zip(suffix, phase), suffix, phase.started.date);
  }

  /** The suffix's own run, backup, files and clock are as they were, and nothing new is due. */
  ghost predicate Untouched(s: State, s': State, suffix: string) {
    && s'.clock == s.clock && SameBackups(s.entries, s'.entries, suffix)
    && (suffix in s'.runs <==> suffix in s.runs) && (suffix in s.runs ==> s'.runs[suffix] == s.runs[suffix])
    && (suffix in s'.good <==> suffix in s.good) && (suffix in s.good ==> s'.good[suffix] == s.good[suffix])
    && (forall name :: name in s.debris && DateIn(name, suffix).Some? ==> name in s'.debris)
  }

  lemma UntouchedStaysOk(s: State, s': State, suffix: string)
    requires SuffixOk(s, suffix) && Untouched(s, s', suffix) && SweepsOk(s', suffix)
    ensures SuffixOk(s', suffix)
  {
    if suffix in s.good {
      SameNewer(s.entries, s'.entries, suffix, s.good[suffix].name);
    }
  }

  lemma SweepsStay(s: State, s': State, suffix: string)
    requires SweepsOk(s, suffix) && Untouched(s, s', suffix)
    requires forall p, name :: p in s'.sweeps && name in s'.sweeps[p] ==> p in s.sweeps && name in s.sweeps[p]
    ensures SweepsOk(s', suffix)
  {
    forall p, name | p in s'.sweeps && name in s'.sweeps[p]
      ensures DueOk(s', suffix, name)
    {
      assert DueOk(s, suffix, name);
    }
  }

  /** A step of some suffix's run, other than its listing. */
  predicate OfRun(step: Step) {
    || step.Begin? || step.FailEarly? || step.Open? || step.Write? || step.Finish? || step.FailLate?
    || step.SkipPruning?
  }

  /** A step of one suffix's run leaves the other suffix alone. */
  lemma OtherRunKeeps(s: State, step: Step, suffix: string)
    requires Enabled(s, step) && SuffixOk(s, suffix) && KnownSuffix(suffix)
    requires OfRun(step)
    requires step.suffix != suffix && KnownSuffix(step.suffix)
    requires step.suffix in s.runs ==> ValidInstant(s.runs[step.suffix].started)
    ensures SuffixOk(Do(s, step), suffix)
  {
    var s' := Do(s, step);
    if step.suffix in s.runs {
      var zip := Zip(step.suffix, s.runs[step.suffix]);
      ZipIsDated(step.suffix, s.runs[step.suffix], suffix);
      OtherNameChanges(s.entries, zip, File(""), suffix);
      if step.Write? || step.Finish? {
        OtherNameChanges(s.entries, zip, File(step.bytes), suffix);
      }
    }
    assert Untouched(s, s', suffix);
    SweepsStay(s, s', suffix);
    UntouchedStaysOk(s, s', suffix);
  }

  // ---------- the steps of a suffix's own run ----------

  lemma TickKeeps(s: State, step: Step, suffix: string)
    requires SuffixOk(s, suffix) && step.Tick?
    ensures SuffixOk(Do(s, step), suffix)
  {
    var s' := Do(s, step);
    forall p, name | p in s'.sweeps && name in s'.sweeps[p]
      ensures DueOk(s', suffix, name)
    {
      assert DueOk(s, suffix, name);
    }
  }

  /** Before a run begins, the day the clock shows is the run's. */
  lemma BeginKeeps(s: State, step: Step, suffix: string)
    requires SuffixOk(s, suffix) && Enabled(s, step) && step.Begin? && step.suffix == suffix
    ensures SuffixOk(Do(s, step), suffix)
  {
    var s' := Do(s, step);
    forall p, name | p in s'.sweeps && name in s'.sweeps[p]
      ensures DueOk(s', suffix, name)
    {
      assert DueOk(s, suffix, name);
    }
    forall name | IsBackup(s'.entries, name, suffix)
      ensures NotAfter(s', suffix, Day(name, suffix))
    {
      assert NotAfter(s, suffix, Day(name, suffix));
    }
  }

  /** Once a run is over, its day is today or in the past. */
  lemma EndKeeps(s: State, s': State, suffix: string)
    requires SuffixOk(s, suffix) && suffix in s.runs && !s.runs[suffix].Making?
    requires s' == s.(runs := s.runs - {suffix})
    ensures SuffixOk(s', suffix)
  {
    forall p, name | p in s'.sweeps && name in s'.sweeps[p]
      ensures DueOk(s', suffix, name)
    {
      assert DueOk(s, suffix, name);
    }
  }

  /** Opening the file adds or empties the backup of the run's day, the last there is. */
  lemma OpenFiles(s: State, step: Step, suffix: string)
    requires SuffixOk(s, suffix) && Enabled(s, step) && step.Open? && step.suffix == suffix && KnownSuffix(suffix)
    ensures var s' := Do(s, step); RunOk(s', suffix) && FilesOk(s', suffix) && SweepsOk(s', suffix)
  {
    var s' := Do(s, step);
    ZipIsDated(suffix, s.runs[suffix], suffix);
    forall name | IsBackup(s'.entries, name, suffix)
      ensures NotAfter(s', suffix, Day(name, suffix))
    {
      if name != Zip(suffix, s.runs[suffix]) {
        assert NotAfter(s, suffix, Day(name, suffix));
      }
    }
    forall p, name | p in s'.sweeps && name in s'.sweeps[p]
      ensures DueOk(s', suffix, name)
    {
      assert DueOk(s, suffix, name);
    }
  }

  lemma OpenKeeps(s: State, step: Step, suffix: string)
    requires SuffixOk(s, suffix) && Enabled(s, step) && step.Open? && step.suffix == suffix && KnownSuffix(suffix)
    ensures SuffixOk(Do(s, step), suffix)
  {
    var s' := Do(s, step);
    OpenFiles(s, step, suffix);
    if suffix in s'.good {
      var good, zip := s.good[suffix], Zip(suffix, s.runs[suffix]);
      assert s'.good[suffix] == good && good.name != zip;
      forall name | name in Newer(s'.entries, good.name, suffix)
        ensures name in s'.debris || name == zip
      {
        assert name != zip ==> name in Newer(s.entries, good.name, suffix);
      }
    }
  }

  lemma WriteKeeps(s: State, step: Step, suffix: string)
    requires SuffixOk(s, suffix) && Enabled(s, step) && step.Write? && step.suffix == suffix && KnownSuffix(suffix)
    ensures SuffixOk(Do(s, step), suffix)
  {
    var s' := Do(s, step);
    assert forall name :: IsBackup(s'.entries, name, suffix) <==> IsBackup(s.entries, name, suffix);
    forall p, name | p in s'.sweeps && name in s'.sweeps[p]
      ensures DueOk(s', suffix, name)
    {
      assert DueOk(s, suffix, name);
    }
    if suffix in s.good {
      assert Newer(s'.entries, s.good[suffix].name, suffix) == Newer(s.entries, s.good[suffix].name, suffix);
    }
  }

  /** The finished file is there, and no backup is newer. */
  lemma FinishKeeps(s: State, step: Step, suffix: string)
    requires SuffixOk(s, suffix) && Enabled(s, step) && step.Finish? && step.suffix == suffix && KnownSuffix(suffix)
    ensures SuffixOk(Do(s, step), suffix)
    ensures suffix in Do(s, step).good
      && Do(s, step).good[suffix] == BackupHistory.Good(Zip(suffix, s.runs[suffix]), step.bytes)
  {
    var s' := Do(s, step);
    var zip := Zip(suffix, s.runs[suffix]);
    ZipIsDated(suffix, s.runs[suffix], suffix);
    assert forall name :: IsBackup(s'.entries, name, suffix) <==> IsBackup(s.entries, name, suffix);
    forall p, name | p in s'.sweeps && name in s'.sweeps[p]
      ensures DueOk(s', suffix, name)
    {
      assert DueOk(s, suffix, name);
    }
    forall name | IsBackup(s'.entries, name, suffix)
      ensures Day(name, suffix) <= Day(zip, suffix)
    {
      assert NotAfter(s, suffix, Day(name, suffix));
    }
    assert Newer(s'.entries, zip, suffix) == {};
  }

  /** What is left of a failed run is debris, or gone. */
  lemma FailLateKeeps(s: State, step: Step, suffix: string)
    requires SuffixOk(s, suffix) && Enabled(s, step) && step.FailLate? && step.suffix == suffix && KnownSuffix(suffix)
    ensures SuffixOk(Do(s, step), suffix)
  {
    var s' := Do(s, step);
    forall name | IsBackup(s'.entries, name, suffix)
      ensures NotAfter(s', suffix, Day(name, suffix))
    {
      assert NotAfter(s, suffix, Day(name, suffix));
    }
    forall p, name | p in s'.sweeps && name in s'.sweeps[p]
      ensures DueOk(s', suffix, name)
    {
      assert DueOk(s, suffix, name);
    }
    FailLateKeepsGood(s, step, suffix);
  }

  lemma FailLateKeepsGood(s: State, step: Step, suffix: string)
    requires SuffixOk(s, suffix) && Enabled(s, step) && step.FailLate? && step.suffix == suffix && KnownSuffix(suffix)
    ensures GoodOk(Do(s, step), suffix)
  {
    var s' := Do(s, step);
    if suffix in s'.good {
      var good := s.good[suffix];
      forall name | name in Newer(s'.entries, good.name, suffix)
        ensures name in s'.debris
      {
        assert name in Newer(s.entries, good.name, suffix);
      }
    }
  }

  // ---------- the passes ----------

  /** A pass's list is harmless if each name on it is. */
  lemma ListKeeps(s: State, s': State, p: nat, due: set<string>, suffix: string)
    requires SuffixOk(s, suffix) && p !in s.sweeps && s' == s.(sweeps := s.sweeps[p := due])
    requires forall name :: name in due ==> DueOk(s, suffix, name)
    ensures SuffixOk(s', suffix)
  {
    forall q, name | q in s'.sweeps && name in s'.sweeps[q]
      ensures DueOk(s', suffix, name)
    {
      assert q != p ==> DueOk(s, suffix, name);
      assert DueOk(s, suffix, name);
    }
  }

  lemma StrayIsOk(s: State, suffix: string, name: string)
    requires name in Stray(s.entries)
    ensures DueOk(s, suffix, name)
  {
  }

  /** With fewer than three newer files the good backup is not in excess, and what is in excess
      is older; with three newer files its day is past. */
  lemma ExcessIsOk(s: State, suffix: string, name: string)
    requires SuffixOk(s, suffix) && KnownSuffix(suffix) && name in Excess(s.entries, suffix, RETAINED)
    requires suffix in s.good ==> |Newer(s.entries, s.good[suffix].name, suffix)| < RETAINED
    ensures DueOk(s, suffix, name)
  {
    var newer := Newer(s.entries, name, suffix);
    var other := Member(newer);
    assert NotAfter(s, suffix, Day(other, suffix));
    if suffix in s.good {
      var good := s.good[suffix].name;
      if Day(name, suffix) >= Day(good, suffix) {
        SubsetCount(newer, Newer(s.entries, good, suffix));
      }
    }
  }

  lemma ExcessOfOther(s: State, suffix: string, other: string, name: string)
    requires name in Excess(s.entries, other, RETAINED) && suffix != other
    ensures DueOk(s, suffix, name)
  {
  }

  lemma ListExcessKeeps(s: State, step: Step, suffix: string)
    requires SuffixOk(s, suffix) && Enabled(s, step) && step.ListExcess? && Calm(s, step) && KnownSuffix(suffix)
    ensures SuffixOk(Do(s, step), suffix)
  {
    forall name | name in Excess(s.entries, step.suffix, RETAINED)
      ensures DueOk(s, suffix, name)
    {
      if step.suffix == suffix {
        ExcessIsOk(s, suffix, name);
      } else {
        ExcessOfOther(s, suffix, step.suffix, name);
      }
    }
    ListKeeps(s, Do(s, step), step.p, Excess(s.entries, step.suffix, RETAINED), suffix);
  }

  /** What has expired is older than the backup just made. */
  lemma ExpiredIsOk(s: State, step: Step, suffix: string, name: string)
    requires SuffixOk(s, suffix) && Enabled(s, step) && step.ListExpired? && step.suffix == suffix
    requires name in Expired(s.entries, suffix, step.now - MaxAge(suffix).value)
    ensures DueOk(s, suffix, name)
  {
    ZipIsDated(suffix, s.runs[suffix], suffix);
  }

  lemma ExpiredOfOther(s: State, suffix: string, other: string, cutoff: int, name: string)
    requires name in Expired(s.entries, other, cutoff) && suffix != other
    ensures DueOk(s, suffix, name)
  {
  }

  lemma ListExpiredKeeps(s: State, step: Step, suffix: string)
    requires SuffixOk(s, suffix) && Enabled(s, step) && step.ListExpired? && KnownSuffix(suffix)
    ensures SuffixOk(Do(s, step), suffix)
  {
    var due := Expired(s.entries, step.suffix, step.now - MaxAge(step.suffix).value);
    var listed := s.(sweeps := s.sweeps[step.p := due]);
    forall name | name in due
      ensures DueOk(s, suffix, name)
    {
      if step.suffix == suffix {
        ExpiredIsOk(s, step, suffix, name);
      } else {
        ExpiredOfOther(s, suffix, step.suffix, step.now - MaxAge(step.suffix).value, name);
      }
    }
    ListKeeps(s, listed, step.p, due, suffix);
    if step.suffix == suffix {
      EndKeeps(listed, Do(s, step), suffix);
    } else {
      SweepsStay(listed, Do(s, step), suffix);
      UntouchedStaysOk(listed, Do(s, step), suffix);
    }
  }

  /** A removal takes no backup that is good or being made. */
  lemma RemoveKeeps(s: State, step: Step, suffix: string)
    requires SuffixOk(s, suffix) && Enabled(s, step) && step.Remove? && KnownSuffix(suffix)
    ensures SuffixOk(Do(s, step), suffix)
  {
    var s' := Do(s, step);
    assert DueOk(s, suffix, step.name);
    if suffix in s.runs {
      ZipIsDated(suffix, s.runs[suffix], suffix);
    }
    forall p, name | p in s'.sweeps && name in s'.sweeps[p]
      ensures DueOk(s', suffix, name)
    {
      assert DueOk(s, suffix, name);
    }
    if suffix in s.good {
      assert Newer(s'.entries, s.good[suffix].name, suffix) <= Newer(s.entries, s.good[suffix].name, suffix);
    }
  }

  // ---------- every interleaving ----------

  ghost predicate Inv(s: State) {
    && (forall suffix :: suffix in s.runs ==> KnownSuffix(suffix))
    && SuffixOk(s, "daily") && SuffixOk(s, "weekly")
  }

  lemma StepKeepsSuffix(s: State, step: Step, suffix: string)
    requires Inv(s) && Enabled(s, step) && Calm(s, step) && KnownSuffix(suffix)
    ensures SuffixOk(Do(s, step), suffix)
  {
    match step
    case Tick(_) => TickKeeps(s, step, suffix);
    case ListStray(p) =>
      forall name | name in Stray(s.entries)
        ensures DueOk(s, suffix, name)
      {
        StrayIsOk(s, suffix, name);
      }
      ListKeeps(s, Do(s, step), p, Stray(s.entries), suffix);
    case ListExcess(_, _) => ListExcessKeeps(s, step, suffix);
    case ListExpired(_, _, _) => ListExpiredKeeps(s, step, suffix);
    case Remove(_, _, _) => RemoveKeeps(s, step, suffix);
    case _ =>
      if step.suffix != suffix {
        OtherRunKeeps(s, step, suffix);
      } else {
        OwnStepKeeps(s, step, suffix);
      }
  }

  lemma OwnStepKeeps(s: State, step: Step, suffix: string)
    requires SuffixOk(s, suffix) && Enabled(s, step) && KnownSuffix(suffix)
    requires OfRun(step)
    requires step.suffix == suffix
    ensures SuffixOk(Do(s, step), suffix)
  {
    if step.Begin? {
      BeginKeeps(s, step, suffix);
    } else if step.Open? {
      OpenKeeps(s, step, suffix);
    } else if step.Write? {
      WriteKeeps(s, step, suffix);
    } else if step.Finish? {
      FinishKeeps(s, step, suffix);
    } else if step.FailLate? {
      FailLateKeeps(s, step, suffix);
    } else {
      EndKeeps(s, Do(s, step), suffix);
    }
  }

  lemma StepKeeps(s: State, step: Step)
    requires Inv(s) && Enabled(s, step) && Calm(s, step)
    ensures Inv(Do(s, step))
  {
    StepKeepsSuffix(s, step, "daily");
    StepKeepsSuffix(s, step, "weekly");
  }

  predicate IsCalmRun(s: State, steps: seq<Step>)
    decreases |steps|
  {
    steps == [] || (Enabled(s, steps[0]) && Calm(s, steps[0]) && IsCalmRun(Do(s, steps[0]), steps[1..]))
  }

  function After(s: State, steps: seq<Step>): State
    requires IsCalmRun(s, steps)
    decreases |steps|
  {
    if steps == [] then s else After(Do(s, steps[0]), steps[1..])
  }

  lemma {:induction false} RunKeeps(s: State, steps: seq<Step>)
    requires Inv(s) && IsCalmRun(s, steps)
    ensures Inv(After(s, steps))
    decreases |steps|
  {
    if steps != [] {
      StepKeeps(s, steps[0]);
      RunKeeps(Do(s, steps[0]), steps[1..]);
    }
  }

  /** A directory with no pass under way, nothing dated in the future, and the newest backups
      taken as good. */
  ghost predicate IsStart(s: State) {
    && s.runs == map[] && s.sweeps == map[] && s.debris == {}
    && forall suffix :: KnownSuffix(suffix) ==>
         && BackupHistory.NoneFuture(s.entries, s.clock, suffix)
         && BackupHistory.Newest(s.entries, suffix, if suffix in s.good then Some(s.good[suffix]) else None)
  }

  lemma StartIsOk(s: State, suffix: string)
    requires IsStart(s) && KnownSuffix(suffix)
    ensures SuffixOk(s, suffix)
  {
    assert BackupHistory.NoneFuture(s.entries, s.clock, suffix);
    assert BackupHistory.Newest(s.entries, suffix, if suffix in s.good then Some(s.good[suffix]) else None);
  }

  /** In every interleaving of runs and pruning passes the backup of a suffix finished last is in
      the directory, with its contents, and only unfinished files are newer. */
  lemma FinishedBackupSurvives(start: State, steps: seq<Step>, suffix: string)
    requires IsStart(start) && IsCalmRun(start, steps) && KnownSuffix(suffix)
    ensures var s := After(start, steps);
      suffix in s.good ==>
        var good := s.good[suffix];
        && IsBackup(s.entries, good.name, suffix) && s.entries[good.name] == File(good.bytes)
        && forall name :: name in Newer(s.entries, good.name, suffix) ==>
             name in s.debris || (suffix in s.runs && s.runs[suffix].Making? && name == Zip(suffix, s.runs[suffix]))
  {
    StartIsOk(start, "daily");
    StartIsOk(start, "weekly");
    RunKeeps(start, steps);
    assert SuffixOk(After(start, steps), suffix);
  }

  /** The good backup is given up only to a run of the same suffix that opens the same file, and
      replaced only by a finished one. */
  lemma GoodChangesOnlyBy(s: State, step: Step, suffix: string)
    requires Inv(s) && Enabled(s, step) && KnownSuffix(suffix)
    ensures var s' := Do(s, step);
      && (suffix in s.good && suffix !in s'.good ==>
            step == Open(suffix) && Zip(suffix, s.runs[suffix]) == s.good[suffix].name)
      && (suffix in s'.good && !(suffix in s.good && s.good[suffix] == s'.good[suffix]) ==>
            step.Finish? && step.suffix == suffix)
  {
  }

  /** No step of the run finishes another backup of the suffix or opens the file. */
  predicate Undisturbed(s: State, steps: seq<Step>, suffix: string, zip: string)
    requires IsCalmRun(s, steps)
    decreases |steps|
  {
    steps != [] ==>
      && !(steps[0].Finish? && steps[0].suffix == suffix)
      && !(steps[0].Open? && steps[0].suffix == suffix && Zip(suffix, s.runs[suffix]) == zip)
      && Undisturbed(Do(s, steps[0]), steps[1..], suffix, zip)
  }

  lemma {:induction false} GoodStays(s: State, steps: seq<Step>, suffix: string)
    requires Inv(s) && IsCalmRun(s, steps) && KnownSuffix(suffix) && suffix in s.good
    requires Undisturbed(s, steps, suffix, s.good[suffix].name)
    ensures suffix in After(s, steps).good && After(s, steps).good[suffix] == s.good[suffix]
    decreases |steps|
  {
    if steps != [] {
      StepKeeps(s, steps[0]);
      GoodChangesOnlyBy(s, steps[0], suffix);
      GoodStays(Do(s, steps[0]), steps[1..], suffix);
    }
  }

  /** A finished backup stays in the directory with its contents, whatever overlapping passes
      do, until a run of its suffix finishes another or opens the same file again. */
  lemma FinishedStays(start: State, before: seq<Step>, suffix: string, bytes: string, later: seq<Step>)
    requires IsStart(start) && IsCalmRun(start, before)
    requires Enabled(After(start, before), Finish(suffix, bytes))
    requires IsCalmRun(Do(After(start, before), Finish(suffix, bytes)), later)
    requires var s := After(start, before);
      Undisturbed(Do(s, Finish(suffix, bytes)), later, suffix, Zip(suffix, s.runs[suffix]))
    ensures var s := After(start, before);
      var t := After(Do(s, Finish(suffix, bytes)), later);
      Zip(suffix, s.runs[suffix]) in t.entries && t.entries[Zip(suffix, s.runs[suffix])] == File(bytes)
  {
    StartIsOk(start, "daily");
    StartIsOk(start, "weekly");
    RunKeeps(start, before);
    var s := After(start, before);
    var finished := Do(s, Finish(suffix, bytes));
    StepKeeps(s, Finish(suffix, bytes));
    FinishKeeps(s, Finish(suffix, bytes), suffix);
    GoodStays(finished, later, suffix);
    RunKeeps(finished, later);
    assert SuffixOk(After(finished, later), suffix);
  }

  /** A cleanup condemns the good backup exactly when it lists the suffix while three unfinished
      files are newer; the next removal of that pass can then take it. */
  lemma CleanupCondemnsExactly(s: State, step: Step)
    requires Inv(s) && Enabled(s, step) && step.ListExcess? && step.suffix in s.good
    ensures s.good[step.suffix].name in Do(s, step).sweeps[step.p] <==> !Calm(s, step)
    ensures !Calm(s, step) ==>
      var removal := Remove(step.p, s.good[step.suffix].name, true);
      Enabled(Do(s, step), removal) && s.good[step.suffix].name !in Do(Do(s, step), removal).entries
  {
    assert SuffixOk(s, step.suffix);
  }

  /** While failing runs take their files away there is at most one such file. */
  lemma TidyIsCalm(s: State, step: Step)
    requires Inv(s) && Enabled(s, step) && s.debris == {}
    ensures Calm(s, step)
  {
    if step.ListExcess? && step.suffix in s.good {
      assert SuffixOk(s, step.suffix);
      var newer := Newer(s.entries, s.good[step.suffix].name, step.suffix);
      if newer != {} {
        var name := Member(newer);
        SubsetCount(newer, {name});
      }
    }
  }
}
