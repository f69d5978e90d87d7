/** What the backup directory holds and what each retention pass removes
    (app/jobs/backup/service.go, app/jobs/backup/backup.go). */
module BackupFiles {
  import opened Calendar
  import opened Digits
  import opened Wrappers

  datatype Node = Directory | File(bytes: string)

  type Entries = map<string, Node>

  // ---------- names ----------

  datatype Match = Match(digits: string, suffix: string)

  /** `backupFilenamePattern`: `^backup_(\d{8})_(daily|weekly)\.zip$`. */
  function MatchName(name: string): (found: Option<Match>)
    ensures found.Some? ==> |found.value.digits| == 8 && AllDigits(found.value.digits)
  {
    if |name| < 15 || name[..7] != "backup_" || !AllDigits(name[7..15]) then None
    else if name[15..] == "_daily.zip" then Some(Match(name[7..15], "daily"))
    else if name[15..] == "_weekly.zip" then Some(Match(name[7..15], "weekly"))
    else None
  }

  /** The date in a backup's name, if the name has the suffix and the date exists. */
  function DateIn(name: string, suffix: string): (date: Option<Date>)
    ensures date.Some? ==> ValidDate(date.value)
  {
    match MatchName(name)
    case None => None
    case Some(found) => if found.suffix == suffix then ParseDate(found.digits) else None
  }

  predicate KnownSuffix(suffix: string) { suffix == "daily" || suffix == "weekly" }

  /** The name `createBackup` gives a backup of that day. */
  function ZipName(date: Date, suffix: string): string {
    "backup_" + FormatDate(date) + "_" + suffix + ".zip"
  }

  lemma NameOfMatch(name: string)
    requires MatchName(name).Some?
    ensures name == "backup_" + MatchName(name).value.digits + "_" + MatchName(name).value.suffix + ".zip"
    ensures KnownSuffix(MatchName(name).value.suffix)
  {
    assert name == name[..7] + name[7..15] + name[15..];
    assert "_daily.zip" == "_" + "daily" + ".zip" && "_weekly.zip" == "_" + "weekly" + ".zip";
  }

  lemma MatchOfName(digits: string, suffix: string)
    requires |digits| == 8 && AllDigits(digits) && KnownSuffix(suffix)
    ensures MatchName("backup_" + digits + "_" + suffix + ".zip") == Some(Match(digits, suffix))
  {
    var name := "backup_" + digits + "_" + suffix + ".zip";
    var rest := "_" + suffix + ".zip";
    assert name == "backup_" + digits + rest;
    assert name[..7] == "backup_" && name[7..15] == digits && name[15..] == rest;
    assert rest[1] == suffix[0];
    assert suffix == "daily" ==> rest == "_daily.zip";
    assert suffix == "weekly" ==> rest == "_weekly.zip";
  }

  /** The name is `backup_`, eight digits, a suffix of the two, and `.zip`. */
  predicate IsBackupName(name: string, digits: string, suffix: string) {
    && name == "backup_" + digits + "_" + suffix + ".zip"
    && |digits| == 8 && (forall i :: 0 <= i < 8 ==> '0' <= digits[i] <= '9')
    && (suffix == "daily" || suffix == "weekly")
  }

  /** The pattern matches exactly the names of that form. */
  lemma MatchIsExact(name: string, digits: string, suffix: string)
    ensures MatchName(name) == Some(Match(digits, suffix)) <==> IsBackupName(name, digits, suffix)
  {
    if MatchName(name) == Some(Match(digits, suffix)) {
      NameOfMatch(name);
    }
    if IsBackupName(name, digits, suffix) {
      MatchOfName(digits, suffix);
    }
  }

  /** A backup's name and its suffix and date fix each other. */
  lemma NameIsZipName(name: string, suffix: string, date: Date)
    requires KnownSuffix(suffix) && ValidDate(date)
    ensures DateIn(name, suffix) == Some(date) <==> name == ZipName(date, suffix)
  {
    if DateIn(name, suffix) == Some(date) {
      NameOfMatch(name);
      TextOfDate(MatchName(name).value.digits);
    }
    DateRoundTrip(date);
    MatchOfName(FormatDate(date), suffix);
  }

  lemma SuffixesDiffer(name: string)
    ensures !(DateIn(name, "daily").Some? && DateIn(name, "weekly").Some?)
  {
    assert "daily"[0] != "weekly"[0];
  }

  // ---------- what each pass removes ----------

  /** The validly dated backup files of one suffix. */
  predicate IsBackup(entries: Entries, name: string, suffix: string) {
    name in entries && entries[name].File? && DateIn(name, suffix).Some?
  }

  function Day(name: string, suffix: string): int {
    match DateIn(name, suffix)
    case None => -1
    case Some(date) => DayNumber(date)
  }

  function Backups(entries: Entries, suffix: string): set<string> {
    set name | name in entries && IsBackup(entries, name, suffix)
  }

  /** Two backups of one suffix and day are the same file. */
  lemma SameDaySameName(a: string, b: string, suffix: string)
    requires KnownSuffix(suffix) && DateIn(a, suffix).Some? && DateIn(b, suffix).Some?
    requires Day(a, suffix) == Day(b, suffix)
    ensures a == b
  {
    var date := DateIn(a, suffix).value;
    SameNumberSameDate(date, DateIn(b, suffix).value);
    NameIsZipName(a, suffix, date);
    NameIsZipName(b, suffix, date);
  }

  /** The files whose names do not match the pattern. */
  function Stray(entries: Entries): set<string> {
    set name | name in entries && entries[name].File? && MatchName(name).None?
  }

  /** The backups of one suffix dated before the cutoff. */
  function Expired(entries: Entries, suffix: string, cutoff: int): set<string> {
    set name | name in entries && IsBackup(entries, name, suffix) && Day(name, suffix) * DAY < cutoff
  }

  function Newer(entries: Entries, name: string, suffix: string): set<string> {
    set other | other in entries && IsBackup(entries, other, suffix) && Day(other, suffix) > Day(name, suffix)
  }

  /** The backups of one suffix that `keep` others are newer than. */
  function Excess(entries: Entries, suffix: string, keep: nat): set<string> {
    set name | name in entries && IsBackup(entries, name, suffix) && |Newer(entries, name, suffix)| >= keep
  }

  const RETAINED: nat := 3

  /** `suffixMaxAge`. */
  function MaxAge(suffix: string): (age: Option<int>)
    ensures age.Some? <==> KnownSuffix(suffix)
  {
    if suffix == "daily" then Some((RETAINED + 1) * DAY)
    else if suffix == "weekly" then Some((RETAINED + 1) * 7 * DAY)
    else None
  }

  // ---------- the passes ----------

  /** Which removals fail, pass by pass, when the directory is cleaned. */
  datatype Stuck = Stuck(stray: set<string>, daily: set<string>, weekly: set<string>)

  const NONE_STUCK := Stuck({}, {}, {})

  function WithoutStray(entries: Entries, stuck: set<string>): Entries {
    entries - (Stray(entries) - stuck)
  }

  function WithoutExcess(entries: Entries, suffix: string, stuck: set<string>): Entries {
    entries - (Excess(entries, suffix, RETAINED) - stuck)
  }

  /** What `os.ReadDir` answers. */
  datatype Reading = Listed | Missing | Unreadable

  /** The answers of one `Cleanup`, pass by pass. */
  datatype Readings = Readings(stray: Reading, daily: Reading, weekly: Reading) {
    predicate Fail() { stray.Unreadable? || daily.Unreadable? || weekly.Unreadable? }

    predicate FindNone() { stray.Missing? || daily.Missing? || weekly.Missing? }
  }

  const ALL_LISTED := Readings(Listed, Listed, Listed)

  /** What a `Cleanup` leaves; it ends at the first unreadable listing. */
  function Cleaned(entries: Entries, readings: Readings, stuck: Stuck): Entries {
    if readings.stray.Unreadable? then entries
    else
      var tidy := WithoutStray(entries, stuck.stray);
      if readings.daily.Unreadable? then tidy
      else
        var daily := WithoutExcess(tidy, "daily", stuck.daily);
        if readings.weekly.Unreadable? then daily else WithoutExcess(daily, "weekly", stuck.weekly)
  }

  /** What happens to one call of `createBackup`: whether each snapshot (the worker's if there
      is one), the opening of the file, the zipping, the closing and the removal after a failure
      succeed; and the contents the file has if it fails and if it does not. */
  datatype Attempt = Attempt(
    appSnapshot: bool, workerSnapshot: Option<bool>, created: bool, zipped: bool, closed: bool, removed: bool,
    part: string, whole: string)

  /** How `createBackup` ends: before it made the file, after removing the file, leaving a
      part of it, or with the whole backup. */
  datatype Outcome = NotCreated | Removed | Partial(bytes: string) | Written(bytes: string)

  function OutcomeOf(attempt: Attempt): Outcome {
    if !attempt.appSnapshot || attempt.workerSnapshot == Some(false) || !attempt.created then NotCreated
    else if attempt.zipped && attempt.closed then Written(attempt.whole)
    else if attempt.removed then Removed
    else Partial(attempt.part)
  }

  /** A file cannot be made where a directory stands. */
  predicate Possible(entries: Entries, zip: string, outcome: Outcome) {
    !outcome.NotCreated? && zip in entries ==> entries[zip].File?
  }

  /** What `createBackup` leaves of the file it names. */
  function Created(entries: Entries, zip: string, outcome: Outcome): Entries {
    match outcome
    case NotCreated => entries
    case Removed => entries - {zip}
    case Partial(bytes) => entries[zip := File(bytes)]
    case Written(bytes) => entries[zip := File(bytes)]
  }

  /** The parameters of one `Run`: when it named its file, when it looked for expired ones,
      and what the file system answered. */
  datatype RunCall = RunCall(
    suffix: string, started: Instant, finished: Instant, attempt: Attempt, reading: Reading, stuck: set<string>)
  {
    function Outcome(): Outcome { OutcomeOf(attempt) }
  }

  /** What a `Run` leaves. */
  function RunLeaves(entries: Entries, call: RunCall): Entries
    requires ValidInstant(call.finished)
  {
    match MaxAge(call.suffix)
    case None => entries
    case Some(age) =>
      var created := Created(entries, ZipName(call.started.date, call.suffix), call.Outcome());
      if call.Outcome().Written? && !call.reading.Unreadable?
      then created - (Expired(created, call.suffix, Time(call.finished) - age) - call.stuck)
      else created
  }

  // ---------- what a `Run` must leave ----------

  /** A backup of the suffix whose day began more than so many days before the instant. */
  ghost predicate IsOlder(name: string, suffix: string, days: nat, than: Instant)
    requires ValidInstant(than)
  {
    exists date :: ValidDate(date) && name == ZipName(date, suffix)
                   && Midnight(date) + days * (24 * 60 * 60 * 1_000_000_000) < Time(than)
  }

  /** An unknown suffix, a failed snapshot and a failed opening change nothing; a later failure
      takes the new file away or leaves a part of it.  A whole backup is there under its name,
      and of all the files exactly those backups of its suffix go that began more than 4 days
      (daily) or 28 days (weekly) before the run looked; unless the directory cannot be listed. */
  ghost predicate LeftByRun(entries: Entries, call: RunCall, after: Entries)
    requires ValidInstant(call.finished)
  {
    var zip, attempt := ZipName(call.started.date, call.suffix), call.attempt;
    if call.suffix != "daily" && call.suffix != "weekly" then after == entries
    else if !attempt.appSnapshot || attempt.workerSnapshot == Some(false) || !attempt.created then after == entries
    else if !attempt.zipped || !attempt.closed then
      after == if attempt.removed then entries - {zip} else entries[zip := File(attempt.part)]
    else
      var made := entries[zip := File(attempt.whole)];
      && (forall name :: name in after ==> name in made && after[name] == made[name])
      && (forall name :: name in made ==>
            (name !in after <==>
              && !call.reading.Unreadable? && made[name].File? && name !in call.stuck
              && IsOlder(name, call.suffix, if call.suffix == "daily" then 4 else 28, call.finished)))
  }

  lemma ExpiredAreOlder(entries: Entries, suffix: string, days: nat, finished: Instant, name: string)
    requires KnownSuffix(suffix) && ValidInstant(finished)
    ensures name in Expired(entries, suffix, Time(finished) - days * DAY) <==>
      name in entries && entries[name].File? && IsOlder(name, suffix, days, finished)
  {
    forall date | ValidDate(date)
      ensures DateIn(name, suffix) == Some(date) <==> name == ZipName(date, suffix)
    {
      NameIsZipName(name, suffix, date);
    }
  }

  lemma RunMeans(entries: Entries, call: RunCall)
    requires ValidInstant(call.finished)
    ensures LeftByRun(entries, call, RunLeaves(entries, call))
  {
    if KnownSuffix(call.suffix) && call.Outcome().Written? {
      var made := entries[ZipName(call.started.date, call.suffix) := File(call.attempt.whole)];
      forall name
        ensures name in Expired(made, call.suffix, Time(call.finished) - MaxAge(call.suffix).value) <==>
          && name in made && made[name].File?
          && IsOlder(name, call.suffix, if call.suffix == "daily" then 4 else 28, call.finished)
      {
        ExpiredAreOlder(made, call.suffix, if call.suffix == "daily" then 4 else 28, call.finished, name);
      }
    }
  }
}
