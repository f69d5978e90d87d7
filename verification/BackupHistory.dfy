/** When the newest backup of a suffix survives a history of `Run` and `Cleanup` passes, one
    after another (app/jobs/backup/backup.go, app/jobs/backup/service.go). */
module BackupHistory {
  import opened BackupCleanup
  import opened BackupFiles
  import opened BackupRanks
  import opened Calendar
  import opened Wrappers

  datatype Pass = Ran(call: RunCall) | CleanedUp(readings: Readings, stuck: Stuck)

  predicate ValidPass(pass: Pass) {
    pass.Ran? ==> ValidInstant(pass.call.started) && ValidInstant(pass.call.finished)
  }

  function After(entries: Entries, pass: Pass): Entries
    requires ValidPass(pass)
  {
    match pass
    case Ran(call) => RunLeaves(entries, call)
    case CleanedUp(readings, stuck) => Cleaned(entries, readings, stuck)
  }

  function Zip(call: RunCall): string { ZipName(call.started.date, call.suffix) }

  /** The directory, and the last time the clock was read. */
  datatype Moment = Moment(entries: Entries, clock: int)

  /** The clock does not run back, and a backup takes less than three days. */
  predicate Steady(now: Moment, pass: Pass) {
    && ValidPass(pass)
    && (pass.Ran? ==>
      && now.clock <= Time(pass.call.started) <= Time(pass.call.finished)
      && Time(pass.call.finished) < Time(pass.call.started) + RETAINED * DAY)
  }

  function Next(now: Moment, pass: Pass): Moment
    requires ValidPass(pass)
  {
    Moment(After(now.entries, pass), if pass.Ran? then Time(pass.call.finished) else now.clock)
  }

  function Final(start: Moment, passes: seq<Pass>): Moment
    requires forall i :: 0 <= i < |passes| ==> ValidPass(passes[i])
  {
    if passes == [] then start else Next(Final(start, passes[..|passes| - 1]), passes[|passes| - 1])
  }

  predicate IsHistory(start: Moment, passes: seq<Pass>)
    requires forall i :: 0 <= i < |passes| ==> ValidPass(passes[i])
  {
    passes == [] ||
    (IsHistory(start, passes[..|passes| - 1]) && Steady(Final(start, passes[..|passes| - 1]), passes[|passes| - 1]))
  }

  /** No backup of the suffix is dated after the clock. */
  ghost predicate NoneFuture(entries: Entries, clock: int, suffix: string) {
    forall name :: IsBackup(entries, name, suffix) ==> Day(name, suffix) * DAY <= clock
  }

  datatype Good = Good(name: string, bytes: string)

  /** `best` is the newest backup of the suffix, with its contents; or there is none. */
  ghost predicate Newest(entries: Entries, suffix: string, best: Option<Good>) {
    match best
    case None => forall name :: !IsBackup(entries, name, suffix)
    case Some(good) =>
      && IsBackup(entries, good.name, suffix) && entries[good.name] == File(good.bytes)
      && forall name :: IsBackup(entries, name, suffix) ==> Day(name, suffix) <= Day(good.name, suffix)
  }

  predicate Succeeds(pass: Pass, suffix: string) {
    pass.Ran? && pass.call.suffix == suffix && pass.call.Outcome().Written?
  }

  predicate Fails(pass: Pass, suffix: string) {
    pass.Ran? && pass.call.suffix == suffix && !pass.call.Outcome().Written?
  }

  /** When a failing `Run` of the suffix leaves `best` what it was: it made no file; or it took
      its file away, and that was not `best`; or it left a part of its file, which is dated
      before `best`, or is `best` again. */
  predicate FailureKeeps(call: RunCall, suffix: string, best: Option<Good>) {
    match call.Outcome()
    case NotCreated => true
    case Removed => best.None? || DateIn(best.value.name, suffix) != Some(call.started.date)
    case Partial(bytes) =>
      && best.Some? && DateIn(best.value.name, suffix).Some?
      && var date := DateIn(best.value.name, suffix).value;
         Earlier(call.started.date, date) || (call.started.date == date && bytes == best.value.bytes)
    case Written(_) => false
  }

  /** The backup the last successful `Run` of the suffix wrote, or the one there before. */
  function LastGood(passes: seq<Pass>, suffix: string, best: Option<Good>): Option<Good> {
    if passes == [] then best
    else
      var last := passes[|passes| - 1];
      if Succeeds(last, suffix) then Some(Good(Zip(last.call), last.call.Outcome().bytes))
      else LastGood(passes[..|passes| - 1], suffix, best)
  }

  // ---------- one pass ----------

  /** The newest backup has none newer, so it is never in excess. */
  lemma CleanupKeeps(entries: Entries, readings: Readings, stuck: Stuck, clock: int, suffix: string, best: Option<Good>)
    requires KnownSuffix(suffix) && Newest(entries, suffix, best) && NoneFuture(entries, clock, suffix)
    ensures Newest(Cleaned(entries, readings, stuck), suffix, best)
    ensures NoneFuture(Cleaned(entries, readings, stuck), clock, suffix)
  {
    var stray, daily, weekly := CleanedIsPart(entries, readings, stuck);
    var gone := stray + daily + weekly;
    if best.Some? {
      var name := best.value.name;
      DueAreDisjoint(entries);
      assert Newer(entries, name, suffix) == {};
      assert name !in gone;
    }
    assert forall name :: IsBackup(entries - gone, name, suffix) ==> IsBackup(entries, name, suffix);
  }

  /** A `Run` changes nothing of the other suffix, except by a name of its own. */
  lemma RunKeepsOthers(entries: Entries, call: RunCall, name: string)
    requires ValidInstant(call.started) && ValidInstant(call.finished)
    requires DateIn(name, call.suffix).None?
    ensures name in RunLeaves(entries, call) <==> name in entries
    ensures name in entries ==> RunLeaves(entries, call)[name] == entries[name]
  {
    if KnownSuffix(call.suffix) {
      NameIsZipName(Zip(call), call.suffix, call.started.date);
    }
  }

  /** Today's backup is within the retention age, for as long as a `Run` may take. */
  lemma TodayIsNotExpired(call: RunCall)
    requires ValidInstant(call.started) && ValidInstant(call.finished) && KnownSuffix(call.suffix)
    requires Time(call.finished) < Time(call.started) + RETAINED * DAY
    ensures Time(call.finished) - MaxAge(call.suffix).value <= Midnight(call.started.date)
  {
  }

  /** A `Run` that succeeds makes the newest backup of its suffix. */
  lemma SuccessIsNewest(now: Moment, call: RunCall)
    requires Steady(now, Ran(call)) && KnownSuffix(call.suffix) && call.Outcome().Written?
    requires NoneFuture(now.entries, now.clock, call.suffix)
    ensures Newest(RunLeaves(now.entries, call), call.suffix, Some(Good(Zip(call), call.Outcome().bytes)))
    ensures NoneFuture(RunLeaves(now.entries, call), Time(call.finished), call.suffix)
  {
    var entries, after := now.entries, RunLeaves(now.entries, call);
    NameIsZipName(Zip(call), call.suffix, call.started.date);
    TodayIsNotExpired(call);
    forall name | IsBackup(after, name, call.suffix)
      ensures Day(name, call.suffix) <= Day(Zip(call), call.suffix)
      ensures Day(name, call.suffix) * DAY <= Time(call.finished)
    {
      if name != Zip(call) {
        assert IsBackup(entries, name, call.suffix);
      }
    }
  }

  lemma RunKeepsBackup(entries: Entries, call: RunCall, suffix: string, name: string)
    requires ValidInstant(call.started) && ValidInstant(call.finished) && call.suffix != suffix
    ensures IsBackup(RunLeaves(entries, call), name, suffix) <==> IsBackup(entries, name, suffix)
    ensures IsBackup(entries, name, suffix) ==> RunLeaves(entries, call)[name] == entries[name]
  {
    if DateIn(name, suffix).Some? {
      RunKeepsOthers(entries, call, name);
    }
  }

  lemma SameBackups(before: Entries, after: Entries, clock: int, later: int, suffix: string, best: Option<Good>)
    requires Newest(before, suffix, best) && NoneFuture(before, clock, suffix) && clock <= later
    requires forall name :: IsBackup(after, name, suffix) <==> IsBackup(before, name, suffix)
    requires forall name :: IsBackup(before, name, suffix) ==> name in after && after[name] == before[name]
    ensures Newest(after, suffix, best) && NoneFuture(after, later, suffix)
  {
  }

  /** A `Run` of another suffix leaves a suffix's newest backup as it was. */
  lemma OtherRunKeeps(now: Moment, call: RunCall, suffix: string, best: Option<Good>)
    requires Steady(now, Ran(call)) && call.suffix != suffix
    requires Newest(now.entries, suffix, best) && NoneFuture(now.entries, now.clock, suffix)
    ensures Newest(RunLeaves(now.entries, call), suffix, best)
    ensures NoneFuture(RunLeaves(now.entries, call), Time(call.finished), suffix)
  {
    var entries, after := now.entries, RunLeaves(now.entries, call);
    forall name
      ensures IsBackup(after, name, suffix) <==> IsBackup(entries, name, suffix)
      ensures IsBackup(entries, name, suffix) ==> after[name] == entries[name]
    {
      RunKeepsBackup(entries, call, suffix, name);
    }
    SameBackups(entries, after, now.clock, Time(call.finished), suffix, best);
  }

  // ---------- failing runs ----------

  /** What a failing `Run` does to the backups of its suffix. */
  lemma FailureChangesOne(entries: Entries, call: RunCall, name: string)
    requires ValidInstant(call.started) && ValidInstant(call.finished) && KnownSuffix(call.suffix)
    requires !call.Outcome().Written?
    ensures var after := RunLeaves(entries, call);
      IsBackup(after, name, call.suffix) <==>
        if name != Zip(call) || call.Outcome().NotCreated? then IsBackup(entries, name, call.suffix)
        else call.Outcome().Partial?
  {
    NameIsZipName(Zip(call), call.suffix, call.started.date);
  }

  lemma RemovedKeepsExactly(entries: Entries, call: RunCall, best: Option<Good>)
    requires ValidInstant(call.started) && ValidInstant(call.finished) && KnownSuffix(call.suffix)
    requires Newest(entries, call.suffix, best) && call.Outcome().Removed?
    ensures Newest(RunLeaves(entries, call), call.suffix, best) <==> FailureKeeps(call, call.suffix, best)
  {
    var after := RunLeaves(entries, call);
    assert forall name :: IsBackup(after, name, call.suffix) ==> IsBackup(entries, name, call.suffix);
    if best.Some? {
      NameIsZipName(best.value.name, call.suffix, call.started.date);
      FailureChangesOne(entries, call, best.value.name);
    }
  }

  /** What a part adds to the backups of its suffix. */
  lemma PartialAddsOne(entries: Entries, call: RunCall)
    requires ValidInstant(call.started) && ValidInstant(call.finished) && KnownSuffix(call.suffix)
    requires call.Outcome().Partial?
    ensures var after := RunLeaves(entries, call);
      && IsBackup(after, Zip(call), call.suffix) && after[Zip(call)] == File(call.Outcome().bytes)
      && Day(Zip(call), call.suffix) == DayNumber(call.started.date)
      && (forall name :: name != Zip(call) ==>
            (IsBackup(after, name, call.suffix) <==> IsBackup(entries, name, call.suffix))
            && (name in entries ==> name in after && after[name] == entries[name]))
  {
    NameIsZipName(Zip(call), call.suffix, call.started.date);
  }

  lemma PartialKeepsExactly(entries: Entries, call: RunCall, best: Option<Good>)
    requires ValidInstant(call.started) && ValidInstant(call.finished) && KnownSuffix(call.suffix)
    requires Newest(entries, call.suffix, best) && call.Outcome().Partial?
    ensures Newest(RunLeaves(entries, call), call.suffix, best) <==> FailureKeeps(call, call.suffix, best)
  {
    PartialAddsOne(entries, call);
    if best.Some? {
      var date := DateIn(best.value.name, call.suffix).value;
      LaterDateHasLaterNumber(call.started.date, date);
      LaterDateHasLaterNumber(date, call.started.date);
      NameIsZipName(best.value.name, call.suffix, date);
      NameIsZipName(best.value.name, call.suffix, call.started.date);
    }
  }

  /** A failing `Run` leaves the newest backup of a suffix the newest, with its contents,
      exactly when it is of the other suffix or the condition above holds. */
  lemma FailureKeepsExactly(entries: Entries, call: RunCall, suffix: string, best: Option<Good>)
    requires ValidInstant(call.started) && ValidInstant(call.finished)
    requires KnownSuffix(suffix) && Newest(entries, suffix, best) && !call.Outcome().Written?
    ensures Newest(RunLeaves(entries, call), suffix, best) <==>
      call.suffix != suffix || FailureKeeps(call, suffix, best)
  {
    if call.suffix != suffix {
      forall name
        ensures IsBackup(RunLeaves(entries, call), name, suffix) <==> IsBackup(entries, name, suffix)
        ensures IsBackup(entries, name, suffix) ==> RunLeaves(entries, call)[name] == entries[name]
      {
        RunKeepsBackup(entries, call, suffix, name);
      }
    } else {
      match call.Outcome()
      case NotCreated =>
      case Removed => RemovedKeepsExactly(entries, call, best);
      case Partial(_) => PartialKeepsExactly(entries, call, best);
    }
  }

  /** No `Run` makes a file dated after the clock. */
  lemma FailureStaysDated(now: Moment, call: RunCall)
    requires Steady(now, Ran(call)) && KnownSuffix(call.suffix) && !call.Outcome().Written?
    requires NoneFuture(now.entries, now.clock, call.suffix)
    ensures NoneFuture(RunLeaves(now.entries, call), Time(call.finished), call.suffix)
  {
    var after := RunLeaves(now.entries, call);
    NameIsZipName(Zip(call), call.suffix, call.started.date);
    forall name | IsBackup(after, name, call.suffix)
      ensures Day(name, call.suffix) * DAY <= Time(call.finished)
    {
      FailureChangesOne(now.entries, call, name);
    }
  }

  // ---------- histories ----------

  lemma {:induction false} NoneFutureStays(start: Moment, passes: seq<Pass>, suffix: string)
    requires KnownSuffix(suffix) && NoneFuture(start.entries, start.clock, suffix)
    requires (forall i :: 0 <= i < |passes| ==> ValidPass(passes[i])) && IsHistory(start, passes)
    ensures NoneFuture(Final(start, passes).entries, Final(start, passes).clock, suffix)
    decreases |passes|
  {
    if passes != [] {
      var before, last := passes[..|passes| - 1], passes[|passes| - 1];
      NoneFutureStays(start, before, suffix);
      PassStaysDated(Final(start, before), last, suffix);
    }
  }

  lemma PassStaysDated(now: Moment, pass: Pass, suffix: string)
    requires Steady(now, pass) && KnownSuffix(suffix) && NoneFuture(now.entries, now.clock, suffix)
    ensures NoneFuture(Next(now, pass).entries, Next(now, pass).clock, suffix)
  {
    match pass
    case CleanedUp(readings, stuck) =>
      var stray, daily, weekly := CleanedIsPart(now.entries, readings, stuck);
      assert forall name :: IsBackup(Next(now, pass).entries, name, suffix) ==> IsBackup(now.entries, name, suffix);
    case Ran(call) =>
      if call.suffix != suffix {
        forall name | IsBackup(RunLeaves(now.entries, call), name, suffix)
          ensures IsBackup(now.entries, name, suffix)
        {
          RunKeepsBackup(now.entries, call, suffix, name);
        }
      } else if call.Outcome().Written? {
        SuccessIsNewest(now, call);
      } else {
        FailureStaysDated(now, call);
      }
  }

  /** One pass takes the newest backup to the newest, unless a failing `Run` displaces it. */
  lemma PassKeepsExactly(now: Moment, pass: Pass, suffix: string, best: Option<Good>)
    requires Steady(now, pass) && KnownSuffix(suffix)
    requires Newest(now.entries, suffix, best) && NoneFuture(now.entries, now.clock, suffix)
    ensures !Fails(pass, suffix) ==>
      Newest(Next(now, pass).entries, suffix,
             if Succeeds(pass, suffix) then Some(Good(Zip(pass.call), pass.call.Outcome().bytes)) else best)
    ensures Fails(pass, suffix) ==>
      (Newest(Next(now, pass).entries, suffix, best) <==> FailureKeeps(pass.call, suffix, best))
  {
    match pass
    case CleanedUp(readings, stuck) => CleanupKeeps(now.entries, readings, stuck, now.clock, suffix, best);
    case Ran(call) =>
      if Succeeds(pass, suffix) {
        SuccessIsNewest(now, call);
      } else if Fails(pass, suffix) {
        FailureKeepsExactly(now.entries, call, suffix, best);
      } else {
        OtherRunKeeps(now, call, suffix, best);
      }
  }

  /** At every moment of the history the newest backup of the suffix is the one the last
      successful `Run` wrote, with its contents; or the newest one before the history. */
  ghost predicate NewestThroughout(start: Moment, passes: seq<Pass>, suffix: string, best: Option<Good>)
    requires forall i :: 0 <= i < |passes| ==> ValidPass(passes[i])
    decreases |passes|
  {
    && Newest(Final(start, passes).entries, suffix, LastGood(passes, suffix, best))
    && (passes != [] ==> NewestThroughout(start, passes[..|passes| - 1], suffix, best))
  }

  /** Each failing `Run` of the suffix keeps what is then the last good backup. */
  predicate FailuresKeep(passes: seq<Pass>, suffix: string, best: Option<Good>)
    decreases |passes|
  {
    passes != [] ==>
      var before, last := passes[..|passes| - 1], passes[|passes| - 1];
      && FailuresKeep(before, suffix, best)
      && (Fails(last, suffix) ==> FailureKeeps(last.call, suffix, LastGood(before, suffix, best)))
  }

  /** The newest backup survives a history, throughout, exactly when each failing `Run` in it
      keeps the last good one. */
  lemma {:induction false} NewestBackupSurvives(start: Moment, passes: seq<Pass>, suffix: string, best: Option<Good>)
    requires KnownSuffix(suffix) && Newest(start.entries, suffix, best)
    requires NoneFuture(start.entries, start.clock, suffix)
    requires (forall i :: 0 <= i < |passes| ==> ValidPass(passes[i])) && IsHistory(start, passes)
    ensures NewestThroughout(start, passes, suffix, best) <==> FailuresKeep(passes, suffix, best)
    decreases |passes|
  {
    if passes != [] {
      var before, last := passes[..|passes| - 1], passes[|passes| - 1];
      NewestBackupSurvives(start, before, suffix, best);
      NoneFutureStays(start, before, suffix);
      if NewestThroughout(start, before, suffix, best) {
        PassKeepsExactly(Final(start, before), last, suffix, LastGood(before, suffix, best));
      }
    }
  }

  // ---------- what a partial file does ----------

  /** A cleanup drops a backup exactly when three of its suffix are newer, whole or not. */
  lemma CleanupDropsExactly(entries: Entries, suffix: string, name: string)
    requires KnownSuffix(suffix) && IsBackup(entries, name, suffix)
    ensures name in Cleaned(entries, ALL_LISTED, NONE_STUCK) <==> |Newer(entries, name, suffix)| < 3
  {
    CleanupIsExact(entries);
    BackupsAfterCleanup(entries, suffix, name);
  }

  /** A `Run` of the suffix on that day that leaves a part of its file. */
  function PartialRun(date: Date, suffix: string, bytes: string): RunCall {
    RunCall(suffix, Instant(date, 0), Instant(date, 0),
            Attempt(true, Some(true), true, false, false, false, bytes, ""), Listed, {})
  }

  lemma PartialAddsBackup(entries: Entries, date: Date, suffix: string, bytes: string)
    requires ValidDate(date) && KnownSuffix(suffix)
    ensures var after := RunLeaves(entries, PartialRun(date, suffix, bytes));
      && IsBackup(after, ZipName(date, suffix), suffix)
      && (forall name :: IsBackup(entries, name, suffix) ==> IsBackup(after, name, suffix))
    ensures Day(ZipName(date, suffix), suffix) == DayNumber(date)
  {
    var after, zip := RunLeaves(entries, PartialRun(date, suffix, bytes)), ZipName(date, suffix);
    NameIsZipName(zip, suffix, date);
    assert after == entries[zip := File(bytes)];
  }

  function AfterPartials(entries: Entries, dates: seq<Date>, suffix: string): Entries
    requires |dates| == 3 && forall i :: 0 <= i < 3 ==> ValidDate(dates[i])
  {
    var one := RunLeaves(entries, PartialRun(dates[0], suffix, "part"));
    var two := RunLeaves(one, PartialRun(dates[1], suffix, "part"));
    RunLeaves(two, PartialRun(dates[2], suffix, "part"))
  }

  /** Three partial files of later days push out the last good backup at the next cleanup. */
  lemma PartialsPushOutGood(entries: Entries, suffix: string, name: string, dates: seq<Date>)
    requires KnownSuffix(suffix) && IsBackup(entries, name, suffix)
    requires |dates| == 3 && forall i :: 0 <= i < 3 ==> ValidDate(dates[i])
    requires Earlier(DateIn(name, suffix).value, dates[0]) && Earlier(dates[0], dates[1]) && Earlier(dates[1], dates[2])
    ensures name !in Cleaned(AfterPartials(entries, dates, suffix), ALL_LISTED, NONE_STUCK)
  {
    var a, b, c := ZipName(dates[0], suffix), ZipName(dates[1], suffix), ZipName(dates[2], suffix);
    var one := RunLeaves(entries, PartialRun(dates[0], suffix, "part"));
    var two := RunLeaves(one, PartialRun(dates[1], suffix, "part"));
    PartialAddsBackup(entries, dates[0], suffix, "part");
    PartialAddsBackup(one, dates[1], suffix, "part");
    PartialAddsBackup(two, dates[2], suffix, "part");
    LaterDateHasLaterNumber(DateIn(name, suffix).value, dates[0]);
    LaterDateHasLaterNumber(dates[0], dates[1]);
    LaterDateHasLaterNumber(dates[1], dates[2]);
    ThreeNewerDrop(RunLeaves(two, PartialRun(dates[2], suffix, "part")), suffix, name, a, b, c);
  }

  lemma ThreeNewerDrop(entries: Entries, suffix: string, name: string, a: string, b: string, c: string)
    requires KnownSuffix(suffix) && IsBackup(entries, name, suffix)
    requires IsBackup(entries, a, suffix) && IsBackup(entries, b, suffix) && IsBackup(entries, c, suffix)
    requires Day(name, suffix) < Day(a, suffix) < Day(b, suffix) < Day(c, suffix)
    ensures name !in Cleaned(entries, ALL_LISTED, NONE_STUCK)
  {
    assert a != b && b != c && a != c;
    assert |{a, b, c}| == 3;
    SubsetCount({a, b, c}, Newer(entries, name, suffix));
    CleanupDropsExactly(entries, suffix, name);
  }

  lemma DisplacedByPartial(entries: Entries, good: Good, first: Date, second: Date)
    requires ValidDate(second) && DateIn(good.name, "daily") == Some(first) && Earlier(first, second)
    requires Newest(entries, "daily", Some(good))
    ensures !Newest(RunLeaves(entries, PartialRun(second, "daily", "part")), "daily", Some(good))
  {
    FailureKeepsExactly(entries, PartialRun(second, "daily", "part"), "daily", Some(good));
  }

  /** A directory with one backup has it as the newest. */
  lemma OneIsNewest(good: Good, first: Date)
    requires ValidDate(first) && good.name == ZipName(first, "daily")
    ensures Newest(map[good.name := File(good.bytes)], "daily", Some(good))
    ensures DateIn(good.name, "daily") == Some(first)
  {
    NameIsZipName(good.name, "daily", first);
  }

  /** Any backup, alone in the directory, and parts of three later days. */
  lemma PartsDisplaceAndPushOut(good: Good, first: Date, dates: seq<Date>)
    requires ValidDate(first) && good.name == ZipName(first, "daily")
    requires |dates| == 3 && forall i :: 0 <= i < 3 ==> ValidDate(dates[i])
    requires Earlier(first, dates[0]) && Earlier(dates[0], dates[1]) && Earlier(dates[1], dates[2])
    ensures var entries := map[good.name := File(good.bytes)];
      && !Newest(RunLeaves(entries, PartialRun(dates[0], "daily", "part")), "daily", Some(good))
      && good.name !in Cleaned(AfterPartials(entries, dates, "daily"), ALL_LISTED, NONE_STUCK)
  {
    var entries := map[good.name := File(good.bytes)];
    OneIsNewest(good, first);
    DisplacedByPartial(entries, good, first, dates[0]);
    PartialsPushOutGood(entries, "daily", good.name, dates);
  }

  /** One such history: a good backup of the first of March, and three days of runs that the
      process did not live to finish. */
  lemma GoodBackupCanBePushedOut() returns (entries: Entries, dates: seq<Date>, good: Good)
    ensures |dates| == 3 && (forall i :: 0 <= i < 3 ==> ValidDate(dates[i]))
    ensures Newest(entries, "daily", Some(good))
    ensures !Newest(RunLeaves(entries, PartialRun(dates[0], "daily", "part")), "daily", Some(good))
    ensures good.name !in Cleaned(AfterPartials(entries, dates, "daily"), ALL_LISTED, NONE_STUCK)
  {
    var first := Date(2024, 3, 1);
    dates := [Date(2024, 3, 2), Date(2024, 3, 3), Date(2024, 3, 4)];
    good := Good(ZipName(first, "daily"), "good");
    entries := map[good.name := File(good.bytes)];
    OneIsNewest(good, first);
    PartsDisplaceAndPushOut(good, first, dates);
  }
}
