/** Concurrent use of the TTL cache (core/cache/cache.go).  `Get` holds the lock twice, so
    other calls can run between its read and its deletion. */
module CacheRaces {
  import opened Wrappers
  import opened Cache

  type Value = string

  /** Writes in the order the lock was granted. */
  datatype Event =
    | Put(key: string, entry: Entry<Value>)
    | Deleted(key: string)
    | Cleared

  /** A `Get` in progress.  `seen` is the number of writes before its read and `readAt` the
      time of the read; both are bookkeeping. */
  datatype Getter =
    | Reading(key: string)
    | Checking(key: string, cached: Option<Entry<Value>>, seen: nat, readAt: int)
    | Deleting(key: string, seen: nat, readAt: int, checkedAt: int)
    | Hit(key: string, value: Value, seen: nat, readAt: int, checkedAt: int)
    | Miss(key: string, seen: nat, readAt: int, checkedAt: int)

  /** `plain` is bookkeeping: a cache that never deletes stale entries. */
  datatype State = State(
    clock: int, entries: map<string, Entry<Value>>, getters: map<nat, Getter>,
    log: seq<Event>, plain: map<string, Entry<Value>>)

  function Init(clock: int): State {
    State(clock, map[], map[], [], map[])
  }

  datatype Step =
    | Tick(elapsed: nat)
    | Begin(g: nat, key: string)
    | ReadLocked(g: nat)
    | CheckTime(g: nat)
    | DeleteLocked(g: nat)
    | Set(key: string, value: Value)
    | Remove(key: string)
    | Purge

  predicate Enabled(s: State, step: Step) {
    match step
    case Begin(g, _) => g !in s.getters
    case ReadLocked(g) => g in s.getters && s.getters[g].Reading?
    case CheckTime(g) => g in s.getters && s.getters[g].Checking?
    case DeleteLocked(g) => g in s.getters && s.getters[g].Deleting?
    case _ => true
  }

  function Do(ttl: int, s: State, step: Step): State
    requires Enabled(s, step)
  {
    match step
    case Tick(elapsed) => s.(clock := s.clock + elapsed)
    case Begin(g, key) => s.(getters := s.getters[g := Reading(key)])
    case ReadLocked(g) =>
      var key := s.getters[g].key;
      var cached := if key in s.entries then Some(s.entries[key]) else None;
      s.(getters := s.getters[g := Checking(key, cached, |s.log|, s.clock)])
    case CheckTime(g) =>
      var Checking(key, cached, seen, readAt) := s.getters[g];
      var next :=
        if cached.None? then Miss(key, seen, readAt, s.clock)
        else if Stale(ttl, cached.value, s.clock) then Deleting(key, seen, readAt, s.clock)
        else Hit(key, cached.value.value, seen, readAt, s.clock);
      s.(getters := s.getters[g := next])
    case DeleteLocked(g) =>
      var Deleting(key, seen, readAt, checkedAt) := s.getters[g];
      var done := s.(getters := s.getters[g := Miss(key, seen, readAt, checkedAt)]);
      if key in s.entries && s.clock > s.entries[key].expiresAt
      then done.(entries := s.entries - {key}, log := s.log + [Deleted(key)])
      else done
    case Set(key, value) =>
      var entry := Fresh(ttl, value, s.clock);
      s.(entries := s.entries[key := entry], plain := s.plain[key := entry], log := s.log + [Put(key, entry)])
    case Remove(key) =>
      s.(entries := s.entries - {key}, plain := s.plain - {key}, log := s.log + [Deleted(key)])
    case Purge => s.(entries := map[], plain := map[], log := s.log + [Cleared])
  }

  ghost predicate IsRun(ttl: int, s: State, steps: seq<Step>)
    decreases |steps|
  {
    steps == [] || (Enabled(s, steps[0]) && IsRun(ttl, Do(ttl, s, steps[0]), steps[1..]))
  }

  function After(ttl: int, s: State, steps: seq<Step>): State
    requires IsRun(ttl, s, steps)
    decreases |steps|
  {
    if steps == [] then s else After(ttl, Do(ttl, s, steps[0]), steps[1..])
  }

  /** The reference: the last write to `key` decides. */
  function Latest(log: seq<Event>, key: string): Option<Entry<Value>> {
    if log == [] then None
    else
      match log[|log| - 1]
      case Put(k, entry) => if k == key then Some(entry) else Latest(log[..|log| - 1], key)
      case Deleted(k) => if k == key then None else Latest(log[..|log| - 1], key)
      case Cleared => None
  }

  function Lookup(entries: map<string, Entry<Value>>, key: string): Option<Entry<Value>> {
    if key in entries then Some(entries[key]) else None
  }

  /** The entry for `key` if it is there and not stale now. */
  function Live(ttl: int, entries: map<string, Entry<Value>>, key: string, now: int): Option<Entry<Value>> {
    if key in entries && !Stale(ttl, entries[key], now) then Some(entries[key]) else None
  }

  ghost predicate GetterFits(ttl: int, s: State, getter: Getter) {
    match getter
    case Checking(key, cached, seen, readAt) =>
      && seen <= |s.log| && readAt <= s.clock && cached == Latest(s.log[..seen], key)
    case Deleting(key, seen, readAt, checkedAt) =>
      && seen <= |s.log| && readAt <= checkedAt <= s.clock
      && Latest(s.log[..seen], key).Some? && Stale(ttl, Latest(s.log[..seen], key).value, checkedAt)
    case Hit(key, value, seen, readAt, checkedAt) =>
      && seen <= |s.log| && readAt <= checkedAt <= s.clock
      && Latest(s.log[..seen], key).Some?
      && var entry := Latest(s.log[..seen], key).value;
         entry.value == value && !Stale(ttl, entry, readAt) && !Stale(ttl, entry, checkedAt)
    case Miss(key, seen, readAt, checkedAt) =>
      && seen <= |s.log| && readAt <= checkedAt <= s.clock
      && (Latest(s.log[..seen], key).None? || Stale(ttl, Latest(s.log[..seen], key).value, checkedAt))
    case Reading(_) => true
  }

  ghost predicate Inv(ttl: int, s: State) {
    && (forall key :: Lookup(s.entries, key) == Latest(s.log, key))
    && (forall key :: Live(ttl, s.entries, key, s.clock) == Live(ttl, s.plain, key, s.clock))
    && (forall g :: g in s.getters ==> GetterFits(ttl, s, s.getters[g]))
  }

  lemma LogGrows(log: seq<Event>, last: Event, n: nat, key: string)
    requires n <= |log|
    ensures (log + [last])[..n] == log[..n]
    ensures Latest(log + [last], key) ==
      match last
      case Put(k, entry) => if k == key then Some(entry) else Latest(log, key)
      case Deleted(k) => if k == key then None else Latest(log, key)
      case Cleared => None
  {
    assert (log + [last])[..|log|] == log;
  }

  /** The entries are what the log says. */
  lemma StepKeepsLog(ttl: int, s: State, step: Step, key: string)
    requires Enabled(s, step) && Lookup(s.entries, key) == Latest(s.log, key)
    ensures Lookup(Do(ttl, s, step).entries, key) == Latest(Do(ttl, s, step).log, key)
  {
    var s' := Do(ttl, s, step);
    if s'.log != s.log {
      assert s'.log[..|s.log|] == s.log;
      LogGrows(s.log, s'.log[|s.log|], 0, key);
    }
  }

  /** A lazy deletion takes only what is stale already. */
  lemma StepKeepsPlain(ttl: int, s: State, step: Step, key: string)
    requires Enabled(s, step) && Live(ttl, s.entries, key, s.clock) == Live(ttl, s.plain, key, s.clock)
    requires step.DeleteLocked? ==> GetterFits(ttl, s, s.getters[step.g])
    ensures var s' := Do(ttl, s, step); Live(ttl, s'.entries, key, s'.clock) == Live(ttl, s'.plain, key, s'.clock)
  {
  }

  lemma LogIsKept(ttl: int, s: State, step: Step)
    requires Enabled(s, step)
    ensures var s' := Do(ttl, s, step);
      && |s.log| <= |s'.log| && s.clock <= s'.clock
      && forall n :: 0 <= n <= |s.log| ==> s'.log[..n] == s.log[..n]
  {
  }

  lemma StepKeepsGetter(ttl: int, s: State, step: Step, g: nat)
    requires Enabled(s, step) && g in Do(ttl, s, step).getters
    requires g in s.getters ==> GetterFits(ttl, s, s.getters[g])
    requires g in s.getters ==> Lookup(s.entries, s.getters[g].key) == Latest(s.log, s.getters[g].key)
    ensures GetterFits(ttl, Do(ttl, s, step), Do(ttl, s, step).getters[g])
  {
    LogIsKept(ttl, s, step);
    assert s.log[..|s.log|] == s.log;
  }

  lemma StepKeeps(ttl: int, s: State, step: Step)
    requires Inv(ttl, s) && Enabled(s, step)
    ensures Inv(ttl, Do(ttl, s, step))
  {
    var s' := Do(ttl, s, step);
    forall key
      ensures Lookup(s'.entries, key) == Latest(s'.log, key)
      ensures Live(ttl, s'.entries, key, s'.clock) == Live(ttl, s'.plain, key, s'.clock)
    {
      assert Lookup(s.entries, key) == Latest(s.log, key);
      assert Live(ttl, s.entries, key, s.clock) == Live(ttl, s.plain, key, s.clock);
      StepKeepsLog(ttl, s, step, key);
      StepKeepsPlain(ttl, s, step, key);
    }
    forall g | g in s'.getters
      ensures GetterFits(ttl, s', s'.getters[g])
    {
      StepKeepsGetter(ttl, s, step, g);
    }
  }

  lemma {:induction false} RunKeeps(ttl: int, s: State, steps: seq<Step>)
    requires Inv(ttl, s) && IsRun(ttl, s, steps)
    ensures Inv(ttl, After(ttl, s, steps))
    decreases |steps|
  {
    if steps != [] {
      StepKeeps(ttl, s, steps[0]);
      RunKeeps(ttl, Do(ttl, s, steps[0]), steps[1..]);
    }
  }

  /** Every hit returns the last value written before its read, which was not stale either
      at the read or when its age was checked. */
  lemma HitsAreCurrent(ttl: int, clock: int, steps: seq<Step>, g: nat)
    requires IsRun(ttl, Init(clock), steps)
    requires g in After(ttl, Init(clock), steps).getters && After(ttl, Init(clock), steps).getters[g].Hit?
    ensures var s := After(ttl, Init(clock), steps); var hit := s.getters[g];
      && hit.seen <= |s.log| && Latest(s.log[..hit.seen], hit.key).Some?
      && var entry := Latest(s.log[..hit.seen], hit.key).value;
         && hit.value == entry.value
         && !Stale(ttl, entry, hit.readAt) && !Stale(ttl, entry, hit.checkedAt)
  {
    RunKeeps(ttl, Init(clock), steps);
    assert GetterFits(ttl, After(ttl, Init(clock), steps), After(ttl, Init(clock), steps).getters[g]);
  }

  /** A `Get` misses exactly when the entry it read was missing, or had gone stale by the
      time its age was checked. */
  lemma MissesAreExact(ttl: int, clock: int, steps: seq<Step>, g: nat)
    requires IsRun(ttl, Init(clock), steps) && g in After(ttl, Init(clock), steps).getters
    requires var getter := After(ttl, Init(clock), steps).getters[g]; getter.Hit? || getter.Miss?
    ensures var s := After(ttl, Init(clock), steps); var getter := s.getters[g];
      && getter.seen <= |s.log|
      && var read := Latest(s.log[..getter.seen], getter.key);
         getter.Miss? <==> read.None? || Stale(ttl, read.value, getter.checkedAt)
  {
    RunKeeps(ttl, Init(clock), steps);
    assert GetterFits(ttl, After(ttl, Init(clock), steps), After(ttl, Init(clock), steps).getters[g]);
  }

  /** No step of a `Get` changes what is live: a racing refresh survives its deletion. */
  lemma GetRemovesNothingLive(ttl: int, clock: int, steps: seq<Step>, step: Step, key: string)
    requires IsRun(ttl, Init(clock), steps) && Enabled(After(ttl, Init(clock), steps), step)
    requires step.Begin? || step.ReadLocked? || step.CheckTime? || step.DeleteLocked?
    ensures var s := After(ttl, Init(clock), steps);
      Live(ttl, Do(ttl, s, step).entries, key, s.clock) == Live(ttl, s.entries, key, s.clock)
  {
    RunKeeps(ttl, Init(clock), steps);
    var s := After(ttl, Init(clock), steps);
    assert step.DeleteLocked? ==> GetterFits(ttl, s, s.getters[step.g]);
  }

  /** Lazy deletion is invisible: at every moment the live entries are those of a cache that
      never deletes what is stale. */
  lemma LazyDeletionIsInvisible(ttl: int, clock: int, steps: seq<Step>, key: string)
    requires IsRun(ttl, Init(clock), steps)
    ensures var s := After(ttl, Init(clock), steps);
      Live(ttl, s.entries, key, s.clock) == Live(ttl, s.plain, key, s.clock)
  {
    RunKeeps(ttl, Init(clock), steps);
  }

  /** A miss need not reflect any single moment: refreshed in time, the key is live from
      before the read until after the miss, yet the `Get` misses. */
  lemma MissMayBeSpurious() returns (ttl: int, s: seq<State>, steps: seq<Step>)
    ensures |s| == |steps| + 1 && s[0] == Do(ttl, Init(0), Set("k", "old"))
    ensures forall i :: 0 <= i < |steps| ==> Enabled(s[i], steps[i]) && s[i + 1] == Do(ttl, s[i], steps[i])
    ensures forall i :: 0 <= i <= |steps| ==> Live(ttl, s[i].entries, "k", s[i].clock).Some?
    ensures 1 in s[|steps|].getters && s[|steps|].getters[1] == Miss("k", 1, 0, 11)
  {
    ttl := 10;
    steps := [Begin(1, "k"), ReadLocked(1), Tick(10), Set("k", "new"), Tick(1), CheckTime(1), DeleteLocked(1)];
    s := [Do(ttl, Init(0), Set("k", "old"))];
    for i := 0 to |steps|
      invariant |s| == i + 1 && s[0] == Do(ttl, Init(0), Set("k", "old"))
      invariant forall j :: 0 <= j < i ==> Enabled(s[j], steps[j]) && s[j + 1] == Do(ttl, s[j], steps[j])
      invariant forall j :: 0 <= j <= i ==> Live(ttl, s[j].entries, "k", s[j].clock).Some?
      invariant s[i].clock == if i < 3 then 0 else if i < 5 then 10 else 11
      invariant "k" in s[i].entries && s[i].entries["k"] == if i < 4 then Entry("old", 10) else Entry("new", 20)
      invariant i > 0 ==> 1 in s[i].getters
      invariant i == 1 ==> s[i].getters[1] == Reading("k")
      invariant 1 < i < 6 ==> s[i].getters[1] == Checking("k", Some(Entry("old", 10)), 1, 0)
      invariant i == 6 ==> s[i].getters[1] == Deleting("k", 1, 0, 11)
      invariant i == 7 ==> s[i].getters[1] == Miss("k", 1, 0, 11)
      invariant i == 0 ==> s[i].getters == map[]
      invariant i < 4 ==> |s[i].log| == 1
    {
      s := s + [Do(ttl, s[i], steps[i])];
    }
  }

  // ---------- the steps one by one ----------

  /** What each write does to the entries, and that no other step adds or changes one. */
  lemma WritesTakeEffect(ttl: int, s: State, step: Step)
    requires Enabled(s, step)
    ensures var s' := Do(ttl, s, step);
      && (step.Set? ==>
            s'.entries == s.entries[step.key := Entry(step.value, if ttl > 0 then s.clock + ttl else 0)])
      && (step.Remove? ==> s'.entries == s.entries - {step.key})
      && (step.Purge? ==> s'.entries == map[])
      && (step.Tick? ==> s'.entries == s.entries && s'.clock == s.clock + step.elapsed)
      && (!step.Set? ==> forall k :: k in s'.entries ==> k in s.entries && s'.entries[k] == s.entries[k])
  {
  }

  /** A `Get` alone, time passing between its steps, is a `Get` of the object. */
  lemma SoloGet(ttl: int, s: State, g: nat, key: string, first: nat, second: nat) returns (t: State)
    requires g !in s.getters
    ensures var read := Do(ttl, Do(ttl, s, Begin(g, key)), ReadLocked(g));
      var checked := Do(ttl, Do(ttl, read, Tick(first)), CheckTime(g));
      t == if checked.getters[g].Deleting? then Do(ttl, Do(ttl, checked, Tick(second)), DeleteLocked(g)) else checked
    ensures t.entries == AfterGet(ttl, s.entries, key, s.clock + first, s.clock + first + second)
    ensures g in t.getters
    ensures match GetResult(ttl, s.entries, key, s.clock + first)
            case Some(value) => t.getters[g].Hit? && t.getters[g].value == value
            case None => t.getters[g].Miss?
  {
    var read := Do(ttl, Do(ttl, s, Begin(g, key)), ReadLocked(g));
    assert read.getters[g] == Checking(key, Lookup(s.entries, key), |s.log|, s.clock);
    var checked := Do(ttl, Do(ttl, read, Tick(first)), CheckTime(g));
    t := if checked.getters[g].Deleting? then Do(ttl, Do(ttl, checked, Tick(second)), DeleteLocked(g)) else checked;
  }
}
