/** Lookups and logouts of session tokens interleaving with one another
    (app/services/auth/service.go, core/cache/cache.go).  How long can a token outlive its
    logout? */
module SessionRaces {
  import opened Wrappers

  type Hash = string

  /** What a session row gives for its user, and when it expires. */
  datatype Session = Session(user: string, expiresAt: int)

  /** A cached session.  `found` and `stored` are the steps at which its row was read and it
      was put in the cache, `storedAt` the time of the latter; they are bookkeeping. */
  datatype CacheEntry = CacheEntry(session: Session, staleAt: int, found: nat, stored: nat, storedAt: int)

  /** A lookup in progress; `now` is the time it was given, `began` the step it began. */
  datatype Lookup =
    | Started(hash: Hash, now: int, began: nat)
    | GotEntry(hash: Hash, now: int, began: nat, cached: Option<CacheEntry>)
    | DropStale(hash: Hash, now: int, began: nat)
    | DropExpired(hash: Hash, now: int, began: nat)
    | Finding(hash: Hash, now: int, began: nat)
    | Listing(hash: Hash, now: int, began: nat, session: Session, found: nat)
    | Storing(hash: Hash, now: int, began: nat, session: Session, found: nat)
    | Accepted(hash: Hash, now: int, began: nat, session: Session, source: Source)
    | Refused(hash: Hash, began: nat)

  /** Where an accepted user came from. */
  datatype Source = FromCache(entry: CacheEntry, at: int) | FromTable(found: nat)

  datatype Logout = Deleting(hash: Hash) | Removing(hash: Hash) | Returned(hash: Hash) | Failed(hash: Hash)

  /** `issued` remembers every session ever created; `deleted` and `removed` the steps at
      which its row was first deleted and its cache entry first removed after that. */
  datatype State = State(
    clock: int, step: nat,
    sessions: map<Hash, Session>, entries: map<Hash, CacheEntry>,
    lookups: map<nat, Lookup>, logouts: map<nat, Logout>,
    issued: map<Hash, Session>, deleted: map<Hash, nat>, removed: map<Hash, nat>)

  function Init(clock: int): State {
    State(clock, 0, map[], map[], map[], map[], map[], map[], map[])
  }

  datatype Step =
    | Tick(elapsed: nat)
    | Create(hash: Hash, session: Session)
    | BeginLookup(p: nat, hash: Hash)
    | ReadCache(p: nat)
    | CheckEntry(p: nat)
    | DeleteStale(p: nat)
    | RemoveExpired(p: nat)
    | Find(p: nat)
    | List(p: nat)
    | Store(p: nat)
    | QueryFails(p: nat)
    | BeginLogout(p: nat, hash: Hash)
    | DeleteRow(p: nat, commit: Commit)
    | RemoveCached(p: nat)

  predicate Enabled(s: State, step: Step) {
    match step
    case Tick(_) => true
    // A token is fresh random text, so its hash is new.
    case Create(hash, _) => hash !in s.issued
    case BeginLookup(p, _) => p !in s.lookups
    case ReadCache(p) => p in s.lookups && s.lookups[p].Started?
    case CheckEntry(p) => p in s.lookups && s.lookups[p].GotEntry?
    case DeleteStale(p) => p in s.lookups && s.lookups[p].DropStale?
    case RemoveExpired(p) => p in s.lookups && s.lookups[p].DropExpired?
    case Find(p) => p in s.lookups && s.lookups[p].Finding?
    case List(p) => p in s.lookups && s.lookups[p].Listing?
    case Store(p) => p in s.lookups && s.lookups[p].Storing?
    case QueryFails(p) => p in s.lookups && (s.lookups[p].Finding? || s.lookups[p].Listing?)
    case BeginLogout(p, _) => p !in s.logouts
    case DeleteRow(p, _) => p in s.logouts && s.logouts[p].Deleting?
    case RemoveCached(p) => p in s.logouts && s.logouts[p].Removing?
  }

  /** After the read: a miss, a stale entry, an expired session, or a hit. */
  function Judge(ttl: int, clock: int, got: Lookup): Lookup
    requires got.GotEntry?
  {
    var GotEntry(hash, now, began, cached) := got;
    if cached.None? then Finding(hash, now, began)
    else if ttl > 0 && clock > cached.value.staleAt then DropStale(hash, now, began)
    else if cached.value.session.expiresAt <= now then DropExpired(hash, now, began)
    else Accepted(hash, now, began, cached.value.session, FromCache(cached.value, clock))
  }

  predicate MovesLookup(step: Step) {
    step.BeginLookup? || step.ReadCache? || step.CheckEntry? || step.DeleteStale? || step.RemoveExpired?
    || step.Find? || step.List? || step.Store? || step.QueryFails?
  }

  /** Where the lookup that takes the step is next. */
  function NextLookup(ttl: int, s: State, step: Step): Lookup
    requires Enabled(s, step) && MovesLookup(step)
  {
    if step.BeginLookup? then Started(step.hash, s.clock, s.step)
    else
      var l := s.lookups[step.p];
      match step
      case ReadCache(_) =>
        GotEntry(l.hash, l.now, l.began, if l.hash in s.entries then Some(s.entries[l.hash]) else None)
      case CheckEntry(_) => Judge(ttl, s.clock, l)
      case DeleteStale(_) => Finding(l.hash, l.now, l.began)
      case RemoveExpired(_) => Finding(l.hash, l.now, l.began)
      case Find(_) =>
        if l.hash in s.sessions && s.sessions[l.hash].expiresAt > l.now
        then Listing(l.hash, l.now, l.began, s.sessions[l.hash], s.step)
        else Refused(l.hash, l.began)
      case List(_) => Storing(l.hash, l.now, l.began, l.session, l.found)
      case Store(_) => Accepted(l.hash, l.now, l.began, l.session, FromTable(l.found))
      case QueryFails(_) => Refused(l.hash, l.began)
  }

  /** What the step does to the cache. */
  function NextEntries(ttl: int, s: State, step: Step): map<Hash, CacheEntry>
    requires Enabled(s, step)
  {
    match step
    case DeleteStale(p) =>
      var hash := s.lookups[p].hash;
      if hash in s.entries && s.clock > s.entries[hash].staleAt then s.entries - {hash} else s.entries
    case RemoveExpired(p) => s.entries - {s.lookups[p].hash}
    case Store(p) =>
      var l := s.lookups[p];
      s.entries[l.hash :=
        CacheEntry(l.session, if ttl > 0 then s.clock + ttl else 0, l.found, s.step, s.clock)]
    case RemoveCached(p) => s.entries - {s.logouts[p].hash}
    case _ => s.entries
  }

  function Do(ttl: int, s: State, step: Step): State
    requires Enabled(s, step)
  {
    var next := s.(step := s.step + 1, entries := NextEntries(ttl, s, step));
    if MovesLookup(step) then next.(lookups := s.lookups[step.p := NextLookup(ttl, s, step)])
    else
      match step
      case Tick(elapsed) => next.(clock := s.clock + elapsed)
      case Create(hash, session) =>
        next.(sessions := s.sessions[hash := session], issued := s.issued[hash := session])
      case BeginLogout(p, hash) => next.(logouts := s.logouts[p := Deleting(hash)])
      case DeleteRow(p, commit) =>
        var hash := s.logouts[p].hash;
        next.(sessions := if commit.Durable() then s.sessions - {hash} else s.sessions,
              deleted := if commit.Durable() && hash in s.sessions then s.deleted[hash := s.step] else s.deleted,
              logouts := s.logouts[p := if commit.Reported() then Removing(hash) else Failed(hash)])
      case RemoveCached(p) =>
        var hash := s.logouts[p].hash;
        next.(removed := if hash in s.deleted && hash !in s.removed then s.removed[hash := s.step] else s.removed,
              logouts := s.logouts[p := Returned(hash)])
  }

  ghost predicate IsRun(ttl: int, s: State, steps: seq<Step>)
    decreases |steps|
  {
    steps == [] || (Enabled(s, steps[0]) && IsRun(ttl, Do(ttl, s, steps[0]), steps[1..]))
  }

  function After(ttl: int, s: State, steps: seq<Step>): State
    requires IsRun(ttl, s, steps)
    decreases |steps|
  {
    if steps == [] then s else After(ttl, Do(ttl, s, steps[0]), steps[1..])
  }

  // ---------- the invariant ----------

  /** Row data read at step `found` is the issued session, read before the row was deleted. */
  ghost predicate ReadOk(s: State, hash: Hash, session: Session, found: nat) {
    && hash in s.issued && s.issued[hash] == session
    && found < s.step
    && (hash in s.deleted ==> found < s.deleted[hash])
  }

  ghost predicate EntryOk(ttl: int, s: State, hash: Hash, e: CacheEntry) {
    && ReadOk(s, hash, e.session, e.found)
    && e.found < e.stored < s.step
    && e.storedAt <= s.clock
    && (ttl > 0 ==> e.staleAt == e.storedAt + ttl)
  }

  /** A lookup begun after the removal only ever sees entries stored after it. */
  ghost predicate SeenLate(s: State, hash: Hash, began: nat, e: CacheEntry) {
    hash in s.removed && began > s.removed[hash] ==> e.stored > s.removed[hash]
  }

  ghost predicate LookupOk(ttl: int, s: State, l: Lookup) {
    && l.began < s.step
    && match l
       case GotEntry(hash, _, began, cached) =>
         cached.Some? ==> EntryOk(ttl, s, hash, cached.value) && SeenLate(s, hash, began, cached.value)
       case Listing(hash, now, began, session, found) =>
         ReadOk(s, hash, session, found) && began < found && session.expiresAt > now
       case Storing(hash, now, began, session, found) =>
         ReadOk(s, hash, session, found) && began < found && session.expiresAt > now
       case Accepted(hash, now, began, session, source) =>
         && hash in s.issued && s.issued[hash] == session && session.expiresAt > now
         && (match source
             case FromTable(found) => ReadOk(s, hash, session, found) && began < found
             case FromCache(e, at) =>
               && EntryOk(ttl, s, hash, e) && SeenLate(s, hash, began, e) && e.session == session
               && at <= s.clock && (ttl > 0 ==> at <= e.storedAt + ttl))
       case _ => true
  }

  /** Rows are issued sessions not yet deleted; a removal follows its delete. */
  ghost predicate TablesOk(s: State) {
    && (forall h :: h in s.sessions ==> h in s.issued && h !in s.deleted && s.sessions[h] == s.issued[h])
    && (forall h :: h in s.deleted ==> h in s.issued && s.deleted[h] < s.step)
    && (forall h :: h in s.removed ==> h in s.deleted && s.deleted[h] < s.removed[h] < s.step)
  }

  ghost predicate Inv(ttl: int, s: State) {
    && TablesOk(s)
    && (forall h :: h in s.entries ==>
          EntryOk(ttl, s, h, s.entries[h]) && (h in s.removed ==> s.entries[h].stored > s.removed[h]))
    && (forall p :: p in s.lookups ==> LookupOk(ttl, s, s.lookups[p]))
  }

  /** How the bookkeeping moves: what is recorded stays, and what is new is of this step. */
  ghost predicate Evolves(s: State, s': State) {
    && s'.step == s.step + 1 && s'.clock >= s.clock
    && (forall h :: h in s.issued ==> h in s'.issued && s'.issued[h] == s.issued[h])
    && (forall h :: h in s.deleted ==> h in s'.deleted && s'.deleted[h] == s.deleted[h])
    && (forall h :: h in s'.deleted && h !in s.deleted ==> s'.deleted[h] == s.step)
    && (forall h :: h in s.removed ==> h in s'.removed && s'.removed[h] == s.removed[h])
    && (forall h :: h in s'.removed && h !in s.removed ==> s'.removed[h] == s.step)
  }

  /** A lookup's step touches no table and no other lookup. */
  lemma LookupStepIsLocal(ttl: int, s: State, step: Step)
    requires Enabled(s, step) && MovesLookup(step)
    ensures var s' := Do(ttl, s, step);
      && s'.sessions == s.sessions && s'.issued == s.issued && s'.deleted == s.deleted && s'.removed == s.removed
      && s'.clock == s.clock && s'.step == s.step + 1 && step.p in s'.lookups
      && s'.lookups == s.lookups[step.p := s'.lookups[step.p]]
  {
  }

  lemma OtherStepKeepsLookups(ttl: int, s: State, step: Step)
    requires Enabled(s, step) && !MovesLookup(step)
    ensures var s' := Do(ttl, s, step);
      s'.lookups == s.lookups && s'.clock >= s.clock && s'.step == s.step + 1
  {
  }

  lemma DeleteRowEvolves(ttl: int, s: State, step: Step)
    requires TablesOk(s) && Enabled(s, step) && step.DeleteRow?
    ensures Evolves(s, Do(ttl, s, step)) && TablesOk(Do(ttl, s, step))
  {
  }

  lemma RemoveCachedEvolves(ttl: int, s: State, step: Step)
    requires TablesOk(s) && Enabled(s, step) && step.RemoveCached?
    ensures Evolves(s, Do(ttl, s, step)) && TablesOk(Do(ttl, s, step))
  {
  }

  lemma CreateEvolves(s: State, s': State, hash: Hash, session: Session)
    requires TablesOk(s) && hash !in s.issued
    requires s'.sessions == s.sessions[hash := session] && s'.issued == s.issued[hash := session]
    requires s'.deleted == s.deleted && s'.removed == s.removed && s'.step == s.step + 1 && s'.clock == s.clock
    ensures Evolves(s, s') && TablesOk(s')
  {
  }

  lemma StepEvolves(ttl: int, s: State, step: Step)
    requires TablesOk(s) && Enabled(s, step)
    ensures Evolves(s, Do(ttl, s, step)) && TablesOk(Do(ttl, s, step))
  {
    if MovesLookup(step) {
      LookupStepIsLocal(ttl, s, step);
    } else if step.DeleteRow? {
      DeleteRowEvolves(ttl, s, step);
    } else if step.RemoveCached? {
      RemoveCachedEvolves(ttl, s, step);
    } else if step.Create? {
      CreateEvolves(s, Do(ttl, s, step), step.hash, step.session);
    }
  }

  /** Facts about entries and lookups survive a step that is not their own. */
  lemma EntryStaysOk(ttl: int, s: State, s': State, hash: Hash, e: CacheEntry)
    requires Evolves(s, s') && EntryOk(ttl, s, hash, e)
    ensures EntryOk(ttl, s', hash, e)
  {
  }

  lemma LookupStaysOk(ttl: int, s: State, s': State, l: Lookup)
    requires Evolves(s, s') && LookupOk(ttl, s, l)
    ensures LookupOk(ttl, s', l)
  {
    match l
    case GotEntry(hash, _, _, cached) =>
      if cached.Some? {
        EntryStaysOk(ttl, s, s', hash, cached.value);
      }
    case Accepted(hash, _, _, _, source) =>
      if source.FromCache? {
        EntryStaysOk(ttl, s, s', hash, source.entry);
      }
    case _ =>
  }

  /** The lookup that takes the step. */
  lemma ReaderIsOk(ttl: int, s: State, step: Step)
    requires Inv(ttl, s) && Enabled(s, step) && (step.ReadCache? || step.CheckEntry?)
    ensures LookupOk(ttl, Do(ttl, s, step), Do(ttl, s, step).lookups[step.p])
  {
    var s' := Do(ttl, s, step);
    var l := s.lookups[step.p];
    assert LookupOk(ttl, s, l);
    StepEvolves(ttl, s, step);
    if step.CheckEntry? && l.cached.Some? {
      EntryStaysOk(ttl, s, s', l.hash, l.cached.value);
    }
    if step.ReadCache? && l.hash in s.entries {
      EntryStaysOk(ttl, s, s', l.hash, s.entries[l.hash]);
    }
  }

  lemma FinderIsOk(ttl: int, s: State, step: Step)
    requires Inv(ttl, s) && Enabled(s, step) && step.Find?
    ensures LookupOk(ttl, Do(ttl, s, step), Do(ttl, s, step).lookups[step.p])
  {
    assert LookupOk(ttl, s, s.lookups[step.p]);
    LookupStepIsLocal(ttl, s, step);
  }

  lemma CarrierIsOk(ttl: int, s: State, step: Step)
    requires Inv(ttl, s) && Enabled(s, step) && (step.List? || step.Store?)
    ensures LookupOk(ttl, Do(ttl, s, step), Do(ttl, s, step).lookups[step.p])
  {
    assert LookupOk(ttl, s, s.lookups[step.p]);
    LookupStepIsLocal(ttl, s, step);
  }

  lemma OtherMoverIsOk(ttl: int, s: State, step: Step)
    requires Inv(ttl, s) && Enabled(s, step)
    requires step.BeginLookup? || step.DeleteStale? || step.RemoveExpired? || step.QueryFails?
    ensures LookupOk(ttl, Do(ttl, s, step), Do(ttl, s, step).lookups[step.p])
  {
    assert step.p in s.lookups ==> LookupOk(ttl, s, s.lookups[step.p]);
    LookupStepIsLocal(ttl, s, step);
  }

  lemma LookupsStayOk(ttl: int, s: State, step: Step, p: nat)
    requires Inv(ttl, s) && Enabled(s, step) && p in Do(ttl, s, step).lookups
    ensures LookupOk(ttl, Do(ttl, s, step), Do(ttl, s, step).lookups[p])
  {
    StepEvolves(ttl, s, step);
    if MovesLookup(step) {
      LookupStepIsLocal(ttl, s, step);
    } else {
      OtherStepKeepsLookups(ttl, s, step);
    }
    if !MovesLookup(step) || p != step.p {
      LookupStaysOk(ttl, s, Do(ttl, s, step), s.lookups[p]);
    } else if step.ReadCache? || step.CheckEntry? {
      ReaderIsOk(ttl, s, step);
    } else if step.Find? {
      FinderIsOk(ttl, s, step);
    } else if step.List? || step.Store? {
      CarrierIsOk(ttl, s, step);
    } else {
      OtherMoverIsOk(ttl, s, step);
    }
  }

  /** Only a store adds an entry, and a removal records no entry that stays. */
  lemma EntriesComeFromStores(ttl: int, s: State, step: Step, h: Hash)
    requires Enabled(s, step) && h in Do(ttl, s, step).entries
    ensures
      || (step.Store? && h == s.lookups[step.p].hash)
      || (h in s.entries && Do(ttl, s, step).entries[h] == s.entries[h])
    ensures step.RemoveCached? ==> h != s.logouts[step.p].hash
    ensures h in Do(ttl, s, step).removed ==> h in s.removed && Do(ttl, s, step).removed[h] == s.removed[h]
  {
  }

  lemma EntriesStayOk(ttl: int, s: State, step: Step, h: Hash)
    requires Inv(ttl, s) && Enabled(s, step) && h in Do(ttl, s, step).entries
    ensures var s' := Do(ttl, s, step);
      EntryOk(ttl, s', h, s'.entries[h]) && (h in s'.removed ==> s'.entries[h].stored > s'.removed[h])
  {
    StepEvolves(ttl, s, step);
    EntriesComeFromStores(ttl, s, step, h);
    if step.Store? && h == s.lookups[step.p].hash {
      assert LookupOk(ttl, s, s.lookups[step.p]);
    } else {
      EntryStaysOk(ttl, s, Do(ttl, s, step), h, s.entries[h]);
    }
  }

  lemma StepKeeps(ttl: int, s: State, step: Step)
    requires Inv(ttl, s) && Enabled(s, step)
    ensures Inv(ttl, Do(ttl, s, step))
  {
    var s' := Do(ttl, s, step);
    StepEvolves(ttl, s, step);
    forall h | h in s'.entries
      ensures EntryOk(ttl, s', h, s'.entries[h]) && (h in s'.removed ==> s'.entries[h].stored > s'.removed[h])
    {
      EntriesStayOk(ttl, s, step, h);
    }
    forall p | p in s'.lookups
      ensures LookupOk(ttl, s', s'.lookups[p])
    {
      LookupsStayOk(ttl, s, step, p);
    }
  }

  lemma {:induction false} RunKeeps(ttl: int, s: State, steps: seq<Step>)
    requires Inv(ttl, s) && IsRun(ttl, s, steps)
    ensures Inv(ttl, After(ttl, s, steps))
    decreases |steps|
  {
    if steps != [] {
      StepKeeps(ttl, s, steps[0]);
      RunKeeps(ttl, Do(ttl, s, steps[0]), steps[1..]);
    }
  }

  // ---------- what can still be accepted after a logout ----------

  /** A lookup that began after the logout returned and still accepts the token got it from
      a cache entry whose row was read before the delete and which was stored after the
      removal.  It accepts the right user, before the session expires, and at most the TTL
      after that store. */
  lemma LateAcceptanceIsBounded(ttl: int, clock: int, steps: seq<Step>, p: nat)
    requires IsRun(ttl, Init(clock), steps)
    requires var s := After(ttl, Init(clock), steps);
      p in s.lookups && s.lookups[p].Accepted?
      && s.lookups[p].hash in s.removed && s.lookups[p].began > s.removed[s.lookups[p].hash]
    ensures var s := After(ttl, Init(clock), steps); var l := s.lookups[p];
      && l.source.FromCache?
      && l.hash in s.deleted && l.hash in s.issued
      && l.source.entry.found < s.deleted[l.hash] < s.removed[l.hash] < l.source.entry.stored
      && l.session == s.issued[l.hash]
      && l.now < l.session.expiresAt
      && (ttl > 0 ==> l.source.at <= l.source.entry.storedAt + ttl)
  {
    RunKeeps(ttl, Init(clock), steps);
    assert LookupOk(ttl, After(ttl, Init(clock), steps), After(ttl, Init(clock), steps).lookups[p]);
  }

  // ---------- the bound is needed ----------

  ghost predicate Reachable(ttl: int, s: State) {
    exists steps :: IsRun(ttl, Init(0), steps) && After(ttl, Init(0), steps) == s
  }

  lemma {:induction false} Append(ttl: int, s: State, steps: seq<Step>, last: Step)
    requires IsRun(ttl, s, steps) && Enabled(After(ttl, s, steps), last)
    ensures IsRun(ttl, s, steps + [last])
    ensures After(ttl, s, steps + [last]) == Do(ttl, After(ttl, s, steps), last)
    decreases |steps|
  {
    var all := steps + [last];
    if steps == [] {
      assert all == [last] && all[1..] == [];
      assert IsRun(ttl, Do(ttl, s, last), []);
    } else {
      Append(ttl, Do(ttl, s, steps[0]), steps[1..], last);
      assert all[0] == steps[0] && all[1..] == steps[1..] + [last];
    }
  }

  lemma ReachableStep(ttl: int, s: State, step: Step) returns (s': State)
    requires Reachable(ttl, s) && Enabled(s, step)
    ensures s' == Do(ttl, s, step) && Reachable(ttl, s')
  {
    var steps :| IsRun(ttl, Init(0), steps) && After(ttl, Init(0), steps) == s;
    Append(ttl, Init(0), steps, step);
    s' := Do(ttl, s, step);
  }

  /** A lookup that missed the cache. */
  lemma ReachFinding(ttl: int, session: Session) returns (s: State)
    ensures Reachable(ttl, s)
    ensures s == State(0, 4, map["h" := session], map[], map[1 := Finding("h", 0, 1)], map[],
                       map["h" := session], map[], map[])
  {
    assert IsRun(ttl, Init(0), []) && After(ttl, Init(0), []) == Init(0);
    s := ReachableStep(ttl, Init(0), Create("h", session));
    assert s.sessions == map["h" := session] && s.issued == map["h" := session];
    s := ReachableStep(ttl, s, BeginLookup(1, "h"));
    assert s.lookups == map[1 := Started("h", 0, 1)];
    s := ReachableStep(ttl, s, ReadCache(1));
    assert s.lookups == map[1 := GotEntry("h", 0, 1, None)];
    s := ReachableStep(ttl, s, CheckEntry(1));
    assert s.lookups == map[1 := Finding("h", 0, 1)];
  }

  /** A lookup that has read the row of a fresh token and not yet stored it. */
  lemma ReachListing(ttl: int, session: Session) returns (s: State)
    requires session.expiresAt > 0
    ensures Reachable(ttl, s)
    ensures s == State(0, 5, map["h" := session], map[], map[1 := Listing("h", 0, 1, session, 4)], map[],
                       map["h" := session], map[], map[])
  {
    s := ReachFinding(ttl, session);
    s := ReachableStep(ttl, s, Find(1));
    assert s.lookups == map[1 := Listing("h", 0, 1, session, 4)];
  }

  /** Then the row is deleted. */
  lemma ReachDeleted(ttl: int, session: Session) returns (s: State)
    requires session.expiresAt > 0
    ensures Reachable(ttl, s)
    ensures s == State(0, 7, map[], map[], map[1 := Listing("h", 0, 1, session, 4)], map[9 := Removing("h")],
                       map["h" := session], map["h" := 6], map[])
  {
    var listing := ReachListing(ttl, session);
    var begun := ReachableStep(ttl, listing, BeginLogout(9, "h"));
    assert begun.logouts == map[9 := Deleting("h")];
    s := ReachableStep(ttl, begun, DeleteRow(9, Committed));
    assert s.sessions == map[] && s.deleted == map["h" := 6] && s.logouts == map[9 := Removing("h")];
  }

  /** The whole logout then runs before the lookup goes on. */
  lemma ReachReturned(ttl: int, session: Session) returns (s: State)
    requires session.expiresAt > 0
    ensures Reachable(ttl, s) && s.clock == 0 && s.step == 8
    ensures s.lookups == map[1 := Listing("h", 0, 1, session, 4)] && s.logouts == map[9 := Returned("h")]
    ensures s.entries == map[] && s.removed == map["h" := 7]
  {
    s := ReachDeleted(ttl, session);
    s := ReachableStep(ttl, s, RemoveCached(9));
  }

  /** A lookup caught between its query and its store puts the token back after the logout
      returned, and a lookup begun after that accepts it. */
  lemma TokenCanOutliveLogout(ttl: int) returns (s: State)
    requires ttl >= 0
    ensures Reachable(ttl, s)
    ensures 9 in s.logouts && s.logouts[9] == Returned("h") && "h" in s.removed
    ensures 2 in s.lookups && s.lookups[2].Accepted? && s.lookups[2].hash == "h"
    ensures s.lookups[2].began > s.removed["h"]
  {
    var session := Session("lain", 100);
    s := ReachReturned(ttl, session);
    s := ReachableStep(ttl, s, List(1));
    s := ReachableStep(ttl, s, Store(1));
    assert s.entries == map["h" := CacheEntry(session, if ttl > 0 then ttl else 0, 4, 9, 0)];
    s := ReachableStep(ttl, s, BeginLookup(2, "h"));
    s := ReachableStep(ttl, s, ReadCache(2));
    assert s.lookups[2] == GotEntry("h", 0, 10, Some(s.entries["h"]));
    s := ReachableStep(ttl, s, CheckEntry(2));
  }
}
