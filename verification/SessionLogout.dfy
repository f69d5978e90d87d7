/** When a logout is final: the exact conditions under which its token can be accepted again
    (app/services/auth/service.go). */
module SessionLogout {
  import opened Wrappers
  import opened SessionRaces

  // ---------- what can lead to an acceptance ----------

  /** A lookup given `now` that checks the entry now refuses it. */
  predicate Bad(ttl: int, clock: int, e: CacheEntry, now: int) {
    (ttl > 0 && clock > e.staleAt) || e.session.expiresAt <= now
  }

  /** The lookup has read the row and will store it. */
  predicate Carries(l: Lookup) {
    l.Listing? || l.Storing?
  }

  /** Left to itself the lookup accepts nothing. */
  predicate Powerless(ttl: int, s: State, l: Lookup) {
    match l
    case Started(hash, now, _) => hash in s.entries ==> Bad(ttl, s.clock, s.entries[hash], now)
    case GotEntry(_, now, _, cached) => cached.Some? ==> Bad(ttl, s.clock, cached.value, now)
    case _ => !Carries(l)
  }

  /** A lookup begun now would be let in by the cache. */
  predicate EntryIsGood(ttl: int, s: State, hash: Hash) {
    hash in s.entries && !Bad(ttl, s.clock, s.entries[hash], s.clock)
  }

  /** The token is deleted, the cache lets no new lookup in, no lookup carries the row, and no
      lookup begun from step `mark` on can accept by itself. */
  ghost predicate Spent(ttl: int, s: State, hash: Hash, mark: nat) {
    && hash in s.deleted && !EntryIsGood(ttl, s, hash)
    && (forall p :: p in s.lookups && s.lookups[p].hash == hash ==> !Carries(s.lookups[p]))
    && (forall p :: p in s.lookups && s.lookups[p].hash == hash && s.lookups[p].began >= mark ==>
          Powerless(ttl, s, s.lookups[p]))
  }

  /** Every lookup begun from `mark` on that accepted the token in `s'` had done so in `s`. */
  ghost predicate NoNewAcceptance(s: State, s': State, hash: Hash, mark: nat) {
    forall p :: p in s'.lookups && s'.lookups[p].hash == hash && s'.lookups[p].began >= mark
                && s'.lookups[p].Accepted? ==>
      p in s.lookups && s.lookups[p] == s'.lookups[p]
  }

  /** The cache keeps the token's entry as it is or loses it. */
  lemma SpentEntry(ttl: int, s: State, step: Step, hash: Hash, mark: nat)
    requires TablesOk(s) && Enabled(s, step) && Spent(ttl, s, hash, mark)
    ensures var s' := Do(ttl, s, step);
      && s'.clock >= s.clock && hash in s'.deleted && hash !in s'.sessions && !EntryIsGood(ttl, s', hash)
      && (hash in s'.entries ==> hash in s.entries && s'.entries[hash] == s.entries[hash])
  {
    StepEvolves(ttl, s, step);
    if hash in Do(ttl, s, step).entries {
      EntriesComeFromStores(ttl, s, step, hash);
      assert step.Store? ==> Carries(s.lookups[step.p]);
    }
  }

  /** The lookup that moves. */
  lemma SpentMover(ttl: int, s: State, step: Step, hash: Hash, mark: nat)
    requires TablesOk(s) && Enabled(s, step) && Spent(ttl, s, hash, mark) && MovesLookup(step)
    requires Do(ttl, s, step).lookups[step.p].hash == hash
    ensures var l := Do(ttl, s, step).lookups[step.p];
      && !Carries(l)
      && (l.began >= mark ==> Powerless(ttl, Do(ttl, s, step), l) && !l.Accepted?)
  {
    SpentEntry(ttl, s, step, hash, mark);
    if !step.BeginLookup? {
      assert s.lookups[step.p].hash == hash && !Carries(s.lookups[step.p]);
      assert s.lookups[step.p].began >= mark ==> Powerless(ttl, s, s.lookups[step.p]);
    }
  }

  /** A lookup that does not move stays as powerless as it was. */
  lemma SpentStays(ttl: int, s: State, step: Step, hash: Hash, mark: nat, p: nat)
    requires TablesOk(s) && Enabled(s, step) && Spent(ttl, s, hash, mark)
    requires p in s.lookups && s.lookups[p].hash == hash && s.lookups[p].began >= mark
    ensures Powerless(ttl, Do(ttl, s, step), s.lookups[p])
  {
    SpentEntry(ttl, s, step, hash, mark);
    assert Powerless(ttl, s, s.lookups[p]);
  }

  lemma SpentStep(ttl: int, s: State, step: Step, hash: Hash, mark: nat)
    requires TablesOk(s) && Enabled(s, step) && Spent(ttl, s, hash, mark)
    ensures Spent(ttl, Do(ttl, s, step), hash, mark)
    ensures NoNewAcceptance(s, Do(ttl, s, step), hash, mark)
  {
    var s' := Do(ttl, s, step);
    SpentEntry(ttl, s, step, hash, mark);
    if MovesLookup(step) {
      LookupStepIsLocal(ttl, s, step);
    } else {
      OtherStepKeepsLookups(ttl, s, step);
    }
    forall p | p in s'.lookups && s'.lookups[p].hash == hash
      ensures !Carries(s'.lookups[p])
      ensures s'.lookups[p].began >= mark ==> Powerless(ttl, s', s'.lookups[p])
      ensures s'.lookups[p].began >= mark && s'.lookups[p].Accepted? ==> p in s.lookups && s.lookups[p] == s'.lookups[p]
    {
      if MovesLookup(step) && p == step.p {
        SpentMover(ttl, s, step, hash, mark);
      } else if s.lookups[p].began >= mark {
        SpentStays(ttl, s, step, hash, mark, p);
      }
    }
  }

  lemma {:induction false} SpentRun(ttl: int, s: State, steps: seq<Step>, hash: Hash, mark: nat)
    requires Inv(ttl, s) && Spent(ttl, s, hash, mark) && IsRun(ttl, s, steps)
    ensures NoNewAcceptance(s, After(ttl, s, steps), hash, mark)
    decreases |steps|
  {
    if steps != [] {
      StepKeeps(ttl, s, steps[0]);
      SpentStep(ttl, s, steps[0], hash, mark);
      SpentRun(ttl, Do(ttl, s, steps[0]), steps[1..], hash, mark);
    }
  }

  // ---------- any acceptance ----------

  /** A lookup accepts the token in `t` that had not in `s`. */
  ghost predicate Gains(s: State, t: State, hash: Hash) {
    exists p :: p in t.lookups && t.lookups[p].hash == hash && t.lookups[p].Accepted?
                && !(p in s.lookups && s.lookups[p].Accepted?)
  }

  /** Some continuation accepts the token once more. */
  ghost predicate CanGain(ttl: int, s: State, hash: Hash) {
    exists steps :: IsRun(ttl, s, steps) && Gains(s, After(ttl, s, steps), hash)
  }

  lemma GainNow(ttl: int, s: State, step: Step, p: nat, hash: Hash)
    requires Enabled(s, step) && p in Do(ttl, s, step).lookups && !(p in s.lookups && s.lookups[p].Accepted?)
    requires Do(ttl, s, step).lookups[p].hash == hash && Do(ttl, s, step).lookups[p].Accepted?
    ensures CanGain(ttl, s, hash)
  {
    var t := Do(ttl, s, step);
    assert [step][1..] == [] && IsRun(ttl, t, []) && After(ttl, t, []) == t;
    assert IsRun(ttl, s, [step]) && After(ttl, s, [step]) == t;
    assert Gains(s, t, hash);
  }

  lemma GainLater(ttl: int, s: State, step: Step, hash: Hash)
    requires Enabled(s, step) && CanGain(ttl, Do(ttl, s, step), hash)
    ensures CanGain(ttl, s, hash)
  {
    var s' := Do(ttl, s, step);
    var rest :| IsRun(ttl, s', rest) && Gains(s', After(ttl, s', rest), hash);
    var steps := [step] + rest;
    assert steps[1..] == rest;
    assert IsRun(ttl, s, steps) && After(ttl, s, steps) == After(ttl, s', rest);
    assert forall p :: p in s.lookups && s.lookups[p].Accepted? ==> p in s'.lookups && s'.lookups[p].Accepted?;
  }

  lemma CheckerGains(ttl: int, s: State, p: nat)
    requires p in s.lookups && s.lookups[p].GotEntry? && s.lookups[p].cached.Some?
    requires !Bad(ttl, s.clock, s.lookups[p].cached.value, s.lookups[p].now)
    ensures CanGain(ttl, s, s.lookups[p].hash)
  {
    GainNow(ttl, s, CheckEntry(p), p, s.lookups[p].hash);
  }

  lemma StarterGains(ttl: int, s: State, p: nat)
    requires p in s.lookups && s.lookups[p].Started? && s.lookups[p].hash in s.entries
    requires !Bad(ttl, s.clock, s.entries[s.lookups[p].hash], s.lookups[p].now)
    ensures CanGain(ttl, s, s.lookups[p].hash)
  {
    CheckerGains(ttl, Do(ttl, s, ReadCache(p)), p);
    GainLater(ttl, s, ReadCache(p), s.lookups[p].hash);
  }

  lemma CarrierGains(ttl: int, s: State, p: nat)
    requires p in s.lookups && Carries(s.lookups[p])
    ensures CanGain(ttl, s, s.lookups[p].hash)
  {
    if s.lookups[p].Storing? {
      GainNow(ttl, s, Store(p), p, s.lookups[p].hash);
    } else {
      var s' := Do(ttl, s, List(p));
      GainNow(ttl, s', Store(p), p, s.lookups[p].hash);
      GainLater(ttl, s, List(p), s.lookups[p].hash);
    }
  }

  lemma {:induction false} Above(keys: set<nat>) returns (q: nat)
    ensures forall p :: p in keys ==> p < q
    decreases keys
  {
    if keys == {} {
      q := 0;
    } else {
      var some := Member<nat>(keys);
      var rest := Above(keys - {some});
      q := if some < rest then rest else some + 1;
      assert forall p :: p in keys ==> p == some || p in keys - {some};
    }
  }

  lemma FreshLookup(s: State) returns (q: nat)
    ensures q !in s.lookups
  {
    q := Above(s.lookups.Keys);
  }

  lemma EntryGains(ttl: int, s: State, hash: Hash)
    requires EntryIsGood(ttl, s, hash)
    ensures CanGain(ttl, s, hash)
  {
    var q := FreshLookup(s);
    StarterGains(ttl, Do(ttl, s, BeginLookup(q, hash)), q);
    GainLater(ttl, s, BeginLookup(q, hash), hash);
  }

  /** Once its row is deleted, a token can be accepted once more exactly when the cache still
      lets a lookup in, a lookup still carries the row, or a lookup has or is about to read an
      entry that it will not refuse. */
  lemma LogoutIsFinalExactly(ttl: int, s: State, hash: Hash)
    requires Inv(ttl, s) && hash in s.deleted
    ensures CanGain(ttl, s, hash) <==> !Spent(ttl, s, hash, 0)
  {
    if Spent(ttl, s, hash, 0) {
      forall steps | IsRun(ttl, s, steps)
        ensures !Gains(s, After(ttl, s, steps), hash)
      {
        SpentRun(ttl, s, steps, hash, 0);
      }
    } else if EntryIsGood(ttl, s, hash) {
      EntryGains(ttl, s, hash);
    } else if p :| p in s.lookups && s.lookups[p].hash == hash && Carries(s.lookups[p]) {
      CarrierGains(ttl, s, p);
    } else {
      var p :| p in s.lookups && s.lookups[p].hash == hash && !Powerless(ttl, s, s.lookups[p]);
      if s.lookups[p].Started? {
        StarterGains(ttl, s, p);
      } else {
        CheckerGains(ttl, s, p);
      }
    }
  }

  // ---------- acceptance by a lookup yet to begin ----------

  /** Some continuation has a lookup begun from now on accept the token. */
  ghost predicate CanReturn(ttl: int, s: State, hash: Hash, mark: nat) {
    exists steps :: IsRun(ttl, s, steps) && Returns(After(ttl, s, steps), hash, mark)
  }

  ghost predicate Returns(t: State, hash: Hash, mark: nat) {
    exists p :: p in t.lookups && t.lookups[p].hash == hash && t.lookups[p].Accepted? && t.lookups[p].began >= mark
  }

  /** The cache lets a new lookup in, or a lookup in flight carries an unexpired session. */
  ghost predicate Revivable(ttl: int, s: State, hash: Hash) {
    || EntryIsGood(ttl, s, hash)
    || exists p :: p in s.lookups && s.lookups[p].hash == hash && Carries(s.lookups[p])
                   && s.lookups[p].session.expiresAt > s.clock
  }

  lemma ReturnsLater(ttl: int, s: State, step: Step, hash: Hash, mark: nat)
    requires Enabled(s, step) && CanReturn(ttl, Do(ttl, s, step), hash, mark)
    ensures CanReturn(ttl, s, hash, mark)
  {
    var s' := Do(ttl, s, step);
    var rest :| IsRun(ttl, s', rest) && Returns(After(ttl, s', rest), hash, mark);
    var steps := [step] + rest;
    assert steps[1..] == rest;
    assert IsRun(ttl, s, steps) && After(ttl, s, steps) == After(ttl, s', rest);
  }

  lemma LookupReturns(ttl: int, s: State, q: nat, hash: Hash, mark: nat)
    requires mark <= s.step && q !in s.lookups && EntryIsGood(ttl, s, hash)
    ensures CanReturn(ttl, s, hash, mark)
  {
    var one := Do(ttl, s, BeginLookup(q, hash));
    var two := Do(ttl, one, ReadCache(q));
    var three := Do(ttl, two, CheckEntry(q));
    assert two.lookups[q] == GotEntry(hash, s.clock, s.step, Some(s.entries[hash]));
    assert three.lookups[q].Accepted? && three.lookups[q].began == s.step && three.lookups[q].hash == hash;
    assert IsRun(ttl, three, []) && After(ttl, three, []) == three && Returns(three, hash, mark);
    ReturnsLater(ttl, two, CheckEntry(q), hash, mark);
    ReturnsLater(ttl, one, ReadCache(q), hash, mark);
    ReturnsLater(ttl, s, BeginLookup(q, hash), hash, mark);
  }

  lemma StoreReturns(ttl: int, s: State, p: nat, mark: nat)
    requires mark <= s.step && p in s.lookups && s.lookups[p].Storing? && s.lookups[p].session.expiresAt > s.clock
    ensures CanReturn(ttl, s, s.lookups[p].hash, mark)
  {
    var s' := Do(ttl, s, Store(p));
    var q := FreshLookup(s');
    LookupReturns(ttl, s', q, s.lookups[p].hash, mark);
    ReturnsLater(ttl, s, Store(p), s.lookups[p].hash, mark);
  }

  lemma RevivableReturns(ttl: int, s: State, hash: Hash)
    requires Revivable(ttl, s, hash)
    ensures CanReturn(ttl, s, hash, s.step)
  {
    if EntryIsGood(ttl, s, hash) {
      var q := FreshLookup(s);
      LookupReturns(ttl, s, q, hash, s.step);
    } else {
      var p :| p in s.lookups && s.lookups[p].hash == hash && Carries(s.lookups[p])
               && s.lookups[p].session.expiresAt > s.clock;
      if s.lookups[p].Storing? {
        StoreReturns(ttl, s, p, s.step);
      } else {
        StoreReturns(ttl, Do(ttl, s, List(p)), p, s.step);
        ReturnsLater(ttl, s, List(p), hash, s.step);
      }
    }
  }

  /** Lookups begun from `mark` on were given a time not before `since`. */
  ghost predicate GivenSince(s: State, mark: nat, since: int) {
    && s.clock >= since
    && forall p :: p in s.lookups && s.lookups[p].began >= mark && !s.lookups[p].Refused? ==> s.lookups[p].now >= since
  }

  lemma {:induction false} GivenSinceRun(ttl: int, s: State, steps: seq<Step>, mark: nat, since: int)
    requires GivenSince(s, mark, since) && IsRun(ttl, s, steps)
    ensures GivenSince(After(ttl, s, steps), mark, since)
    decreases |steps|
  {
    if steps != [] {
      GivenSinceStep(ttl, s, steps[0], mark, since);
      GivenSinceRun(ttl, Do(ttl, s, steps[0]), steps[1..], mark, since);
    }
  }

  lemma GivenSinceStep(ttl: int, s: State, step: Step, mark: nat, since: int)
    requires GivenSince(s, mark, since) && Enabled(s, step)
    ensures GivenSince(Do(ttl, s, step), mark, since)
  {
    if MovesLookup(step) {
      LookupStepIsLocal(ttl, s, step);
    } else {
      OtherStepKeepsLookups(ttl, s, step);
    }
  }

  /** A session that has expired is accepted by no lookup begun since. */
  lemma ExpiredNeverReturns(ttl: int, s: State, hash: Hash)
    requires Inv(ttl, s) && hash in s.issued && s.issued[hash].expiresAt <= s.clock
    ensures !CanReturn(ttl, s, hash, s.step)
  {
    forall steps | IsRun(ttl, s, steps)
      ensures !Returns(After(ttl, s, steps), hash, s.step)
    {
      var t := After(ttl, s, steps);
      assert forall p :: p in s.lookups ==> LookupOk(ttl, s, s.lookups[p]);
      GivenSinceRun(ttl, s, steps, s.step, s.clock);
      RunKeeps(ttl, s, steps);
      IssuedStays(ttl, s, steps, hash);
      forall p | p in t.lookups && t.lookups[p].hash == hash && t.lookups[p].Accepted?
        ensures t.lookups[p].began < s.step
      {
        assert LookupOk(ttl, t, t.lookups[p]);
      }
    }
  }

  lemma {:induction false} IssuedStays(ttl: int, s: State, steps: seq<Step>, hash: Hash)
    requires Inv(ttl, s) && IsRun(ttl, s, steps) && hash in s.issued
    ensures hash in After(ttl, s, steps).issued && After(ttl, s, steps).issued[hash] == s.issued[hash]
    decreases |steps|
  {
    if steps != [] {
      StepKeeps(ttl, s, steps[0]);
      StepEvolves(ttl, s, steps[0]);
      IssuedStays(ttl, Do(ttl, s, steps[0]), steps[1..], hash);
    }
  }

  /** What is carried or cached of an unexpired session is unexpired. */
  lemma UnrevivableIsSpent(ttl: int, s: State, hash: Hash)
    requires Inv(ttl, s) && hash in s.deleted && s.issued[hash].expiresAt > s.clock && !Revivable(ttl, s, hash)
    ensures Spent(ttl, s, hash, s.step)
  {
    forall p | p in s.lookups && s.lookups[p].hash == hash
      ensures !Carries(s.lookups[p]) && s.lookups[p].began < s.step
    {
      assert LookupOk(ttl, s, s.lookups[p]);
    }
  }

  /** Once its row is deleted, a token can be accepted by a lookup yet to begin exactly when the
      cache still lets one in, or a lookup in flight carries its unexpired session.  After the
      logout has removed the cache entry only the second is left. */
  lemma LaterLookupsExactly(ttl: int, s: State, hash: Hash)
    requires Inv(ttl, s) && hash in s.deleted
    ensures CanReturn(ttl, s, hash, s.step) <==> Revivable(ttl, s, hash)
  {
    if Revivable(ttl, s, hash) {
      RevivableReturns(ttl, s, hash);
    } else if s.issued[hash].expiresAt <= s.clock {
      ExpiredNeverReturns(ttl, s, hash);
    } else {
      UnrevivableIsSpent(ttl, s, hash);
      forall steps | IsRun(ttl, s, steps)
        ensures !Returns(After(ttl, s, steps), hash, s.step)
      {
        SpentRun(ttl, s, steps, hash, s.step);
        assert forall p :: p in s.lookups ==> LookupOk(ttl, s, s.lookups[p]);
      }
    }
  }

  /** Both conditions, in every state of every run. */
  lemma LogoutInEveryRun(ttl: int, clock: int, steps: seq<Step>, hash: Hash)
    requires IsRun(ttl, Init(clock), steps) && hash in After(ttl, Init(clock), steps).deleted
    ensures var s := After(ttl, Init(clock), steps);
      && (CanGain(ttl, s, hash) <==> !Spent(ttl, s, hash, 0))
      && (CanReturn(ttl, s, hash, s.step) <==> Revivable(ttl, s, hash))
  {
    RunKeeps(ttl, Init(clock), steps);
    LogoutIsFinalExactly(ttl, After(ttl, Init(clock), steps), hash);
    LaterLookupsExactly(ttl, After(ttl, Init(clock), steps), hash);
  }
}
