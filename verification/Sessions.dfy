/** Session lookup through the user cache (app/services/auth/service.go and the queries of
    app/repositories/auth), one call at a time. */
module Sessions {
  import opened Wrappers
  import opened Cache

  type Permissions = bv64

  datatype User = User(id: string, username: string, permissions: Permissions)

  datatype CachedUser = CachedUser(user: User, expiresAt: int)

  datatype SessionRow = SessionRow(userId: string, createdAt: int, expiresAt: int)

  /** The tables that lookups read and these operations never change. */
  datatype Accounts = Accounts(usernames: map<string, string>, rolePermissions: map<string, seq<Permissions>>)

  type SessionTable = map<string, SessionRow>

  // ---------- the queries ----------

  datatype SessionUser = SessionUser(id: string, username: string, expiresAt: int)

  function SessionUserOf(accounts: Accounts, row: SessionRow): SessionUser
    requires row.userId in accounts.usernames
  {
    SessionUser(row.userId, accounts.usernames[row.userId], row.expiresAt)
  }

  /** find_session_user.sql: an unexpired session joined with its user. */
  function FindSessionUser(accounts: Accounts, sessions: SessionTable, hash: string, now: int): Option<SessionUser> {
    if hash in sessions && sessions[hash].expiresAt > now && sessions[hash].userId in accounts.usernames
    then Some(SessionUserOf(accounts, sessions[hash]))
    else None
  }

  /** list_user_role_permissions.sql */
  function RolePermissions(accounts: Accounts, userId: string): seq<Permissions> {
    if userId in accounts.rolePermissions then accounts.rolePermissions[userId] else []
  }

  function Union(masks: seq<Permissions>): Permissions {
    if masks == [] then 0 else Union(masks[..|masks| - 1]) | masks[|masks| - 1]
  }

  lemma UnionNext(masks: seq<Permissions>, i: nat)
    requires i < |masks|
    ensures Union(masks[..i + 1]) == Union(masks[..i]) | masks[i]
  {
    assert masks[..i + 1][..i] == masks[..i];
  }

  /** The user a session's user row and role masks make. */
  function Assemble(accounts: Accounts, found: SessionUser): User {
    User(found.id, found.username, Union(RolePermissions(accounts, found.id)))
  }

  /** What a lookup without a cache returns. */
  function Uncached(accounts: Accounts, sessions: SessionTable, hash: string, now: int): Option<User> {
    match FindSessionUser(accounts, sessions, hash, now)
    case None => None
    case Some(found) => Some(Assemble(accounts, found))
  }

  /** A cached user is what its session row gives. */
  ghost predicate AgreesAt(
    accounts: Accounts, sessions: SessionTable, entries: map<string, Entry<CachedUser>>, hash: string)
  {
    hash in entries ==>
      && hash in sessions
      && sessions[hash].userId in accounts.usernames
      && var found := SessionUserOf(accounts, sessions[hash]);
         entries[hash].value == CachedUser(Assemble(accounts, found), found.expiresAt)
  }

  /** Every cached user is what its session row gives. */
  ghost predicate Agrees(accounts: Accounts, sessions: SessionTable, entries: map<string, Entry<CachedUser>>) {
    forall hash :: AgreesAt(accounts, sessions, entries, hash)
  }

  // ---------- the operations on values ----------

  datatype Store = Store(sessions: SessionTable, entries: map<string, Entry<CachedUser>>)

  /** The readings of the clock that the cache makes during one lookup. */
  datatype Readings = Readings(checked: int, deleting: int, storing: int)

  /** Which of the two queries of a lookup fails. */
  datatype Outage = Healthy | FindFails | ListFails

  datatype LookupError = NotFound | QueryFailed

  datatype Operation =
    | LogIn(hash: string, userId: string, now: int, expiresAt: int, commit: Commit)
    | LogOut(hash: string, commit: Commit)
    | LookUp(hash: string, now: int, readings: Readings, outage: Outage)

  function LookupResult(
    ttl: int, accounts: Accounts, s: Store, hash: string, now: int, readings: Readings, outage: Outage)
    : Result<User, LookupError>
  {
    var cached := GetResult(ttl, s.entries, hash, readings.checked);
    if cached.Some? && cached.value.expiresAt > now then Ok(cached.value.user)
    else if outage.FindFails? then Err(QueryFailed)
    else
      match FindSessionUser(accounts, s.sessions, hash, now)
      case None => Err(NotFound)
      case Some(found) =>
        if outage.ListFails? then Err(QueryFailed)
        else Ok(Assemble(accounts, found))
  }

  function AfterLookup(
    ttl: int, accounts: Accounts, s: Store, hash: string, now: int, readings: Readings, outage: Outage): Store
  {
    var cached := GetResult(ttl, s.entries, hash, readings.checked);
    var afterGet := AfterGet(ttl, s.entries, hash, readings.checked, readings.deleting);
    if cached.Some? && cached.value.expiresAt > now then s.(entries := afterGet)
    else
      var missed := if cached.Some? then afterGet - {hash} else afterGet;
      var found := FindSessionUser(accounts, s.sessions, hash, now);
      if outage.Healthy? && found.Some? then
        var user := Assemble(accounts, found.value);
        s.(entries := missed[hash := Fresh(ttl, CachedUser(user, found.value.expiresAt), readings.storing)])
      else s.(entries := missed)
  }

  /** create_session.sql: the hash is the primary key and the user must exist. */
  function AfterLogin(
    accounts: Accounts, s: Store, hash: string, userId: string, now: int, expiresAt: int, commit: Commit): Store
  {
    if hash in s.sessions || userId !in accounts.usernames || commit.Lost? then s
    else s.(sessions := s.sessions[hash := SessionRow(userId, now, expiresAt)])
  }

  /** The cached user is dropped only when the delete reported success. */
  function AfterLogout(s: Store, hash: string, commit: Commit): Store {
    if commit.Lost? then s
    else Store(s.sessions - {hash}, if commit.Reported() then s.entries - {hash} else s.entries)
  }

  function Do(ttl: int, accounts: Accounts, s: Store, op: Operation): Store {
    match op
    case LogIn(hash, userId, now, expiresAt, commit) => AfterLogin(accounts, s, hash, userId, now, expiresAt, commit)
    case LogOut(hash, commit) => AfterLogout(s, hash, commit)
    case LookUp(hash, now, readings, outage) => AfterLookup(ttl, accounts, s, hash, now, readings, outage)
  }

  function DoAll(ttl: int, accounts: Accounts, s: Store, ops: seq<Operation>): Store {
    if ops == [] then s
    else Do(ttl, accounts, DoAll(ttl, accounts, s, ops[..|ops| - 1]), ops[|ops| - 1])
  }

  // ---------- what the answers mean ----------

  /** The token's row is there, unexpired, and names a user. */
  predicate HasRow(accounts: Accounts, sessions: SessionTable, hash: string, now: int) {
    hash in sessions && sessions[hash].expiresAt > now && sessions[hash].userId in accounts.usernames
  }

  /** The user is the row's, under that id's name, with a permission exactly when one of the
      masks listed for the id has it. */
  ghost predicate IsUserOf(accounts: Accounts, row: SessionRow, user: User) {
    && row.userId in accounts.usernames
    && user.id == row.userId && user.username == accounts.usernames[row.userId]
    && forall bits :: Has(user.permissions, bits) <==> Grants(accounts, row.userId, bits)
  }

  /** The mask has one of the bits; `bits` may be a single one. */
  predicate Has(mask: Permissions, bits: Permissions) { mask & bits != 0 }

  ghost predicate SomeHas(masks: seq<Permissions>, bits: Permissions) {
    exists i :: 0 <= i < |masks| && Has(masks[i], bits)
  }

  /** Some mask listed for the id has the bit. */
  ghost predicate Grants(accounts: Accounts, userId: string, bits: Permissions) {
    userId in accounts.rolePermissions && SomeHas(accounts.rolePermissions[userId], bits)
  }

  /** The cache answers: the entry is there, not stale when read, of an unexpired session. */
  predicate Cached(
    ttl: int, entries: map<string, Entry<CachedUser>>, hash: string, now: int, readings: Readings)
  {
    && hash in entries && (ttl <= 0 || readings.checked <= entries[hash].expiresAt)
    && entries[hash].value.expiresAt > now
  }

  lemma OrHas(a: Permissions, b: Permissions, both: Permissions, bits: Permissions)
    requires both == a | b
    ensures Has(both, bits) <==> Has(a, bits) || Has(b, bits)
  {
    assert (a | b) & bits == (a & bits) | (b & bits);
  }

  lemma NoneHasNothing(bits: Permissions)
    ensures !Has(0, bits)
  {
  }

  lemma SomeHasNext(masks: seq<Permissions>, n: nat, bits: Permissions)
    requires n < |masks|
    ensures SomeHas(masks[..n + 1], bits) <==> SomeHas(masks[..n], bits) || Has(masks[n], bits)
  {
    var before, through := masks[..n], masks[..n + 1];
    assert through[n] == masks[n];
    assert forall i :: 0 <= i < n ==> through[i] == before[i];
  }

  lemma UnionHasNext(masks: seq<Permissions>, n: nat, bits: Permissions)
    requires n < |masks|
    ensures Has(Union(masks[..n + 1]), bits) <==> Has(Union(masks[..n]), bits) || Has(masks[n], bits)
  {
    UnionNext(masks, n);
    OrHas(Union(masks[..n]), masks[n], Union(masks[..n + 1]), bits);
  }

  lemma {:induction false} UnionHas(masks: seq<Permissions>, n: nat, bits: Permissions)
    requires n <= |masks|
    ensures Has(Union(masks[..n]), bits) <==> SomeHas(masks[..n], bits)
  {
    if n == 0 {
      NoneHasNothing(bits);
    } else {
      UnionHas(masks, n - 1, bits);
      UnionHasNext(masks, n - 1, bits);
      SomeHasNext(masks, n - 1, bits);
    }
  }

  lemma AssembleMeans(accounts: Accounts, row: SessionRow)
    requires row.userId in accounts.usernames
    ensures IsUserOf(accounts, row, Assemble(accounts, SessionUserOf(accounts, row)))
  {
    forall bits
      ensures Has(Union(RolePermissions(accounts, row.userId)), bits) <==> Grants(accounts, row.userId, bits)
    {
      var masks := RolePermissions(accounts, row.userId);
      UnionHas(masks, |masks|, bits);
      assert masks[..|masks|] == masks;
    }
  }

  /** What a lookup answers, if the cache agrees on the token. */
  lemma LookupMeans(
    ttl: int, accounts: Accounts, s: Store, hash: string, now: int, readings: Readings, outage: Outage)
    requires AgreesAt(accounts, s.sessions, s.entries, hash)
    ensures var result := LookupResult(ttl, accounts, s, hash, now, readings, outage);
      && (result.Ok? ==> HasRow(accounts, s.sessions, hash, now) && IsUserOf(accounts, s.sessions[hash], result.value))
      && (outage.Healthy? ==> (result == Err(NotFound) <==> !HasRow(accounts, s.sessions, hash, now)))
      && (result == Err(NotFound) ==> !HasRow(accounts, s.sessions, hash, now))
      && (result == Err(QueryFailed) <==>
            !Cached(ttl, s.entries, hash, now, readings)
            && (outage.FindFails? || (outage.ListFails? && HasRow(accounts, s.sessions, hash, now))))
  {
    if hash in s.sessions && s.sessions[hash].userId in accounts.usernames {
      AssembleMeans(accounts, s.sessions[hash]);
    }
  }

  /** What a lookup leaves in the cache: an answer from the cache leaves it as it was; an answer
      from the tables is stored for a TTL; otherwise nothing is added. */
  lemma LookupStores(
    ttl: int, accounts: Accounts, s: Store, hash: string, now: int, readings: Readings, outage: Outage)
    ensures var result := LookupResult(ttl, accounts, s, hash, now, readings, outage);
      var after := AfterLookup(ttl, accounts, s, hash, now, readings, outage);
      && after.sessions == s.sessions
      && (forall k :: k != hash ==>
            (k in after.entries <==> k in s.entries) && (k in s.entries ==> after.entries[k] == s.entries[k]))
      && (Cached(ttl, s.entries, hash, now, readings) ==> after == s && result == Ok(s.entries[hash].value.user))
      && (!Cached(ttl, s.entries, hash, now, readings) && result.Ok? ==>
            && hash in after.entries && hash in s.sessions
            && after.entries[hash].value == CachedUser(result.value, s.sessions[hash].expiresAt)
            && after.entries[hash].expiresAt == if ttl > 0 then readings.storing + ttl else 0)
      && (result.Err? && hash in after.entries ==> hash in s.entries && after.entries[hash] == s.entries[hash])
  {
  }

  /** A login adds its row, and then the token is good for its user until the session expires. */
  lemma LoginMeans(
    ttl: int, accounts: Accounts, s: Store, hash: string, userId: string, now: int, expiresAt: int, commit: Commit,
    later: int, readings: Readings)
    requires hash !in s.sessions && hash !in s.entries && userId in accounts.usernames && !commit.Lost?
    ensures var after := Do(ttl, accounts, s, LogIn(hash, userId, now, expiresAt, commit));
      && after.entries == s.entries && after.sessions == s.sessions[hash := SessionRow(userId, now, expiresAt)]
      && var result := LookupResult(ttl, accounts, after, hash, later, readings, Healthy);
         if later < expiresAt then result.Ok? && IsUserOf(accounts, after.sessions[hash], result.value)
         else result == Err(NotFound)
  {
    var after := Do(ttl, accounts, s, LogIn(hash, userId, now, expiresAt, commit));
    LookupMeans(ttl, accounts, after, hash, later, readings, Healthy);
  }

  /** What a logout does: a reported one drops the row and the cached user; one that fails
      without effect nothing; one whose effect went unreported the row alone. */
  lemma LogoutMeans(ttl: int, accounts: Accounts, s: Store, hash: string, commit: Commit)
    ensures var after := Do(ttl, accounts, s, LogOut(hash, commit));
      match commit
      case Committed => after.sessions == s.sessions - {hash} && after.entries == s.entries - {hash}
      case Lost => after == s
      case Ambiguous => after.sessions == s.sessions - {hash} && after.entries == s.entries
  {
  }

  ghost predicate NoLogin(ops: seq<Operation>, hash: string) {
    forall i :: 0 <= i < |ops| && ops[i].LogIn? ==> ops[i].hash != hash
  }

  lemma {:induction false} GoneStaysGone(ttl: int, accounts: Accounts, s: Store, ops: seq<Operation>, hash: string)
    requires hash !in s.sessions && hash !in s.entries && NoLogin(ops, hash)
    ensures var t := DoAll(ttl, accounts, s, ops); hash !in t.sessions && hash !in t.entries
    decreases |ops|
  {
    if ops != [] {
      var n := |ops| - 1;
      assert NoLogin(ops[..n], hash) && (ops[n].LogIn? ==> ops[n].hash != hash);
      GoneStaysGone(ttl, accounts, s, ops[..n], hash);
    }
  }

  /** After a logout that reported success no lookup accepts the token, whatever else happens,
      unless it is drawn again. */
  lemma LogoutIsFinal(
    ttl: int, accounts: Accounts, s: Store, hash: string, later: seq<Operation>, now: int, readings: Readings,
    outage: Outage)
    requires NoLogin(later, hash)
    ensures var t := DoAll(ttl, accounts, Do(ttl, accounts, s, LogOut(hash, Committed)), later);
      LookupResult(ttl, accounts, t, hash, now, readings, outage).Err?
  {
    LogoutMeans(ttl, accounts, s, hash, Committed);
    var out := Do(ttl, accounts, s, LogOut(hash, Committed));
    GoneStaysGone(ttl, accounts, out, later, hash);
    LookupMeans(ttl, accounts, DoAll(ttl, accounts, out, later), hash, now, readings, outage);
  }

  /** An accepted user is an unexpired row's; and, if no query fails, the token is refused
      exactly when there is no such row. */
  ghost predicate Answers(
    accounts: Accounts, sessions: SessionTable, hash: string, now: int, outage: Outage,
    result: Result<User, LookupError>)
  {
    && (result.Ok? ==> HasRow(accounts, sessions, hash, now) && IsUserOf(accounts, sessions[hash], result.value))
    && (result == Err(NotFound) ==> !HasRow(accounts, sessions, hash, now))
    && (outage.Healthy? ==> (result.Err? <==> !HasRow(accounts, sessions, hash, now)))
  }

  // ---------- the service object ----------

  /** What the credentials query answers. */
  datatype Credentials = Found(userId: string) | NoSuchUser | CredentialsFail

  datatype LoginError = FindFailed | InvalidCredentials | NoToken | SessionNotCreated

  /** The loop over a user's role masks. */
  method UnionOf(masks: seq<Permissions>) returns (permissions: Permissions)
    ensures permissions == Union(masks)
  {
    permissions := 0;
    for i := 0 to |masks|
      invariant permissions == Union(masks[..i])
    {
      UnionNext(masks, i);
      permissions := permissions | masks[i];
    }
    assert masks[..|masks|] == masks;
  }

  class Service {
    const accounts: Accounts
    const hashToken: string -> string
    const sessionTtl: int
    const cache: TtlCache<CachedUser>
    var sessions: SessionTable

    constructor (accounts: Accounts, hashToken: string -> string, sessionTtl: int, cacheTtl: int)
      ensures this.accounts == accounts && this.hashToken == hashToken && this.sessionTtl == sessionTtl
      ensures fresh(cache) && cache.ttl == cacheTtl && View() == Store(map[], map[])
    {
      this.accounts, this.hashToken, this.sessionTtl := accounts, hashToken, sessionTtl;
      this.cache := new TtlCache(cacheTtl);
      this.sessions := map[];
    }

    function View(): Store
      reads this, cache
    {
      Store(sessions, cache.entries)
    }

    /** `matches` is the outcome of the password comparison, which is made against a dummy hash
        when there is no such user; `token` is fresh random text, unless drawing it fails.  A
        failed update of the last login time is only logged. */
    method Authenticate(credentials: Credentials, matches: bool, token: Option<string>, now: int, commit: Commit)
      returns (result: Result<(string, int), LoginError>)
      modifies this`sessions
      ensures credentials.CredentialsFail? ==> result == Err(FindFailed)
      ensures credentials.NoSuchUser? || (credentials.Found? && !matches) ==> result == Err(InvalidCredentials)
      ensures credentials.Found? && matches && token.None? ==> result == Err(NoToken)
      ensures !(credentials.Found? && matches && token.Some?) ==> View() == old(View())
      ensures credentials.Found? && matches && token.Some? ==>
        var hash := hashToken(token.value);
        && View() == AfterLogin(accounts, old(View()), hash, credentials.userId, now, now + sessionTtl, commit)
        && result == if hash !in old(sessions) && credentials.userId in accounts.usernames && commit.Reported()
                     then Ok((token.value, now + sessionTtl)) else Err(SessionNotCreated)
      ensures result.Ok? ==>
        && credentials.Found? && matches && token == Some(result.value.0) && result.value.1 == now + sessionTtl
        && sessions == old(sessions)[hashToken(token.value) :=
             SessionRow(credentials.userId, now, now + sessionTtl)]
        && hashToken(token.value) !in old(sessions)
    {
      if credentials.CredentialsFail? {
        return Err(FindFailed);
      }
      if credentials.NoSuchUser? || !matches {
        return Err(InvalidCredentials);
      }
      if token.None? {
        return Err(NoToken);
      }
      var hash := hashToken(token.value);
      var expiresAt := now + sessionTtl;
      if hash in sessions || credentials.userId !in accounts.usernames {
        return Err(SessionNotCreated);
      }
      if commit.Durable() {
        sessions := sessions[hash := SessionRow(credentials.userId, now, expiresAt)];
      }
      if !commit.Reported() {
        return Err(SessionNotCreated);
      }
      return Ok((token.value, expiresAt));
    }

    method Logout(rawToken: string, commit: Commit) returns (ok: bool)
      modifies this`sessions, cache
      ensures ok <==> commit.Reported()
      ensures View() == AfterLogout(old(View()), hashToken(rawToken), commit)
      ensures sessions == if commit.Lost? then old(sessions) else old(sessions) - {hashToken(rawToken)}
      ensures cache.entries == if ok then old(cache.entries) - {hashToken(rawToken)} else old(cache.entries)
    {
      var hash := hashToken(rawToken);
      if commit.Durable() {
        sessions := sessions - {hash};
      }
      if !commit.Reported() {
        return false;
      }
      cache.Remove(hash);
      return true;
    }

    method UserForToken(rawToken: string, now: int, readings: Readings, outage: Outage)
      returns (result: Result<User, LookupError>)
      modifies cache
      ensures result == LookupResult(cache.ttl, accounts, old(View()), hashToken(rawToken), now, readings, outage)
      ensures View() == AfterLookup(cache.ttl, accounts, old(View()), hashToken(rawToken), now, readings, outage)
      ensures AgreesAt(accounts, sessions, old(cache.entries), hashToken(rawToken)) ==>
        Answers(accounts, sessions, hashToken(rawToken), now, outage, result)
    {
      var hash := hashToken(rawToken);
      ghost var before := View();
      if AgreesAt(accounts, before.sessions, before.entries, hash) {
        LookupMeans(cache.ttl, accounts, before, hash, now, readings, outage);
      }
      var cached := cache.Get(hash, readings.checked, readings.deleting);
      if cached.Some? {
        if cached.value.expiresAt <= now {
          cache.Remove(hash);
        } else {
          return Ok(cached.value.user);
        }
      }
      ghost var missed := cache.entries;
      if outage.FindFails? {
        return Err(QueryFailed);
      }
      var found := FindSessionUser(accounts, sessions, hash, now);
      if found.None? {
        return Err(NotFound);
      }
      if outage.ListFails? {
        return Err(QueryFailed);
      }
      var permissions := UnionOf(RolePermissions(accounts, found.value.id));
      var user := User(found.value.id, found.value.username, permissions);
      assert user == Assemble(accounts, found.value);
      assert cache.entries == missed;
      cache.Set(hash, CachedUser(user, found.value.expiresAt), readings.storing);
      return Ok(user);
    }
  }

  // ---------- transparency ----------

  /** If the cache agrees on the token a lookup never returns anything but what the tables give;
      if no query fails it returns exactly that, whatever the TTL and the clock readings. */
  lemma LookupIsTransparent(
    ttl: int, accounts: Accounts, s: Store, hash: string, now: int, readings: Readings, outage: Outage)
    requires AgreesAt(accounts, s.sessions, s.entries, hash)
    ensures var result := LookupResult(ttl, accounts, s, hash, now, readings, outage);
      var uncached := Uncached(accounts, s.sessions, hash, now);
      && (result.Ok? ==> uncached == Some(result.value))
      && (result == Err(NotFound) ==> uncached == None)
      && (outage.Healthy? ==> result == if uncached.Some? then Ok(uncached.value) else Err(NotFound))
  {
  }

  /** A logout whose delete took effect although it reported an error. */
  predicate Ambivalent(op: Operation) {
    op.LogOut? && op.commit.Ambiguous?
  }

  lemma LoginKeepsAgreement(ttl: int, accounts: Accounts, s: Store, op: Operation, hash: string)
    requires AgreesAt(accounts, s.sessions, s.entries, hash) && op.LogIn?
    ensures var s' := Do(ttl, accounts, s, op); AgreesAt(accounts, s'.sessions, s'.entries, hash)
  {
  }

  lemma LogoutKeepsAgreement(ttl: int, accounts: Accounts, s: Store, op: Operation, hash: string)
    requires AgreesAt(accounts, s.sessions, s.entries, hash) && op.LogOut? && !Ambivalent(op)
    ensures var s' := Do(ttl, accounts, s, op); AgreesAt(accounts, s'.sessions, s'.entries, hash)
  {
  }

  lemma LookupKeepsAgreement(ttl: int, accounts: Accounts, s: Store, op: Operation, hash: string)
    requires AgreesAt(accounts, s.sessions, s.entries, hash) && op.LookUp?
    ensures var s' := Do(ttl, accounts, s, op); AgreesAt(accounts, s'.sessions, s'.entries, hash)
  {
  }

  lemma OperationKeepsAgreement(ttl: int, accounts: Accounts, s: Store, op: Operation)
    requires Agrees(accounts, s.sessions, s.entries) && !Ambivalent(op)
    ensures var s' := Do(ttl, accounts, s, op); Agrees(accounts, s'.sessions, s'.entries)
  {
    var s' := Do(ttl, accounts, s, op);
    forall hash
      ensures AgreesAt(accounts, s'.sessions, s'.entries, hash)
    {
      assert AgreesAt(accounts, s.sessions, s.entries, hash);
      match op
      case LogIn(_, _, _, _, _) => LoginKeepsAgreement(ttl, accounts, s, op, hash);
      case LogOut(_, _) => LogoutKeepsAgreement(ttl, accounts, s, op, hash);
      case LookUp(_, _, _, _) => LookupKeepsAgreement(ttl, accounts, s, op, hash);
    }
  }

  /** An ambiguous logout breaks the agreement exactly when the token was cached. */
  lemma AmbivalentLogout(ttl: int, accounts: Accounts, s: Store, op: Operation)
    requires Agrees(accounts, s.sessions, s.entries) && Ambivalent(op)
    ensures var s' := Do(ttl, accounts, s, op);
      Agrees(accounts, s'.sessions, s'.entries) <==> op.hash !in s.entries
  {
    var s' := Do(ttl, accounts, s, op);
    assert op.hash in s.entries ==> !AgreesAt(accounts, s'.sessions, s'.entries, op.hash);
    forall hash | op.hash !in s.entries
      ensures AgreesAt(accounts, s'.sessions, s'.entries, hash)
    {
      assert AgreesAt(accounts, s.sessions, s.entries, hash);
    }
  }

  lemma {:induction false} AgreementHolds(ttl: int, accounts: Accounts, s: Store, ops: seq<Operation>)
    requires Agrees(accounts, s.sessions, s.entries)
    requires forall i :: 0 <= i < |ops| ==> !Ambivalent(ops[i])
    ensures var s' := DoAll(ttl, accounts, s, ops); Agrees(accounts, s'.sessions, s'.entries)
    decreases |ops|
  {
    if ops != [] {
      var n := |ops| - 1;
      AgreementHolds(ttl, accounts, s, ops[..n]);
      OperationKeepsAgreement(ttl, accounts, DoAll(ttl, accounts, s, ops[..n]), ops[n]);
    }
  }

  /** After any logins, logouts and lookups, for any TTL and any readings, a healthy lookup
      returns exactly what the uncached query returns. */
  lemma {:induction false} CacheIsTransparent(
    ttl: int, accounts: Accounts, ops: seq<Operation>, hash: string, now: int, readings: Readings)
    requires forall i :: 0 <= i < |ops| ==> !Ambivalent(ops[i])
    ensures var s := DoAll(ttl, accounts, Store(map[], map[]), ops);
      var uncached := Uncached(accounts, s.sessions, hash, now);
      LookupResult(ttl, accounts, s, hash, now, readings, Healthy)
        == if uncached.Some? then Ok(uncached.value) else Err(NotFound)
  {
    AgreementHolds(ttl, accounts, Store(map[], map[]), ops);
    LookupIsTransparent(ttl, accounts, DoAll(ttl, accounts, Store(map[], map[]), ops), hash, now, readings, Healthy);
  }

  /** After any operations of that kind a healthy lookup accepts exactly the tokens that have an
      unexpired row, each as its row's user. */
  lemma LookupInEveryHistory(
    ttl: int, accounts: Accounts, ops: seq<Operation>, hash: string, now: int, readings: Readings)
    requires forall i :: 0 <= i < |ops| ==> !Ambivalent(ops[i])
    ensures var s := DoAll(ttl, accounts, Store(map[], map[]), ops);
      Answers(accounts, s.sessions, hash, now, Healthy, LookupResult(ttl, accounts, s, hash, now, readings, Healthy))
  {
    AgreementHolds(ttl, accounts, Store(map[], map[]), ops);
    LookupMeans(ttl, accounts, DoAll(ttl, accounts, Store(map[], map[]), ops), hash, now, readings, Healthy);
  }

  // ---------- ambiguous logouts ----------

  /** The token was drawn for one of the logins. */
  ghost predicate Drawn(ops: seq<Operation>, hash: string) {
    exists i :: 0 <= i < |ops| && ops[i].LogIn? && ops[i].hash == hash
  }

  /** No token is drawn twice. */
  ghost predicate FreshTokens(ops: seq<Operation>) {
    forall i, j :: 0 <= i < j < |ops| && ops[i].LogIn? && ops[j].LogIn? ==> ops[i].hash != ops[j].hash
  }

  /** Some logout deleted the token's row although it reported an error. */
  ghost predicate DeletedUnawares(ttl: int, accounts: Accounts, ops: seq<Operation>, hash: string) {
    exists i :: 0 <= i < |ops| && ops[i] == LogOut(hash, Ambiguous)
                && hash in DoAll(ttl, accounts, Store(map[], map[]), ops[..i]).sessions
  }

  /** A lookup would be answered from the cache. */
  predicate IsHit(ttl: int, s: Store, hash: string, now: int, readings: Readings) {
    var cached := GetResult(ttl, s.entries, hash, readings.checked);
    cached.Some? && cached.value.expiresAt > now
  }

  lemma PrefixFacts(ttl: int, accounts: Accounts, ops: seq<Operation>, hash: string)
    requires ops != []
    ensures var n := |ops| - 1; var before := DoAll(ttl, accounts, Store(map[], map[]), ops[..n]);
      && (Drawn(ops, hash) <==> Drawn(ops[..n], hash) || (ops[n].LogIn? && ops[n].hash == hash))
      && (DeletedUnawares(ttl, accounts, ops, hash) <==>
            DeletedUnawares(ttl, accounts, ops[..n], hash)
            || (ops[n] == LogOut(hash, Ambiguous) && hash in before.sessions))
  {
    var n := |ops| - 1;
    var init := ops[..n];
    assert forall i :: 0 <= i < n ==> init[i] == ops[i] && init[..i] == ops[..i];
    if DeletedUnawares(ttl, accounts, init, hash) {
      var i :| 0 <= i < |init| && init[i] == LogOut(hash, Ambiguous)
               && hash in DoAll(ttl, accounts, Store(map[], map[]), init[..i]).sessions;
      assert ops[i] == LogOut(hash, Ambiguous) && ops[..i] == init[..i];
    }
    if Drawn(init, hash) {
      var i :| 0 <= i < |init| && init[i].LogIn? && init[i].hash == hash;
      assert ops[i].LogIn?;
    }
  }

  /** What the cache and the table hold of one token. */
  ghost predicate TokenOk(ttl: int, accounts: Accounts, ops: seq<Operation>, hash: string) {
    var s := DoAll(ttl, accounts, Store(map[], map[]), ops);
    && (hash in s.sessions ==> Drawn(ops, hash))
    && (DeletedUnawares(ttl, accounts, ops, hash) ==> hash !in s.sessions && Drawn(ops, hash))
    && (!DeletedUnawares(ttl, accounts, ops, hash) ==> AgreesAt(accounts, s.sessions, s.entries, hash))
  }

  lemma TokenStaysOk(ttl: int, accounts: Accounts, ops: seq<Operation>, hash: string)
    requires ops != [] && FreshTokens(ops) && TokenOk(ttl, accounts, ops[..|ops| - 1], hash)
    ensures TokenOk(ttl, accounts, ops, hash)
  {
    var n := |ops| - 1;
    var s := DoAll(ttl, accounts, Store(map[], map[]), ops[..n]);
    PrefixFacts(ttl, accounts, ops, hash);
    if Drawn(ops[..n], hash) {
      var i :| 0 <= i < n && ops[..n][i].LogIn? && ops[..n][i].hash == hash;
      assert ops[i].LogIn? && ops[i].hash == hash;
    }
    match ops[n]
    case LogIn(_, _, _, _, _) =>
      if !DeletedUnawares(ttl, accounts, ops[..n], hash) {
        LoginKeepsAgreement(ttl, accounts, s, ops[n], hash);
      }
    case LogOut(_, _) =>
      if !DeletedUnawares(ttl, accounts, ops, hash) {
        if Ambivalent(ops[n]) && ops[n].hash == hash {
          assert hash !in s.sessions && hash !in s.entries;
        } else {
          LogoutOfOtherKeepsAgreement(ttl, accounts, s, ops[n], hash);
        }
      }
    case LookUp(_, _, _, _) =>
      if !DeletedUnawares(ttl, accounts, ops[..n], hash) {
        LookupKeepsAgreement(ttl, accounts, s, ops[n], hash);
      }
  }

  lemma LogoutOfOtherKeepsAgreement(ttl: int, accounts: Accounts, s: Store, op: Operation, hash: string)
    requires AgreesAt(accounts, s.sessions, s.entries, hash) && op.LogOut? && (!Ambivalent(op) || op.hash != hash)
    ensures var s' := Do(ttl, accounts, s, op); AgreesAt(accounts, s'.sessions, s'.entries, hash)
  {
  }

  lemma {:induction false} TokenIsOk(ttl: int, accounts: Accounts, ops: seq<Operation>, hash: string)
    requires FreshTokens(ops)
    ensures TokenOk(ttl, accounts, ops, hash)
    decreases |ops|
  {
    if ops != [] {
      var init := ops[..|ops| - 1];
      assert FreshTokens(init);
      TokenIsOk(ttl, accounts, init, hash);
      TokenStaysOk(ttl, accounts, ops, hash);
    }
  }

  /** After any logins with fresh tokens, logouts and lookups, with any failures, a healthy
      lookup differs from the uncached query exactly when it hits the cache and a logout had
      deleted the row although it reported an error. */
  lemma CacheDiffersExactly(
    ttl: int, accounts: Accounts, ops: seq<Operation>, hash: string, now: int, readings: Readings)
    requires FreshTokens(ops)
    ensures var s := DoAll(ttl, accounts, Store(map[], map[]), ops);
      var uncached := Uncached(accounts, s.sessions, hash, now);
      LookupResult(ttl, accounts, s, hash, now, readings, Healthy)
        != (if uncached.Some? then Ok(uncached.value) else Err(NotFound))
      <==> IsHit(ttl, s, hash, now, readings) && DeletedUnawares(ttl, accounts, ops, hash)
  {
    TokenIsOk(ttl, accounts, ops, hash);
    var s := DoAll(ttl, accounts, Store(map[], map[]), ops);
    if !DeletedUnawares(ttl, accounts, ops, hash) {
      LookupIsTransparent(ttl, accounts, s, hash, now, readings, Healthy);
    }
  }

  /** One such list: the row is gone, the cached user is not. */
  lemma AmbiguousLogoutKeepsUser() returns (accounts: Accounts, ops: seq<Operation>)
    ensures var s := DoAll(0, accounts, Store(map[], map[]), ops);
      && LookupResult(0, accounts, s, "h", 1, Readings(1, 1, 1), Healthy) == Ok(User("1", "lain", 0))
      && Uncached(accounts, s.sessions, "h", 1) == None
  {
    accounts := Accounts(map["1" := "lain"], map[]);
    var login := LogIn("h", "1", 0, 10, Committed);
    var lookup := LookUp("h", 0, Readings(0, 0, 0), Healthy);
    var logout := LogOut("h", Ambiguous);
    ops := [login, lookup, logout];
    var none := Store(map[], map[]);
    assert ops[..2] == [login, lookup] && ops[..2][..1] == [login] && ops[..2][..1][..0] == [];
    assert DoAll(0, accounts, none, []) == none;
    assert DoAll(0, accounts, none, ops[..2][..1]) == Do(0, accounts, none, login);
    assert DoAll(0, accounts, none, ops[..2]) == Do(0, accounts, Do(0, accounts, none, login), lookup);
    assert DoAll(0, accounts, none, ops)
      == Do(0, accounts, Do(0, accounts, Do(0, accounts, none, login), lookup), logout);
  }
}
