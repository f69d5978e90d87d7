# kumacore: a verified model of its stateful core

This project models five parts of kumacore in Dafny and proves what they promise:

1. **The worker job queue** (`core/worker`). Three tables, a poll loop that claims every pending
   row at once, one concurrent executor per claimed row, and an outcome (complete, retry, bury)
   whose write may be lost or have its reply lost. `JobTables` and `WorkerRuntime` are the objects;
   `WorkerProtocol` is the transition system over any interleaving of executors, crashes and
   restarts; `WorkerInvariant`, `WorkerTheorems`, `WorkerSuccess`, `WorkerCauses`, `WorkerDrain` and
   `WorkerOrphans` prove what holds of every run. Object and protocol meet in
   `WorkerProtocol.EndsAt`, which says on the tables alone where the outcome of a job must leave it.
   `Shutdown` is the wait group and the order in which the databases close.
2. **Migrations** (`core/db/migrate`). `MigrationFiles` discovers and orders files, `Migrations`
   validates them, `MigrationApply` applies a plan in one transaction, and `Migrators` lets any
   number of processes validate and apply in any order.
3. **Session lookup over a TTL cache** (`app/services/auth`, `core/cache`). `Cache` and `Sessions`
   are the objects used by one caller at a time; `CacheRaces` and `SessionRaces` split each call
   at its locks and queries and interleave them. `SessionLogout` says exactly when a logout is
   final.
4. **Backup retention** (`app/jobs/backup`). `BackupDirectory` is the directory with fallible
   listing and removal; `BackupRanks`, `BackupCleanup` and `BackupHistory` prove what the passes
   remove and what survives every history of them, one after another; `BackupRaces` splits the
   passes at every listing, write and removal and interleaves them. `Calendar` holds the dates in
   the file names.
5. **Marked-region rewriting** (`cmd/kumacore/internal/initcmd`). `Regions` is the byte-index
   splice and the marker filter; `Documents` is the file seen as lines and regions, and the proof
   that splicing text edits lines; `MarkerNames` shows that files whose markers stand alone on
   their lines are such documents.

Code that updates state is a class or a method with loops whose contract equates the new state
with a function of the old one; the lemmas are about those functions and about runs of steps.
Beside that function each main operation has a description of its effect that does not use it:
`WorkerProtocol.EndsAt`, `MigrationFiles.IsRead`, `MigrationApply.IsApplied`, `Sessions.Answers`,
`BackupFiles.LeftByRun`, and the clauses on the tables of `JobTables` and the entries of `Cache`.

## Assumptions

- One runtime per worker database; a new process starts only after the old one is gone.
- Queue ids and session tokens are fresh; the hash of a token is a parameter and is treated as
  collision free in `SessionRaces`.
- `maxAttempts` is at least 1 (its constructor rejects less) and fixed across restarts.
- A committed SQL transaction is atomic, and committed transactions are serial. Every write may end
  `Committed`, `Lost` (no effect, error reported) or `Ambiguous` (effect, error reported).
- The SQL of a migration is a partial transformer of the rest of the database and does not touch
  the tracking table.
- Clocks are monotone in `CacheRaces`, `SessionRaces`, `SessionLogout`, `BackupHistory` and
  `BackupRaces`; in the last two a backup takes less than three days and no file is dated in the
  future to begin with. `Cache` and `Sessions`
  take the clock readings as parameters, in any order.
- At most one `Run` of a suffix is under way at a time: each scheduled job has one goroutine, and
  nobody triggers a backup job by hand meanwhile.
- Job handlers return.
- Files handed to the rewriter are sequences of characters; markers are ASCII, so positions in
  characters and in bytes cut at the same places.

## What turned out not to hold

- Execution is at least once, not exactly once, and a buried job may have succeeded:
  `WorkerTheorems.BuriedJobMayHaveSucceeded` is such a run. `WorkerSuccess.ExactlyOnce` says
  exactly when it does not happen: a completed job succeeded once, and a buried one never, if and
  only if no successful call had its outcome lost.
- A live worker need not empty its queue. The error of an outcome write is only logged, so a lost
  one leaves its row running with no executor (`WorkerOrphans.LostOutcomeStrands`), and so does a
  claim that takes effect but reports an error (`WorkerOrphans.LostClaimStrands`). Such a row stays
  as it is until the next restart: a healthy run empties the queue if and only if there was none
  (`WorkerOrphans.QueueDrains`).
- CONTRACT.md asks for `NNNN_slug.sql`, but the number is read with `Atoi`, so `+001_x.sql` is
  accepted as sequence 1 (`MigrationFiles.SignedNameParses`); the model follows the code.
- A `Get` can miss a key that is live from before its read until after its miss
  (`CacheRaces.MissMayBeSpurious`). Hits, in contrast, are always current.
- A logout whose delete took effect but reported an error leaves the cached user in place, so the
  cache then disagrees with the table exactly when the token was cached (`Sessions.AmbivalentLogout`).
  With fresh tokens this is the only way a lookup can differ from the query
  (`Sessions.CacheDiffersExactly`).
- A lookup in flight during a logout can put the token back (`SessionRaces.TokenCanOutliveLogout`);
  `SessionRaces.LateAcceptanceIsBounded` bounds this. `SessionLogout.LaterLookupsExactly` and
  `SessionLogout.LogoutIsFinalExactly` say exactly in which states a later lookup, or any lookup,
  can still accept the token.
- A job triggered after `Wait` has returned is live while both databases close
  (`Shutdown.LateTriggerOutlivesDatabases`). No goroutine is live from then on if and only if none
  is triggered (`Shutdown.NothingSpawnsAfterWait`).
- A backup that fails after its file was created can cost good ones. If it takes its file away, it
  loses the backup of the same suffix and day; if it leaves a part of it (the removal fails, or the
  process is killed), the part displaces the newest backup and counts as a backup from then on, so
  three such parts push a good backup out at the next cleanup
  (`BackupHistory.GoodBackupCanBePushedOut`). `BackupHistory.FailureKeepsExactly` is the exact
  condition for one failing run, `BackupHistory.NewestBackupSurvives` for a history, and
  `BackupHistory.CleanupDropsExactly` for a cleanup.

## Model

| member | source | states |
|---|---|---|
| JobTables.Repository.EnqueueJob | core/worker/repository.go:32-42 | a fresh id becomes a pending row with 0 attempts; a taken id changes nothing; success is reported exactly when the row is known to be in |
| JobTables.Repository.ClaimPending | core/worker/repository.go:44-66 | every pending row becomes running in one step and is returned once, with the contents it had; an error returns none of them although the rows may be running |
| JobTables.Repository.CompleteJob | core/worker/repository.go:68-98 | the history row and the removal from the queue happen together or not at all, and are refused by an existing history row |
| JobTables.Repository.RetryJob | core/worker/repository.go:100-104 | the row with the id, if there is one, becomes pending with the new attempts; nothing else changes |
| JobTables.Repository.BuryJob | core/worker/repository.go:106-138 | the graveyard row and the removal from the queue happen together or not at all, and are refused by an existing graveyard row |
| JobTables.Repository.ResetOrphaned | core/worker/repository.go:140-147 | every running row becomes pending and keeps its attempts; the number of such rows is returned |
| WorkerRuntime.Runtime.Enqueue | core/worker/worker.go:154-160 | an unknown name or a payload that cannot be encoded changes nothing and is reported; otherwise the row goes in as the repository says |
| WorkerRuntime.Runtime.ExecuteQueued | core/worker/worker.go:210-271 | exactly one outcome write per record; once it is in, an unknown name or undecodable payload is buried with that error and its attempts unchanged, a success is in the history, and a failure is pending again while attempts are left and buried with its error otherwise; no other id moves, and a lost write changes nothing |
| WorkerProtocol.OutcomeOfRow | core/worker/worker.go:210-271 | the write an executor chooses is never refused and leaves the job where its name, payload, outcome and attempts say, on the tables alone, and no other job anywhere else |
| WorkerRuntime.Runtime.ProcessQueue | core/worker/worker.go:194-208 | one poll with executors in turn, for any fate of the claim and of each outcome: every pending row is claimed and run once, those whose outcome lands move to the one place it calls for, the others stay running; a claim that reports an error runs none; interleaved executors are in `WorkerProtocol` |
| WorkerRuntime.RoundMeans | core/worker/worker.go:194-271 | after a round each id is where it must be: a settled pending row where its own outcome puts it, other pending rows running, all else unchanged |
| WorkerRuntime.RoundStep | core/worker/worker.go:194-208 | settling one more claimed row of a round is never refused and moves that row only |
| WorkerRuntime.ResetTablesWait | core/worker/worker.go:112-132 | after a restart's reset, in every reachable state, all rows are pending with fewer than `maxAttempts` attempts |
| WorkerRuntime.RoundsEmptyTheQueue | core/worker/worker.go:194-271 | `maxAttempts` rounds empty the queue whatever the handlers do, and every id ends in the history or the graveyard |
| WorkerInvariant.SettleMeetsNoKey | core/worker/repository.go:68-138 | under the invariant no outcome write meets the primary key of the table it inserts into |
| WorkerInvariant.PollExclusive | core/worker/worker.go:194-208 | a poll gives new executors only rows that no executor holds |
| WorkerInvariant.StepKeeps | core/worker/worker.go:178-271 | every step of the protocol keeps conservation, exclusive ownership, the attempt bounds and the accounting of calls |
| WorkerTheorems.ExclusiveOwnership | core/worker/worker.go:178-271 | in every reachable state each executor's record equals a running row and no two executors hold one id, so calls of `Run` for one id never overlap |
| WorkerTheorems.Conservation | core/worker/repository.go:68-138 | in every reachable state the accepted ids are split between queue, history and graveyard, each row with the name and payload that were enqueued |
| WorkerTheorems.FinishedRowsAreFinal | core/worker/repository.go:68-138 | no later step changes or removes a history or graveyard row, or forgets an accepted job |
| WorkerTheorems.OutcomeIsNeverRejected | core/worker/worker.go:240-270 | in every reachable state the write an executor is due to make succeeds if the database takes it |
| WorkerTheorems.CallsAreAccountedFor | core/worker/worker.go:240-270 | started calls of an id are its recorded attempts, plus one if a call is in progress, plus calls whose outcome was lost; a history row implies a success, an exhausted one at least `maxAttempts` failures |
| WorkerTheorems.AttemptBounds | core/worker/worker.go:210-270 | queue attempts are 0 to max-1, history attempts 1 to max, and a graveyard row has max attempts exactly when it was buried for exhaustion |
| WorkerTheorems.BuriedJobMayHaveSucceeded | core/worker/worker.go:240-270 | a run with `maxAttempts` 1 in which a job succeeds, its outcome is lost, it runs again, fails and is buried |
| WorkerCauses.EnqueuedWaits | core/worker/repository.go:32-42 | an enqueue that takes effect adds a pending row without attempts and changes nothing else |
| WorkerCauses.WaitingRowsAreClaimed | core/worker/worker.go:194-208 | a poll that reports success marks every pending row running and gives it an executor with its name, payload and attempts |
| WorkerCauses.StartsExactly | core/worker/worker.go:210-240 | a claimed job can be run exactly when its name is registered and its payload decodes |
| WorkerCauses.OnlyRunnableJobsRun | core/worker/worker.go:210-240 | in every reachable state `Run` has been called only on registered jobs whose payload decodes |
| WorkerCauses.SettleEndsAt | core/worker/worker.go:210-271 | in every reachable state an outcome write that lands puts its job where the outcome belongs and moves no other; a lost one moves nothing |
| WorkerCauses.FailureLeavesExactly | core/worker/worker.go:258-270 | in every reachable state a job whose call failed leaves the queue if and only if that was attempt `maxAttempts`; else it is pending with one attempt more |
| WorkerCauses.LeavesOnlyBySettling | core/worker/worker.go:210-270 | no step but the outcome write of its own executor takes a row out of the queue: after a success, after the last attempt, or because it may not be run |
| WorkerCauses.FinishedForAReason | core/worker/worker.go:210-270 | in every reachable state an accepted job that is not in the queue has succeeded, or was buried as unknown, or for a payload that does not decode with the decoder's error, or after `maxAttempts` failures |
| WorkerSuccess.StepKeepsSuccess | core/worker/worker.go:178-271 | every step keeps: successful calls of an id are those recorded in the history, lost, or not yet settled |
| WorkerSuccess.ExactlyOnce | core/worker/worker.go:240-270 | in every reachable state a completed id succeeded once, and a buried one never, if and only if no success of it was lost; and `Run` was called as often as the row says if and only if no outcome was lost |
| WorkerSuccess.ExactlyOnceWithoutLoss | core/worker/worker.go:240-270 | without a lost outcome, a completed id succeeded once after `attempts - 1` failures, and an exhausted one failed `maxAttempts` times and never succeeded |
| WorkerDrain.HealthyStepLowers | core/worker/worker.go:194-271 | every claim that finds a row, start, finish and outcome lowers the measure |
| WorkerDrain.HealthyRunsAreBounded | core/worker/worker.go:194-271 | in any interleaving a healthy worker with no new jobs takes at most as many steps as the measure |
| WorkerOrphans.LostOutcomeStrands | core/worker/worker.go:240-270 | an executor that ends leaves its row running and nobody's if and only if its outcome write is lost |
| WorkerOrphans.LostClaimStrands | core/worker/worker.go:194-208 | a poll leaves a pending row running and nobody's if and only if the claim takes effect but reports an error |
| WorkerOrphans.HealthyStepKeepsOrphans | core/worker/worker.go:194-271 | no healthy step makes such a row, clears one or changes one |
| WorkerOrphans.NonEmptyQueueCanMove | core/worker/worker.go:178-208 | while the queue holds any other row, a polling worker has a step to take |
| WorkerOrphans.QueueDrains | core/worker/worker.go:178-271 | a healthy run that can go no further has no executor left, and its queue holds exactly the rows that were running and nobody's at its start, unchanged; it is empty if and only if there were none |
| WorkerOrphans.RestartDrains | core/worker/worker.go:178-271 | from any state a dead process left behind, once the reset lands, a healthy run that can go no further has emptied the queue |
| Shutdown.DrainedBeforeDatabasesClose | core/worker/worker.go:136-151 | the wait group equals the live goroutines; once `Wait` has returned no scheduled job, poll loop or executor is live |
| Shutdown.NothingSpawnsAfterWait | core/app/lifecycle.go:126-140 | once `Wait` has returned, no goroutine is live at any later moment, so both databases close after the last one, if and only if no job is triggered |
| Shutdown.CloseCanFinish | core/worker/worker.go:136-151 | from every state in which it waits, `Close` is let through once the remaining goroutines return |
| Shutdown.LateTriggerOutlivesDatabases | core/worker/worker.go:163-176 | a job triggered after `Wait` returned is live while both databases are closed |
| MigrationFiles.ParseIsExact | core/db/migrate/migrate.go:247-271 | a name parses to a sequence exactly when it has no slash and is four characters that `Atoi` takes for that positive number, an underscore, a slug and `.sql` |
| MigrationFiles.PaddedNameParses | core/db/migrate/migrate.go:247-271 | for every k in 1..9999 and non-empty slash-free slug, the zero-padded name parses back to k |
| MigrationFiles.DigitNameParses | core/db/migrate/migrate.go:247-271 | four decimal digits are read with the most significant first |
| MigrationFiles.AtoiIsExact | core/db/migrate/migrate.go:265-268 | the number is an optional sign and at least one decimal digit |
| MigrationFiles.SignedNameParses | core/db/migrate/migrate.go:247-271 | a plus sign and three digits parse too; a minus sign never does |
| MigrationFiles.LoadEntries | core/db/migrate/migrate.go:183-220 | succeeds exactly when every entry whose name does not start with a dot has a file; the files are exactly those of such entries, each with its name, contents, the hash of the contents and the sequence of its name; an error names the first entry that blocks and why |
| MigrationFiles.CheckNumbering | core/db/migrate/migrate.go:230-244 | accepts exactly the lists whose i-th file has sequence i + 1; otherwise names a shared or the first missing sequence |
| MigrationFiles.ReadMigrationFiles | core/db/migrate/migrate.go:165-245 | succeeds exactly when all entries are usable and their sequences are a permutation of 1..n; the files come out numbered, one for each entry not hidden, with that entry's name and contents and their hash; each error is justified |
| MigrationFiles.ReadIsDetermined | core/db/migrate/migrate.go:165-245 | a listing has at most one result of that kind |
| MigrationFiles.AcceptanceIgnoresOrder | core/db/migrate/migrate.go:165-245 | a listing is accepted if and only if any rearrangement of it is |
| MigrationFiles.DiscoveryIgnoresOrder | core/db/migrate/migrate.go:222-244 | the result does not depend on the order of the directory listing or on how the sort breaks ties |
| Migrations.ValidateApplied | core/db/migrate/migrate.go:385-410 | accepts exactly the tables whose keys are 1..m, and otherwise names the first gap |
| Migrations.PlanFiles | core/db/migrate/migrate.go:341-368 | the loop over the files accepts exactly when every file with a row has its name and checksum, and collects the files without one; the error is that of the first file that differs |
| Migrations.ValidateMigrations | core/db/migrate/migrate.go:333-383 | accepts exactly when the keys are 1..m, every file with a row has its name and checksum, and every row a file, whatever the order of map iteration; each error is justified by what was checked before it |
| Migrations.ValidationIsExact | core/db/migrate/migrate.go:333-410 | for numbered files, acceptance means the table is a matching prefix of them, and the plan is then exactly the rest |
| Migrations.EditIsCaught | core/db/migrate/migrate.go:333-383 | when a migration's contents change in a directory that was accepted and no two contents have one checksum, the directory stays accepted if and only if that migration is not applied; else the only possible error is its checksum mismatch |
| MigrationApply.Connection.ApplyPlan | core/db/migrate/migrate.go:121-163 | all of the plan or none of it: the new database is the committed transaction's or the old one |
| MigrationApply.TransactionExactly | core/db/migrate/migrate.go:121-163 | the transaction ends in a given database if and only if no file of the plan is recorded or named twice, each file's SQL runs on what the last one left, and the rows are the old ones and one for each file |
| MigrationApply.ApplyMeans | core/db/migrate/migrate.go:121-163 | success is reported exactly when the plan can be applied and the commit reports success, and then all of it is there; otherwise nothing changes, but for a commit that took effect and reported an error |
| MigrationApply.FreshPlanExtends | core/db/migrate/migrate.go:121-163 | a plan that continues the table commits exactly when its SQL runs, and then appends exactly its records in order |
| MigrationApply.StalePlanRollsBack | core/db/migrate/migrate.go:431-451 | a plan whose first sequence is recorded already is rolled back whole |
| MigrationApply.RevalidationIsEmpty | core/db/migrate/migrate.go:61-103 | validating the same files after a commit gives an empty plan |
| MigrationApply.StagedEqualsWhole | core/db/migrate/migrate.go:121-163 | from a table that holds any prefix of the files, migrating to a longer prefix and then to the whole list succeeds exactly when migrating at once does, with the same schema and the same records |
| Migrators.StalePlanIsHarmless | core/db/migrate/migrate.go:121-163 | a process that validated against fewer rows than there are now changes nothing and gets an error |
| Migrators.CommitMatchesWholeList | core/db/migrate/migrate.go:121-163 | a plan that commits was made from all the rows, and the table afterwards is that process's whole list |
| Migrators.TableHasNoGap | core/db/migrate/migrate.go:61-163 | whatever any number of processes do, the table holds exactly 1..n and the schema is what the n committed files give when each runs once in order |
| Migrators.CommittedOnce | core/db/migrate/migrate.go:431-451 | a committed sequence is never committed again and keeps its name and checksum |
| Cache.TtlCache.Get | core/cache/cache.go:39-62 | finds the value exactly when the entry is there and the TTL is not positive or its expiry not past at the first reading; the entry goes exactly when it is past at both, and no other changes |
| Cache.TtlCache.Set | core/cache/cache.go:65-75 | the key gets the value, to expire a TTL after now if the TTL is positive; other keys stay |
| Cache.SetThenGet | core/cache/cache.go:39-75 | a value is found up to a TTL after it was set and not a moment more, and always without a TTL |
| CacheRaces.SoloGet | core/cache/cache.go:39-62 | the locked steps of one `Get`, with time passing between them, give the result and the entries of the object's `Get` |
| CacheRaces.WritesTakeEffect | core/cache/cache.go:65-89 | each interleaved write does to the entries what the object's does, and no other step adds or changes an entry |
| CacheRaces.StepKeeps | core/cache/cache.go:39-89 | every step keeps the entries equal to the last write per key and the live entries equal to those of a cache that never deletes lazily |
| CacheRaces.HitsAreCurrent | core/cache/cache.go:39-62 | in every interleaving a hit is the last value written before its read lock, not stale at the read or at the check |
| CacheRaces.MissesAreExact | core/cache/cache.go:39-62 | a finished `Get` misses exactly when the entry it read was missing or stale when its age was checked |
| CacheRaces.GetRemovesNothingLive | core/cache/cache.go:39-62 | no step of a `Get` changes what is live, so a racing refresh survives its deletion |
| CacheRaces.LazyDeletionIsInvisible | core/cache/cache.go:39-89 | at every moment of every run the live entries are those of a cache without lazy deletion |
| CacheRaces.MissMayBeSpurious | core/cache/cache.go:39-62 | a run in which a key is live throughout a `Get` that misses it |
| Sessions.Service.Authenticate | app/services/auth/service.go:63-108 | each failure by its own error and without a change, in order: the credentials query, unknown user or wrong password alike, the token; then exactly one session row, expiring a session TTL later, reported only if it is known to be in |
| Sessions.Service.Logout | app/services/auth/service.go:111-121 | the row goes first and the cached user only if the delete reported success |
| Sessions.Service.UserForToken | app/services/auth/service.go:124-156 | the result and the new cache of a lookup, for any cache contents, clock readings and failing queries; if the cache agrees on the token, an accepted user is that of an unexpired row, with the row's id, that id's name, and a permission exactly when a mask listed for the id has it, and with healthy queries the token is refused exactly when there is no such row |
| Sessions.LookupMeans | app/services/auth/service.go:124-156 | the same for the answer on values, and when a lookup fails for a query |
| Sessions.LookupStores | app/services/auth/service.go:124-156 | a lookup changes no other entry; an answer from the cache leaves its entry, one from the tables is stored for a TTL with its session's expiry, and an error adds nothing |
| Sessions.LookupInEveryHistory | app/services/auth/service.go:63-156 | after any operations without an effective but failed delete, a healthy lookup accepts exactly the tokens with an unexpired row, each as that row's user |
| Sessions.LoginMeans | app/services/auth/service.go:63-108 | after a login took effect the token is good for its user until the session expires, and not after |
| Sessions.LogoutIsFinal | app/services/auth/service.go:111-121 | after a logout that reported success no lookup accepts the token, whatever follows, unless it is drawn again |
| Sessions.LookupIsTransparent | app/services/auth/service.go:124-156 | if the cache agrees on the token a lookup returns nothing but what the tables give, and exactly that if no query fails |
| Sessions.AmbivalentLogout | app/services/auth/service.go:111-121 | a logout with an effective but failed delete breaks the agreement exactly when the token was cached |
| Sessions.AgreementHolds | app/services/auth/service.go:63-156 | the cache agrees with the table after any operations without such a logout |
| Sessions.CacheIsTransparent | app/repositories/auth/queries/find_session_user.sql:1-4 | after any logins, logouts and lookups, for any TTL and any `now`, a healthy lookup returns exactly what the uncached query returns |
| Sessions.CacheDiffersExactly | app/services/auth/service.go:63-156 | after any operations with fresh tokens and any failures, a healthy lookup differs from the uncached query if and only if it hits the cache and a logout had deleted the row although it reported an error |
| Sessions.AmbiguousLogoutKeepsUser | app/services/auth/service.go:111-121 | an ambiguous logout after which the cached user is still returned and the query finds none |
| SessionRaces.LateAcceptanceIsBounded | app/services/auth/service.go:111-156 | a token accepted by a lookup begun after its logout returned came from a cache entry read before the delete and stored after the removal; before the session's expiry, and at most a positive TTL after that store |
| SessionLogout.LaterLookupsExactly | app/services/auth/service.go:111-156 | once the row is deleted, some continuation has a lookup yet to begin accept the token if and only if the cache still lets one in or a lookup in flight carries its unexpired session |
| SessionLogout.LogoutIsFinalExactly | app/services/auth/service.go:111-156 | once the row is deleted, some continuation has any lookup accept the token once more if and only if the cache lets one in, a lookup carries the row, or one has or is about to read an entry that it will not refuse |
| SessionRaces.TokenCanOutliveLogout | app/services/auth/service.go:124-156 | a run in which a lookup in flight puts the token back and a later one accepts it |
| SessionLogout.LogoutInEveryRun | app/services/auth/service.go:111-156 | both equivalences in every state of every run |
| Calendar.YearStartIsClosed | app/jobs/backup/service.go:215-220 | days before a year in the proleptic Gregorian calendar, which `time.Parse` follows |
| Calendar.MonthStartIsClosed | app/jobs/backup/service.go:215-220 | days of a year before a month, in closed form |
| Calendar.LaterDateHasLaterNumber | app/jobs/backup/service.go:215-220 | comparing midnights compares dates, leap years included |
| Calendar.DateRoundTrip | app/jobs/backup/service.go:42-43 | the eight digits of a valid date parse back to it |
| Calendar.DateIsWritten | app/jobs/backup/service.go:42-43 | four digits of the year, two of the month, two of the day, most significant first |
| BackupFiles.MatchIsExact | app/jobs/backup/service.go:19-20 | the pattern matches exactly `backup_`, eight digits, `_daily` or `_weekly`, and `.zip` |
| BackupFiles.NameIsZipName | app/jobs/backup/service.go:19-43 | a name has a suffix and a valid date exactly when it is the name a backup of that suffix and date gets |
| BackupDirectory.BackupDir.PruneByDate | app/jobs/backup/service.go:191-231 | removes exactly the suffix's backups dated before the cutoff, except those whose removal fails, and counts them |
| BackupDirectory.BackupDir.ListBackupsBySuffix | app/jobs/backup/service.go:300-335 | every validly dated backup of the suffix once, in rising order of date, though the sort is not stable; nothing for a missing directory, an error for an unreadable one |
| BackupDirectory.BackupDir.PruneByCount | app/jobs/backup/service.go:235-257 | removes exactly the backups that `keep` others of the suffix are newer than, except those whose removal fails, and counts them |
| BackupDirectory.BackupDir.DeleteStrayFiles | app/jobs/backup/service.go:261-291 | removes exactly the files that do not match the pattern, except those whose removal fails, and counts them |
| BackupDirectory.BackupDir.CreateBackup | app/jobs/backup/service.go:34-104 | touches only the file it names, by how far it got: untouched if a snapshot or the opening fails, removed or partial if the zipping or the closing fails, else whole; the error names the part that failed |
| BackupDirectory.BackupDir.Run | app/jobs/backup/backup.go:25-55 | an unknown suffix, failed snapshots and a failed opening change nothing; a later failure takes the new file away or leaves a part; after a success the whole backup is there and of all files exactly the backups of the suffix go whose midnight is more than 4 days (daily) or 28 days (weekly) before, unless the listing or the removal fails; the error tells which part failed |
| BackupFiles.RunMeans | app/jobs/backup/backup.go:25-101 | the same for what a run leaves as a value, with the ages as numbers of days |
| BackupDirectory.BackupDir.Cleanup | app/jobs/backup/backup.go:61-88 | the three passes in order, ending at the first listing that fails |
| BackupCleanup.CleanupMeans | app/jobs/backup/backup.go:61-88 | file by file, for any failing listings and removals: a file goes if and only if its name is no backup's, or it is a backup and files of three later days of its suffix are there, and the listings up to its pass and its own removal succeed |
| BackupRanks.KeepStandsBehind | app/jobs/backup/service.go:235-257 | behind a backup in excess stand exactly `keep` that are not |
| BackupRanks.PartOfExcess | app/jobs/backup/service.go:235-257 | when only some of the excess could be removed, the rest and nothing else is still in excess |
| BackupCleanup.CleanupIsExact | app/jobs/backup/backup.go:61-88 | without failures a cleanup removes all and only the stray files and, per suffix, all but the three newest validly dated backups |
| BackupCleanup.CleanupKeepsNewest | app/jobs/backup/service.go:235-257 | afterwards a suffix has as many backups as the cap allows, and no deleted date is as late as a kept one |
| BackupCleanup.CleanupLeavesAlone | app/jobs/backup/service.go:261-335 | directories, and matching names with impossible dates, stay whatever happens |
| BackupCleanup.CleanupConverges | app/jobs/backup/backup.go:61-88 | a clean pass after one in which any listings or removals failed gives what one clean pass gives |
| BackupCleanup.CleanupIsIdempotent | app/jobs/backup/backup.go:61-88 | after a clean pass nothing is due |
| BackupHistory.RunKeepsOthers | app/jobs/backup/service.go:191-231 | a run of one suffix changes no name that is not a backup of that suffix |
| BackupHistory.FailureKeepsExactly | app/jobs/backup/service.go:90-101 | a failing run leaves a suffix's newest backup the newest, with its contents, if and only if it is of the other suffix, made no file, removed a file of another day, or left a part dated earlier (or the same contents again) |
| BackupHistory.SuccessIsNewest | app/jobs/backup/backup.go:25-55 | a successful run makes the newest backup of its suffix and does not prune it, if it took less than three days |
| BackupHistory.NewestBackupSurvives | app/jobs/backup/backup.go:25-88 | throughout a history of runs and cleanups, with any failures, the newest backup of a suffix is the one its last successful run wrote, with its contents (or the newest from before), if and only if each failing run meets that condition for what was then the last good backup |
| BackupHistory.CleanupDropsExactly | app/jobs/backup/service.go:235-257 | a cleanup drops a backup if and only if three of its suffix are newer, whole or not |
| BackupHistory.PartialsPushOutGood | app/jobs/backup/service.go:90-101 | three runs of later days that leave a part of their file make the next cleanup delete the last good backup |
| BackupHistory.GoodBackupCanBePushedOut | app/jobs/backup/service.go:90-101 | such a directory, with dates, before and after |
| BackupRaces.StepKeeps | app/jobs/backup/service.go:34-335 | every listing, write and removal of any number of overlapping passes keeps: lists of names to remove hold only past days older than the good backup, the file being made is there, and only unfinished files are newer than the good backup |
| BackupRaces.FinishedBackupSurvives | app/jobs/backup/service.go:34-335 | in every interleaving in which no cleanup lists a suffix while three unfinished files are newer: the backup of the suffix recorded as finished last, unless its file has been opened again since, is in the directory with its contents, and only unfinished files are newer |
| BackupRaces.FinishedStays | app/jobs/backup/service.go:34-335 | a backup that a run finishes stays in the directory with its contents along every such interleaving, until a run of its suffix finishes another or opens the same file again |
| BackupRaces.CleanupCondemnsExactly | app/jobs/backup/service.go:235-257 | a cleanup puts the good backup on its list if and only if three unfinished files are newer, and can then remove it |
| BackupRaces.TidyIsCalm | app/jobs/backup/service.go:90-101 | as long as failing runs take their files away, no cleanup does |
| Regions.RewriteMarkedSource | cmd/kumacore/internal/initcmd/write.go:419-446 | the regions are replaced in order up to the first error, then marker lines go, then the rename runs |
| Regions.StripScaffoldMarkers | cmd/kumacore/internal/initcmd/write.go:499-513 | the lines that, trimmed, do not start with a marker, in order |
| Regions.MarkerLineExactly | cmd/kumacore/internal/initcmd/write.go:499-513 | a marker line is white space, the lead of a marker, and text that is not all white space |
| Regions.DropMarkersExactly | cmd/kumacore/internal/initcmd/write.go:499-513 | each line goes or stays by itself, and those that stay keep their order |
| Regions.ReplacementSucceedsExactly | cmd/kumacore/internal/initcmd/write.go:472-497 | the splice succeeds exactly when each marker stands in one place, the end marker not before the begin marker |
| Regions.ReplacementFailsExactly | cmd/kumacore/internal/initcmd/write.go:472-497 | which error is reported, by the occurrences of the markers, in the order of the checks |
| Regions.ReplacementAt | cmd/kumacore/internal/initcmd/write.go:472-497 | when each marker stands in one place, the text up to the begin marker, a newline, the content and the text from the end marker; or an error if the end marker comes first |
| Regions.SectionLinesAreTerminated | cmd/kumacore/internal/initcmd/render.go:153-159 | section content is empty or ends every line with a newline |
| Regions.SpliceEditsLines | cmd/kumacore/internal/initcmd/write.go:472-497 | the splice at byte positions keeps the lines around the region and puts the content between its two marker lines |
| Documents.SpliceFills | cmd/kumacore/internal/initcmd/write.go:472-497 | replacing a section in the text of a document fills its region and changes nothing else |
| Documents.ReplacementsCommute | cmd/kumacore/internal/initcmd/write.go:419-446 | replacing two regions gives the same text in either order |
| Documents.ReplacementIsIdempotent | cmd/kumacore/internal/initcmd/write.go:472-497 | replacing a region again with the same content changes nothing |
| Documents.RewritingRefinesLineEditing | cmd/kumacore/internal/initcmd/write.go:419-446 | replacing all regions and stripping markers is line editing: the lines outside in order, each region's lines replaced by its content, no marker lines; text after a begin marker or before an end marker is allowed |
| MarkerNames.ScaffoldedIsMarked | cmd/kumacore/internal/initcmd/write.go:367-417 | when each marker stands alone on its line, no section's name is a prefix of another's and there are no other markers, every section has its own region |
| MarkerNames.ScaffoldedRewriting | cmd/kumacore/internal/initcmd/write.go:419-446 | of any source whose lines are such a file, rewriting leaves exactly the lines outside the regions in order, with each region's lines replaced by its content |

## Left out

- Registration of jobs: `Runtime` has the set of registered names.
- HTTP routing, handlers, middleware, templates, static files, configuration and the module registry: no unbounded property worth a proof.
- `core/render`: a memo over templates that cannot be seen; easier than the session cache.
- SQLite itself, snapshots, zip writing, directory walking and file writes: fallible atomic steps with their result as a parameter.
- Cryptography, UUIDs and JSON: parameters (`hashToken`, `hash`, `decodeError`); nothing is proved about them.
- The comparison of passwords: `Authenticate` takes the user whose password matched.
- Scheduled jobs and their tickers: counted in `Shutdown`, and taken as arbitrary passes in `BackupHistory` and `BackupRaces`.
- Two runs of one backup suffix at once, which a hand-triggered job could start: they would write one file.
- The order in which one cleanup's three listings follow each other in `BackupRaces`: listings come at any time, which allows more.
- `app/jobs/logging`: a simpler copy of pruning by date.
- The rename of import paths and the configuration defaults in the scaffolder: `RewriteMarkedSource` takes the rename as a function; the literal lines that `render.go` produces are the sections' content.
- The checks of arguments in `Validate` and `ApplyPlan` (missing dialect, backend, directory) and the SQL errors while loading the table: single branches before the part that is modelled.
- Integer overflow: attempts, sequences of four characters and counts of files stay far below the width of `int`.
- File names and source text are sequences of characters, not bytes; invalid encodings are not modelled.
- Years after 9999: `BackupDir.CreateBackup` takes a valid instant, whose year has four digits.
- `sort.Slice` is represented by any method with its contract; its own algorithm is not.
- Sorting.SortSlice: an insertion sort stands in for the library's; callers use only that it orders and rearranges.
- JobTables.Repository.ClaimPending: rows come back in any order, since SQLite promises none.
- BackupDirectory.BackupDir.ReadNames: the listing may come in any order, although the library sorts it by name.
