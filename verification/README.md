# PoolPay: what the server guarantees

A Dafny model of the stateful parts of the PoolPay backend, with proofs of what they keep true under
concurrency, failure and restarts. `dafny verify dfyconfig.toml` checks the whole project.

PoolPay collects contributions to savings groups. Members send screenshots of bank transfers to a
WhatsApp chat; a bot reads the amount, stores a receipt, and an administrator confirms it into a
payment. The model has eight parts.

* **Refresh-token rotation** (`Refresh*.dfy`). One row per refresh token, rows of one login session in
  one family. A rotation loads the presented row, creates its replacement, and revokes the presented
  row with a compare-and-set; who loses that race deletes the replacement, kills the family and raises
  the user's `token_version`. This is refresh token rotation as in section 4.14.2 of RFC 9700 (the
  comment at `src/auth/refresh.rs:14` says 4.12). `RefreshOrphans.dfy` accounts for every row that is
  not on the path of its family.
* **User versions** (`User*.dfy`). A PATCH decides from a snapshot whether access tokens must die and
  writes later under a version guard, while other writers touch some of the same columns.
* **Sessions** (`Session*.dfy`). Both tables in one run, with one `token_version`: what a disabled
  account, a deleted account, a changed password and a detected reuse end.
* **Retry tracker and poll loop** (`AttemptTracker.dfy`, `RetryTheorems.dfy`, `PollLoop.dfy`). A bounded
  table of failure counters with an inactivity window and least-recently-failed eviction drives a queue
  that redelivers its head until it is deleted.
* **Migrations** (`Migration*.dfy`). Any number of servers, each with its own list of migrations, boot at once.
* **Ledger** (`Ledger*.dfy`). Groups, members, cycles, payments, receipts and chat links, and every
  handler that writes them; `LedgerWitnesses.dfy` holds the runs behind the findings below.
* **Money** (`Money*.dfy`, `AmountPattern.dfy`). Printing kobo, finding an amount in OCR text, normalising it, reading it
  back, and the tolerance test.
* **Ingestion and timestamps** (`Ingestion*.dfy`, `Timestamps.dfy`, `Backfill.dfy`). Duplicate-safe
  ingestion, fixed-width stamps, and the boot-time backfill.

## How concurrency is modelled

In the refresh, user, migration and ingestion parts every database statement is one atomic step. A
call in progress is a program counter with what it has loaded. A run is any finite sequence of steps
of any calls. A statement may be `Answered`, `Refused` (it failed and did nothing) or `Unconfirmed`
(it took effect but the server was told that it failed), and a call may stop for ever at any point.
`*Protocol.dfy` defines the steps, `*Theorems.dfy` proves what holds in every run, and `*Server.dfy`
holds the imperative code: classes whose methods issue the statements one by one, call `Interfere`
between them, and record each step in a `log`. Their `Valid()` says that the log is a run, so every
theorem about runs applies to the tables at every moment of every call.

In the ledger one handler is one atomic step; see "Left out".

`*Answers.dfy` says of every statement and every handler, row by row and column by column, when it
accepts, what it answers otherwise and what it stores, without the functions that the steps are made
of; and it proves what needs these answers, such as that a token is rotated only in time, that servers
of one release can boot at once, and that a stored receipt holds what its lookups found.

Random row ids, tokens and family ids are drawn as names that were not used before. SHA-256 is an
injective constructor. A client presents a token that it was given or a text that is nobody's token,
any number of times.

## Findings

Each comes with a run in which it happens and the exact condition under which it does not.

* The pre-check of `ingest_receipt` skips soft-deleted receipts "so a re-ingestion after admin cleanup
  is not blocked by a tombstone" (`src/routing.rs:86-88`), but the unique index does not:
  `IngestionTheorems.RedeliveryAfterDeletionIsRefused` is a run without failures in which the
  re-ingestion is refused, `IngestionTheorems.TombstonesBlock` proves that a deleted receipt blocks its
  message for good, and `IngestionTheorems.IngestedIffNobodyHasIt` gives the exact condition.
* `find_active_cycle` calls its answer deterministic (`src/routing.rs:66-69`). Nothing makes cycle
  numbers unique, so two active cycles can tie (`LedgerWitnesses.TiesAreReachable`);
  `LedgerTheorems.CycleLookupIsDeterministicUnlessTied` gives the exact condition.
* The total of a cycle is an i64 product that wraps in a release build, and validation bounds no
  contribution from above. `LedgerWitnesses.NegativeTotalsAreReachable` is a run that stores a negative
  total; `LedgerTheorems.TotalIsExactIffItFits` gives the exact condition.
* An edit of a cycle compares its dates only when both are given (`src/api/models.rs:1118-1127`), so
  moving one of them can leave a cycle that ends before it starts
  (`LedgerWitnesses.InvertedDatesAreReachable`); `LedgerTheorems.EditsKeepDatesInOrderIff` gives the
  exact condition.
* A family can hold several live rows (`RefreshOrphans.TwoLiveRowsAreReachable`): a rotation between its
  insert and its compare-and-set leaves two (`RefreshOrphans.RotationInFlightHasTwoLiveRows`), and a
  failed statement can leave one for good. There is at most one once every call that presents a token of
  the family has finished without a failed statement (`RefreshOrphans.OneLiveRowWhenQuiet`), every
  other live row belongs to a call that is at work on it or failed (`RefreshOrphans.OrphansHaveMakers`),
  and always at most one was handed out (`RefreshTheorems.AtMostOneLiveHandedOut`).

## Model

| member | source | states |
|---|---|---|
| RefreshSafety.Step | src/auth/refresh.rs:112-320 | every statement of every call, failed or not, keeps the invariant of the refresh tables: one path per family, only its end live, replacements in flight unlinked and never handed out |
| RefreshTheorems.RunInv | src/auth/refresh.rs:112-320 | the invariant holds in every state of every run |
| RefreshTheorems.AtMostOneLiveHandedOut | src/auth/refresh.rs:112-200 | of two plaintexts of one family in clients' hands, at most one has a live row, at every moment of every interleaving |
| RefreshTheorems.DeadFamilyStaysDead | src/auth/refresh.rs:116-231 | once a family has no live handed-out row it never has one again, not even through a rotation that loaded its row before the revoke |
| RefreshTheorems.OneWinnerPerToken | src/auth/refresh.rs:163-200 | of any number of rotations presenting one token at most one returns Ok |
| RefreshTheorems.ReuseKillsFamily | src/auth/refresh.rs:124-190 | when a rotation without failed statements answers ReuseDetected, the family is dead, the winner's new token included, and token_version is above its value at the start of the call |
| RefreshTheorems.ReplayIsDetected | src/auth/refresh.rs:124-134 | a token already replaced when the call began is never rotated and never answered as unknown or expired |
| RefreshTheorems.UnknownTokenIsNotFound | src/auth/refresh.rs:116-122 | a presented text that was never handed out gets no row, however often it is presented, and no statement of a call that presents it changes the tables |
| RefreshTheorems.LogoutKillsFamily | src/auth/refresh.rs:235-242 | a logout that succeeded leaves the family dead whatever ran beside it |
| RefreshTheorems.UserWideRevokeIsFinal | src/auth/refresh.rs:221-231 | a user-wide revoke kills for the rest of the run every family of the user that had a row |
| RefreshTheorems.FamilyIsOnePath | src/auth/refresh.rs:163-190 | the replaced_by links of a family form one simple path; rows off it were never replaced and are in no client's hands |
| RefreshTheorems.OnlyWinnersJoinThePath | src/auth/refresh.rs:163-170 | a row joins the path only by winning the compare-and-set against the last row of the path, so orphans of lost races lie off it |
| RefreshTheorems.PathOnlyGrows | src/auth/refresh.rs:74-200 | the path of a family starts at the issued row for ever and its links are never undone |
| RefreshTheorems.LinksNeverForkOrDangle | src/auth/refresh.rs:302-320 | a link leads to an existing row of the same family, and no two rows link to the same row |
| RefreshSafety.WinnerIsLive | src/auth/refresh.rs:163-170 | a rotation that wins the compare-and-set leaves with a replacement row that is live at that moment |
| RefreshTheorems.DeadFamilyRotatesNoMore | src/auth/refresh.rs:163-200 | once a family is dead, no unfinished or later rotation returns Ok for it |
| RefreshTheorems.HandedStays | src/auth/refresh.rs:112-320 | a token that was handed out keeps its row, and the row its family and its user |
| RefreshAnswers.LoadAnswers | src/auth/refresh.rs:116-137 | what a load answers for every row: unrevoked and past its expiry Expired, unrevoked and in time on to the insert, replaced on to the reuse response, revoked without successor NotFound, no row NotFound; the tables stay as they are |
| RefreshAnswers.RotatedInTime | src/auth/refresh.rs:135-137 | in every run a rotation that returned Ok loaded an unrevoked row at a time that was not past its expiry |
| RefreshAnswers.ExpiredIsLate | src/auth/refresh.rs:135-137 | in every run Expired is answered only for a token that a client holds, loaded after its expiry |
| RefreshAnswers.LoggedOutTokenIsNotFound | src/auth/refresh.rs:124-134 | in every run a token whose row was revoked without a successor before the call began is never rotated and never taken for theft |
| RefreshAnswers.RowsSettle | src/auth/refresh.rs:112-320 | in every run the dates of a row never change, and a revoked row never changes at all |
| RefreshAnswers.UndisturbedRotationSucceeds | src/auth/refresh.rs:112-200 | from any state, a live token in time and nobody in between: Ok, with exactly the presented row and the new one changed |
| RefreshAnswers.IssueWrites | src/auth/refresh.rs:74-110 | one row with all its columns, and no other row changes |
| RefreshAnswers.CreateWrites | src/auth/refresh.rs:138-161 | one live row for the user and the family of the presented one, and no other row changes |
| RefreshAnswers.SwapWrites | src/auth/refresh.rs:302-320 | wins exactly on an unrevoked row, stamps and links that row only, and hands the new token out exactly when it was told so |
| RefreshAnswers.ReuseWrites | src/auth/refresh.rs:170-190 | the orphan goes, the live rows of this family and no other get the stamp, and token_version of this user rises by one |
| RefreshAnswers.LogoutAnswers | src/auth/refresh.rs:235-242 | a token with a row goes on to the revoke of that family and no other, a text without a row is not found |
| RefreshAnswers.RevokeAllWrites | src/auth/refresh.rs:221-231 | the live rows of the user get the stamp, and nothing else changes |
| RefreshOrphans.StepKeepsAccount | src/auth/refresh.rs:138-190 | every statement keeps the account of rows: each row off the path of its family was made by one call, on a token of that family, which is between insert and clean-up or has a failed statement |
| RefreshOrphans.RunIsAccounted | src/auth/refresh.rs:138-190 | the account of rows holds in every state of every run |
| RefreshOrphans.OrphansHaveMakers | src/auth/refresh.rs:170-186 | the call that made a given row off the path, still at work on it or with a failed statement |
| RefreshOrphans.OrphansAreFew | src/auth/refresh.rs:170-186 | a family has no more rows off its path than calls on it that are at work on a row or failed after making one, so it does not accumulate orphans |
| RefreshOrphans.OneLiveRowWhenQuiet | src/auth/refresh.rs:163-190 | when every call on a family has finished without a failed statement, at most one row of the family is live |
| RefreshOrphans.RotationInFlightHasTwoLiveRows | src/auth/refresh.rs:138-170 | a rotation that has inserted its replacement and whose presented row is live leaves two live rows in the family |
| RefreshOrphans.TwoLiveRowsAreReachable | src/auth/refresh.rs:138-161 | a run of one session and one rotation, without failures, that has two live rows in one family |
| RefreshServer.Server.constructor | src/auth/refresh.rs:329-335 | empty tables are the start of a run; the lifetime of tokens is the configured one if it is positive, else 14 days |
| RefreshServer.Server.Issue | src/auth/refresh.rs:74-110 | a new session hands out a token that was never drawn before, whose row is a live row of the given user in a new family with the hash of the token and the given lifetime; on failure nothing is handed out |
| RefreshServer.Server.Rotate | src/auth/refresh.rs:112-200 | from load to outcome with interference between all statements: Rotated means that the token was loaded unrevoked and not past its expiry, that the new token is handed out and that the presented row is linked to its row; Expired that it was loaded too late; a ReuseDetected without failed statements that the family is dead and token_version raised |
| RefreshServer.Server.Check | src/auth/refresh.rs:116-137 | goes on only with the unrevoked row of the token, loaded not after its expiry; Expired only for an unrevoked row loaded after it |
| RefreshServer.Server.Replace | src/auth/refresh.rs:138-190 | insert, compare-and-set, and what the loser does |
| RefreshServer.Server.LoadByHash | src/auth/refresh.rs:288-300 | finds a row with the hash, or none exists |
| RefreshServer.Server.LoadRow | src/auth/refresh.rs:116-137 | load and pre-checks are one protocol step, whose answers are those of RefreshAnswers.LoadAnswers |
| RefreshServer.Server.CreateReplacement | src/auth/refresh.rs:138-161 | the replacement row, live and with the new lifetime, is inserted under a new id and a new token, before anything is revoked |
| RefreshServer.Server.TryRevokeUnrevoked | src/auth/refresh.rs:302-320 | the compare-and-set hits exactly when the row is still unrevoked, and links it to the replacement |
| RefreshServer.Server.DeleteOrphan | src/auth/refresh.rs:170-186 | the loser of a race deletes its own replacement; a failure is swallowed |
| RefreshServer.Server.HandleReuse | src/auth/refresh.rs:249-277 | family kill, then token_version bump; unless one of them failed, the family is dead and token_version is above its value at the start of the call |
| RefreshServer.Server.KillFamily | src/auth/refresh.rs:249-252 | the family revoke of a detected reuse is one protocol step |
| RefreshServer.Server.BumpStolen | src/auth/refresh.rs:252-255 | the bump of a detected reuse is one protocol step |
| RefreshServer.Server.RevokeFamily | src/auth/refresh.rs:204-214 | exactly the live rows of the family are revoked |
| RefreshServer.Server.RevokeByPresented | src/auth/refresh.rs:235-242 | logout as load then family revoke, with interference in between; LoggedOut means that the family is dead |
| RefreshServer.Server.RevokeLoaded | src/auth/refresh.rs:240-242 | the revoke of a logout is one protocol step |
| RefreshServer.Server.LogoutLoadRow | src/auth/refresh.rs:236-240 | the load of a logout is one protocol step |
| RefreshServer.Server.RevokeAllForUser | src/auth/refresh.rs:221-231 | exactly the live rows of the user get the stamp and every other row stays as it was, or nothing changes and an error is reported |
| UserTheorems.Step | src/api/admin_users.rs:687-889 | every statement of every writer keeps the version invariant, snapshots included |
| UserTheorems.ChangeOfStandingRaisesTokenVersion | src/api/admin_users.rs:720-777 | every step that changes role, status or deleted_at raises token_version, although the flag came from an old snapshot |
| UserTheorems.RowsMoveOn | src/api/admin_users.rs:720-889 | between any two moments of a run no counter of a row falls, and equal token_version means equal role, status and deletion |
| UserTheorems.AcceptedTokenIsCurrent | src/auth/extractors.rs:109-114 | an accepted access token speaks for the row as it is now |
| UserTheorems.ChangedUserRejectsOldTokensForEver | src/auth/extractors.rs:109-114 | a token minted before a change of standing is rejected for the rest of the run, even if the change is undone |
| UserTheorems.OnePatchPerVersion | src/api/admin_users.rs:720-777 | at most one PATCH succeeds against one version of a user |
| UserTheorems.PatchChangesOnlyWhatWasAsked | src/api/admin_users.rs:720-777 | a PATCH that writes role and status from its snapshot still changes only the columns it was asked to change |
| UserTheorems.RevokedGrantRejectsOldTokens | src/api/admin_users.rs:1234-1243 | tokens minted before a grant revoke began are rejected once it succeeded |
| UserTheorems.ChangedPasswordRejectsOldTokens | src/api/auth_endpoints.rs:390-547 | tokens minted before a password change began are rejected once it succeeded |
| UserTheorems.NoBumpIsLost | src/auth/refresh.rs:279-286 | token_version grows by exactly the number of raising statements that took effect, whoever else wrote in between |
| UserAnswers.PatchWrites | src/api/admin_users.rs:720-777 | the guarded write hits exactly the row of that version that is not deleted; the row gets role and status as asked, keeps the rest, version rises by one and token_version by one exactly if role or status changed; no other row changes |
| UserAnswers.PatchedIsAsAsked | src/api/admin_users.rs:720-777 | in every run, when a PATCH answers success the row is as it was asked to be |
| UserAnswers.UndisturbedPatchSucceeds | src/api/admin_users.rs:700-777 | from any state of a run, a PATCH of the current version with nobody in between succeeds and does what was asked |
| UserAnswers.PatchReadAnswers | src/api/admin_users.rs:708-718 | goes on exactly with a row that is there, not deleted and of that version; otherwise not found or conflict |
| UserAnswers.DeleteWrites | src/api/admin_users.rs:851-889 | marks a row that is not marked, raises both counters, and changes nothing else |
| UserAnswers.DropGrantWrites | src/api/admin_users.rs:1180-1212 | one grant goes; a missing one is not found |
| UserAnswers.BumpWrites | src/auth/refresh.rs:279-286 | token_version of one row rises by one; no row, no effect |
| UserAnswers.PasswordAnswers | src/api/auth_endpoints.rs:415-450 | goes on exactly when the account has no password or the right one was given; the three refusals apart |
| UserAnswers.PasswordWrites | src/api/auth_endpoints.rs:549-562 | the new hash is stored and no other column changes |
| UserAnswers.FreshTokenAcceptedIff | src/auth/extractors.rs:100-114 | a token minted now is accepted exactly from an active account that is not deleted |
| UserAnswers.RefusedIff | src/auth/extractors.rs:100-114 | a token is refused exactly when its account is gone, disabled or deleted, or it is not the one that would be minted now |
| UserServer.Server.UpdateAdminUser | src/api/admin_users.rs:687-777 | read, check, guarded write with interference in between; nobody patches themselves; success means that the row has the role and status asked for and the next version |
| UserServer.Server.GuardedUpdate | src/api/admin_users.rs:720-777 | the write happens exactly when the version still is the expected one and the row is not deleted; then the row is as asked and no other row changed |
| UserServer.Server.DeleteAdminUser | src/api/admin_users.rs:851-889 | soft delete of one live row with both counters raised by one, or a refusal |
| UserServer.Server.BumpTokenVersion | src/auth/refresh.rs:279-286 | token_version of one row rises by one; a missing row is no error |
| UserServer.Server.RevokeGroupAdmin | src/api/admin_users.rs:1170-1252 | success means that the grant was gone at a moment of the call and that every token the user had before it is rejected |
| UserServer.Server.DropGrant | src/api/admin_users.rs:1200-1232 | the grant is deleted and nothing else changes; a missing grant is answered as not found |
| UserServer.Server.BumpFor | src/api/admin_users.rs:1234-1243 | the last statement of a grant revoke or a password change raises token_version of the one user; success means that it took effect |
| UserServer.Server.ChangePassword | src/api/auth_endpoints.rs:390-457 | success means that the new hash was written during the call and that every access token the user had before it is rejected; the revocation of refresh tokens is SessionTheorems.PasswordChangeEndsSessions |
| UserServer.Server.WriteAndBump | src/api/auth_endpoints.rs:452-457 | write the hash, then raise token_version, with interference in between |
| SessionTheorems.UsersRun | src/api/auth_endpoints.rs:390-547 | seen from the user table, a joint run is a run of the user part |
| SessionTheorems.TokensRun | src/auth/refresh.rs:112-320 | seen from the refresh table, a joint run is a run of the refresh part |
| SessionTheorems.RunIsCoupled | src/auth/refresh.rs:279-286 | both parts see one token_version column in every state |
| SessionTheorems.RevokeEndsFamilies | src/auth/refresh.rs:221-231 | after a user-wide revoke the family of every token the user had been given before is dead |
| SessionTheorems.StandingChangeEndsSessions | src/api/admin_users.rs:792-899 | after a change of status or a deletion and the user-wide revoke that follows, no access token minted before and no refresh token handed out before is accepted, for ever |
| SessionTheorems.PasswordChangeEndsSessions | src/api/auth_endpoints.rs:452-460 | the same after a password change that reported success, for everything from before the call began, whatever ran beside it |
| SessionTheorems.OldFamiliesRotateNoMore | src/auth/refresh.rs:163-231 | after a user-wide revoke no rotation in an older family of the user returns Ok that had not returned before |
| SessionTheorems.ReuseEndsAccessTokens | src/auth/refresh.rs:249-286 | after a ReuseDetected without failed statements every access token the user had before the call is rejected |
| UserServer.Server.UpdatePasswordHash | src/api/auth_endpoints.rs:549-562 | only the hash of one row changes |
| UserServer.Server.CheckCurrent | src/api/auth_endpoints.rs:390-460 | a password is changed only by who knows the current one, where there is one |
| AttemptTracker.Tracker.constructor | src/poll_retry.rs:102-110 | bounds are clamped to at least two attempts, one second and one entry |
| AttemptTracker.Tracker.WithDefaults | src/poll_retry.rs:112-114 | the tracker of the poll loop allows 3 attempts, 600 seconds of inactivity and 1024 receipts |
| AttemptTracker.Tracker.RecordFailureAt | src/poll_retry.rs:142-178 | the answer and the new counter from the entry of the receipt and the clock: failures ttl or more ago do not count; every other entry that stays is unchanged and inside the window |
| AttemptTracker.Tracker.MakeRoom | src/poll_retry.rs:146-160 | an entry is dropped only for a new receipt in a full table, and it is a least recently failed one |
| AttemptTracker.Tracker.RecordAcked | src/poll_retry.rs:186-193 | the entry of the receipt is gone, the others unchanged |
| AttemptTracker.Tracker.RecordSuccess | src/poll_retry.rs:195-198 | the entry of the receipt is gone, the others unchanged |
| AttemptTracker.Tracker.EvictStaleAt | src/poll_retry.rs:215-225 | an entry stays, unchanged, exactly when it is newer than the clock or less than ttl old |
| AttemptTracker.Tracker.EvictOldest | src/poll_retry.rs:227-236 | one least recently failed entry is dropped |
| RetryTheorems.TableStaysBounded | src/poll_retry.rs:142-236 | for any clock and any calls the table never exceeds its capacity and counters stay in 1..max_attempts |
| RetryTheorems.CountersAreRealFailures | src/poll_retry.rs:142-198 | a counter never exceeds the failures since the receipt was last cleared |
| RetryTheorems.GiveUpMeansBudgetIsSpent | src/poll_retry.rs:162-178 | AckGiveUp implies at least max_attempts failures since the last clear |
| RetryTheorems.UnevictedCounterIsExact | src/poll_retry.rs:142-178 | a receipt that is neither evicted nor cleared has a counter equal to its failures, up to the limit |
| RetryTheorems.UnevictedDecisions | src/poll_retry.rs:142-178 | such a receipt is answered Skip 1, Skip 2, ... and then always AckGiveUp |
| RetryTheorems.LastSeenIsAFailure | src/poll_retry.rs:142-178 | every last_seen is the instant of a real failure of that receipt |
| RetryTheorems.OldestMeansAllFailedSince | src/poll_retry.rs:227-236 | when an entry is the oldest of the table, all the others failed after it |
| RetryTheorems.WorkingSet | src/poll_retry.rs:142-236 | two consecutive failures less than ttl apart, with fewer than capacity other receipts failing in between: the second finds the counter where the first left it |
| RetryTheorems.WorkingSetDecisions | src/poll_retry.rs:142-236 | under the same conditions the answers count up: after Skip(n) comes Skip(n + 1) while the budget lasts, then AckGiveUp, and AckGiveUp again |
| RetryTheorems.StaleStartsAfresh | src/poll_retry.rs:215-225 | two consecutive failures ttl or more apart: the second is answered Skip(1) and leaves a counter of 1 |
| RetryTheorems.FirstFailureIsSkipped | src/poll_retry.rs:142-178 | the first failure of a receipt is answered Skip(1) |
| PollLoop.HandleNotification | src/main.rs:290-351 | a processed notification is deleted exactly when its acknowledgement succeeds; a failed one exactly when besides its counter, with the clock, has used up the budget; after a deletion its entry is gone, and other entries are never changed |
| PollLoop.CounterIsFailedPolls | src/main.rs:290-351 | over any polls the counter is at most the failed polls since the last deletion |
| PollLoop.UnprocessedIsDeletedOnlyAfterBudget | src/main.rs:290-351 | a notification that was never processed is deleted only at its max_attempts-th failure |
| PollLoop.SpendOne | src/main.rs:290-351 | every poll that leaves its notification in the queue: a failed one spends one unit of the budget as far as there is one, one whose acknowledgement alone failed changes nothing |
| PollLoop.Drain | src/main.rs:163-369 | a queue of n notifications that redelivers its head drains in order within n * max_attempts polls, whatever arrives meanwhile |
| MigrationTheorems.Step | src/migrations.rs:81-261 | every step of every boot, failed or not, keeps each boot in order with the table: what it passed is recorded with its checksum |
| MigrationTheorems.RecordedIsAPrefix | src/migrations.rs:81-261 | when the binaries ship prefixes of one append-only list, in every state the records are a prefix of it, each body ran exactly once and in order, and each record has the checksum of the body that ran |
| MigrationTheorems.OkMeansAllRecorded | src/migrations.rs:81-138 | a boot that returned Ok has all its migrations recorded with its own checksums, whatever other binaries ship |
| MigrationTheorems.DivergentBinariesCannotBothSucceed | src/migrations.rs:237-261 | two binaries with different bodies under one name, at any place of their lists, cannot both boot |
| MigrationTheorems.DriftRunsNothing | src/migrations.rs:89-138 | a boot whose snapshot shows a changed checksum runs no body and does not succeed, whatever other binaries ship |
| MigrationTheorems.DriftStopsFirst | src/migrations.rs:116-138 | the loop meets drift in the snapshot before any migration that it would run |
| MigrationTheorems.NextUnrecorded | src/migrations.rs:116-138 | with one append-only list, a claim that wins is for its first unrecorded migration |
| MigrationAnswers.CleanBootsSucceed | src/migrations.rs:81-261 | any number of boots, in any interleaving, each with the first migrations of one list: when nothing fails, every boot that ended succeeded, unless a newer binary had recorded a migration that it does not know |
| MigrationAnswers.EqualBinariesAllSucceed | src/migrations.rs:81-261 | when nothing fails, servers of one release that boot at once all succeed |
| MigrationAnswers.BootsEnd | src/migrations.rs:81-138 | a boot that has not ended can take a step, and every step brings it closer to its end |
| MigrationAnswers.VerifyAnswers | src/migrations.rs:237-261 | the loser of a race goes on exactly when the winner recorded the same body; otherwise drift, or vanished when there is no record |
| MigrationAnswers.ClaimAnswers | src/migrations.rs:187-231 | record and body are there together or not at all, and what each end of the transaction answers |
| MigrationAnswers.PassAnswers | src/migrations.rs:122-138 | a migration of the snapshot is passed over exactly when the recorded body is its own |
| MigrationAnswers.LoadAnswers | src/migrations.rs:268-307 | goes on exactly when the table holds the names of the first migrations of the list and no other |
| MigrationAnswers.BeginAnswers | src/migrations.rs:89-115 | a list is refused exactly when two neighbours are out of order or a body lacks its final semicolon |
| MigrationRunner.Knows | src/migrations.rs:277-283 | whether a name belongs to the list |
| MigrationRunner.FindApplied | src/migrations.rs:122-126 | the applied row of a name, if there is one |
| MigrationRunner.EnforceNoSkipped | src/migrations.rs:268-307 | accepts exactly the applied sets that are prefixes of a strictly sorted list, and names a real offender otherwise |
| MigrationRunner.Database.constructor | src/migrations.rs:145-157 | an empty meta table is the start of a run |
| MigrationRunner.Database.LoadApplied | src/migrations.rs:159-180 | the snapshot lists exactly the recorded rows |
| MigrationRunner.Database.ApplyPending | src/migrations.rs:81-138 | the whole boot of any list is a run of the protocol; Ok means that every migration is recorded with this binary's checksum, and Drift that some migration of the list is recorded with another |
| MigrationRunner.Database.ApplyList | src/migrations.rs:122-138 | the loop over the list is a run of the protocol, and ends in Drift only when some migration of the list is recorded with another checksum |
| MigrationRunner.Database.LoadSnapshot | src/migrations.rs:116-119 | loading the snapshot is one step |
| MigrationRunner.Database.ApplyOne | src/migrations.rs:187-231 | one migration: it goes on only with the record of this body in the table, and ends in Drift only when another body is recorded |
| MigrationRunner.Database.ClaimAndRun | src/migrations.rs:187-231 | claim row and body are committed both or neither; a body that failed leaves no record |
| MigrationRunner.Database.VerifyRacePartner | src/migrations.rs:237-261 | answered, it goes on exactly when the recorded checksum is that of its own body, and ends in Drift exactly when another is recorded |
| LedgerInvariants.Step | src/api/handlers.rs:331-1612 | every handler call keeps referential integrity and conservation |
| LedgerInvariants.DeleteGroupStep | src/api/handlers.rs:392-441 | a group is deleted only when no live member and no cycle refers to it |
| LedgerInvariants.CreateMemberStep | src/api/handlers.rs:445-508 | a new member keeps live phones unique in the group |
| LedgerInvariants.UpdateMemberStep | src/api/handlers.rs:510-576 | an edit keeps live phones unique in the group, and no deleted member is revived or moved |
| LedgerInvariants.CreateCycleStep | src/api/handlers.rs:629-707 | a new cycle has a live group and a recipient of that group |
| LedgerInvariants.UpdateCycleStep | src/api/handlers.rs:709-794 | an edit keeps the recipient in the cycle's group |
| LedgerInvariants.DeleteCycleStep | src/api/handlers.rs:796-827 | a cycle goes only when no live payment refers to it |
| LedgerInvariants.DeletePaymentStep | src/api/handlers.rs:895-949 | deleting payments keeps their correspondence with confirmed receipts |
| LedgerInvariants.ConfirmStep | src/api/handlers.rs:1120-1305 | a confirmation adds one receipt and one payment to the correspondence |
| LedgerInvariants.TransitionStep | src/api/handlers.rs:1368-1427 | rejecting and flagging leave the correspondence alone |
| LedgerInvariants.CreateLinkStep | src/api/handlers.rs:1529-1581 | live chat links stay unique |
| LedgerTheorems.RunInv | src/api/handlers.rs:331-1612 | in every state of every run each live payment's member and cycle exist and share a group, each recipient is in the cycle's group, a deleted group has no live member and no cycle, and live phones and chats are unique |
| LedgerTheorems.TotalsAgree | src/api/handlers.rs:1120-1305 | payments made from receipts, deleted ones included, are as many as confirmed receipts and add up to the same amount |
| LedgerTheorems.OnePaymentPerReceipt | src/api/handlers.rs:1120-1305 | each confirmed receipt has exactly one payment made from its message, with the same member, cycle and amount |
| LedgerTheorems.RecordsAreFinal | src/api/handlers.rs:967-1006 | a receipt that was acted on never changes again, and a payment never disappears, changes its money or loses its deletion mark |
| LedgerTheorems.SettledReceiptsRefuse | src/api/handlers.rs:1136-1152 | such a receipt refuses every later confirm, reject and flag |
| LedgerTheorems.ConfirmMakesTheOnlyPayment | src/api/handlers.rs:1224-1252 | after a confirmation the new payment is the only live one of its member and cycle |
| LedgerTheorems.TotalIsExactIffItFits | src/api/handlers.rs:678-685 | the total of a cycle is contribution times active members exactly when the product fits an i64 |
| LedgerTheorems.LookupsAreDeterministic | src/routing.rs:16-103 | in every state the chat, phone and message lookups have a single possible answer |
| LedgerTheorems.LookupsFindWhatIsLive | src/routing.rs:16-58 | a chat is routed to a live group or to none, and a phone to a live member of a live group |
| LedgerTheorems.CycleLookupIsDeterministicUnlessTied | src/routing.rs:60-84 | the active-cycle lookup has one possible answer exactly when the lowest number is not tied |
| LedgerWitnesses.TiesAreReachable | src/api/handlers.rs:629-794 | a run of six calls that leaves two active cycles with one number |
| LedgerWitnesses.NegativeTotalsAreReachable | src/api/handlers.rs:678-707 | a run of four calls whose last state holds a cycle with a positive contribution and a negative total |
| LedgerWitnesses.InvertedDatesAreReachable | src/api/handlers.rs:709-794 | a run of four calls whose last state holds a cycle that ends before it starts |
| LedgerTheorems.RefusedCallsChangeNothing | src/api/handlers.rs:331-1612 | a call that is refused changes nothing |
| LedgerTheorems.ScopedAdminsStayInTheirGroups | src/auth/extractors.rs:140-158 | whatever a caller who is not a super-admin does, only records of groups in the caller's grants change |
| LedgerTheorems.VersionsRiseInRuns | src/api/handlers.rs:355-627 | a group or member row that changed at all has a higher version |
| LedgerTheorems.StaleEditsAreRefused | src/api/handlers.rs:365-536 | an edit of a group or a member made from a row that has changed since is refused |
| LedgerTheorems.CycleVersionsRiseInRuns | src/api/handlers.rs:709-794 | a cycle that changed at all has a higher version |
| LedgerTheorems.StaleCycleEditsAreRefused | src/api/handlers.rs:724-728 | an edit made from a cycle that has changed or gone since is refused |
| LedgerTheorems.NewCyclesAreInOrder | src/api/models.rs:1029-1055 | a new cycle has readable dates and does not end before it starts |
| LedgerTheorems.EditsKeepDatesInOrderIff | src/api/models.rs:1118-1127 | an edit keeps the dates of a cycle in order exactly when a date given alone fits the stored other one |
| LedgerAnswers.ConfirmAnswers | src/api/handlers.rs:1120-1307 | accepted exactly when the receipt is there, pending, in scope, with member, cycle and amount, the member there and not deleted, the cycle there and of the same group, no live payment of the pair, and the stamp readable; then one payment with the data of the receipt and the caller, the receipt confirmed, and every other row as before |
| LedgerAnswers.TransitionAnswers | src/api/handlers.rs:1368-1427 | accepted exactly for a pending receipt in scope; status, reason and rejected_by as stored, nothing else changed |
| LedgerAnswers.CreatePaymentAnswers | src/api/handlers.rs:831-893 | accepted exactly for a positive amount, readable currency and date, a live member in scope and a cycle of the same group; all columns of the payment |
| LedgerAnswers.DeletePaymentAnswers | src/api/handlers.rs:895-949 | accepted exactly when the pair has a live payment; every such payment and no other gets the mark |
| LedgerAnswers.CreateGroupAnswers | src/api/handlers.rs:331-353 | when a group is accepted, which refusal otherwise, and its columns |
| LedgerAnswers.UpdateGroupAnswers | src/api/handlers.rs:355-390 | when an edit is accepted, which refusal otherwise, and each column asked or unasked |
| LedgerAnswers.DeleteGroupAnswers | src/api/handlers.rs:392-441 | accepted exactly when no live member and no cycle is in the group |
| LedgerAnswers.CreateMemberAnswers | src/api/handlers.rs:445-508 | when a member is accepted, which refusal otherwise, and its columns |
| LedgerAnswers.UpdateMemberAnswers | src/api/handlers.rs:510-576 | when an edit is accepted, which refusal otherwise, and each column asked or unasked |
| LedgerAnswers.DeleteMemberAnswers | src/api/handlers.rs:578-625 | accepted exactly when the member receives no active cycle |
| LedgerAnswers.CreateCycleAnswers | src/api/handlers.rs:629-707 | when a cycle is accepted, which refusal otherwise, its columns, and a total that is contribution times active live members up to a multiple of 2^64 |
| LedgerAnswers.UpdateCycleAnswers | src/api/handlers.rs:709-794 | when an edit is accepted, which refusal otherwise, each column asked or unasked, and the total recomputed exactly when the contribution is given |
| LedgerAnswers.DeleteCycleAnswers | src/api/handlers.rs:796-827 | accepted exactly when no live payment refers to the cycle; only this cycle goes |
| LedgerAnswers.InsertReceiptAnswers | src/ingestion.rs:152-178 | accepted exactly when no receipt, deleted or not, has the message id |
| LedgerAnswers.CreateLinkAnswers | src/api/handlers.rs:1529-1581 | accepted exactly for a chat that is not blank and has no live link, and a live group |
| LedgerAnswers.DeleteLinkAnswers | src/api/handlers.rs:1583-1612 | the mark of the first deletion stays |
| LedgerAnswers.Utf8OfOne | src/api/models.rs:893 | one to four bytes for a character; a name counts the sum |
| LedgerServer.Tables.constructor | src/api/handlers.rs:331-353 | empty tables satisfy both invariants |
| LedgerServer.Tables.CreateGroup | src/api/handlers.rs:331-353 | refused to all but super-admins and for a name that is blank or over 100 UTF-8 bytes; otherwise one new live group with the trimmed name, and nothing else changes |
| LedgerServer.Tables.UpdateGroup | src/api/handlers.rs:355-390 | refused for an invalid patch and on a version mismatch; otherwise only the columns asked for and the version of one group change, and a deletion mark stays |
| LedgerServer.Tables.DeleteGroup | src/api/handlers.rs:392-441 | refused while a live member or any cycle refers to the group; otherwise the group is marked deleted with a higher version |
| LedgerServer.Tables.CreateMember | src/api/handlers.rs:445-508 | refused for a blank name or phone, a position below one or an unreadable date, outside the scope, in a deleted group and for a phone that a live member of the group has; otherwise one new live member |
| LedgerServer.Tables.UpdateMember | src/api/handlers.rs:510-576 | refused for an invalid patch, on a version mismatch and for a phone that another live member of the group has; otherwise only the fields asked for and the version change |
| LedgerServer.Tables.Patched | src/api/handlers.rs:545-570 | the columns written one after the other give the patched member |
| LedgerServer.Tables.DeleteMember | src/api/handlers.rs:578-625 | refused for the recipient of an active cycle; otherwise the member is marked deleted with a higher version |
| LedgerServer.Tables.CreateCycle | src/api/handlers.rs:629-707 | refused for unreadable or inverted dates and unless the recipient is a live member of the live group; otherwise one pending cycle with the total over active members, with the wrap-around of the i64 product |
| LedgerServer.Tables.UpdateCycle | src/api/handlers.rs:709-794 | refused for an invalid patch, on a version mismatch and for a recipient outside the group; otherwise only the columns asked for and the version change, and the total is recomputed only when the contribution is given |
| LedgerServer.Tables.PatchedCycle | src/api/handlers.rs:753-790 | the columns written one after the other give the patched cycle, the total with the contribution |
| LedgerServer.Tables.DeleteCycle | src/api/handlers.rs:796-827 | refused while a live payment refers to the cycle; otherwise exactly this cycle is gone |
| LedgerServer.Tables.CreatePayment | src/api/handlers.rs:831-893 | refused for an amount that is not positive, an unknown currency or an unreadable date, and unless the member is live and shares the group of the cycle; otherwise one new payment without method and reference |
| LedgerServer.Tables.DeletePayment | src/api/handlers.rs:895-949 | refused when there is no live payment of the member in the cycle; otherwise all of them are marked, by whom and when, and nothing else changes |
| LedgerServer.Tables.DeleteRows | src/api/handlers.rs:926-947 | the loop marks every live payment of the member in the cycle and no other row |
| LedgerServer.Tables.ConfirmReceipt | src/api/handlers.rs:1120-1307 | one payment with the data of the receipt together with the confirmed status, exactly when the receipt can be confirmed, or neither: not pending, no member, cycle or amount, deleted member, missing cycle, other group, existing payment or unreadable stamp |
| LedgerServer.Tables.TransitionReceipt | src/api/handlers.rs:1368-1427 | only pending receipts move; the reason is kept when none is given and rejected_by is set by a reject only |
| LedgerServer.Tables.CreateLink | src/api/handlers.rs:1529-1581 | refused for a deleted group and for a chat that a live link has; otherwise one new live link |
| LedgerServer.Tables.DeleteLink | src/api/handlers.rs:1583-1612 | marks the link deleted; deleting twice changes nothing |
| Money.GroupDigits | src/replies.rs:68-75 | the commas put in over reversed digits are groups of three from the right |
| Money.FormatKobo | src/replies.rs:64-79 | the text is sign, naira sign, grouped whole naira, point and two digits, for every i64 |
| Money.GroupedFront | src/replies.rs:68-75 | a digit put in front needs a comma exactly when the first group is full |
| MoneyTheorems.RoundTrip | src/parser.rs:120-157 | every amount from 0 to i64::MAX is read back from its printed form |
| MoneyTheorems.NegativesAreRefused | src/parser.rs:120-128 | no printed negative amount is read back |
| MoneyTheorems.PrintAndRead | src/replies.rs:64-79 | the printing loop and the parser together give back the amount, or None if it was negative |
| MoneyAnswers.ParseAnswers | src/parser.rs:120-157 | for every text: read exactly when it begins with one of the four currency marks and the rest, without white space and commas, is digits with an optional point that fit an i64; the value digit by digit |
| MoneyAnswers.FractionDigitByDigit | src/parser.rs:150-154 | one digit after the point is tens of kobo, two are kobo, the rest is dropped |
| MoneyAnswers.ValueIsPlaceValue | src/parser.rs:149 | the digits read from the left by place value and from the right agree |
| MoneyAnswers.PrintedCharByChar | src/replies.rs:64-79 | sign, naira sign, a comma before every third digit from the right, no leading zero, a point and two digits, at their places in the text |
| AmountPattern.MatchIsAmount | src/parser.rs:7-13 | what is found at a position is a word of the pattern |
| AmountPattern.MatchIsLongest | src/parser.rs:7-13 | no word of the pattern that begins at a position is longer than the one found there, for any class of digits |
| AmountPattern.FindIsLeftmostLongest | src/parser.rs:56 | the extractor finds an amount exactly when the text holds one, the first one, and the longest that begins there |
| AmountPattern.NormalisedShape | src/parser.rs:56-71 | a normalised amount is a naira sign, the digits and commas of the groups, and the fraction |
| AmountPattern.NormaliseIsIdempotent | src/parser.rs:56-71 | normalising again changes nothing, for any text |
| AmountPattern.NormalisedAmountsParse | src/parser.rs:120-157 | a normalised amount is read as exactly the kobo its digits mean, and refused exactly when one of its digits is not ASCII or that number does not fit an i64 |
| AmountPattern.ExtractedAmountIsWhatTheTextSays | src/parser.rs:50-71 | from the text of a receipt to kobo in one statement, digits outside ASCII included |
| MoneyTheorems.ToleranceIsExact | src/ingestion.rs:99-108 | for a read amount and a validated contribution the i64 tolerance test cannot overflow and is the comparison of the integers |
| IngestionProtocol.StripJid | src/ingestion.rs:199-204 | everything before the first @, or the whole text |
| IngestionTheorems.Step | src/ingestion.rs:65-197 | every statement of every ingestion, failed or not, keeps message ids unique and answers truthful |
| IngestionTheorems.IngestedAtMostOnce | src/ingestion.rs:78-178 | a message id has at most one row, and at most one call ever answers Ingested for it |
| IngestionTheorems.CleanCallsAreIngestedOrDuplicate | src/ingestion.rs:71-178 | a completed call without storage errors answers NotLinked exactly when the chat was not linked, and otherwise Ingested or DuplicateMessage with a row to show for it |
| IngestionTheorems.IngestedIffNobodyHasIt | src/ingestion.rs:152-178 | such a call is Ingested exactly when at its last statement no row, live or deleted, has its message id |
| IngestionTheorems.RowsStay | src/ingestion.rs:120-150 | rows and their message ids stay for ever |
| IngestionTheorems.TombstonesBlock | src/routing.rs:84-103 | once a row has the message id, deleted or not, no unfinished or later call is ever Ingested with it |
| IngestionTheorems.RedeliveryAfterDeletionIsRefused | src/routing.rs:84-103 | a run without failures: a message is ingested, its receipt deleted, and the message comes again, passes the duplicate lookup and is refused |
| IngestionTheorems.VerdictIsTheComparison | src/ingestion.rs:99-108 | the stored verdict on the amount is there exactly when both amounts are, and is their comparison |
| IngestionAnswers.StoredRowIsWhatWasFound | src/ingestion.rs:71-178 | in every run, the row that an Ingested call stored holds in each column what was true at some moment of the call: the group the chat was linked to, live; the member with the sender's phone, or nobody; a lowest active cycle and its contribution, or none; and the verdict on the two amounts |
| IngestionAnswers.StoredAmountIsWhatTheTextSays | src/ingestion.rs:99-104 | the stored amount is what the digits of the first amount in the text mean in kobo, or nothing when there is none or it cannot be read |
| IngestionAnswers.RoutingAnswers | src/routing.rs:16-103 | what the lookups of link, group and duplicate answer for every table |
| IngestionAnswers.InsertAnswers | src/ingestion.rs:152-178 | the insert takes effect exactly when no row has the message id, and what it answers otherwise |
| IngestionServer.Intake.constructor | src/ingestion.rs:65-68 | an empty table is the start of a run |
| IngestionServer.Intake.IngestReceipt | src/ingestion.rs:65-197 | the call is a run of the protocol, and Ingested means that its row is there |
| IngestionServer.Intake.Route | src/ingestion.rs:69-87 | group lookup and duplicate lookup, with their early answers |
| IngestionServer.Intake.Attribute | src/ingestion.rs:89-150 | member and cycle lookups and the row made of them |
| IngestionServer.Intake.FindGroupByChatId | src/routing.rs:16-36 | two statements with interference in between; a group comes out only when it is live |
| IngestionServer.Intake.FindLink | src/routing.rs:20-30 | the live link of the chat, one statement |
| IngestionServer.Intake.SelectGroup | src/routing.rs:32-35 | whether the group of the link is live, one statement |
| IngestionServer.Intake.FindReceiptByMessageId | src/routing.rs:89-103 | the duplicate lookup is one statement and sees live rows only |
| IngestionServer.Intake.FindMemberByPhone | src/routing.rs:42-58 | the member lookup is one statement |
| IngestionServer.Intake.FindActiveCycle | src/routing.rs:67-84 | one statement; the answer is an active cycle of the group with the lowest number, any of them when tied, and none only when there is none |
| IngestionServer.Intake.LowestActive | src/routing.rs:67-84 | the search finds a lowest active cycle of the group exactly when the group has an active one |
| IngestionServer.Intake.Create | src/ingestion.rs:152-178 | the insert succeeds only when no row has the message id, and its failures are told apart by their text |
| Timestamps.StampsSortInTime | src/api/models.rs:1220-1222 | stamps sort as strings exactly as the instants sort in time, and equal stamps are equal instants, for years 0000 to 9999 |
| Timestamps.StampsHaveFixedWidth | src/api/models.rs:1201-1222 | every stamp has 24 characters |
| Timestamps.MillisOrder | src/api/models.rs:1220-1222 | comparing calendar fields one after the other is comparing milliseconds |
| Timestamps.FieldOrder | src/api/models.rs:1201-1222 | in fixed-width text the first differing field decides |
| StampAnswers.StampsReadBack | src/api/models.rs:1201-1222 | every instant is read back, field by field, from the places of its stamp |
| StampAnswers.OnlyStampsAreRead | src/api/models.rs:1201-1222 | a text of that form is exactly the stamp of the instant it reads as |
| StampAnswers.DaysInClosedForm | src/api/models.rs:1220-1222 | the days before a year by the Gregorian rule in closed form |
| StampAnswers.EpochDay | src/api/models.rs:1220-1222 | the first of January 1970 is day 719528 |
| Backfill.StampFor | src/db.rs:260-262 | created_at, else received_at, else the clock |
| Backfill.Table.SelectUnstamped | src/db.rs:246-257 | a batch is of distinct unstamped rows, as many as there are up to the limit |
| Backfill.Table.StampBatch | src/db.rs:259-273 | stamps the rows of a batch one by one and stops at the first failure |
| Backfill.Table.BackfillReceiptIngestedAt | src/db.rs:203-282 | exactly min(n, 100000) of n unstamped rows are stamped, one update each, and nothing else changes |
| Backfill.BackfilledRowsQueueByArrival | src/db.rs:166-192 | backfilled stamps sort as the arrival of their rows |
| StampAnswers.BackfilledStampsReadBack | src/db.rs:259-273 | a backfilled stamp reads back as created_at, or if that is unreadable as received_at, or else as the clock; no other column changed |

## Left out

- Handlers run without a transaction in the source, so two handlers can interleave between their reads
  and their writes; the ledger takes each as one step. Lost updates, duplicate phones and duplicate
  payments under such races are therefore outside what is proved.
- A date text is the calendar day it reads as, or unreadable; the checks that ids in a request are not
  blank are left out, since no row has such an id.
- Pagination, listing handlers, `reset_db` and dev fixtures (except the role reconciliation in the user
  part).
- Audit rows and inbox items: best-effort writes whose failure is swallowed.
- `patch_receipt` picks the action and `sanitise_reason` trims and caps the reason; the receipt handlers
  take the reason as it comes out of there.
- HTTP, JSON, axum extractors, rate limiting, CORS, logging, OCR, PDF and Green API calls: their outcomes
  are arbitrary inputs of the model.
- Argon2, RS256 and HMAC; an access token is the pair of user and token_version, and its lifetime is not
  modelled, so tokens die here only through the row.
- `change_password` for an account that has no credentials identity yet: only the user row is modelled,
  not the insertion of the identity.
- Counters `version` and `token_version` are unbounded integers; an i64 would overflow after 2^63 changes.
- Which of several entries with equal last_seen is evicted, and in which order rows of a query arrive, is
  left open, as it is in the source.
- Which characters `\d` matches is a parameter: any set with the ASCII digits and without white space and
  the other characters of the pattern.
- A stored `expires_at` is readable, since only the server writes it; the source takes an unreadable one
  for expired.
- The sender, bank and label patterns of `parse_receipt` and the wording of replies.
- RFC 3339 parsing is foreign code: a stored text is an instant or unreadable. Leap seconds and years
  outside 0000-9999 are left out.
- RefreshTheorems.UserWideRevokeIsFinal: covers families that had a row at the revoke; a session issued at
  the same time survives in the source too.
- RefreshTheorems.ReuseKillsFamily: speaks of calls without failed statements, because the source swallows
  failures of the family kill and of the bump.
- PollLoop.Drain: assumes that acknowledgements succeed and that polls are less than ttl apart; otherwise
  the source makes no promise of draining.
- LedgerTheorems.StaleEditsAreRefused: is about handlers that run one after the other.
- LedgerTheorems.StaleCycleEditsAreRefused: the same, and cycles are deleted for good, so it assumes that
  the database does not draw the id of a deleted cycle again.
- MigrationTheorems.RecordedIsAPrefix: assumes that the binaries ship prefixes of one list; what holds
  without that is `OkMeansAllRecorded`, `DivergentBinariesCannotBothSucceed` and `DriftRunsNothing`.
- SessionTheorems.StandingChangeEndsSessions: speaks of a change whose revoke took effect; when the revoke
  fails the source reports it and the refresh tokens live on.
