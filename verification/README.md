# WILDFIRE: verified model of its protocols and state machines

WILDFIRE is a digital-signage backend: users upload content, arrange it in playlists, schedule it on displays, and
displays fetch what to show. This project models the parts of it that are real protocols or state machines and proves
what they keep over every run.

| area | modules |
|---|---|
| Refresh-token rotation, with and without the session cache | `AuthSessions`, `RefreshDecision`, `RefreshProtocol`, `RefreshInvariants`, `RefreshSteps`, `RefreshRequests`, `RefreshTheorems`, `RefreshAlone`, `RefreshLateFill`, `RefreshTokens` |
| Versioned response cache | `CacheKeys`, `SearchText`, `ResponseCache`, `ServerCacheStore` |
| Display registration attempts (Redis scripts) | `RegistrationStore`, `RegistrationProtocol` |
| Content, playlists, schedules, playback, status | `ScheduleWindows`, `Library`, `PlaylistItems`, `PlaylistOutcomes`, `Schedules`, `ScheduleOutcomes`, `Backend`, `LibraryRuns`, `LibraryExamples`, `ActiveSelection` |
| Deleting everything a user owns | `OwnerCleanup` |
| Content ingestion worker | `IngestionWorker` |
| Worker pool, presigned-URL cache, LIKE patterns, HTML text | `WorkerPool`, `PresignCache`, `LikePatterns`, `HtmlText` |

Protocols are state machines: a `Step` datatype, `Enabled` and `Apply`, and `IsRun` for a sequence of states. Where the
program changes things step by step, a class method with the same branches is proved equal to a specification function.
What that function answers and leaves behind is then stated row by row and column by column (the lemmas named `...Exactly`),
and the theorems over runs are about it.

## Premises

- Random ids, secrets and row ids are new names; a hash stands for exactly one secret.
- Redis scripts, single SQL statements and transactions are atomic. In the refresh protocol and in the response cache
  each awaited call is one step and everything interleaves. Use cases on schedules, playlists and content are one step each.
- One clock, never going back. The caller of a registration script reads it before the script runs.
- Version counters of the response cache are never evicted and increments succeed. Cache keys are built from an
  upper- or lower-case method without `|`, and vary parts without `|` that do not start with `domains:`; paths and query
  parameters are arbitrary. Comparing texts by locale orders them, but may call different texts equal.
- Zoned date and time arrive as a pair of texts of the forms the program validates (`YYYY-MM-DD`, `HH:MM`).
- "A finished schedule is one that will not play again" takes the schedule's last day to be one the clock can show. The domain
  pattern (`src/domain/schedules/schedule.ts:12`) alone would not give that, as `ScheduleWindows.NoSuchDayNeverFinishesInTime`
  shows; the HTTP layer does (`src/interfaces/http/validators/schedules.schema.ts:84`). `ScheduleWindows.PlaysAgainExactly`
  needs no such premise.
- Reading the same file again finds the same length.
- The status of content is set by its creation and by the worker. Updating content takes an optional status
  (`src/application/use-cases/content/update-content.use-case.ts:160-185`), but no caller passes one
  (`src/interfaces/http/routes/content/write.route.ts:308-317`, `src/application/use-cases/ai/ai-tool-executor.ts:348-370`), so it
  is no step of the model.
- Object keys hold no `|`: they are a fixed directory, an id and an extension (`src/domain/content/content.ts:57-80`). Then
  invalidating presigned URLs by key prefix is exact (`PresignCache.InvalidationIsExact`). `BarReachesTooFar` shows why the premise
  is needed, and `InvalidationReachesExactly` says for all keys which entries are reached.
- Every wiring refuses to delete content that a playlist uses. The AI tools build the use case without the playlist count
  (`src/bootstrap/http/modules/ai.ts:186-190`); there the foreign key refuses
  (`src/infrastructure/db/schema/playlist-item.sql.ts:19-21`). Nothing changes in either case.
- While a stream entry is being processed nobody else changes its job and its content. How each outside call of each attempt
  ends (it works, it throws without effect, it throws after its effect) is an input.
- Deleting a playlist deletes its items, and deleting a display deletes its schedules, as the foreign keys say.

## Where the code falls short of its own intent

Each of these, except the second, is a lemma with a concrete input, next to the exact condition under which the intent is met.

- The session cache can put an old row over a newer one, and the holder of the newest token then loses the whole family
  (`RefreshLateFill.CurrentTokenCanBeRevoked`). With or without the cache, a revocation for an issued hash is justified if and
  only if the session's row, read again before revoking, would not support the hash
  (`RefreshTheorems.RevocationIsJustifiedExactly`); one judged by a row no older than the hash always is
  (`RevocationInTimeIsJustified`), and without the cache every one is (`RevocationIsJustified`).
- Comments in `src/infrastructure/db/repositories/cached-auth-session.repo.ts:52` and `:164` speak of a 15-second lifetime; the
  constant on line 9 is 60 seconds, and the model uses 60.
- A pairing code lives until the next whole second in the code index, but its owner's open pointer is dated by the
  millisecond. Redeeming a code within that last fraction of a second leaves an unclosed attempt that outlives its pointer,
  and the owner can then open a second one (`RegistrationProtocol.TwoOpenAttempts`). A redemption breaks the link exactly when the
  pointer has less than the stale time left (`StepKeepsInvExactly`); codes that expire on whole seconds never do
  (`WholeSecondRunsAreTimely`). The use cases issue expiries to the millisecond
  (`src/application/use-cases/displays/issue-display-registration-attempt.use-case.ts:25`).
- The playback test includes the end minute, the conflict test does not: two flash schedules of one display, one until nine
  and one from nine, are both admitted and both play at nine (`LibraryExamples.TwoFlashesAtNine`). Two play together exactly in
  a minute that ends one and starts the other, on a day of both (`LibraryRuns.FlashesMeetExactlyAtHandover`).
- A failed creation can leave a playlist without items (`LibraryExamples.HuskIsLeft`): exactly when deleting it again fails too
  (`LibraryRuns.PlaylistsKeptExactly`).
- A delivery limit that is not a whole number (the environment value is only coerced to a number, `src/env.ts:92`) means
  that no attempt is ever the last (`IngestionWorker.HalfADelivery`): an entry whose attempts all fail is left pending exactly
  with such a limit, and dead-lettered exactly with a whole one (`IngestionWorker.CourseExactly`).

## Model

| member | source | states |
|---|---|---|
| `AuthSessions.AuthSessionDbRepository.Create` | src/infrastructure/db/repositories/auth-session.repo.ts:8-24 | a new row with no previous hash, and no other row changes |
| `AuthSessions.AuthSessionDbRepository.ExtendExpiry` | src/infrastructure/db/repositories/auth-session.repo.ts:26-34 | only the expiry of only that row changes |
| `AuthSessions.AuthSessionDbRepository.RevokeById` | src/infrastructure/db/repositories/auth-session.repo.ts:36-38 | exactly that row goes |
| `AuthSessions.AuthSessionDbRepository.RevokeAllForUser` | src/infrastructure/db/repositories/auth-session.repo.ts:40-42 | a row goes if and only if it is the user's; the others stay as they are |
| `AuthSessions.AuthSessionDbRepository.FindBySessionId` | src/infrastructure/db/repositories/auth-session.repo.ts:74-100 | the row if it is there and not expired, else nothing |
| `AuthSessions.AuthSessionDbRepository.UpdateCurrentJtiOptimistic` | src/infrastructure/db/repositories/auth-session.repo.ts:102-126 | compare-and-swap: true exactly when the row was there with the expected hash, and only then one row advances |
| `AuthSessions.AuthSessionDbRepository.RevokeByFamilyId` | src/infrastructure/db/repositories/auth-session.repo.ts:128-133 | a row goes if and only if it is of the family, the others stay as they are, and the count is how many went |
| `RefreshDecision.RefreshSessionUseCase.Execute` | src/application/use-cases/auth/refresh-session.use-case.ts:92-319 | answer and table, column by column, in every case and whatever other requests did to the table before the update or revocation; a replay takes exactly the rows of the family |
| `RefreshDecision.VerdictExactly` | src/application/use-cases/auth/refresh-session.use-case.ts:92-138 | which of the four verdicts a row and a request get, in terms of the row's columns |
| `RefreshTokens.TokenRoundTrip` | src/application/auth/refresh-token.ts:9-29 | parsing undoes building exactly when the id has no dot and neither part is empty or blank at an end |
| `RefreshTokens.ParseExactly` | src/application/auth/refresh-token.ts:15-29 | any text is read as a token if and only if both sides of its first dot are more than blanks, and the parts are these without the blanks at their ends |
| `RefreshRequests.StepKeepsInv` | src/infrastructure/db/repositories/cached-auth-session.repo.ts:67-202 | every single step of any request, revocation, login or cache loss keeps the invariant of table, cache, history and requests |
| `RefreshTheorems.RotationHasItsStep` | src/application/use-cases/auth/refresh-session.use-case.ts:139-148 | each rotation has its own update step, which found the row with the replaced hash as current |
| `RefreshTheorems.NewTokenIsJustified` | src/application/use-cases/auth/refresh-session.use-case.ts:314-317 | for any cache contents, a new refresh token is returned only for an update that found the row with the presented hash as current |
| `RefreshTheorems.TokenRotatesOnce` | src/application/use-cases/auth/refresh-session.use-case.ts:139-171 | for any interleaving and cache contents, no hash of a session is rotated by two requests |
| `RefreshTheorems.OneSuccessorPerToken` | src/application/use-cases/auth/refresh-session.use-case.ts:139-171 | at most one response in a whole run carries a successor of a given token |
| `RefreshTheorems.NoRotationAfterRevocation` | src/infrastructure/db/repositories/auth-session.repo.ts:36-42 | once a row is gone it stays gone and its session is never rotated again, whatever the cache says |
| `RefreshTheorems.FamilyStaysRevoked` | src/application/use-cases/auth/refresh-session.use-case.ts:185-219 | after a family is revoked no row of it is ever in the table again |
| `RefreshTheorems.RevocationHitsFamilyOnly` | src/infrastructure/db/repositories/auth-session.repo.ts:128-133 | over every run a family revocation, also by a request, takes a row if and only if it is of the family and leaves the others as they are |
| `RefreshTheorems.RevocationTakesOneSession` | src/application/use-cases/auth/refresh-session.use-case.ts:185-219 | over every run, cached or not, the revocation by a request takes the row of its own session and no other |
| `RefreshTheorems.RowsChangeExactly` | src/infrastructure/db/repositories/auth-session.repo.ts:8-133 | what each step does to each row: it goes only with a revocation of its id, user or family, changes only by an extension or by the update of a request that read its current hash, and comes only with its session |
| `RefreshAlone.AloneRotates` | src/application/use-cases/auth/refresh-session.use-case.ts:139-171 | left alone, cached or not, a request with the current token of a live session gets its successor and changes exactly its row |
| `RefreshAlone.AloneKeepsAccess` | src/application/use-cases/auth/refresh-session.use-case.ts:119-183 | left alone, a token in grace, or the current one of a read-only refresh, gets an access token and changes no row |
| `RefreshAlone.AloneRevokes` | src/application/use-cases/auth/refresh-session.use-case.ts:185-219 | left alone, any other token loses exactly the rows of the session's family |
| `RefreshAlone.LoserKeepsAccess` | src/application/use-cases/auth/refresh-session.use-case.ts:149-171 | a request that lost the race for the update but is still in grace gets an access token, read from the table |
| `RefreshAlone.AloneRefusesExpired` | src/infrastructure/db/repositories/auth-session.repo.ts:74-100 | left alone, a request for an unknown or expired session is refused and changes no row |
| `RefreshTheorems.CacheHoldsRealStates` | src/infrastructure/db/repositories/cached-auth-session.repo.ts:103-136 | every cached row equals a state the table row really had, never a mixture of two, including the one assembled after an update |
| `RefreshTheorems.ServedFromCacheExactly` | src/infrastructure/db/repositories/cached-auth-session.repo.ts:76-136 | the cache answers with a row for sixty seconds after it was written, and with its absence for five |
| `RefreshTheorems.AccessTokenIsJustified` | src/infrastructure/db/repositories/cached-auth-session.repo.ts:76-136 | an access token without rotation rests on a real row state that supports the presented hash, cached at most 60 seconds before it was read |
| `RefreshTheorems.PreviousIsPredecessor` | src/application/use-cases/auth/refresh-session.use-case.ts:105-107 | a row's previous hash and grace end belong to the immediate predecessor of its current hash in the rotation chain |
| `RefreshTheorems.ChainIsHistory` | src/infrastructure/db/repositories/auth-session.repo.ts:110-125 | the chain grows by one exactly when the row's current hash changes, and the old one becomes the previous |
| `RefreshTheorems.RevocationIsJustified` | src/application/use-cases/auth/refresh-session.use-case.ts:119-219 | uncached: a family is revoked only for a hash never issued, two or more rotations old, or one rotation old with the grace window over |
| `RefreshTheorems.RevocationInTimeIsJustified` | src/application/use-cases/auth/refresh-session.use-case.ts:119-219 | cached or not: a revocation judged by a row no older than the presented hash is justified |
| `RefreshTheorems.RevocationIsJustifiedExactly` | src/infrastructure/db/repositories/cached-auth-session.repo.ts:103-131 | cached or not: a revocation for an issued hash is justified if and only if the table's row at that moment would not support the hash; if the row has gone, nothing is revoked |
| `RefreshTheorems.ReadOnlyNeverRevokes` | src/application/use-cases/auth/refresh-session.use-case.ts:119-138 | in every mode a read-only refresh never revokes |
| `RefreshLateFill.CurrentTokenCanBeRevoked` | src/infrastructure/db/repositories/cached-auth-session.repo.ts:103-131 | a reachable state of the cached repository in which the holder of the current hash loses the family |
| `CacheKeys.KeyDetermines` | src/infrastructure/redis/server-cache.ts:66-89 | equal keys come from the same method, path, query, domains, versions and vary parts |
| `SearchText.SearchTextExactly` | src/infrastructure/redis/server-cache.ts:52-64 | two parameter lists give the same query text if and only if, for every parameter, those that compare equal to it are the same in the same order: no collisions, and reordering the rest changes nothing |
| `SearchText.KeyDeterminesSearch` | src/infrastructure/redis/server-cache.ts:66-89 | equal keys come from the same query parameters, each as often |
| `ServerCacheStore.Store.Increment` | src/infrastructure/redis/server-cache.ts:112-117 | one counter grows by one, a missing one starting at zero |
| `ServerCacheStore.Store.GetVersions` | src/infrastructure/redis/server-cache.ts:120-126 | the counters in the order of the domains, zero for a missing one |
| `ServerCacheStore.Store.GetOrSetJson` | src/infrastructure/redis/server-cache.ts:128-142 | a hit returns what is stored and changes nothing, a miss stores and returns what was computed |
| `ServerCacheStore.Store.Invalidate` | src/infrastructure/redis/server-cache.ts:152-163 | each named domain's counter grows by exactly one however often it is named, no other changes |
| `ResponseCache.StepKeepsInv` | src/interfaces/http/cache/server-cache.ts:47-93 | every step of any reader or writer keeps: stored and computed values include every change their versions count |
| `ResponseCache.Freshness` | src/infrastructure/redis/server-cache.ts:120-163 | a reader that fetches versions after a writer's increment of one of its domains is served, on hit, miss or bypass, a value computed after that writer's change |
| `ResponseCache.SecondReaderHits` | src/infrastructure/redis/server-cache.ts:128-142 | over every run a reader with the request and versions of an earlier one is served what that one stored, until it is evicted or stored anew |
| `ResponseCache.VersionsLast` | src/infrastructure/redis/server-cache.ts:120-126 | and the versions stay the same until a counter of the request's domains is incremented |
| `ResponseCache.StoredExactly` | src/infrastructure/redis/server-cache.ts:128-142 | a response is stored under a key exactly by the reader that built the key, and goes exactly with its eviction |
| `ResponseCache.AloneIsServed` | src/infrastructure/redis/server-cache.ts:128-163 | left alone, a reader is served what is stored for its request and the current versions, or computes from all changes, is served that and stores it |
| `RegistrationStore.GetAttemptTtlMs` | src/infrastructure/displays/registration-attempt.store.ts:91-103 | long enough for the stale time from now and from the code's expiry, and no longer than the later of the two |
| `RegistrationStore.ToUnixSeconds` | src/infrastructure/redis/utils.ts:4-5 | the least whole second at or after the instant, and at least one |
| `RegistrationStore.RedisDisplayRegistrationAttemptStore.CreateOrReplaceOpenAttempt` | src/infrastructure/redis/scripts.ts:31-75 | the script, command by command, leaves the store and returns the id the function Create says |
| `RegistrationStore.CreateExactly` | src/infrastructure/redis/scripts.ts:31-75 | after a creation: the new attempt and pointer, the owner's former attempt closed without a code and its id handed back, all others as they were |
| `RegistrationStore.CreateIndexes` | src/infrastructure/redis/scripts.ts:37-73 | after a creation the new code is found until the end of its second, the former one is not, and other codes are as before |
| `RegistrationStore.RedisDisplayRegistrationAttemptStore.RotateCode` | src/infrastructure/redis/scripts.ts:104-139 | likewise for Rotate, with both refusals |
| `RegistrationStore.RotateExactly` | src/infrastructure/redis/scripts.ts:104-139 | rotated if and only if the attempt is there, unclosed and the caller's; then only its code and deadline and the caller's pointer change; a refusal changes nothing |
| `RegistrationStore.RotateIndexes` | src/infrastructure/redis/scripts.ts:119-137 | after a rotation the new code is found, the old one is not, and other codes are as before |
| `RegistrationStore.RedisDisplayRegistrationAttemptStore.CloseAttempt` | src/infrastructure/redis/scripts.ts:164-194 | likewise for Close |
| `RegistrationStore.CloseExactly` | src/infrastructure/redis/scripts.ts:164-194 | closed if and only if the attempt is there, unclosed and the caller's; then it is closed, its code is not indexed and the caller has no pointer; a refusal changes nothing |
| `RegistrationStore.RedisDisplayRegistrationAttemptStore.ConsumeCodeHash` | src/infrastructure/redis/scripts.ts:305-342 | likewise for Consume, with dangling, mismatched and expired codes |
| `RegistrationStore.ConsumeExactly` | src/infrastructure/redis/scripts.ts:305-342 | redeemed if and only if the hash is indexed and its attempt is unclosed and shows this unexpired code; what each case leaves |
| `RegistrationStore.ExpireExactly` | src/infrastructure/redis/scripts.ts:71-73 | with time exactly the keys go whose deadline is over |
| `RegistrationProtocol.StepKeepsInvExactly` | src/infrastructure/redis/scripts.ts:31-342 | every script and every key expiry keeps attempts, pointers and code index consistent, except exactly a redemption that is too late |
| `RegistrationProtocol.OneOpenAttemptPerOwner` | src/infrastructure/redis/scripts.ts:31-73 | in every state of a timely run an owner has at most one unclosed attempt |
| `RegistrationProtocol.WholeSecondRunsAreTimely` | src/infrastructure/displays/registration-attempt.store.ts:115-135 | runs whose codes expire on whole seconds are always timely |
| `RegistrationProtocol.TwoOpenAttempts` | src/infrastructure/redis/scripts.ts:72-73 | a concrete run ending with two unclosed attempts of one owner |
| `RegistrationProtocol.HandedBackAtMostOnce` | src/infrastructure/redis/scripts.ts:37-43 | over any run a pairing code id is handed back by at most one step, as invalidated or as redeemed |
| `RegistrationProtocol.GivesBack` | src/infrastructure/redis/scripts.ts:119-126 | a step hands back only the code its attempt held, and that attempt no longer holds it |
| `RegistrationProtocol.NothingIsLost` | src/infrastructure/redis/scripts.ts:37-46 | a step that takes a code from an attempt hands its id back, unless the attempt or the code had expired |
| `RegistrationProtocol.OthersAreSpared` | src/infrastructure/redis/scripts.ts:104-194 | over every run, timely or not, creating, rotating and closing for one owner change no attempt, pointer or code of another |
| `RegistrationProtocol.ShownCodeRedeems` | src/infrastructure/redis/scripts.ts:305-342 | presenting the unexpired active code of an unclosed attempt redeems that attempt |
| `ScheduleWindows.ValidTimesAre` | src/domain/schedules/schedule.ts:1-20 | the valid times are those from 00:00 to 23:59, each read as its minutes |
| `ScheduleWindows.ValidDatesAre` | src/domain/schedules/schedule.ts:2-12 | the valid dates are four digits, a dash, two digits, a dash and two digits |
| `ScheduleWindows.TimesCompareAsMinutes` | src/domain/schedules/schedule.ts:14-20 | comparing two valid times as text is comparing their minutes |
| `ScheduleWindows.DatesCompareAsNumbers` | src/domain/schedules/schedule.ts:12-12 | comparing two valid dates as text is comparing year, month and day |
| `ScheduleWindows.StartsInPastMeaning` | src/application/use-cases/schedules/shared.ts:301-312 | comparing the joined texts is comparing the instants |
| `ScheduleWindows.ParseTimeToSeconds` | src/application/use-cases/schedules/shared.ts:105-113 | sixty times the minutes the playback test computes, within a day |
| `ScheduleWindows.OverlapMeansSharedSecond` | src/application/use-cases/schedules/shared.ts:130-164 | segments overlap exactly when some second of the day lies in both half-open windows, midnight wrap included |
| `ScheduleWindows.DateOverlapMeansSharedDate` | src/application/use-cases/schedules/shared.ts:148-151 | date ranges overlap exactly when some date lies in both |
| `ScheduleWindows.CoveredSecondsAre` | src/application/use-cases/schedules/shared.ts:130-146 | a second counts for conflicts if and only if, counted from the start and around midnight, it comes before the end |
| `ScheduleWindows.PlayedMinutesAre` | src/domain/schedules/schedule.ts:57-79 | a minute is played if and only if, counted in the same way, it does not come after the end |
| `ScheduleWindows.PlayedDaysAre` | src/domain/schedules/schedule.ts:81-90 | a day is played from the first date to the last, both included |
| `ScheduleWindows.WindowLasts` | src/application/use-cases/schedules/shared.ts:115-128 | how long a window lasts, around midnight if need be |
| `ScheduleWindows.HandoverMinute` | src/domain/schedules/schedule.ts:57-79 | two windows without overlap are both played in a minute if and only if it ends one and starts the other |
| `ScheduleWindows.FinishedMeaning` | src/application/use-cases/schedules/shared.ts:291-299 | finished exactly when the end instant is before the current one |
| `ScheduleWindows.FinishedIsPermanent` | src/application/use-cases/schedules/shared.ts:291-299 | finished stays finished |
| `ScheduleWindows.FinishedNeverPlays` | src/domain/schedules/schedule.ts:57-90 | a finished admitted schedule is active at no later instant |
| `ScheduleWindows.PlaysAgainExactly` | src/domain/schedules/schedule.ts:57-90 | an admitted schedule is active at some later instant exactly when a day of it the clock can show is left on which its end time has not passed |
| `ScheduleWindows.FinishedExactly` | src/application/use-cases/schedules/shared.ts:291-299 | an admitted schedule is finished exactly when no instant from now on, on the days the clock can show, makes it active |
| `ScheduleWindows.NoSuchDayNeverFinishesInTime` | src/domain/schedules/schedule.ts:12-12 | why the premise on the last day is needed: one ending on 2025-02-31 would be unfinished on the evening of February 28 though no calendar day plays it again |
| `PlaylistItems.AddKeepsPlaylist` | src/application/use-cases/playlists/add-playlist-item.use-case.ts:39-102 | an accepted addition leaves the playlist in order: non-empty, a minute at most, whole positive durations, no flash, only videos loop, ids and positions distinct |
| `PlaylistItems.UpdateKeepsPlaylist` | src/application/use-cases/playlists/update-playlist-item.use-case.ts:38-96 | an accepted change leaves it in order |
| `PlaylistItems.DeleteKeepsPlaylist` | src/application/use-cases/playlists/delete-playlist-item.use-case.ts:22-40 | an accepted removal leaves it in order |
| `PlaylistItems.ReplaceMakesPlaylist` | src/application/use-cases/playlists/replace-playlist-items.use-case.ts:75-201 | an accepted replacement makes a playlist in order, even of one that had no items |
| `PlaylistOutcomes.AddedExactly` | src/application/use-cases/playlists/add-playlist-item.use-case.ts:31-102 | when exactly an addition is accepted; then one item with what was asked for comes last and nothing else changes |
| `PlaylistOutcomes.AddRefusalMeans` | src/application/use-cases/playlists/add-playlist-item.use-case.ts:31-95 | each refusal of an addition has its reason |
| `PlaylistOutcomes.UpdatedExactly` | src/application/use-cases/playlists/update-playlist-item.use-case.ts:30-96 | when exactly a change is accepted; then what was given is stored, what was not stays, and nothing else changes |
| `PlaylistOutcomes.DeletedExactly` | src/application/use-cases/playlists/delete-playlist-item.use-case.ts:22-40 | when exactly a deletion is accepted; then the item named is gone and the others are there unchanged and in order |
| `PlaylistOutcomes.MissingItem` | src/application/use-cases/playlists/delete-playlist-item.use-case.ts:22-34 | an item that is not in the playlist is neither changed nor deleted |
| `PlaylistOutcomes.ReplacedExactly` | src/application/use-cases/playlists/replace-playlist-items.use-case.ts:70-186 | when exactly a replacement is accepted |
| `PlaylistOutcomes.ReplacedItems` | src/application/use-cases/playlists/replace-playlist-items.use-case.ts:187-201 | then there is one item for each entry in order, kept ones with their id and content, new ones with what was asked for, and nothing else changes |
| `PlaylistOutcomes.CreatedExactly` | src/application/use-cases/playlists/create-playlist.use-case.ts:20-76 | when exactly a creation succeeds, and what it leaves in each case |
| `PlaylistItems.ReferenceFailure` | src/application/use-cases/playlists/replace-playlist-items.use-case.ts:113-129 | no failure exactly when every kept item is in the playlist and none is named twice |
| `PlaylistItems.LengthFailure` | src/application/use-cases/playlists/replace-playlist-items.use-case.ts:168-186 | no failure exactly when no entry exceeds its video and only videos loop |
| `PlaylistItems.EffectiveIsTotal` | src/application/use-cases/shared/playlist-effective-duration.ts:45-70 | for a playlist in order the effective duration is the total of its durations |
| `PlaylistOutcomes.EffectiveAddsUp` | src/application/use-cases/shared/playlist-effective-duration.ts:45-70 | each item counts its duration, at least a second, unless its content is gone |
| `PlaylistItems.ComputePlaylistEffectiveDuration` | src/application/use-cases/shared/playlist-effective-duration.ts:45-70 | the loop computes the effective duration, skipping items whose content is gone |
| `Schedules.WindowFailure` | src/application/use-cases/schedules/shared.ts:233-248 | a window passes exactly when its texts are valid, its dates in order, its start before its end and not in the past |
| `ScheduleOutcomes.WindowRefusedExactly` | src/application/use-cases/schedules/shared.ts:233-248 | which refusal a window is given, if any, and when exactly |
| `ScheduleOutcomes.ConflictMeans` | src/application/use-cases/schedules/shared.ts:166-182 | two windows conflict if and only if both show flash content on one display in a second they share on a day they share |
| `ScheduleOutcomes.AdmittedExactly` | src/application/use-cases/schedules/create-schedule.use-case.ts:50-130 | create and update admit exactly what is valid, in order, not past, can be shown by the caller, and is in no other schedule's way |
| `ScheduleOutcomes.TargetRefusalMeans` | src/application/use-cases/schedules/create-schedule.use-case.ts:60-112 | each refusal of what is to be shown has its reason, the caller's own playlists and content included |
| `ScheduleOutcomes.CreatedExactly` | src/application/use-cases/schedules/create-schedule.use-case.ts:132-163 | a schedule is created if and only if it is admitted and has an owner; it has the fields asked for and this owner, and its playlist is in use in either wiring |
| `ScheduleOutcomes.UpdateSucceedsExactly` | src/application/use-cases/schedules/update-schedule.use-case.ts:49-155 | an update succeeds if and only if the schedule is there and the caller's and what it would become is admitted |
| `ScheduleOutcomes.UpdatedExactly` | src/application/use-cases/schedules/update-schedule.use-case.ts:59-170 | each field given is the one stored, each not given is the old one; the creator and all other schedules stay |
| `ScheduleOutcomes.UpdatedStatuses` | src/application/use-cases/schedules/update-schedule.use-case.ts:172-219 | the playlist shown is in use, the one shown before has lost a schedule, others keep their status, in either wiring |
| `ScheduleOutcomes.DeletedExactly` | src/application/use-cases/schedules/delete-schedule.use-case.ts:27-62 | a schedule goes if and only if it is there and the caller's, and its playlist has lost a schedule |
| `ScheduleOutcomes.PlaylistDeletedExactly` | src/application/use-cases/playlists/delete-playlist.use-case.ts:26-76 | a playlist goes if and only if it is there, the caller's and has no schedule still to end; exactly its schedules go along |
| `ScheduleOutcomes.ContentDeletedExactly` | src/application/use-cases/content/delete-content.use-case.ts:25-67 | content goes if and only if it is there, the caller's, in no playlist and, if flash, in no schedule |
| `ScheduleOutcomes.DisplayDeletedExactly` | src/infrastructure/db/schema/schedule.sql.ts:12-14 | with a display exactly its schedules go |
| `ScheduleOutcomes.FileReplacedExactly` | src/application/use-cases/content/replace-content-file.use-case.ts:85-161 | a file is replaced if and only if the content is the caller's, not flash, not being processed and in no playlist, and what the row says then |
| `ScheduleOutcomes.ReconciledExactly` | src/application/use-cases/schedules/reconcile-playlist-statuses.use-case.ts:41-71 | the playlists named get the status their schedules call for, and nothing else changes |
| `Backend.Database.CountUnfinished` | src/application/use-cases/playlists/delete-playlist.use-case.ts:34-43 | the loop counts to more than zero exactly when a schedule of the playlist is unfinished |
| `Backend.Database.FindConflict` | src/application/use-cases/schedules/shared.ts:208-222 | the loop over the display's schedules finds exactly whether one other than the excluded conflicts |
| `Backend.Database.CountPlaylistReferences` | src/application/use-cases/content/delete-content.use-case.ts:37-48 | the loop counts to more than zero exactly when a playlist item refers to the content |
| `Backend.CheckReferences` | src/application/use-cases/playlists/replace-playlist-items.use-case.ts:113-129 | the loop finds the first bad reference, or what every entry refers to |
| `Backend.CheckContents` | src/application/use-cases/playlists/replace-playlist-items.use-case.ts:131-186 | the content checks fail as the specification says, in order |
| `Backend.CheckLengths` | src/application/use-cases/playlists/replace-playlist-items.use-case.ts:168-186 | the loop finds the first entry that is too long or loops wrongly |
| `Backend.TotalDuration` | src/application/use-cases/playlists/replace-playlist-items.use-case.ts:98-101 | the sum of all durations |
| `Backend.Database.AddPlaylistItem` | src/application/use-cases/playlists/add-playlist-item.use-case.ts:31-102 | the checks in order and the insertion do what AddItem says; a failure changes nothing |
| `Backend.Database.UpdatePlaylistItem` | src/application/use-cases/playlists/update-playlist-item.use-case.ts:30-96 | likewise for UpdateItem |
| `Backend.Database.DeletePlaylistItem` | src/application/use-cases/playlists/delete-playlist-item.use-case.ts:22-40 | likewise for DeleteItem |
| `Backend.Database.ReplacePlaylistItems` | src/application/use-cases/playlists/replace-playlist-items.use-case.ts:70-201 | likewise for ReplaceItems |
| `Backend.Database.CreatePlaylistWithItems` | src/application/use-cases/playlists/create-playlist.use-case.ts:20-76 | creation, filling and the deletion on failure, which may itself fail |
| `Backend.Database.ReconcilePlaylistStatuses` | src/application/use-cases/schedules/reconcile-playlist-statuses.use-case.ts:20-72 | exactly the named playlists get the status their schedules call for, and the count is how many statuses differ afterwards |
| `Backend.Database.CreateSchedule` | src/application/use-cases/schedules/create-schedule.use-case.ts:50-163 | the checks in order, the insertion and the status upkeep of either wiring do what the function says |
| `Backend.Database.UpdateSchedule` | src/application/use-cases/schedules/update-schedule.use-case.ts:49-219 | likewise for an update, with the playlists before and after |
| `Backend.Database.DeleteSchedule` | src/application/use-cases/schedules/delete-schedule.use-case.ts:27-62 | likewise for a deletion |
| `Backend.Database.DeletePlaylist` | src/application/use-cases/playlists/delete-playlist.use-case.ts:26-76 | refused while a schedule is unfinished, else the playlist and all its schedules go and nothing else |
| `Backend.Database.DeleteContent` | src/application/use-cases/content/delete-content.use-case.ts:25-67 | refused while a playlist, or for flash a schedule, uses it, else exactly that row goes |
| `LibraryRuns.PlaylistsKeptExactly` | src/application/use-cases/playlists/create-playlist.use-case.ts:41-76 | every step keeps all playlists in order, except exactly a failed creation whose undoing fails |
| `LibraryRuns.PlaylistsAlwaysSound` | src/domain/playlists/playlist.ts:6-12 | over every run without that, playlists are non-empty, last a minute at most and hold no flash |
| `LibraryRuns.StepKeepsPlaylistsShort` | src/application/use-cases/playlists/create-playlist.use-case.ts:41-76 | every step, without exception, leaves every playlist in order or without any items |
| `LibraryRuns.PlaylistsAlwaysShort` | src/domain/playlists/playlist.ts:6-12 | so over every run each playlist is in order or empty |
| `LibraryRuns.StepKeepsVideosFit` | src/bootstrap/workers/content-ingestion/job-processor.ts:157-166 | every step keeps videos within the length of their files and ready content read |
| `LibraryRuns.VideosAlwaysFit` | src/application/use-cases/playlists/replace-playlist-items.use-case.ts:168-186 | over every run no playlist item of a video lasts longer than the video's file |
| `LibraryRuns.WindowIsNeverTooShort` | src/application/use-cases/schedules/create-schedule.use-case.ts:83-97 | over every run the rejection for a too short window is unreachable in create and update |
| `LibraryRuns.SchedulesKept` | src/application/use-cases/schedules/update-schedule.use-case.ts:172-219 | every step in either wiring keeps references, status and flash separation |
| `LibraryRuns.DraftHasNoUnfinished` | src/application/use-cases/schedules/create-schedule.use-case.ts:148-163 | over every run, in either wiring or both mixed, a DRAFT playlist has no unfinished schedule |
| `LibraryRuns.ReferencesResolve` | src/application/use-cases/content/delete-content.use-case.ts:37-56 | over every run what a schedule refers to exists, and flash schedules show flash content |
| `LibraryRuns.FlashesMeetExactlyAtHandover` | src/application/use-cases/schedules/shared.ts:166-182 | over every run two flash schedules of a display play together if and only if the minute ends one and starts the other, on a day of both |
| `LibraryRuns.ReconcileIsExact` | src/application/use-cases/schedules/reconcile-playlist-statuses.use-case.ts:41-71 | a full reconciliation makes IN_USE mean an unfinished schedule, changes nothing else, and repeating it updates nothing |
| `LibraryRuns.DeletedSchedulesWereOver` | src/application/use-cases/playlists/delete-playlist.use-case.ts:40-69 | over every run a schedule removed with its playlist could not have played at any later instant |
| `LibraryRuns.LimitedRequestsSpareOthers` | src/application/use-cases/schedules/shared.ts:63-79 | a request limited to a user changes nobody else's content, items or schedules, except finished schedules of a playlist that goes |
| `LibraryExamples.TwoFlashesAtNine` | src/domain/schedules/schedule.ts:57-79 | a reachable state in which two flash schedules of a display both play |
| `LibraryExamples.HuskIsLeft` | src/application/use-cases/playlists/create-playlist.use-case.ts:41-76 | a reachable state and a creation that leaves a playlist without items |
| `ActiveSelection.PickedFlashIsTheOnlyOne` | src/domain/schedules/schedule.ts:122-143 | over every run the flash schedule picked is the only one that plays if and only if no two of the display's meet in the minute, one ending and the other starting |
| `ActiveSelection.SelectedInOrder` | src/domain/schedules/schedule.ts:159-205 | what is selected are the schedules of the kind that play, each as often and in the order of the rows |
| `ActiveSelection.PickedIsFirst` | src/domain/schedules/schedule.ts:92-143 | the one picked is the first of the rows that is of the kind and plays, and none is picked if and only if none plays |
| `OwnerCleanup.ListOwnedContent` | src/application/use-cases/users/user-owned-resource-cleanup.ts:132-154 | the paging loop ends and yields every row once, in order |
| `OwnerCleanup.UserOwnedResourceCleanup.FindConflict` | src/application/use-cases/users/user-owned-resource-cleanup.ts:55-97 | found exactly when something the user owns is used by somebody else |
| `OwnerCleanup.ConflictedExactly` | src/application/use-cases/users/user-owned-resource-cleanup.ts:55-97 | what a conflict is: somebody else's schedule is for the user's playlist or content, or somebody else's playlist holds the user's content |
| `OwnerCleanup.UserOwnedResourceCleanup.DeleteOwnedResourcesForUser` | src/application/use-cases/users/user-owned-resource-cleanup.ts:40-119 | a conflict exactly when one exists, and then nothing changes; else no guard fires and exactly what the user owns is gone, unless stored files cannot be deleted: then schedules, playlists and the content up to the first such one are gone; in each case the rest stays up to playlist status, and references, status and flash separation are kept |
| `OwnerCleanup.CleanedUpResolves` | src/application/use-cases/users/user-owned-resource-cleanup.ts:99-118 | however far the content was deleted: no schedule or playlist of the user is left, of the content exactly the rest, every remaining reference resolves and playlists stay in order |
| `OwnerCleanup.CleanedUpExactly` | src/application/use-cases/users/user-owned-resource-cleanup.ts:99-118 | which rows are left after a cleanup, finished or not, and that they are unchanged |
| `OwnerCleanup.CleanupCanResume` | src/application/use-cases/content/delete-content.use-case.ts:69-92 | a cleanup the storage stopped meets no conflict when taken up again, and the two together are one cleanup |
| `OwnerCleanup.CleanupKeeps` | src/application/use-cases/users/user-owned-resource-cleanup.ts:99-118 | schedules, then playlists, then any part of the content: references, playlist status and flash separation survive the cleanup in either wiring |
| `IngestionWorker.Worker.AckAndDeleteEntry` | src/bootstrap/workers/content-ingestion/entry-acknowledger.ts:6-19 | acknowledgement before deletion, and only of an entry that succeeded or was dead-lettered, whichever of the two calls fails |
| `IngestionWorker.Worker.RunWithThumbnailRetries` | src/bootstrap/workers/content-ingestion/job-processor.ts:15-53 | at most three tries: the last one made the thumbnail, or all three failed |
| `IngestionWorker.Worker.StoreThumbnail` | src/bootstrap/workers/content-ingestion/job-processor.ts:84-138 | the content gets the new thumbnail if and only if one of the three tries makes one and it can be uploaded |
| `IngestionWorker.Worker.ProcessContentIngestionJob` | src/bootstrap/workers/content-ingestion/job-processor.ts:55-168 | a run ends without error if and only if the job is gone or its file is supported and every call but the thumbnail's works; which statuses each course leaves; no other job or content changes |
| `IngestionWorker.Worker.MarkJobFailed` | src/bootstrap/workers/content-ingestion/job-state.ts:75-120 | both statuses fail together, and when exactly |
| `IngestionWorker.Worker.ProcessEntry` | src/bootstrap/workers/content-ingestion/entry-processor.ts:41-129 | run until an attempt works or the allowed ones are over; then acknowledged, dead-lettered once, or left pending, and when exactly; if nothing fails, one run, no dead letter and success |
| `IngestionWorker.CourseExactly` | src/bootstrap/workers/content-ingestion/entry-processor.ts:58-129 | all attempts failing, they run out if and only if the limit is a whole number, and the entry is left pending if and only if it is not |
| `IngestionWorker.HalfADelivery` | src/env.ts:92-92 | with a limit of two and a half and no attempt that works, the entry stays pending |
| `LikePatterns.EscapedMatchesLiterally` | src/infrastructure/db/utils/sql.ts:1-2 | an escaped text matches itself and nothing else, before any further pattern |
| `LikePatterns.ContainsPatternIsExact` | src/infrastructure/db/utils/sql.ts:4-5 | the contains-pattern matches exactly the texts that contain the input literally |
| `LikePatterns.PrefixPatternIsExact` | src/infrastructure/db/repositories/audit-logs.repo.ts:283-287 | the escaped prefix followed by `%` matches exactly the texts with that prefix |
| `HtmlText.EscapeIsPerCharacter` | src/application/use-cases/ai/tiptap-convert.ts:1-7 | the four ordered replacements are one replacement per character |
| `HtmlText.DecodeUndoesEscape` | src/application/use-cases/content/content-view.ts:44-68 | decoding undoes escaping on every text |
| `HtmlText.NamesDecode` | src/application/use-cases/content/content-view.ts:44-57 | the six names are decoded to their characters, whatever follows |
| `HtmlText.NumbersDecode` | src/application/use-cases/content/content-view.ts:58-66 | a decimal reference is replaced by what its number stands for, or stays if that cannot be read |
| `HtmlText.StripAndDecode` | src/domain/content/text-content.ts:3-7 | stripping the tags of the generated HTML and decoding gives the concatenated non-blank lines |
| `HtmlText.LinesRejoin` | src/application/use-cases/ai/tiptap-convert.ts:13-13 | splitting loses nothing and leaves no line break in a line |
| `HtmlText.NonBlankAre` | src/application/use-cases/ai/tiptap-convert.ts:13-13 | a line stays if and only if it is not blank, in order |
| `HtmlText.ParagraphsAre` | src/application/use-cases/ai/tiptap-convert.ts:23-25 | each line becomes one escaped paragraph, in order |
| `WorkerPool.WorkerCount` | src/application/use-cases/displays/get-display-manifest.use-case.ts:33-36 | as many as asked for, rounded down, but at least one and at most one per item |
| `WorkerPool.MapWithConcurrency` | src/application/use-cases/displays/get-display-manifest.use-case.ts:26-59 | for any interleaving at the awaits: it ends, calls the mapper once per non-falsy item, never exceeds the worker count, and equals a sequential map |
| `PresignCache.BoundedRefinesRecency` | src/infrastructure/storage/s3-content.storage.ts:338-360 | over every run the bounded list is the recent end of the list without a bound, and exactly its last 5000 until something is invalidated |
| `PresignCache.ServedUrlHasLifeLeft` | src/infrastructure/storage/s3-content.storage.ts:257-261 | over every run of stores, invalidations and time, a URL served from the cache has more than five seconds less the signing time left |
| `PresignCache.ListAlwaysOk` | src/infrastructure/storage/s3-content.storage.ts:330-360 | over every run keys are distinct, the list is bounded and every expiry is as computed |
| `PresignCache.StoredIsServed` | src/infrastructure/storage/s3-content.storage.ts:338-360 | a stored URL is served under its key until its seconds less five are over, and not after that |
| `PresignCache.StoreSparesOthers` | src/infrastructure/storage/s3-content.storage.ts:338-360 | storing changes nothing for another key, unless the list is full and it is that of the oldest entry |
| `PresignCache.InvalidatedIsNotServed` | src/infrastructure/storage/s3-content.storage.ts:330-336 | invalidating stops the serving of exactly the cache keys with the prefix |
| `PresignCache.CacheKeyDetermines` | src/infrastructure/storage/s3-content.storage.ts:252-256 | object keys without a bar: equal cache keys come from equal requests |
| `PresignCache.InvalidationIsExact` | src/infrastructure/storage/s3-content.storage.ts:330-336 | invalidation reaches all entries of the key and, without bars in object keys, no others |
| `PresignCache.InvalidationReachesExactly` | src/infrastructure/storage/s3-content.storage.ts:330-336 | for all keys: invalidating one can reach an entry of the other exactly when they are equal, the other goes on from it after a bar, or it goes on from the other with a bar and a lifetime |
| `PresignCache.BarReachesTooFar` | src/infrastructure/storage/s3-content.storage.ts:330-336 | why the premise on object keys is needed: with a bar in one, entries of another key would go too |
| `PresignCache.S3ContentStorage.StorePresignedUrl` | src/infrastructure/storage/s3-content.storage.ts:338-360 | drop, append and the eviction loop leave the most recent 5000 entries |
| `PresignCache.S3ContentStorage.InvalidatePresignedUrl` | src/infrastructure/storage/s3-content.storage.ts:330-336 | exactly the entries with the prefix go, the others keep their order |
| `PresignCache.S3ContentStorage.Find` | src/infrastructure/storage/s3-content.storage.ts:257-261 | the cached URL of the key while it is to be used |

## Left out

- OneOpenAttemptPerOwner: holds for timely runs only; `TwoOpenAttempts` shows it fails otherwise, and `StepKeepsInvExactly` says exactly when.
- RevocationIsJustified: for the uncached repository only; with the cache it is false (`CurrentTokenCanBeRevoked`), and `RevocationIsJustifiedExactly` says exactly when.
- KeyDetermines: takes the query as text; `KeyDeterminesSearch` goes down to the parameters. Parsing the URL is not modelled.
- CacheHoldsRealStates: commands that reach Redis after the caller gave up on them are not modelled.
- PlaylistsAlwaysSound: for runs without a failed creation whose undoing fails as well; `PlaylistsAlwaysShort` is for every run.
- FinishedExactly: the schedule's last day must be one the clock can show; `PlaysAgainExactly` is without that.
- ServedUrlHasLifeLeft: the request that joins a signing in flight gets that request's URL directly, not from the cache; single-flight sharing is not modelled.
- DecodeUndoesEscape: how numeric references are read is a parameter.
- Reordering playlist items, renaming, descriptions, and unused-since bookkeeping: easy members only.
- Playback order of several active playlist schedules (a sort by creation time).
- Time-zone formatting by Intl: instants arrive as text pairs; a formatter that prints another form than `HH:MM` is not modelled.
- Times that are not `HH:MM` reaching `parseTimeToSeconds`: rows are validated when written.
- Legacy schedules without a creator: the column is not nullable.
- Races between schedule use cases, and a playlist seen between its creation and its filling.
- Emergency slots: their reference to deleted content is set to null.
- Maintenance clean-up, reminders of unused content, display pairing beyond the four scripts, login throttling scripts.
- A mapper that fails in the worker pool, and a concurrency that is not a number.
- HTTP routing, permissions, event publishing, logging, delays between retries, media tools, cryptography, SQL text.
