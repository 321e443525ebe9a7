# KusStudio: a verified model of its core

KusStudio turns phone videos of shoes into 3D models, keeps numbered versions of them, and lets people decorate them.
This project models, in Dafny, the ten places of the repository where state, concurrency or arithmetic decide whether it
is right, one module each, and proves what the code promises there over every input, every interleaving or every
run. Paths below are relative to the repository. `dafny verify dfyconfig.toml` checks everything.

| module | models |
|---|---|
| `GlbStream` | the streaming check on an uploaded GLB (header of section 4.4.2 of the glTF 2.0 specification), its agreement with the whole-file check, and the publish call that uses it |
| `RateLimiter` | the in-place sliding-window limiter with eviction, as a refinement of one that forgets nothing |
| `AssetVersions`, `Backfill` | version numbers and lineage under concurrent publish transactions, and the migration that numbered older models |
| `ScanSessions` | idempotent creation of a control-plane scan session by concurrent callers |
| `CloudSession`, `TokenReplay` | the desktop app's rotating refresh token, stepped at every `await`, and which runs send a replaced token again |
| `KiriPipeline`, `KiriDecisions`, `KiriOverlap` | the nine-status reconstruction task, driven by requests and background jobs that may die; which answers decide what; and the same calls taken apart and overlapping |
| `InstallProgress`, `RuntimeInstaller` | the renderer's installer as file-system steps with a crash possible between any two, its progress throttle and percentages |
| `BakedPreview` | keeping a baked render under a live overlay while the design is edited |
| `FrameHash`, `FramePatterns`, `FrameSelection` | frame measures and what they say about simple pictures, the greedy frame filter with its counters, the quality totals |
| `CropGeometry`, `DecalGeometry` | crop matrices, Euler conventions, the decal grid and the fitting of outlines |

`Outcomes`, `Text`, `Chunks`, `Rows` and `Space` hold small shared definitions.

Where the source changes state, the model is a class or a loop, and each method is proved equal to a function of the old
state; the lemmas then speak about runs of that function. An outcome that the program does not control (an HTTP
answer, a failing file operation, a killed worker, the other transactions' statements) is a parameter or a
free choice, on which nothing is assumed.

## Where the code does less than one might expect

Each of these is proved, with the exact condition under which the code does do it.

- Two spellings of one file type pass the uniqueness check of `publish`, which looks at the raw text, and fail at the
  database (`AssetVersions.RawFileTypeCheckIsNotEnough`); a valid token of more than 32 characters fails there too, where
  column widths are enforced (`AssetVersions.ValidTokensMayNotFit`, `AssetVersions.LockedInsertDecides`).
- A worker killed while a scan is UPLOADING leaves a task that no request restarts; and a model that passes the test on
  its first four bytes but is refused by publish_glb is stored for good, so a control-plane scan cannot become READY
  (`KiriPipeline.CanFinishExactlyWhenNotStuck`, `KiriPipeline.OldGlbNeverFinishes`).
- KusShoes counts a refresh token as replaced when it answers, the app when it has read the body. A refresh can send a
  replaced token again if and only if a rotating answer is unusable, its body is lost, the app ends before reading it,
  or a restore that awaits between store and memory finds it too late
  (`TokenReplay.RefreshReplaysExactlyAfterABreak`, with one run for each: `TokenReplay.UnusableAnswerReplays`,
  `TokenReplay.LostBodyReplays`, `TokenReplay.RestartReplays`, `TokenReplay.SplitRestoreReplays`); a logout sends one if
  and only if it posts while the body is being read (`TokenReplay.LogoutReplaysExactlyWhileReading`,
  `TokenReplay.SignOutReplays`).
- Every call on a scan looks at its task once and writes later. READY is final exactly when no call is under way but
  publish calls that have recorded their model (`KiriOverlap.ReadyIsFinalExactlyWhenAllIsDone`): a slow status poll
  turns it into READY_FOR_CROP (`KiriOverlap.LatePollUndoesReady`), a second bake into FAILED
  (`KiriOverlap.SecondBakeUndoesReady`), and a poll that is late with "expired" strands the scan
  (`KiriOverlap.LateExpiryStrands`).
- A stale archive on disk makes the percentage of a successful install fall back from 80, and nothing else does
  (`RuntimeInstaller.Installer.InstallZip`, `RuntimeInstaller.InstallBlender`).
- `percent` overflows 64 bits for totals above a hundredth of the range (`InstallProgress.PercentFitsU64`).
- An edit made while a render is being fetched leaves the old render over the new design, and no later check notices
  (`BakedPreview.LoadedPreviewIsRightExactlyWhenNotOvertaken`, `BakedPreview.EditDuringLoadShowsTheOldRender`).
- Reloading the latest design after a conflict keeps the render without comparing
  (`BakedPreview.ReloadedDesignIsRightExactlyWhenKept`).
- A second layer with a baked layer's id vanishes from the screen (`BakedPreview.DuplicateIdLosesALayer`,
  `BakedPreview.KeptPreviewShowsTheDesign`).
- The bare re-raise of session creation is unreachable only because project ids arrive in canonical spelling
  (`ScanSessions.ReraiseIsUnreachable`, `ScanSessions.ReraiseNeedsASecondSpelling`).
- A session created with an empty completion token could not be looked up again; tokens arrive with 32 to 256 characters
  (control_plane_scan_tokens.py:17), so no caller is affected (`ScanSessions.CreatedSessionStaysReachable`).

## Model

| member | source | states |
|---|---|---|
| GlbStream.ValidatedGlbStream | backend/app/services/control_plane_mobile.py:315-354 | for every chunk sequence and announced size the generator ends with the verdict that the concatenated bytes deserve (truncated, bad header, wrong size, fine), and yields nothing before the header window passed, then every non-empty chunk up to the first that would exceed the size |
| GlbStream.StreamAcceptsExactlyVerifiedFiles | backend/app/services/control_plane_bake.py:382-391 | the stream finishes if and only if the whole-file check accepts the concatenation and its size is the announced one; at that size the two agree on the kind of error as well |
| GlbStream.VerdictInBytes | backend/app/services/control_plane_bake.py:382-391 | a complete file is valid if and only if its first twelve bytes are "glTF", version 2 and its own length, each number least significant byte first; it is truncated if and only if it has fewer |
| GlbStream.StreamVerdictInBytes | backend/app/services/control_plane_mobile.py:315-354 | the same for a stream, with the announced size in place of the length: the header passes if and only if those are its bytes, and then the size alone decides |
| GlbStream.U32InvertsLittleEndian | backend/app/services/control_plane_mobile.py:338-342 | for every number below 2^32 four bytes are read as it if and only if they are its little-endian form |
| GlbStream.EmittedIsBoundedPrefix | backend/app/services/control_plane_mobile.py:343-354 | what left the generator is a prefix of the input, no longer than announced, empty unless the header is valid, and everything when the header is valid and no more than announced arrives |
| GlbStream.ChunkingDoesNotMatter | backend/app/services/control_plane_mobile.py:315-354 | two chunkings of the same bytes get the same verdict, one emission is a prefix of the other, and both are equal when the stream finishes |
| GlbStream.PublishGlb | backend/app/services/control_plane_mobile.py:82-158 | a publish succeeds if and only if the size is within bounds, the upload capability is for the expected project, and the control plane has the output already or receives over an allowed address a GLB of that size and confirms it for that project and asset; each other kind of error has its exact condition; the status returned is "ready" or the confirmed one; a confirmation is sent only as third request, after such a body, and never after another |
| GlbStream.MaxOutputIs | backend/app/services/control_plane_mobile.py:92 | the limit is 1,048,576 bytes for each configured mebibyte, and at least that many |
| RateLimiter.ExchangeRateHistory.EnforceExchangeRateLimit | backend/app/api/control_plane_mobile.py:54-88 | evicting, filtering and appending in place gives the table and the decision of one limiter step |
| RateLimiter.ExchangeRateHistory.Evict | backend/app/api/control_plane_mobile.py:74-78 | popping the stale keys one by one leaves exactly the other keys, with their histories |
| RateLimiter.StaleMeansNothingNewer | backend/app/api/control_plane_mobile.py:76 | in a sorted history whose last entry is not newer than the cutoff no entry is, so judging by the last entry is sound |
| RateLimiter.StepRefines | backend/app/api/control_plane_mobile.py:71-88 | one call answers as the limiter that keeps every accepted time does, and keeps table and log in agreement |
| RateLimiter.RunRefines | backend/app/api/control_plane_mobile.py:71-88 | after any calls with a nondecreasing clock the histories are sorted and agree with the complete log on everything inside the window |
| RateLimiter.SameDecisions | backend/app/api/control_plane_mobile.py:71-88 | over every such run each call is accepted exactly when fewer than 10 accepted calls of that client lie in (now - 60, now] |
| RateLimiter.PassedIsAccepted | backend/app/api/control_plane_mobile.py:71-88 | over every run with a nondecreasing clock the calls the table lets pass are those the forgetless limiter accepts |
| RateLimiter.PassesExactlyWhen | backend/app/api/control_plane_mobile.py:71-88 | over every run with a nondecreasing clock a call passes if and only if fewer than ten calls of its client passed in the sixty seconds before it |
| RateLimiter.AtMostTenPerWindow | backend/app/api/control_plane_mobile.py:23-24 | the evicting table itself never lets more than 10 calls of one client pass in any window (t - 60, t], for every t |
| RateLimiter.AtMostTenInSixtySeconds | backend/app/api/control_plane_mobile.py:23-24 | the same as a count of the calls that passed in any sixty seconds |
| RateLimiter.TableStaysBounded | backend/app/api/control_plane_mobile.py:74-78 | after any call on any table: at most 101 keys, or every key has a timestamp newer than that call's cutoff |
| RateLimiter.OtherClientsStay | backend/app/api/control_plane_mobile.py:74-78 | a call takes from the table exactly those other clients whose last time is sixty seconds old or older, and only when the table has more than 100 keys |
| RateLimiter.OwnTimesAreRecent | backend/app/api/control_plane_mobile.py:80-88 | of its own client a call keeps exactly the times of the last sixty seconds, and adds its own if it passes |
| AssetVersions.TokenIsFixed | backend/app/services/asset_versions.py:180-184 | normalising a normalised token changes nothing, so normalising in publish and again in next_version_number addresses the same slot |
| AssetVersions.TokenIsSpelled | backend/app/services/asset_versions.py:180-184 | a text is accepted as a token if and only if it is, between any white space and in any letter case, 1 to 120 characters of a-z, 0-9, underscore and dash that start with a letter or digit; and those are the token |
| AssetVersions.ValidatesInCharacters | backend/app/services/asset_versions.py:57-70 | the checks before the lock pass if and only if type and key spell such tokens, the status is published or ready, there are file types, all different, and both or neither of the legacy fields |
| AssetVersions.BuildableInCharacters | backend/app/services/asset_versions.py:78-105 | the row can be built if and only if the source type and every file type spell tokens and the file fields are valid |
| AssetVersions.RowCarriesTheRequest | backend/app/services/asset_versions.py:78-105 | every field of the new version is the request's field of that name, tokens in their normal form |
| AssetVersions.RawFileTypeCheckIsNotEnough | backend/app/services/asset_versions.py:63-90 | file types "a" and "A" pass the uniqueness check and collide after normalisation |
| AssetVersions.NormalFileTypesAreCheckedExactly | backend/app/services/asset_versions.py:63-90 | on file types that are already normal the check and the table's constraint are the same |
| AssetVersions.MaxIsCount | backend/app/services/asset_versions.py:107-117 | in a gap-free table the aggregate maximum is the number of rows of the slot |
| AssetVersions.LockedNumberIsFree | backend/app/services/asset_versions.py:76-83 | a number read under the project lock is still free when the row is inserted, among committed rows, the own ones and every other transaction's |
| AssetVersions.LockedInsertDecides | backend/app/models/entities.py:299-345 | under the lock the version number never violates its unique constraint; the flush succeeds exactly when row id and legacy link are new, the normalised file types distinct and, where widths are enforced, every text fits its column |
| AssetVersions.ValidTokensMayNotFit | backend/app/models/entities.py:312-318 | a version fits its columns if and only if none of its types has more than 32 characters, and there are tokens of 33 |
| AssetVersions.RunKeepsInv | backend/app/services/asset_versions.py:43-124 | every interleaving of check, lock, read, insert, commit and rollback of any number of transactions keeps: numbers gap-free, ids unique, parents earlier rows of the same project, locks exclusive, and each transaction's numbers valid for the moment it commits |
| AssetVersions.CommittedNumbersAreGapFree | backend/app/services/asset_versions.py:107-124 | after any interleaving the committed numbers of each (project, type, key) are exactly 1, 2, .. n in commit order |
| AssetVersions.LineageEnds | backend/app/services/asset_versions.py:71-74 | a walk along parent links is no longer than the row's position and never leaves its project |
| AssetVersions.CommittedLineagesEnd | backend/app/services/asset_versions.py:71-74 | after any interleaving every lineage walk in the committed table ends |
| AssetVersions.ListPublished | backend/app/services/asset_versions.py:151-170 | the listing contains exactly the published rows of the slot |
| AssetVersions.ListingDescends | backend/app/services/asset_versions.py:151-170 | the listing is strictly descending in version number, so the order's tie-break is never used |
| AssetVersions.LatestIsHighest | backend/app/services/asset_versions.py:126-143 | the latest version is the published or ready one with the highest number of its slot, and there is none only where none is published or ready |
| AssetVersions.CommitMakesLatest | backend/app/services/asset_versions.py:126-143 | once a transaction commits, the last published version it inserted in a slot is the latest one readers get |
| AssetVersions.AssetVersionService.CheckRequest | backend/app/services/asset_versions.py:57-74 | a request passes exactly when its tokens, status, files, legacy pair and parent are valid; otherwise nothing changes |
| AssetVersions.AssetVersionService.LockProject | backend/app/services/asset_versions.py:119-124 | the project row is locked if it exists, otherwise the call ends with not-found |
| AssetVersions.AssetVersionService.ReadNumber | backend/app/services/asset_versions.py:107-117 | the number read is the slot's maximum among visible rows plus one |
| AssetVersions.AssetVersionService.Flush | backend/app/services/asset_versions.py:78-105 | the row is added with the normalised fields, or a field is invalid and nothing is added, or a unique constraint ends the transaction |
| AssetVersions.AssetVersionService.PublishLocked | backend/app/services/asset_versions.py:78-105 | from the locked project on, success adds one row whose number is the slot's count plus one; every failure leaves no row |
| AssetVersions.AssetVersionService.Publish | backend/app/services/asset_versions.py:43-105 | an uninterrupted call is the run of its four statements, keeps the invariant and commits nothing; it succeeds, finds the request invalid or finds no project each under its exact condition; on success the new pending row is the request's, with the next number of its slot |
| Backfill.BackfillModelVersions | backend/alembic/versions/20260702_0008_cloud_asset_versions.py:174-217 | the dictionary counter always equals the table's maximum, so the loop builds the table that one-by-one publishing with max + 1 would |
| Backfill.BackfilledRowIs | backend/alembic/versions/20260702_0008_cloud_asset_versions.py:174-217 | each model becomes one row under "model" and "primary", numbered by its place among its project's models, with its status and source or "ready" and "scan", no parent and a link to the model |
| Backfill.BackfillIsSound | backend/alembic/versions/20260702_0008_cloud_asset_versions.py:189-217 | the backfilled table is gap-free with unique ids |
| Backfill.NumbersFollowAge | backend/alembic/versions/20260702_0008_cloud_asset_versions.py:176-188 | within a project an older model never gets the higher number |
| Backfill.PublishingContinuesAfterBackfill | backend/alembic/versions/20260702_0008_cloud_asset_versions.py:174-217 | whatever transactions run on the migrated table, every slot stays numbered 1, 2, .. n and every lineage ends |
| ScanSessions.CanonicalIdsDiffer | backend/app/core/control_plane_scan_tokens.py:96-102 | two canonical project ids with the same hex digits are equal, so different projects never share a session id |
| ScanSessions.RunKeepsInv | backend/app/services/scan_sessions.py:78-124 | every interleaving of select, insert or conflict, re-select and edits keeps one row per project with the project's id, and no row disappears or changes owner |
| ScanSessions.CreationIsIdempotent | backend/app/services/scan_sessions.py:78-124 | in every interleaving a returned session is the project's row, with the caller's user and token; a caller that got the conflict faces another user's or token's row |
| ScanSessions.OneSessionPerProject | backend/app/services/scan_sessions.py:78-124 | any two successful callers for one project hold the same session and are the same principal |
| ScanSessions.InsertWrites | backend/app/services/scan_sessions.py:89-113 | an insert adds and returns the session with the caller's user, project, token, name and address under the id scan_cp_ and the project's hex digits, unless project or id is taken: then the table stays and the caller looks again |
| ScanSessions.UneditedRowsAreWhatCallersAskedFor | backend/app/services/scan_sessions.py:89-113 | in every interleaving without edits every row is in all its fields what some caller asked for |
| ScanSessions.ReraiseIsUnreachable | backend/app/services/scan_sessions.py:111-122 | with project ids as the token decoder passes them on (32 lower-case hex digits in five groups), no caller in any interleaving reaches the bare re-raise |
| ScanSessions.UuidHexReadsUuids | backend/app/services/scan_sessions.py:90 | Python's reading of a UUID, which lower-cases and drops dashes, gives the digits of the canonical spelling unchanged |
| ScanSessions.NobodyReraises | backend/app/services/scan_sessions.py:111-122 | the same from no sessions on, with that reading |
| ScanSessions.ReraiseNeedsASecondSpelling | backend/app/services/scan_sessions.py:83-122 | a caller running alone re-raises if and only if its spelling of the project has no row and another spelling of the same UUID has |
| ScanSessions.CreatedSessionStaysReachable | backend/app/services/scan_sessions.py:134-156 | whatever runs afterwards, get_for_actor finds a caller's own session exactly when its completion token is not empty |
| ScanSessions.SessionOpensOnlyToItsCaller | backend/app/services/scan_sessions.py:134-156 | in every interleaving get_for_actor finds a created session if and only if the request carries its caller's user, project and token, and that is not empty |
| ScanSessions.ScanSessionService.CreateControlPlane | backend/app/services/scan_sessions.py:78-124 | the method with arbitrary interference between its statements is a run of the caller's steps and the others', ends in a session, a conflict or the re-raise, keeps the invariant and removes nothing; an existing session is returned to exactly its user and token, and a caller that nobody disturbs adds its own in every field |
| ScanSessions.ScanSessionService.ArriveAndSelect | backend/app/services/scan_sessions.py:83-87 | the first statement returns or refuses an existing session, and otherwise goes on to insert |
| ScanSessions.ScanSessionService.Insert | backend/app/services/scan_sessions.py:89-113 | the second statement adds the caller's session if and only if neither project nor id is taken |
| CloudSession.EveryInterleaving | frontend/src/api/cloudSession.ts:41-168 | every interleaving of all segments keeps: the running refresh calls are exactly the one in refreshInFlight, and a null refresh token implies a null user id |
| CloudSession.AtMostOneRefreshOutstanding | frontend/src/api/cloudSession.ts:94-102 | from a first start, at any moment at most one /auth/refresh is unanswered |
| CloudSession.OnlyRejectionOrSignOutDeletes | frontend/src/api/cloudSession.ts:109-168 | only a 401 or 403 on refresh or a sign-out deletes the saved session, and memory loses its token only together with the store or on a restart |
| CloudSession.SavedSessionSurvives | frontend/src/api/cloudSession.ts:80-83 | over every run without a 401 or 403 on refresh and without a sign-out, restarts and errors included, the saved session is kept |
| CloudSession.StoreMirrorsMemory | frontend/src/api/cloudSession.ts:41-176 | in every interleaving from a first start, while memory holds a token and the store a session, both hold the same token and the same user |
| CloudSession.SessionBelongsToLastNamed | frontend/src/api/cloudSession.ts:53-78 | from any moment with a session up to the next sign-out, rejection or restart, whatever runs: the user, in memory and in the store, is the one named last by a sign-in with a user or a remember, and the earlier one if there was none |
| CloudSession.SessionBegins | frontend/src/api/cloudSession.ts:41-78 | a session comes into an empty memory only from a sign-in, with its user; from a restore, with the saved user; or from a refresh that outlives a sign-out, with none |
| CloudSession.CloudSessionModule.RefreshCloudSession | frontend/src/api/cloudSession.ts:95-102 | joins the refresh in flight, or starts one that sends the current token and settles at once without one; calling it again sends nothing |
| CloudSession.CloudSessionModule.RefreshReceives | frontend/src/api/cloudSession.ts:139-156 | a rotation is on record once the answer is there; everything but a rejection keeps token and store, a rejection clears token, user and store |
| CloudSession.CloudSessionModule.RefreshReads | frontend/src/api/cloudSession.ts:157-167 | a usable new token is in memory and in the store before anything else may run; an unusable or lost body keeps both |
| CloudSession.CloudSessionModule.AdoptCloudSession | frontend/src/api/cloudSession.ts:62-78 | a sign-in with a well-formed refresh token puts that token, and the given user or else the old one, into memory and store; any other leaves token, user and store as they were |
| CloudSession.CloudSessionModule.RememberCloudSessionUser | frontend/src/api/cloudSession.ts:53-59 | records and saves the user exactly while there is a refresh token; a second call with the same user changes nothing |
| CloudSession.CloudSessionModule.LoadSavedCloudSession | frontend/src/api/cloudSession.ts:41-50 | a saved session is taken only while memory holds none, and then with its token and its user |
| CloudSession.CloudSessionModule.SignOutCloudSession | frontend/src/api/cloudSession.ts:109-113 | up to its first await: logs out with a live access token, renews without one, forgets at once without a session |
| CloudSession.CloudSessionModule.SignOutContinues | frontend/src/api/cloudSession.ts:112-124 | each continuation: a 401 renews, a successful renewal logs out again, everything else forgets the session; when the call is over nothing is left |
| CloudSession.CloudSessionModule.ForgetLocally | frontend/src/api/cloudSession.ts:120-124 | token, user, access token and saved session are gone |
| CloudSession.CloudSessionModule.SavePersisted | frontend/src/api/cloudSession.ts:170-176 | the store holds the current token and user, or is untouched without a token |
| TokenReplay.SegmentDooms | frontend/src/api/cloudSession.ts:41-168 | while no replaced token is held without a usable successor on its way, a segment of any call leaves one so held if and only if it is one of four: a rotating answer that cannot be used, a usable body lost on the way, the app ending before that body is read, or the late half of a restore; each while the token is still in memory or store |
| TokenReplay.RefreshReplaysExactlyAfterABreak | frontend/src/api/cloudSession.ts:41-168 | over every run without such a segment, restarts included, no token KusShoes answered with a rotation is sent to /auth/refresh again; and a segment is such a one if and only if a continuation without any more of them sends one |
| TokenReplay.LogoutReplaysExactlyWhileReading | frontend/src/api/cloudSession.ts:109-132 | over every such run a replaced token is sent to /auth/logout if and only if some sign-out posts while the successor of the token in memory is still being read |
| TokenReplay.FirstStartIsClean | frontend/src/api/cloudSession.ts:25-27 | a first start, with or without a saved session, is where the run theorems begin |
| TokenReplay.DoomedReplays | frontend/src/api/cloudSession.ts:84-102 | wherever a replaced token is held without a successor on its way, a run without a further break sends it to /auth/refresh |
| TokenReplay.RestartReplays | frontend/src/api/cloudSession.ts:157-166 | a concrete run: the app ends while the body with the successor is being read |
| TokenReplay.UnusableAnswerReplays | frontend/src/api/cloudSession.ts:157-161 | a concrete run: the successor comes with an access token that cannot be stored |
| TokenReplay.LostBodyReplays | frontend/src/api/cloudSession.ts:157 | a concrete run: the connection breaks while the body is being read |
| TokenReplay.SplitRestoreReplays | frontend/src/api/cloudSession.ts:41-50 | a concrete run: two overlapping restores, a rotation and a sign-out between them |
| TokenReplay.SignOutReplays | frontend/src/api/cloudSession.ts:109-132 | a concrete run: a sign-out with a live access token posts the replaced token while its successor is being read |
| KiriPipeline.RunKeepsInv | backend/app/services/kiri_pipeline.py:68-292 | any run of calls that nothing interrupts, with any provider answers, failures and dying workers, keeps the shape of task and scan |
| KiriPipeline.StatusTellsWhatTheTaskHas | backend/app/services/kiri_pipeline.py:68-292 | in every state that such runs reach QUEUED has neither serialize id nor GLB, PROCESSING a serialize id and no GLB, the crop and ready statuses both, EXPIRED no GLB |
| KiriPipeline.ReadyIsFinalAndPublishedOnce | backend/app/services/kiri_pipeline.py:404-448 | over every run of calls that nothing interrupts READY is absorbing and published (asset id and publish time, or one local asset), the GLB is never cleared, and at most one control-plane result is ever recorded |
| KiriPipeline.ProgressDropsOnlyOnFailure | backend/app/services/kiri_pipeline.py:322-334 | over every such run in which the task never enters FAILED or EXPIRED the reported progress does not fall |
| KiriPipeline.ExactlyOneRestart | backend/app/services/kiri_pipeline.py:68-240 | in every state that such runs reach a failed or expired task is restarted by create_task exactly when it has no GLB and by queue_save exactly when it has one; the other call does nothing |
| KiriPipeline.CanFinishExactlyWhenNotStuck | backend/app/services/kiri_pipeline.py:119-292 | from every state that such runs reach READY can be reached if and only if it is already, or no worker died uploading without a scheduled start that can resume it, the owner is complete, and no GLB is stored that publishing refuses (a control-plane model not recorded yet, out of size bounds or with a header that does not declare it) |
| KiriPipeline.OldGlbNeverFinishes | backend/app/services/kiri_pipeline.py:399-402 | a model with the right first four bytes and length but glTF version 1 is stored by a poll, and READY cannot be reached from then on |
| KiriPipeline.PublishableExactlyWhenSomeAnswerSucceeds | backend/app/services/control_plane_mobile.py:82-158 | the test on the stored bytes is exactly whether publish_glb can succeed on them for some answers of a control plane that does not have the output yet |
| KiriPipeline.StuckForever | backend/app/services/kiri_pipeline.py:119-124 | a task killed in UPLOADING with its serialize id stored, or with no start scheduled, stays there whatever is asked afterwards |
| KiriPipeline.SafeMessageIsSafe | backend/app/services/kiri_pipeline.py:450-453 | a stored error has at most 2000 characters and never reads as the provider's word for success |
| KiriPipeline.SafeMessageIs | backend/app/services/kiri_pipeline.py:450-453 | it is the first 2000 characters of the message, or the fixed text if those spell success |
| KiriDecisions.PollDecides | backend/app/services/kiri_pipeline.py:163-191 | a poll of a PROCESSING task: READY_FOR_CROP with the delivered bytes if and only if the word is successful, success or completed and the download worked; EXPIRED if and only if it is expired; still PROCESSING on uploading, queuing, queued, processing and on an exception, whose first 2000 characters are kept; FAILED if and only if it is any other word, with task, scan and project saying so |
| KiriDecisions.BakeDecides | backend/app/services/kiri_pipeline.py:242-292 | a bake makes the task READY, and scan and project with it, if and only if the GLB is or comes into storage, can be measured, and for a control-plane scan the owner is complete and the model is recorded already or is accepted for that project as raw or ready, and the worker lives; a failure records nothing; a worker that dies leaves what was recorded and the task as it was |
| KiriDecisions.ProgressTells | backend/app/services/kiri_pipeline.py:322-334 | the reported progress of every status; 100 means READY and 0 FAILED or EXPIRED |
| KiriOverlap.ReadyIsFinalExactlyWhenAllIsDone | backend/app/services/kiri_pipeline.py:68-292 | after any run of whole calls and of the parts of any number of overlapping polls, starts, restarts, crops, saves and publish calls: READY is final if and only if every publish call under way has recorded its model and no other call is under way |
| KiriOverlap.SerialBakesPublishOnce | backend/app/services/kiri_pipeline.py:242-292 | as long as no two publish calls overlap, whatever else overlaps: at most one result is recorded, READY means published, and READY is final if and only if no other call is under way |
| KiriOverlap.LatePollUndoesReady | backend/app/services/kiri_pipeline.py:163-191 | a concrete run: a slow poll looks at PROCESSING, another stores the model, it is saved and baked to READY with no publish call left, and the slow poll writes READY_FOR_CROP |
| KiriOverlap.LateExpiryStrands | backend/app/services/kiri_pipeline.py:178-181 | a concrete run: of two polls one stores the model and the other writes EXPIRED, and no run of any calls leaves EXPIRED again |
| KiriOverlap.ExpiredWithGlbStays | backend/app/services/kiri_pipeline.py:68-240 | an expired task with a GLB and nothing under way stays expired over every run |
| KiriOverlap.SecondBakeUndoesReady | backend/app/api/scan_sessions.py:308-313 | a concrete run: two saves, the first bake reaches READY, the second loses its GLB and makes it FAILED |
| KiriOverlap.TwoBakesRecordTwice | backend/app/services/kiri_pipeline.py:404-439 | a concrete run: two bakes both find nothing recorded and each records a result |
| KiriOverlap.WholePoll | backend/app/services/kiri_pipeline.py:163-191 | a poll taken apart and run without interruption is the poll of the service |
| KiriOverlap.WholeRequests | backend/app/services/kiri_pipeline.py:68-240 | so are a restart, a crop and a save, job included |
| KiriOverlap.WholeStart | backend/app/services/kiri_pipeline.py:119-161 | so is a start in its three parts, however it ends |
| KiriOverlap.WholeBake | backend/app/services/kiri_pipeline.py:242-292 | so is a publish call in its four parts, whatever it meets and wherever it dies |
| KiriPipeline.KiriPipelineService.CreateKiriTask | backend/app/services/kiri_pipeline.py:68-104 | creates the task with a new row, restarts a failed or expired one without a GLB keeping nothing but the crop, or changes nothing; each refusal has its exact condition |
| KiriPipeline.KiriPipelineService.Start | backend/app/services/kiri_pipeline.py:119-161 | does nothing on a started or terminal task, fails without a video, and otherwise uploads, with every field left behind at every point where it can raise or die |
| KiriPipeline.KiriPipelineService.RefreshTask | backend/app/services/kiri_pipeline.py:163-191 | the status after a poll, for every word of the provider: ready for crop with the delivered bytes, expired, unchanged or failed, each under its exact condition |
| KiriPipeline.KiriPipelineService.ConfigureCrop | backend/app/services/kiri_pipeline.py:193-203 | a crop is stored in the two crop statuses and refused in all others; nothing else changes |
| KiriPipeline.KiriPipelineService.QueueSaveProject | backend/app/services/kiri_pipeline.py:205-240 | refused without a task, with a stripped name of more than 100 characters on a control-plane scan, or without a GLB; otherwise baking with the stripped name in exactly three statuses, and nothing in the others |
| KiriPipeline.KiriPipelineService.EnsureSourceGlb | backend/app/services/kiri_pipeline.py:246-250 | without an error the task has a GLB that is in storage; otherwise one of the download's errors is raised |
| KiriPipeline.KiriPipelineService.PublishControlPlaneModel | backend/app/services/kiri_pipeline.py:404-439 | without an error asset id and time are both there; a result is added only where they were not; incomplete ownership, an empty GLB, one that publish_glb refuses, and answers for another project raise |
| KiriPipeline.KiriPipelineService.Publish | backend/app/services/kiri_pipeline.py:242-292 | the whole publish: final on READY, every raised error fails the task, a crash leaves what was committed |
| KiriPipeline.KiriPipelineService.FailTask | backend/app/services/kiri_pipeline.py:450-460 | task, scan and project fail with the message's first 2000 characters, which never read as a success; nothing else changes |
| InstallProgress.Reporter.Report | desktop/runtime-installer/src/lib.rs:286-295 | the event list stays the throttled form of all counts reported so far |
| InstallProgress.Reporter.Finish | desktop/runtime-installer/src/lib.rs:297-303 | the final count is emitted exactly once |
| InstallProgress.AtMost202Events | desktop/runtime-installer/src/lib.rs:274-303 | for counts climbing from 0 within a known total a stage emits at most 202 events, from 0 to the final count, in-loop ones at least 1,048,576 bytes apart |
| InstallProgress.NothingElseIsHeldBack | desktop/runtime-installer/src/lib.rs:286-295 | after every report the last event is for that very count, or less than a two-hundredth of the total, or 1,048,576 bytes, behind it |
| InstallProgress.EventsNameCounts | desktop/runtime-installer/src/lib.rs:286-303 | every event carries its stage, the reported counts in their order and the total |
| InstallProgress.PercentFitsU64 | desktop/runtime-installer/src/lib.rs:40-45 | the product inside percent fits 64 bits for every count if and only if the total is at most a hundredth of the range |
| InstallProgress.PercentIsShare | desktop/runtime-installer/src/lib.rs:40-45 | the percentage is the share of the total that is done, rounded down: 0 of nothing, 100 from the total on |
| InstallProgress.OverallIsShare | desktop/src-tauri/src/main.rs:99-122 | 80 hundredths of it while downloading, 80 while verifying, 80 and 19 hundredths while unpacking, rounded down: a finished download shows 80, a finished unpack 99 |
| InstallProgress.OverallGrows | desktop/src-tauri/src/main.rs:99-122 | within a stage the overall percentage follows the byte count, inside 0..80 for the download and 80..99 for unpacking |
| InstallProgress.ShownClimbs | desktop/src-tauri/src/main.rs:82-122 | from the starting event at 0 to the last one at 100, or at 0 after a failure: a successful install is shown as climbing exactly when its events never drop, a failed one exactly when nothing but 0 was shown |
| InstallProgress.OneInstallAtATime | desktop/src-tauri/src/main.rs:329-363 | however requests and finishing threads interleave, at most one install runs and the flag says whether one does |
| RuntimeInstaller.Installer.InstallZip | desktop/runtime-installer/src/lib.rs:95-118 | for any archive, old install and failures: every state the disk passes through has as install folder the old tree (possibly partly removed, only while the complete new tree waits beside it or the swap failed), nothing, or the complete new tree with the executable; only archives with the expected hash are unpacked; it succeeds if and only if every operation works, the expected archive is there or arrives whole, every entry is in order and the executable is among them; otherwise a failing operation gives an I/O error and, if none fails, the error is that of the archive; errors other than I/O leave the old tree; on success the percentage never drops if and only if no archive with another hash lay on disk |
| RuntimeInstaller.InstallProblemIs | desktop/runtime-installer/src/lib.rs:95-248 | which error an install ends with when no operation fails, each if and only if: refused or shorter or longer than announced; another hash; an unreadable archive; a path that leads outside; broken data; no executable among the unpacked files |
| RuntimeInstaller.FirstProblemIs | desktop/runtime-installer/src/lib.rs:202-233 | the first entry that cannot be opened, leads outside or has broken data decides which of these it is |
| RuntimeInstaller.BodyEndsAtEmptyRead | desktop/runtime-installer/src/lib.rs:134-157 | the downloaded body is everything read before the first empty read |
| RuntimeInstaller.UnpackedHolds | desktop/runtime-installer/src/lib.rs:202-233 | a file of the unpacked tree has the data of the last entry with its path |
| RuntimeInstaller.UnpackedComesFrom | desktop/runtime-installer/src/lib.rs:202-233 | and every file of it comes from such an entry |
| RuntimeInstaller.HonestSizesAddUp | desktop/runtime-installer/src/lib.rs:193-199 | where the declared sizes are true, the announced total is what unpacking writes |
| RuntimeInstaller.InstallBlender | desktop/src-tauri/src/main.rs:329-363 | what the shell shows starts at 0, ends at 100 exactly on success with the executable in place, stays within 0..100, and on success climbs if and only if no archive with another hash lay on disk; Blender is installed afterwards if and only if it was before or an install is configured and succeeds |
| RuntimeInstaller.Installer.ObtainArchive | desktop/runtime-installer/src/lib.rs:102-113 | ends with an archive of the expected hash on disk, reusing one found there exactly if it has that hash, or with an error and the install untouched |
| RuntimeInstaller.Installer.Download | desktop/runtime-installer/src/lib.rs:120-177 | success leaves a verified archive and no part file; failure leaves the previous download |
| RuntimeInstaller.Installer.FetchBody | desktop/runtime-installer/src/lib.rs:134-172 | the loop's file is the concatenation read; only a complete body with the expected hash is renamed into place, and its events are throttled |
| RuntimeInstaller.Installer.Accept | desktop/runtime-installer/src/lib.rs:158-171 | after the body: the stage is closed, and the part file becomes the download exactly on success, with the expected hash and the announced length; any error leaves both as they were |
| RuntimeInstaller.Installer.UnpackEntry | desktop/runtime-installer/src/lib.rs:208-232 | one entry adds exactly its file to the staging tree, or is refused for an unsafe path or broken data |
| RuntimeInstaller.Installer.UnpackEntries | desktop/runtime-installer/src/lib.rs:202-233 | the loop builds exactly the archive's tree, later entries winning, with a climbing byte count |
| RuntimeInstaller.Installer.Unpack | desktop/runtime-installer/src/lib.rs:189-233 | a verified archive is unpacked into a fresh staging folder, the install folder untouched |
| RuntimeInstaller.Installer.Swap | desktop/runtime-installer/src/lib.rs:235-242 | the old tree goes only while the complete new one waits; success installs exactly the staging tree |
| RuntimeInstaller.Installer.Extract | desktop/runtime-installer/src/lib.rs:179-248 | success installs the complete new tree and leaves no staging; failure clears the staging folder and before the swap leaves the install untouched |
| RuntimeInstaller.Installer.RemoveInstall | desktop/runtime-installer/src/lib.rs:238-240 | removing the old tree file by file leaves only parts of it at any moment |
| RuntimeInstaller.Installer.RemoveStaging | desktop/runtime-installer/src/lib.rs:186-246 | removing the staging folder file by file touches nothing else and may stop anywhere |
| RuntimeInstaller.DropsOnlyWhenStale | desktop/runtime-installer/src/lib.rs:95-118 | the events of a whole install are throttled stages, and the percentage drops only after a stale archive |
| RuntimeInstaller.FreshInstallNeverDrops | desktop/runtime-installer/src/lib.rs:95-118 | a successful install that finds no archive on disk is shown as climbing from 0 to 100 |
| BakedPreview.EditorState.ClearBakedPreview | frontend/src/App.tsx:676-679 | forgets the render and with it which layers are hidden |
| BakedPreview.EditorState.LoadBakedPreview | frontend/src/App.tsx:996-1016 | with any edits made during the fetch: the render and the ids of the saved design's layers are set together exactly when a ready preview could be fetched; otherwise both are cleared |
| BakedPreview.EditorState.HandleConfigChange | frontend/src/App.tsx:1203-1215 | without the right to edit nothing changes; with it the new design is stored, and the render stays if and only if it is shown and there was no design or the new one keeps the baked layers |
| BakedPreview.EditorState.ReloadLatestDesign | frontend/src/App.tsx:1095-1103 | the design is replaced, and render and hidden layers stay |
| BakedPreview.CanKeepBakedPreview | frontend/src/App.tsx:2547-2571 | the loop answers whether colour, material and every baked layer are unchanged |
| BakedPreview.HydratedPreviewIsLoaded | frontend/src/App.tsx:996-1016 | a render loaded for a saved design fits the editor's copy, whose preview addresses were filled in |
| BakedPreview.EditsKeep | frontend/src/App.tsx:1203-1215 | over any run of edits, while the render is shown colour, material and every baked layer's stored content are those at load |
| BakedPreview.RenderStaysExactlyWhenEditsKeepIt | frontend/src/App.tsx:1203-1215 | over any run of edits the render stays, with its layers, if and only if every permitted edit keeps the baked layers of the design it was shown with |
| BakedPreview.DesignIsLastPermitted | frontend/src/App.tsx:1203-1215 | over any run of edits the design is the last one that came with the right to edit |
| BakedPreview.KeptPreviewShowsTheDesign | frontend/src/App.tsx:2547-2594 | over any run of edits, while the render is shown, baked plus visible live layers are exactly the design's layers, each once, if and only if no baked id occurs twice in the design |
| BakedPreview.ScreenIsRightExactlyWhenUnique | frontend/src/App.tsx:445 | the same for any one design that kept the baked layers |
| BakedPreview.RightExactlyWhenKept | frontend/src/App.tsx:2547-2571 | for any rendered design with unique ids and any present one, colour, material and the layers on screen are those of the present design if and only if canKeepBakedPreview would keep the render and no baked id occurs twice |
| BakedPreview.LoadedPreviewIsRightExactlyWhenNotOvertaken | frontend/src/App.tsx:996-1016 | with any edits during the fetch and any after it, while that render is shown the picture is right if and only if the design at its arrival kept the rendered layers and no baked id occurs twice now |
| BakedPreview.EditDuringLoadShowsTheOldRender | frontend/src/App.tsx:1003-1009 | a sticker changed during the fetch is hidden as it is and shown as it was |
| BakedPreview.ReloadedDesignIsRightExactlyWhenKept | frontend/src/App.tsx:1095-1109 | after a reload of the latest design and any edits, while a render is shown the picture is right if and only if the reloaded design keeps the rendered layers and no baked id occurs twice |
| BakedPreview.DuplicateIdLosesALayer | frontend/src/App.tsx:2573-2575 | a text with a baked sticker's id is kept out of both pictures |
| FrameHash.ComputeAverageHash | backend/app/services/reconstruction.py:498-515 | the loops compute the integer whose bit i says whether block i is at least as bright as the mean of the block means |
| FrameHash.ReadBlock | backend/app/services/reconstruction.py:501-508 | the values collected for a block are as many as its area and sum to the block's rectangle of pixels |
| FrameHash.SetBits | backend/app/services/reconstruction.py:510-515 | or-ing shifted ones sets exactly the bits of the bright blocks |
| FrameHash.OrHigherBit | backend/app/services/reconstruction.py:514 | or-ing in a bit above all set ones adds its value |
| FrameHash.BlocksPartitionPixels | backend/app/services/reconstruction.py:499-508 | on sides divisible by 8 the 64 block sums add up to the sum of all pixels |
| FrameHash.ThresholdIsPixelMean | backend/app/services/reconstruction.py:510 | on such sides the mean of the block means is the mean of the pixels |
| FrameHash.HashRange | backend/app/services/reconstruction.py:498-515 | every hash is below 2^64 and never zero |
| FrameHash.HashIgnoresBrightness | backend/app/services/reconstruction.py:498-515 | adding a constant to all pixels changes no bit, for every width and height |
| FrameHash.HammingIsMetric | backend/app/services/reconstruction.py:517-518 | the bit count of the xor is zero only for equal hashes, symmetric, and satisfies the triangle inequality |
| FrameHash.HammingCountsBlocks | backend/app/services/reconstruction.py:517-518 | the distance of two hashes is the number of blocks on which they disagree |
| FrameHash.ComputeLaplacianScore | backend/app/services/reconstruction.py:481-496 | the loops average the Laplacian magnitude over exactly the interior pixels |
| FrameHash.SharpnessIgnoresBrightness | backend/app/services/reconstruction.py:481-496 | adding a constant to all pixels leaves the sharpness unchanged |
| FrameHash.SharpnessRange | backend/app/services/reconstruction.py:481-496 | on grey pixels the score lies in 0..1020 |
| FramePatterns.HashBitIs | backend/app/services/reconstruction.py:498-515 | on sides divisible by 8, bit 8y + x of the hash says whether block (x, y) is at least as bright as the whole frame |
| FramePatterns.OneBrightPixelHash | backend/app/services/reconstruction.py:498-515 | on such sides a single bright pixel sets the bit of its own block and no other |
| FramePatterns.BrightPixelScores | backend/app/services/reconstruction.py:487-495 | a single bright pixel v has the Laplacian 4v at itself, -v at its four neighbours and 0 elsewhere |
| FramePatterns.OneBrightPixelSharpness | backend/app/services/reconstruction.py:481-496 | away from the border it counts eight times in a mean over (width - 2) times (height - 2) pixels |
| FramePatterns.SharpnessIgnoresOrientation | backend/app/services/reconstruction.py:481-496 | mirroring or transposing a frame, of any width and height, leaves its sharpness unchanged |
| FrameSelection.FilterFrames | backend/app/services/reconstruction.py:166-221 | the selected frames are in order exactly those that are fine when compared with those chosen before them; the counters count the reasons, the averages are over the analysed frames, and it fails exactly with nothing selected |
| FrameSelection.AnyWithin | backend/app/services/reconstruction.py:197-201 | the scan finds a hash within the threshold exactly when there is one |
| FrameSelection.GreedyIsUnique | backend/app/services/reconstruction.py:166-221 | there is only one such selection, so the specification determines the loop's result |
| FrameSelection.SelectedExactlyWhen | backend/app/services/reconstruction.py:166-221 | a frame is chosen if and only if it could be analysed, is bright and sharp enough, differs by more than the threshold from each of the last eight frames chosen before it, and fewer than the limit were chosen before it |
| FrameSelection.InvalidAre | backend/app/services/reconstruction.py:184-187 | the first counter counts the frames that could not be analysed |
| FrameSelection.DarkAre | backend/app/services/reconstruction.py:190-192 | the second the analysed ones below the brightness asked for |
| FrameSelection.BlurryAre | backend/app/services/reconstruction.py:193-195 | the third those bright enough and below the sharpness asked for |
| FrameSelection.DuplicateAre | backend/app/services/reconstruction.py:196-202 | the fourth the bright and sharp ones within the threshold of one of the last eight chosen before |
| FrameSelection.OverLimitAre | backend/app/services/reconstruction.py:203-205 | the fifth the others for which the limit was reached |
| FrameSelection.SelectedAreFewAndDistinct | backend/app/services/reconstruction.py:197-211 | any two chosen frames at most 8 choices apart differ by more than the threshold |
| FrameSelection.SelectedWithinLimit | backend/app/services/reconstruction.py:204-206 | never more frames than the limit are chosen |
| FrameSelection.CountersAddUp | backend/app/services/reconstruction.py:166-221 | chosen frames plus the five counters are the extracted frames |
| FrameSelection.NothingSelectedExactlyWhenNothingUsable | backend/app/services/reconstruction.py:213-214 | a pass comes out empty exactly when the limit admits nothing or no frame is readable, bright and sharp enough |
| FrameSelection.AnalyzeFrame | backend/app/services/reconstruction.py:223-253 | a frame that cannot be decoded or has not 4096 bytes is invalid; otherwise it has its mean, sharpness and hash at 64 by 64 |
| FrameSelection.OtherExposureIsRejected | backend/app/services/reconstruction.py:166-221 | the same picture at another exposure is rejected while the first is in the window |
| FrameSelection.QualityTotals | backend/app/services/reconstruction.py:380-395 | the report's loops sum the passes and clamp the coverage score |
| FrameSelection.TotalsAdd | backend/app/services/reconstruction.py:380-387 | over one more pass each total grows by that pass's own count |
| FrameSelection.CoverageIsShare | backend/app/services/reconstruction.py:393-395 | the coverage score is the chosen frames' share of the frames asked for, in per cent |
| FrameSelection.TotalsAddUp | backend/app/services/reconstruction.py:380-387 | over all passes chosen plus rejected is extracted, and chosen at most the limit times the passes |
| FrameSelection.CoverageNeedsNoClamp | backend/app/services/reconstruction.py:393-395 | the coverage score is within 0..100 before it is clamped |
| CropGeometry.MatMulComposes | backend/app/services/crop_math.py:31-42 | transform_point of a product is the composition of transform_point, and products of affine matrices are affine |
| CropGeometry.AxisChangeInverts | backend/app/services/crop_math.py:44-48 | blender_to_gltf and the importer's axis change, (x, y, z) to (x, -z, y), undo each other |
| CropGeometry.EulerTurns | backend/app/services/crop_math.py:50-57 | the rotation of a crop turns about z, then y, then x, and is affine |
| CropGeometry.RotationIs | backend/app/services/crop_math.py:50-57 | in coordinates: what a turn about each axis does to a point, for every angle |
| CropGeometry.QuarterTurns | backend/app/services/crop_math.py:50-57 | a quarter turn about x takes y to z, about y takes z to x, about z takes x to y |
| CropGeometry.CutterPlaces | backend/app/services/crop_math.py:71-91 | the cutter stretches, turns, moves and changes axes, in that order, for every crop and point |
| CropGeometry.BoxPointIs | backend/app/services/crop_math.py:71-91 | for every crop the cutter puts a point of the unit cube, in glTF axes, at the model's centre plus the crop's centre in shares of the model's sides plus the stretched and turned point |
| CropGeometry.BoxCentreIs | backend/app/services/crop_math.py:71-91 | whatever the rotation, the centre of the box lies there, coordinate by coordinate |
| CropGeometry.FacesAre | backend/app/services/crop_math.py:71-91 | without rotation the faces lie half a side from it along each axis |
| CropGeometry.ScaleIs | backend/app/services/crop_math.py:76-77 | a side is the crop's share of the model's side, or 0.000001 if that is less |
| CropGeometry.DefaultCropEnclosesModel | backend/app/services/crop_math.py:59-91 | for every non-empty corner list each corner is the image under the default cutter of a point of the centred unit cube |
| CropGeometry.BoundsHoldCorner | backend/app/services/crop_math.py:59-69 | relative to the computed centre and the floored size each corner has coordinates within -0.5..0.5, flat models included |
| CropGeometry.BoundsAreTight | backend/app/services/crop_math.py:59-69 | along each glTF axis no corner lies outside the bounds and some corner lies on either side of them; there are bounds exactly for a model with corners |
| CropGeometry.CutterKeepsDot | backend/app/services/crop_math.py:71-91 | for every rotation the cutter's linear part keeps inner products up to the floored sizes |
| CropGeometry.CutterIsABox | backend/app/services/crop_math.py:71-91 | its columns are pairwise orthogonal, and as long as the floored sizes, which are positive |
| CropGeometry.ClosedFormIsProduct | backend/app/services/decal_baker.py:904-915 | for all angles the decal script's closed-form matrix is Rx Ry Rz as the crop maths builds it |
| CropGeometry.QuarterTurnIsAxisChange | backend/app/services/decal_baker.py:891-892 | the decal script's quarter turn about x is the crop maths' axis change |
| CropGeometry.DecalPlacedAsCrop | backend/app/services/decal_baker.py:886-901 | for every position, rotation and point the decal script's matrices place it where the crop maths' rotation, translation and axis change do |
| DecalGeometry.CreateGrid | backend/app/services/decal_baker.py:747-771 | the nested loops produce the points, uvs and faces of the specified grid |
| DecalGeometry.CutsAre | backend/app/services/decal_baker.py:748 | as many cells along a side as asked for, but from 4 to 128 |
| DecalGeometry.GridIsCentred | backend/app/services/decal_baker.py:747-762 | the grid runs from minus half to half the width and the height, in equal steps |
| DecalGeometry.ListFaces | backend/app/services/decal_baker.py:764-771 | the index arithmetic names the four corners of each cell |
| DecalGeometry.PointIsAtIndex | backend/app/services/decal_baker.py:755-771 | the vertex at a computed index exists and is that grid point |
| DecalGeometry.PointIndicesDiffer | backend/app/services/decal_baker.py:764-771 | different grid points have different indices |
| DecalGeometry.UvsFollowPoints | backend/app/services/decal_baker.py:755-762 | the uv at every index is the share of the rectangle at which that vertex lies |
| DecalGeometry.FaceIsCell | backend/app/services/decal_baker.py:764-771 | every face has four different existing vertices and encloses its share of the area; it is walked counter-clockwise if and only if width times height is positive |
| DecalGeometry.GridCoversTheRectangle | backend/app/services/decal_baker.py:747-771 | all listed faces are such cells and together have exactly the area of the rectangle |
| DecalGeometry.NeighboursShareAnEdge | backend/app/services/decal_baker.py:764-771 | neighbouring faces walk their common edge in opposite directions |
| DecalGeometry.EdgesAreWalkedOnce | backend/app/services/decal_baker.py:764-771 | no directed edge belongs to two faces |
| DecalGeometry.NormalizeSvgMesh | backend/app/services/decal_baker.py:831-850 | the vertices, rewritten in place, are the fitted outline of the old ones |
| DecalGeometry.ExtentIs | backend/app/services/decal_baker.py:840-841 | the extent an outline is fitted by is what its coordinates span, or 0.0001 if that is less |
| DecalGeometry.OutlineFits | backend/app/services/decal_baker.py:831-850 | every vertex of a fitted outline lies in the centred rectangle, flat, at its distance from the middle times one common factor |
| DecalGeometry.OutlineTouchesItsRectangle | backend/app/services/decal_baker.py:838-843 | unless it is thinner than the floor, the outline touches two opposite sides of its rectangle |
| DecalGeometry.NoLargerScaleFits | backend/app/services/decal_baker.py:838-843 | any larger factor moves some vertex of such an outline out of the rectangle |

## Left out

- Databases, HTTP, object storage and subprocesses appear only through their outcomes: tables with their unique constraints and row locks, answers, raised errors.
- Deleting projects, sessions, assets or versions; foreign keys; commits that fail on their own.
- KiriPipeline.RunKeepsInv: a call is one step there; calls that overlap are the subject of KiriOverlap, which promises less.
- KiriPipeline.CanFinishExactlyWhenNotStuck: Kiri delivers one model per serialize id, the size limit stays as configured, and the control plane reports an output as received only after this scan sent it; other answers are free from call to call.
- KiriOverlap.ReadyIsFinalExactlyWhenAllIsDone: each part of a call sees and writes the rows as they are when it runs; values a database session has cached, two first requests inserting the task at once, and a second local asset refused by its unique constraint are not modelled.
- KiriPipeline.StatusTellsWhatTheTaskHas: says nothing about the scan's own status, which an upload notice may rewrite at any time, nor about the project's, which EXPIRED leaves alone.
- Kiri ZIP extraction, cost reporting, preview tickets, crop-box parsing, and how a GLB is measured beyond whether that raises.
- AssetVersions.AssetVersionService.CheckRequest: an empty parent id counts as none; the canonical-name, storage-key and content-type validators are one flag.
- AssetVersions.LockedInsertDecides: the widths of columns other than those for types are one flag.
- AssetVersions.AssetVersionService.Publish: is stated for a call that need not wait; interleaved and waiting calls are covered by AssetVersions.RunKeepsInv on the same steps.
- Backfill.BackfillModelVersions: the files, source types and timestamps copied with each row are not modelled.
- ScanSessions.ScanSessionService.CreateControlPlane: the metadata object stored with a new session, and token decoding beyond the canonical project id.
- TokenReplay.RefreshReplaysExactlyAfterABreak: store operations succeed in issue order, also one issued just before the app ends; a rotation whose answer never arrives is unknown to the app and not counted.
- CloudSession.CloudSessionModule.AdoptCloudSession: an adopt or sign-out during a refresh in flight can be overwritten by its answer; nothing else is claimed about that race. The token pattern is one flag.
- RuntimeInstaller.Installer.InstallZip: a failed final rename can lose the old install, as the code allows; fsync, torn writes, empty directories, timestamps and other writers to the same folders are not modelled, and SHA-256 and the zip format are parameters.
- InstallProgress.PercentFitsU64: percentages are over unbounded integers; for larger totals only the overflow is characterised.
- BakedPreview.KeptPreviewShowsTheDesign: compares which layers are drawn, not their stacking order, nor JSON key order, nor React's rendering between two state updates; of two loads under way at once only the last to arrive is covered.
- RateLimiter.SameDecisions: one process and atomic calls; several workers each keep their own table. Finding the client address behind proxies is not modelled.
- FrameHash.ComputeAverageHash: averages are exact reals, so the floating-point rounding of a block exactly at the mean is not captured; the same holds for every measure and matrix here.
- FrameSelection.QualityTotals: the rounding in the report and its confidence label.
- CropGeometry.CutterPlaces: an angle is its cosine and sine on the unit circle, not degrees; a quarter turn is (0, 1), and the script's conversion of a matrix back to Euler angles is Blender's.
- DecalGeometry.CreateGrid: the conversion of subdivisions, width and height from text, and the Blender mesh built from the lists.
- FFmpeg, COLMAP, OpenMVS and Blender themselves, mesh cleanup, raycasts and Booleans, text and imported decals beyond their fitting.
- Authentication, cookies, signatures, URL and path allowlists, schemas, CRUD routes, the other migrations, and the user interface beyond preview reuse.
