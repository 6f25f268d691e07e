# Verified models of the core runtime

Six parts of the repository are modelled here in Dafny and their promises are
proved for every input and every interleaving.

| component | modules |
|---|---|
| Leased browser-session store with optimistic merge (`apis/runtime/logtobff`) | `SessionPolicy`, `SessionAtomic`, `SessionOutcomes`, `SessionLease`, `SessionStore` |
| Upload sessions with fencing tokens (`fileupload`), multipart lists (`storage`) | `UploadMachine`, `UploadSafety`, `UploadObjects`, `UploadSharing`, `UploadDiscipline`, `UploadService`, `Multipart` |
| Task queue with retries and step dependencies (`task`) | `TaskModel`, `TaskMachine`, `TaskRules`, `TaskTable` |
| One-time codes (`verification`) | `RateWindow`, `OneTimeCode`, `CodeRules`, `RateTightness`, `CodeStore` |
| Department forest check (`apis/runtime/logtodirectory`) | `DepartmentForest` |
| Strict JSON objects in compact JOSE (`apis/runtime/auth`) | `StrictJson` |

Concurrent components come in two layers. A *machine* has one event per atomic
step: a Lua script, a conditional UPDATE, a transaction, a clock tick, an expiry,
or something that happens outside the database such as a slow object delete. A
run is any sequence of such events, so a theorem about runs covers every
interleaving. The *classes* are the procedures as the program performs them on
its fields; their postconditions tie each procedure to the machine's functions.

- **Sessions.** `SessionAtomic` treats each use of a session as one atomic
  read-modify-write. `SessionLease` has separate lock and record keys, either of
  which may vanish at any moment, and lease holders that work on the copy their
  acquire returned. `SessionOutcomes` says for every answer of the identity
  provider what a login, a begin, a finish and a resource request leave in the
  store, record by record. `LeasedRunRefines` shows that every leased run is an atomic
  run; the absence of lost updates, forks and revivals, the deadlines and the
  credential chain follow from it.
- **Uploads.** `UploadMachine` keeps sessions, files, objects, deletes that were
  sent out but may land at any later time, and every claim ever made.
  `UploadSafety` proves the one-to-one correspondence of completed sessions and
  files, and disjoint leases. `UploadSharing` says exactly when the object of a
  file is safe for good, and `UploadDiscipline` that no file of a disciplined run
  ever loses its object.
- **Tasks.** Every step over the fields of its row (`TaskRules`), fencing by attempt number, a measure that bounds every run, the
  order of dependent steps, and the equivalence of the three forms of the
  eligibility rule.
- **One-time codes.** A history of every reservation runs beside the Redis keys;
  single use, the right code, the attempt limit, the lifetime, the cooldown and the
  sliding rate bound are stated about that history, and so is when a reservation
  is granted (`CodeRules`).
- **Departments and JSON.** Exact acceptance: the check accepts if and only if an
  independent definition (a forest; the flattening of a strict tree) holds.

Where a promise does not hold of the code on all inputs, the model keeps the code
and gives an input that shows it, with the exact condition:

- Objects of registered files (`fileupload/service.go:308-387`): a trusted caller
  may name the object of another upload. In every reachable state the file is safe
  against everything short of repointing if and only if its object is there and its
  path is *spared* (`FileIsSafeIff`, `SharingIsSafeIff`): no delete for it was
  sent, and it is no upload path or its session was completed with no completer
  left that would drop the upload. The path of an unfinished, aborted or expired
  session is never spared: an aborter that lost its lease long ago goes by the row
  it claimed and may still send its delete. On a path not spared, clients,
  completers, aborters and cleaners alone can lose it, as in
  `UnfinishedUploadIsExposed`. `SparedCases` spells the condition out, and runs in
  which trusted callers respect it lose nothing (`RegisteredObjectsSurvive`); runs
  without trusted callers are among them.
- Wake-up after a success (`task/crud.go:393-421`): exact in every group if and
  only if each task waiting for the finished one alone is of an independent type
  just when the finished one is (`WakeUpIsExactIff`, `MixedGroupMissesWakeUp`).
- Expiry of abandoned callbacks (`task/crud.go:251-284`): one UPDATE stores
  `task_config_redo + 1` in a 32-bit column, so under strict SQL mode (elsewhere
  the value would be clamped) one abandoned row with the largest accepted limit
  makes the whole statement fail, for as long as the row stays
  (`AbandonedExpireIff`, `HugeLimitBlocksEveryExpiry`, `HugeLimitIsReachable`).
- Order of dependent steps (`task/crud.go:95-143`): creating a task on a lower step
  than a claimed one of its group breaks it, and nothing else does
  (`CreateKeepsOrderedIff`, `LateCreationBreaksOrder`).

Times are natural numbers (milliseconds) read from one monotone clock; opaque
random values are numbers that are fresh when drawn. Session ids, owner tokens,
storage paths and file ids are numbers.

## Model

| member | source | states |
|---|---|---|
| `SessionPolicy.SessionDeadline` | apis/runtime/logtobff/store.go:109-134 | A deadline exists exactly for a well-formed session whose idle time lies ahead; it is the idle deadline and never later than seven days after the login |
| `SessionPolicy.NextSessionIdle` | apis/runtime/logtobff/store.go:136-142 | The extension is eight hours ahead or the absolute end, whichever is earlier |
| `SessionPolicy.MergeIdentityUpdate` | apis/runtime/logtobff/identity_session.go:134-157 | A merge happens only for the same identity and login; it keeps credentials and identity of the current record and never shortens its idle deadline |
| `SessionAtomic.HandlePreserves` | apis/runtime/logtobff/identity.go:368-476 | Whatever a handler does to a session keeps it well-formed, of the same login, with the same credentials and CSRF value and no earlier idle deadline |
| `SessionAtomic.PlanFollows` | apis/runtime/logtobff/identity_session.go:54-124 | Every value a lease holder plans to write continues the record it read and stays within eight hours of now; a new id is fresh |
| `SessionAtomic.StepPreservesInv` | apis/runtime/logtobff/store.go:208-359 | Every atomic step keeps deadlines well-formed, at most one live record per login, and snapshots never ahead of their record |
| `SessionAtomic.Reachable` | apis/runtime/logtobff/store.go:208-359 | The same invariant holds after every run |
| `SessionAtomic.ForwardOnly` | apis/runtime/logtobff/store.go:208-359 | Along every run ids never revive, logins never fork, idle deadlines never shrink, absolute deadlines never move, credentials only extend |
| `SessionAtomic.FinishDecision` | apis/runtime/logtobff/identity_session.go:89-157 | A finish on a live record is applied exactly when identity (and, for a removal, the SDK generation) still matches: the other comparisons of the merge cannot fail in a reachable state |
| `SessionAtomic.FinishStoresMerge` | apis/runtime/logtobff/identity_session.go:89-124 | An applied finish stores the checked identity on the current credentials with the later idle deadline, under a fresh id and CSRF value exactly when the identity changed |
| `SessionOutcomes.LoginStores` | apis/runtime/logtobff/identity.go:179-300 | A login stores its subject, organization, revision, credentials and CSRF value with an eight-hour idle and a seven-day absolute deadline, and drops the session it replaces |
| `SessionOutcomes.BeginStores` | apis/runtime/logtobff/identity_session.go:42-82 | For every answer of the preparation, the whole record map a begin leaves, said outright: rotated credentials persisted, organization cleared on 403, session deleted on 401, nothing written once it has run out; the new request's snapshot is the stored record |
| `SessionOutcomes.CheckThenFinish` | apis/runtime/logtobff/identity_session.go:159-243 | For every answer of the online check, the whole record map an undisturbed request leaves, said outright: untouched, deleted while its credentials are current, organization cleared, identity taken over under a fresh id and CSRF value of the same login, or idle deadline extended; nothing but an extension or removal once it has run out |
| `SessionOutcomes.ResourceStores` | apis/runtime/logtobff/runtime.go:371-398 | The same for a request in resource mode: rotated credentials persisted, deletion on 401 and logout, rotation of id and CSRF value on a changed identity |
| `SessionAtomic.UnavailableCheckKeepsSnapshot` | apis/runtime/logtobff/identity.go:53-56 | An online check that fails with neither 401 nor 403 leaves the request's working value equal to its snapshot |
| `SessionAtomic.SoftFailureFinishIsNoOp` | apis/runtime/logtobff/identity_session.go:89-157 | Finishing such a request changes no record, id or login |
| `SessionAtomic.SoftFailureIsInvisible` | apis/runtime/logtobff/identity_session.go:89-157 | For every continuation each sibling request and every record ends as if the failed request had never finished |
| `SessionLease.StepRefines` | apis/runtime/logtobff/store.go:231-359 | Every step of the leased store changes the records exactly as its atomic counterpart |
| `SessionLease.LeasedRunRefines` | apis/runtime/logtobff/store.go:208-359 | Every interleaving of acquire, release, commit, login, lock expiry and record expiry is a run of the atomic registry |
| `SessionLease.StepPreservesInv` | apis/runtime/logtobff/store.go:231-359 | A lock still in place guards exactly the record its owner was given |
| `SessionLease.CommitActsOnOwnRead` | apis/runtime/logtobff/store.go:329-359 | No lost update: a commit that takes effect acts on the very record its own acquire returned |
| `SessionLease.LostLeaseStaysLost` | apis/runtime/logtobff/store.go:312-359 | Once an owner has lost the lock it never holds it again, for the rest of the run |
| `SessionLease.LeasedForwardOnly` | apis/runtime/logtobff/store.go:208-359 | From every reachable state on: no revival of an id, one live record per login, monotone idle deadline, fixed absolute deadline, one credential chain |
| `SessionLease.DeadlinesHold` | apis/runtime/logtobff/store.go:109-142 | Stored sessions satisfy until = idle <= absolute = login + 7 days and idle <= now + 8 hours; acquire hands out nothing at or after either deadline |
| `SessionLease.CredentialsChain` | apis/runtime/logtobff/identity_session.go:54-124 | Each write extends the credentials stored just before it, and a finish writes back exactly those it finds |
| `SessionLease.DelayedRemovalIsFenced` | apis/runtime/logtobff/identity_session.go:89-157 | A delayed 401 or logout deletes a session only while SDK, subject, organization, revision and CSRF still match the request's snapshot |
| `SessionLease.LeasedSoftFailureIsNoOp` | apis/runtime/logtobff/identity_session.go:89-157 | Under leases too, the commit of a softly failed request changes no record, id or login |
| `SessionLease.LeasedSoftFailureIsInvisible` | apis/runtime/logtobff/identity_session.go:89-157 | For every continuation under leases, records, locks, granted leases and all sibling requests are as if the softly failed request had only given its lease back |
| `SessionStore.Store.Acquire` | apis/runtime/logtobff/store.go:231-310 | The retry loop decides at the first moment the record is gone or the lock free, or at the end of its budget; success hands out the record under this owner's lock, every failure leaves no lock of this owner |
| `SessionStore.DecidesWhenFree` | apis/runtime/logtobff/store.go:231-318 | Acquire decides after the first wait that ends the contention, or at the end of its budget, and not before |
| `SessionStore.Store.Release` | apis/runtime/logtobff/store.go:319-327 | Deletes the lock only for its owner |
| `SessionStore.Store.Commit` | apis/runtime/logtobff/store.go:329-359 | Succeeds exactly for a valid (and, unless removing, live) value under a held lock of an existing record; moves or deletes the record and the lock together, otherwise changes nothing |
| `SessionStore.Store.Create` | apis/runtime/logtobff/store.go:208-229 | Stores a live login and deletes the session it replaces, or changes nothing |
| `SessionStore.Store.BeginIdentity` | apis/runtime/logtobff/identity_session.go:42-82 | With an uncontended lease it leaves exactly the begin outcome and no lock, and returns the stored record |
| `SessionStore.Store.FinishIdentity` | apis/runtime/logtobff/identity_session.go:89-125 | With an uncontended lease it is the atomic finish update, succeeds exactly when that update takes effect, and leaves no lock |
| `SessionStore.Store.WithSession` | apis/runtime/logtobff/runtime.go:327-398 | Resource mode with an uncontended lease leaves exactly the resource outcome and no lock |
| `SessionStore.SessionRef.MergeIdentityUpdate` | apis/runtime/logtobff/identity_session.go:134-157 | The in-place merge changes the struct exactly as the merge function says, and not at all on conflict |
| `SessionStore.SessionRef.Renew` | apis/runtime/logtobff/session_renewal.go:11-58 | Extends exactly when the online identity is unchanged, the session has not ended and the view can be built; a refused renewal restores every field, apart from an organization the check revoked |
| `SessionStore.CommitScriptIsCommit` | apis/runtime/logtobff/store.go:329-359 | The commit script is the commit event of the leased machine |
| `SessionStore.ScriptsAreEvents` | apis/runtime/logtobff/store.go:37-44 | The release and acquire scripts are the machine's release and acquire events |
| `UploadMachine.StepPreservesInv` | fileupload/repository.go:73-335 | Every step keeps: leases exactly in completing and aborting, files exactly in completed, one session per file, disjoint claims, only the newest claim in force |
| `UploadMachine.Reachable` | fileupload/repository.go:73-335 | The same invariant holds after every run |
| `UploadSafety.TerminalIsAbsorbing` | fileupload/repository.go:73-220 | Completed, aborted and expired rows never change again; aborting never leads back to active, completing or completed |
| `UploadSafety.FilesMatchCompletedSessions` | fileupload/repository.go:158-271 | Completed sessions and registered files correspond one to one, with equal owners |
| `UploadSafety.CompletionsAgree` | fileupload/service.go:252-305 | All successful completions of one session return the same file id, however late and under whichever token |
| `UploadSafety.LeasesNeverOverlap` | fileupload/repository.go:73-128 | Two unreleased leases on one session never overlap in time |
| `UploadSafety.OnlyLatestClaimActs` | fileupload/repository.go:108-220 | An effective release, finish or registering finalize carries the token of the newest claim on its session |
| `UploadSafety.StrangersChangeNothing` | fileupload/repository.go:73-335 | No step under another owner changes a session, its file or its claims |
| `UploadSafety.StartIff` | fileupload/service.go:79-147 | A session starts active, without lease or file, under a path of its own |
| `UploadSafety.ListedIsClaimable` | fileupload/repository.go:337-354 | Whatever cleanup lists can be claimed for aborting at that instant |
| `UploadSafety.ListedIff` | fileupload/repository.go:337-354 | Cleanup lists exactly the overdue sessions that are neither finished nor held by a running lease |
| `UploadSafety.NothingIsStuck` | fileupload/repository.go:73-106 | An unfinished session whose lease has run out can always be claimed: for aborting, and for completing unless it is aborting |
| `UploadSharing.FileIsSafeIff` | fileupload/service.go:239-305 | For every file in every reachable state: its object survives everything short of repointing if and only if it is there and its path is spared; otherwise steps without any trusted caller can lose it |
| `UploadSharing.SharingIsSafeIff` | fileupload/service.go:308-358 | Registering an existing object in any reachable state yields a file that is safe for good if and only if the object is there and its path is spared; otherwise steps without any trusted caller can lose it |
| `UploadSharing.UnfinishedUploadIsExposed` | fileupload/service.go:308-358 | A concrete run: an upload just put is registered for someone else and an abort takes the object away |
| `UploadSharing.SparedStays` | fileupload/service.go:598-650 | A spared path stays spared under every step that does not move its session's file away under a pending completer |
| `UploadDiscipline.SparedCases` | fileupload/service.go:308-387 | After a disciplined run the spared paths are exactly: no upload path; a completed session's path with its file there; a completed one's whose file moved away after all completers were through, without a delete sent |
| `UploadDiscipline.DeletesSpareFile` | fileupload/service.go:598-632 | No delete that was ever sent out aims at a registered file |
| `UploadDiscipline.RegisteredObjectsSurvive` | fileupload/service.go:239-305 | In every run whose trusted callers name present, spared paths and move no shared file away under a pending completer, the object of every registered file is present at every moment, however late a slow delete lands |
| `UploadDiscipline.OrdinaryIsDisciplined` | fileupload/service.go:239-305 | Runs with the default verifier and without trusted callers satisfy the discipline |
| `UploadService.ClaimIsStep` | fileupload/repository.go:73-106 | The claim UPDATE is the machine's claim step |
| `UploadService.ReleaseIsStep` | fileupload/repository.go:108-128 | The release UPDATE is the machine's release step |
| `UploadService.FinishIsStep` | fileupload/repository.go:130-156 | The finish UPDATE is the machine's finish step |
| `UploadService.FinalizeIsStep` | fileupload/repository.go:158-220 | The finalize transaction changes rows and files as the machine's finalize step |
| `UploadService.Service.Claim` | fileupload/repository.go:73-106 | Claims exactly an own session that is claimable now, under a fresh token for one lease period |
| `UploadService.Service.Release` | fileupload/repository.go:108-128 | Returns a completing session to active only for its token |
| `UploadService.Service.Finish` | fileupload/repository.go:130-156 | Settles exactly a session whose lease this token holds |
| `UploadService.Service.FinalizeComplete` | fileupload/repository.go:158-220 | Registers a new file and completes the row together, finds an already completed one unchanged, or changes nothing |
| `UploadService.Service.ListExpired` | fileupload/repository.go:337-354 | A sorted, bounded and gap-free selection of the expirable sessions |
| `UploadService.Service.Complete` | fileupload/service.go:239-305 | Succeeds exactly for completed sessions, or for claimable, intact uploads that are unexpired after the claim and registered before the lease runs out; a failure registers nothing and leaves the row as it was or active |
| `UploadService.Service.CompleteClaimed` | fileupload/service.go:477-530 | Registers the session's own verified object exactly when the lease still holds after verification, or changes nothing |
| `UploadService.Service.RemoveUnfinishedObject` | fileupload/service.go:598-632 | Succeeds exactly when an unmerged multipart upload was aborted or is already gone and the object was deleted, or the object is reused; deletes the session's own object only |
| `UploadService.Service.Abort` | fileupload/service.go:389-425 | Succeeds exactly when already ended, or claimable with the object cleared before the lease runs out; in every case the whole new table and object set: ended without lease, or left aborting under its claim for a retry, or untouched |
| `UploadService.Service.ExpireOne` | fileupload/service.go:446-472 | One candidate: skipped when gone, not claimable or out of lease after the removal, failed on a storage failure, else expired; the whole new row and object set |
| `UploadService.Service.ExpireAll` | fileupload/service.go:445-474 | Works through any list of candidates, skipping conflicts and stopping after the first whose object cannot be cleared; later candidates are untouched, each tried one ends expired or aborting, only cleared uploads are gone, and the count is the number that became expired |
| `UploadService.Service.CleanupExpired` | fileupload/service.go:427-475 | The returned count is the number of sessions that became expired, each without lease and object; unlisted sessions and their objects are untouched; when all are cleared in time and there is room under the limit no listed session is left over |
| `Multipart.UploadMode` | fileupload/service.go:651-660 | A multipart plan satisfies (count - 1) * partSize < size <= count * partSize |
| `Multipart.ValidateMultipartParts` | fileupload/service.go:740-755 | Accepts exactly lists of the right length with valid, distinct part numbers |
| `Multipart.NormalizedTagIsBare` | storage/s3.go:300-303 | A normalized tag neither starts nor ends with a quote, and normalizing it again changes nothing unless white space was inside the quotes |
| `Multipart.NormalizedTagIsCore` | storage/s3.go:300-303 | Normalizing takes off exactly the outer white space and then the outer quotes |
| `Multipart.SortedEntries` | storage/s3.go:277-298 | The merge list is the map's entries in strictly ascending part order |
| `Multipart.CompletedMultipartParts` | storage/s3.go:277-298 | Succeeds exactly on a non-empty map of valid parts and yields every entry once, ascending, with its tag requoted |
| `Multipart.AcceptedPartsMergeInOrder` | storage/s3.go:277-298 | An ascending list of count distinct part numbers within 1..count is precisely 1, 2, ..., count |
| `Multipart.MergeAccepted` | fileupload/service.go:740-755 | Succeeds exactly for accepted, mergeable parts; they come out as precisely 1..PartCount, each with the normalized tag given for its number between two quotes |
| `TaskModel.ReadyStepIsMinimum` | task/crud.go:47-47 | The grouped join computes the least step among the unfinished tasks of a group |
| `TaskModel.SubqueryFindsBlockers` | task/crud.go:415-415 | The correlated subquery selects a row exactly when a blocker exists |
| `TaskModel.FormsAgree` | task/crud.go:95-143 | The grouped join, the locked blocker recheck and the NOT EXISTS subquery decide alike for every waiting task |
| `TaskModel.EligibleIsFree` | task/crud.go:95-127 | What a claim takes, over the rows' own fields: pending or failed, 0 <= redo <= limit below 2^31 - 1, and every lower step of the group success or cancel, or step zero for an independent type |
| `TaskModel.PendingCountIsTakeable` | task/crud.go:424-443 | The pending count equals the number of tasks a claim could take |
| `TaskModel.WakeUpIsExactIff` | task/crud.go:393-421 | After a success the query returns exactly the tasks whose eligibility flipped if and only if each task waiting for the finished one alone is of an independent type just when the finished one is |
| `TaskModel.WakeUpIsExact` | task/crud.go:393-421 | In a workflow group there is neither a missed wake-up nor a rebroadcast |
| `TaskMachine.MixedGroupMissesWakeUp` | task/crud.go:400-409 | A run of the queue with a mixed group in which a newly eligible task is not reported |
| `TaskMachine.StepPreservesInv` | task/crud.go:28-284 | Every step keeps retry counts within limits and attempt histories increasing |
| `TaskMachine.AttemptsAreFenced` | task/crud.go:198-237 | No attempt number is handed out twice or enters the callback twice; at most TaskConfigRedo + 1 claims; numbers stay within 2^31 - 1 |
| `TaskRules.RetriesAreUsed` | task/crud.go:95-143 | The bound on claims is attained for every limit: some run claims a task limit + 1 times, or 2^31 - 1 times if that is less, and none more often |
| `TaskRules.ClaimTakesIff` | task/crud.go:95-143 | A claim changes the table exactly when the task is free, and writes status, worker and start only |
| `TaskRules.ReserveIff` | task/crud.go:198-213 | A reservation takes effect exactly for the attempt that holds the running row |
| `TaskRules.FinishIff` | task/crud.go:219-237 | An outcome takes effect exactly for the attempt that holds the row; a failure counts as a retry |
| `TaskRules.CreateIff` | task/crud.go:301-361 | Which rows enter the table, by their fields |
| `TaskRules.RestartRows` | task/crud.go:28-41 | A restart fails every running attempt, counts it as a retry and touches nothing else |
| `TaskMachine.RunsAreBounded` | task/crud.go:28-284 | Over a fixed set of tasks the number of table changes in any run is bounded by a measure on remaining redo and status |
| `TaskMachine.CreateKeepsOrderedIff` | task/crud.go:301-394 | A creation keeps the order of dependent steps exactly when no claimed dependent task of its group sits on a later step |
| `TaskMachine.LateCreationBreaksOrder` | task/crud.go:301-394 | A run of the queue in which a late creation breaks the order |
| `TaskMachine.ClaimedAfterPredecessors` | task/crud.go:95-143 | Once a dependent task was claimed, every lower-step task of its group is success or cancel and stays so |
| `TaskMachine.EligibleUntilTouched` | task/crud.go:400-421 | An eligible workflow task stays unblocked until it is itself touched |
| `TaskMachine.LateWakeUpStillFinds` | task/task_server.go:132-167 | A task made eligible by a success is still in the wake-up answer when the query runs later, unless it was touched meanwhile |
| `TaskMachine.AbandonedExpireIff` | task/crud.go:251-284 | In every reachable state the abandoned-callback statement ends all abandoned rows beyond any further claim exactly when none carries the largest limit |
| `TaskMachine.HugeLimitBlocksEveryExpiry` | task/crud.go:251-284 | As long as an abandoned row with the largest limit stays as it is, at every later point of the run the statement changes nothing |
| `TaskMachine.HugeLimitIsReachable` | task/crud.go:251-284 | A run of the queue that reaches such a row |
| `TaskMachine.TerminatedForGood` | task/crud.go:268-283 | A callback expired as abandoned is never attempted again, for the rest of the run |
| `TaskTable.Table.Discover` | task/crud.go:57-75 | One query yields the leading batch of untried discoverable tasks in claim order, without gaps |
| `TaskTable.Table.ClaimCandidate` | task/crud.go:95-143 | Claims exactly an unlocked free row of the type |
| `TaskTable.Table.HasBlocker` | task/crud.go:117-127 | The recheck finds a blocker exactly when one exists |
| `TaskTable.Table.ClaimPendingTask` | task/crud.go:54-93 | The batched loop ends and takes the first unlocked free row by priority, update time and id, or nothing exactly when all free rows are locked |
| `TaskTable.Table.TaskCallBack` | task/task_server.go:78-167 | The application callback is entered exactly by the attempt that holds the row; the outcome, retry count and priority are stored; a success wakes exactly the later-step tasks with nothing unfinished before them, in a workflow group exactly the newly eligible ones |
| `TaskTable.Table.ClaimCallback` | task/crud.go:198-213 | Reserves exactly for the attempt that follows the stored redo under the worker's own start |
| `TaskTable.Table.FinishClaimFromStatus` | task/crud.go:219-237 | Stores the outcome only behind the worker, start, redo and status fence |
| `TaskTable.Table.CheckAndTimeoutTasks` | task/crud.go:251-284 | Row by row: an attempt over its time fails and counts as a retry, a lost callback fails for good unless a largest limit blocks it, every other row stays, none succeeds |
| `TaskTable.ScanIsRun` | task/crud.go:251-284 | The scan is a run of the machine: one fenced failure per overdue attempt, then the expiry of abandoned callbacks |
| `TaskTable.CallbackIsTwoSteps` | task/task_server.go:96-142 | A callback that is entered is a reservation followed by an outcome of the machine |
| `RateWindow.HitTracks` | verification/redis.go:26-43 | INCR with PEXPIRE on the first hit keeps the counter in step with the log of its windows |
| `RateWindow.SlidingBound` | verification/redis.go:26-43 | Any half-open interval as long as the window holds at most 2 * limit - 1 hits |
| `RateTightness.IpRateIsTight` | verification/redis.go:17-50 | Under every policy some run of the code store grants 2 * IPLimit - 1 reservations of one source within one window length |
| `OneTimeCode.StepKeepsCodes` | verification/redis.go:17-131 | Every script keeps each stored challenge tied to its reservation: unconsumed, original expiry, every wrong guess still counted |
| `OneTimeCode.ReservationIsUsedOnce` | verification/redis.go:53-131 | For every reservation in every run: at most one consumption, at most MaxAttempts wrong codes, nothing accepted at or after reservation + CodeTTL, and only the reserved code |
| `CodeRules.ReservedCodeAnswers` | verification/redis.go:17-108 | After a granted reservation, in every continuation until it is consumed, replaced, exhausted or expired: unclaimed, its code is accepted and every other refused and counted; claimed, nothing is compared |
| `CodeRules.OpenIsStored` | verification/redis.go:17-131 | The latest reservation of a target stays stored until consumed or out of guesses |
| `CodeRules.GuessEffects` | verification/redis.go:53-108 | What a right and a wrong guess leave behind, under verify and under verify-and-claim |
| `CodeRules.ReserveAnswers` | verification/redis.go:17-50 | In every reachable state the answer to a reservation follows from history: a live claim, the cooldown after the last grant, full windows of target and source, else a grant |
| `OneTimeCode.ClaimHolds` | verification/redis.go:17-131 | While it lives, a claimed challenge is changed by nothing but its own token: no overwrite, no guess, no foreign consume or release |
| `OneTimeCode.ClaimHoldsThroughout` | verification/redis.go:17-131 | Over whole runs: until its token is presented or its lifetime is over, a claimed challenge stays exactly as it is |
| `OneTimeCode.TokenConsumesOwnClaim` | verification/redis.go:111-120 | A token that is accepted consumes the reservation it claimed, for its target, and removes the challenge |
| `OneTimeCode.ReleaseUndoesClaim` | verification/redis.go:82-131 | Releasing a claim restores exactly the keys before it: code, lifetime and wrong-guess count |
| `OneTimeCode.TargetRateHolds` | verification/redis.go:17-50 | Granted reservations of a target are a cooldown apart, and at most 2 * TargetLimit - 1 fall into any interval of TargetWindow |
| `OneTimeCode.IpRateHolds` | verification/redis.go:17-50 | The same interval bound per source address |
| `OneTimeCode.BudgetIsForGrantsOnly` | verification/redis.go:17-50 | A grant adds its own moment to both budgets, a rejection changes nothing |
| `CodeStore.Store.Reserve` | verification/redis.go:17-50 | The script's result and new keys, and only a grant consumes budget |
| `CodeStore.Store.Verify` | verification/redis.go:53-79 | Accepts exactly the stored code of a live unclaimed challenge; success and the last wrong guess delete it, other wrong guesses are counted |
| `CodeStore.Store.VerifyAndClaim` | verification/redis.go:82-108 | Accepts exactly the stored code of a live unclaimed challenge; success sets the claim and keeps code, count and expiry |
| `CodeStore.Store.ConsumeClaim` | verification/redis.go:111-120 | Deletes the challenge only for the matching token |
| `CodeStore.Store.ReleaseClaim` | verification/redis.go:123-131 | Removes the claim only for the matching token, nothing else |
| `CodeStore.ScriptsAreSteps` | verification/redis.go:17-131 | In every state satisfying the invariant each machine step changes the keys as its script does |
| `CodeStore.GenerateCode` | verification/verification.go:378-398 | The code consists of the digits of the first six bytes below 250 that the source delivers; it fails exactly when the source delivers fewer |
| `CodeStore.EveryCodeIsEquallyLikely` | verification/verification.go:386-391 | No modulo bias: usable byte strings correspond one to one to pairs of a code and a string over 25 symbols, so every code has equally many |
| `StrictJson.FlattenUnique` | apis/runtime/auth/strict_jose.go:61-154 | A token stream begins with at most one value: flattening is unambiguous |
| `StrictJson.ValueReads` | apis/runtime/auth/strict_jose.go:86-154 | Complete: every value within depth and with distinct names is read, up to exactly its end |
| `StrictJson.ValueIsRead` | apis/runtime/auth/strict_jose.go:86-154 | Sound: whatever is read is the flattening of such a value |
| `StrictJson.AcceptsExactlyStrict` | apis/runtime/auth/strict_jose.go:61-154 | Accepted are exactly the flattenings of one object tree with nesting at most 32 and distinct member names |
| `StrictJson.AcceptedTreeIsUnique` | apis/runtime/auth/strict_jose.go:61-154 | The tree behind an accepted stream is unique |
| `StrictJson.FlattenRoundTrip` | apis/runtime/auth/strict_jose.go:61-154 | A tree's flattening is accepted exactly when the tree is strict |
| `StrictJson.NestingLimit` | apis/runtime/auth/strict_jose.go:86-135 | Arrays and objects count alike: up to 32 containers within each other are accepted and no more |
| `StrictJson.RepeatsAreRefused` | apis/runtime/auth/strict_jose.go:86-116 | A repeated member name is refused at the root and below |
| `StrictJson.Decoder.ConsumeObject` | apis/runtime/auth/strict_jose.go:86-116 | The loop over members accepts and advances exactly as the grammar with duplicate rejection |
| `StrictJson.Decoder.ConsumeArray` | apis/runtime/auth/strict_jose.go:118-135 | The loop over items accepts and advances exactly as the grammar |
| `StrictJson.Decoder.ConsumeValue` | apis/runtime/auth/strict_jose.go:137-154 | One value at one more level of depth |
| `StrictJson.ValidateJSONObject` | apis/runtime/auth/strict_jose.go:61-84 | Accepts if and only if the whole stream is the flattening of one strict object |
| `DepartmentForest.AcyclicIsForest` | apis/runtime/logtodirectory/validate.go:255-273 | With known parents there is no parent cycle exactly when every department reaches a root, and then in fewer steps than there are departments |
| `DepartmentForest.RootIsUnique` | apis/runtime/logtodirectory/validate.go:255-273 | The root a department reaches is its only one |
| `DepartmentForest.WalksDecideForest` | apis/runtime/logtodirectory/validate.go:235-273 | The direct-parent test and the walks together accept exactly the forests with canonical parents |
| `DepartmentForest.Walk` | apis/runtime/logtodirectory/validate.go:256-272 | The walk ends, and succeeds exactly when the chain of parents ends at a root |
| `DepartmentForest.CheckUnique` | apis/runtime/logtodirectory/validate.go:215-230 | Accepts exactly well-formed departments with distinct ids |
| `DepartmentForest.ValidateDepartments` | apis/runtime/logtodirectory/validate.go:209-273 | Accepts exactly the lists within the size limit that are well-formed, form a forest and resolve all member references |

## Left out

- Key lifetimes of sessions and locks are not counted down: a record or lock may vanish at any moment, which covers every expiry.
- The SDK credential map is represented by the sequence of rotations that produced it; equality of maps is equality of sequences.
- SessionStore.Store.BeginIdentity: states its effect for an uncontended lease; interference between its steps is the subject of SessionLease.
- SessionStore.Store.FinishIdentity: states its effect for an uncontended lease; interference between its steps is the subject of SessionLease.
- SessionStore.Store.WithSession: states its effect for an uncontended lease and one clock value; interference is the subject of SessionLease.
- AES-GCM sealing, JWT signatures, SHA-256, base64, cookies, HTTP and the Logto SDK are not modelled; a sealed record is its value and a digest is its input.
- A Redis or database reply that is lost or ambiguous, and clock skew between servers.
- `revalidateIdentity` and `revokeResourceGrant`: further users of the same begin, finish and resource steps.
- Start, part URLs and request normalization of uploads, and the five-second bound on releasing a claim.
- UploadService.Service.Complete: models the default verifier and no rival between its steps, so the second look at the session after a conflict is not modelled; business verifiers that name another object, registration of existing objects and repointing occur as machine events.
- UploadService.Service.CompleteClaimed: the part list and the verifier's checks are two boolean inputs; the part list itself is the subject of Multipart.
- UploadService.Service.RemoveUnfinishedObject: the object store's answers are inputs.
- UploadService.Service.ExpireOne: no rival changes the row between its steps; rivals are the subject of UploadMachine.
- UploadService.Service.ExpireAll: rivals show only as candidates that cannot be claimed.
- UploadService.Service.CleanupExpired: no rival changes rows between listing and claiming.
- UploadSharing.FileIsSafeIff: a completer that neither returned nor released its lease counts as still able to act, since a crash leaves no trace.
- UploadSharing.SharingIsSafeIff: the same reading of completers that left no trace; a delete once sent counts as able to land again at any time, since requests are retried.
- Multipart.NormalizedTagIsBare: trims ASCII white space only, where the program also trims other Unicode space.
- TaskTable.Table.TaskCallBack: no rival changes the row between lookup, reservation and outcome; rivals are the subject of TaskMachine.
- TaskMachine.HugeLimitBlocksEveryExpiry: presumes strict SQL mode, in which an out-of-range value fails the statement.
- TaskMachine.AttemptsAreFenced: tasks enter pending with redo 0 and application callbacks do not edit scheduling fields, as the queue assumes of its users.
- `SaveTask`, `TaskDao` updates, `DeleteTask` and soft deletion: unconditional writers outside the fenced protocol.
- The range of the priority column and the member validation before a claim: single-branch checks.
- Redis stream wake-ups and queue-count repair: notifications whose loss the task table makes good.
- CodeStore.Store.Verify: the guard against a challenge hash without a code field, which no script writes, is not modelled.
- CodeStore.Store.VerifyAndClaim: the same guard is not modelled.
- Validation of purposes, channels and destinations, and delivery of codes.
- StrictJson.ValidateJSONObject: starts from the decoder's token stream; UTF-8 and lexical errors are one kind of unreadable token.
- DepartmentForest.ValidateDepartments: name and id syntax are parameters; members, permissions and cursors of the snapshot are not modelled.
- `mutex`, `credits`, CORS, mail, request ids, configuration and migrations: little beyond single-branch validation.
