# A verified model of the control plane and the WhatsApp gateway

This project models the parts of the service whose correctness is a matter of order, state and retries, and
proves what they keep. `dafny verify dfyconfig.toml` checks all of it.

## What is modelled

**Bundles and backups** (control_plane/backup.py, control_plane/db.py). A volume is a map from names to
directory entries, and every system call takes effect or fails without effect. `BundleVolume` holds the
primitives and the move protocol `_claim`/`_withdraw`/`_publish`. `RollbackInstall` puts a restored bundle -
database, `-wal`, `-shm` and pause marker - in the place of the live one under a journal that `_undo` walks
backwards. `RestorePublish` turns an archive into a database at a free name, its pause marker first.
`ArchiveCodec` is the streamed archive format. `MigrationGate` is `main --backup-first` over many boots. A ghost
history records the volume after each primitive effect, so a statement about crashes is a statement about every
element of that history.

**The WhatsApp gateway** (gateway/whatsapp_router.py, gateway/app.py, control_plane/bindings_resolution.py).
`GatewayStore` is the ingress table, `GatewayRouter` answers webhooks, `GatewayWorker` redelivers, and
`GatewayRuns` interleaves webhooks, passes, binding changes, key arrivals, switch flips and crashes in every
order, and `GatewayRace` runs it to where its bounds are reached. HMAC, `int()` and `str()` are arbitrary functions
of which `RelayTrust` assumes only that a digest is 64 lower-case hexadecimal digits and that a printed number reads
back.

**Onboarding** (control_plane/onboarding, control_plane/provisioning/bootstrap.py). `OnboardingCommands` gives the
commands as functions on the workflow and idempotency tables, and the runs in which they interleave with the
provisioning worker, membership changes and the retention sweep. `ProviderJobs` is the job ledger: supersession,
and cleanup in dependency order. `OnboardingLedger` ties its intents to the workflows, `OnboardingMailbox` its jobs
to the e-mail identities, and `RuntimeRecords` holds configuration revisions, bootstrap tokens and household rows.
`OnboardingService` is the commands as transactions over all of these, rolled back whole when refused.

**Erasure and e-mail identities** (control_plane/privacy/delete.py, control_plane/email/repository.py).
`Erasure` retries a deletion against providers that may refuse, fail or not answer, one household at a time and
in sweeps. `EmailIdentity` is the identity table with its unique indexes and the reservation table.

**Limits, names and checksums** (control_plane/auth/rate_limit.py, control_plane/email/local_part.py,
scripts/check_fixtures.py). `RateLimit`, `LocalPart` and `IbanChecksum`.

## What the proofs turned up

- A row kept after `lookup_unavailable` carries no household, so the worker drops it: the lookup outage is not
  retried, although gateway/whatsapp_router.py:398-406 says it is (`GatewayWorker.NoHouseholdNoDelivery`).
- `hmac.compare_digest` raises on text that is not ASCII. A webhook with such a signature of the right length
  raises with its row stored, and for no other reason does a raised webhook leave its row
  (`GatewayRouter.RaisesExactly`; such a request in `GatewayRouter.SomeRequestIsIncomparable`). The worker then
  throws over that row until its attempts run out (`GatewayWorker.UnreadableThrows`, `GatewayWorker.ThrowsRunOut`).
- Seven attempts and eight calls bound every row of every run without a crash if and only if a webhook takes less
  than six backoffs, 1890 seconds (`GatewayRace.BoundIsExact`). At or beyond that the worker can overtake it, and
  the row sees eight attempts and nine calls (`GatewayRace.OvertakenWebhook`). The deployed deliverer has a
  timeout of 10 seconds (gateway/app.py:179-203), far below it.
- A withdrawal schedules cleanup at the current workflow version, unlike a reset or a cancellation. A resource it
  marks as being deleted gets a new cleanup job exactly when the ledger has none under that resource and version
  (`ProviderJobs.WithdrawalQueuesIff`), and there is a run that ends with a mailbox marked and no job pending
  (`ProviderJobs.WithdrawalCanQueueNothing`).
- A mailbox is given back in the transaction of a reset, a cancellation or a withdrawal exactly when nothing of it
  may stand at a provider (`OnboardingMailbox.MayChooseAgainIff`), and while a call may have reached one,
  nothing short of settling that call or erasing the household gives it back (`OnboardingMailbox.CallKeepsMailbox`).
- A `retry` reads the stored selection before it looks for a recorded answer, so a resent retry can be refused
  (`OnboardingCommands.RetryIsNotAlwaysReplayed`). The idempotency key covers neither the household nor the
  expected version.
- A cancelled workflow can be reset if a user step was verified when it was cancelled, and otherwise never moves
  again (`OnboardingCommands.ResetRevives`, `OnboardingCommands.CancelIsFinal`).
- One household whose resource references cannot be decrypted, once it has waited longest, ends every
  `resume_pending` before any other household is resumed (`Erasure.UnreadableHeadBlocks`). Never updated, it gets
  there: what waited longer is resumed batch by batch, and nothing else is (`Erasure.UnreadableDrifts`,
  `Erasure.ArrivalsWait`). Without it no deletion starves (`Erasure.NoDeletionIsStarved`).
- A verified e-mail identity's reservation is consumed only if the expiry sweep did not come first
  (`EmailIdentity.ConsumedIffStillHeld`, `EmailIdentity.VerifiedButExpired`), and an address can be had, though it
  is said to be taken, exactly when a disconnecting identity bears it (`EmailIdentity.CreatableButNotAvailable`,
  reached in `EmailIdentity.CreatableThoughTaken`).
- The limiter lets through at most twice its limit less one in any stretch as long as its window, and reaches
  that (`RateLimit.AnyStretchIsBounded`, `RateLimit.BoundIsReached`).
- The mod-97 check misses a swap of neighbours in exactly one case: B1, M2 or X3, either way round, past the
  fourth character (`IbanChecksum.SwapIsCaught`): GB67B1000000000 and GB671B000000000 both pass
  (`IbanChecksum.SomeSwapIsMissed`).
- Numbered mailbox names coincide exactly when one number ends another and what was kept of the base before the
  shorter one spells the rest of the longer (`LocalPart.CandidatesCoincideIff`); cutting makes that happen
  (`LocalPart.CutCandidatesMayCoincide`).

## Model

| member | source | states |
|---|---|---|
| BundleVolume.MoveConserves | control_plane/backup.py:664-736 | at neither of its two steps does a move create or destroy an entry |
| BundleVolume.Volume.Withdraw | control_plane/backup.py:800-831 | a name is taken away only while it still holds what was published; an absence that is not durable is ambiguous |
| BundleVolume.Volume.Claim | control_plane/backup.py:664-736 | completed: the entry has moved; failed: the volume is as it was, or both names stand, and the journal says which; without a journal one failed call that is not a read is undone on the spot |
| BundleVolume.Volume.Rename | control_plane/backup.py:1404-1424 | as a claim, and the directory is synced; a failed sync leaves the completed move in the journal |
| BundleVolume.Volume.Publish | control_plane/backup.py:834-882 | at every step and on every failure the destination is as it was or holds exactly the temporary's entry, and nothing else is touched |
| RollbackInstall.JournalConserves | control_plane/backup.py:2360-2419 | along a whole journal, at every step, no entry is created or lost |
| RollbackInstall.ReverseMove | control_plane/backup.py:2360-2419 | taking the newest move back, complete or half made, restores the volume it was made from |
| RollbackInstall.Undo | control_plane/backup.py:2334-2419 | an empty answer means the original volume stands again and every step passed only through volumes the forward direction had passed; whatever the answer no entry is lost; without a failed call it is empty |
| RollbackInstall.MoveAsideStep | control_plane/backup.py:2487-2503 | moving superseded members in bundle order, database first, never leaves a database beside members of another generation |
| RollbackInstall.PublishStepCoherent | control_plane/backup.py:2524-2551 | publishing candidate members, database last, never does either |
| RollbackInstall.InstallFailsafePause | control_plane/backup.py:2292-2331 | whatever stands at the target is paused, and nothing that stands is touched |
| RollbackInstall.Verify | control_plane/backup.py:2559-2577 | passes exactly when every landed member is at its name with the content that was validated, every superseded member stands aside with the content it had, and every read succeeds |
| RollbackInstall.Install | control_plane/backup.py:2435-2596 | exactly three endings: every candidate member at its canonical name with the validated content and the old bundle aside; original volume; incomplete reversal. Every possible crash point on the way forward is coherent, and unless the last ending on the way back too; no ending and no crash point loses an entry; a candidate that stands as validated is installed unless a call fails; one failed call that is not a read restores the original |
| ArchiveCodec.Gcm.DecodeOfEncode | control_plane/backup.py:957-990 | what is written is authentic and decodes to the image and nonce it was made from |
| ArchiveCodec.Gcm.EncodeOfDecode | control_plane/backup.py:507-550 | an authentic archive is byte for byte what encoding its plaintext under its nonce writes |
| ArchiveCodec.EncryptImage | control_plane/backup.py:957-990 | however the chunk reads fall, the streamed archive is the one-shot archive; a key of the wrong size gives none |
| ArchiveCodec.AuthenticatedDigest | control_plane/backup.py:507-550 | the digest of the plaintext exactly for a readable archive that is sealed: whose last 16 bytes are what the authentication function gives for its ciphertext; however the chunks fall |
| ArchiveCodec.DecryptTo | control_plane/backup.py:1116-1159 | success means the archive is sealed and the temporary holds its plaintext byte by byte; a sealed archive succeeds unless a call fails; nothing but the temporary is ever written |
| ArchiveCodec.OpensIffSealed | control_plane/backup.py:1146-1158 | an archive opens exactly when its tag is the one its own nonce and ciphertext get under the key, and what it opens to is the ciphertext xored with the key stream |
| RestorePublish.WithdrawPause | control_plane/backup.py:1054-1080 | only the pause this call published is taken back, and never beside a database |
| RestorePublish.PublishPause | control_plane/backup.py:1210-1233 | the marker is published before any database is visible, and a failure leaves none |
| RestorePublish.PublishDatabase | control_plane/backup.py:1235-1250 | at every step a visible database is paused and holds the image; an ambiguous publication keeps the marker |
| RestorePublish.RestoreLocked | control_plane/backup.py:1105-1261 | at every step and on every failure a visible database is paused, and then the archive is sealed under the key and the database is its plaintext; an unsealed, empty or refused image, or an occupied name, is a failure with nothing visible; without faults a sound archive is restored; one fault that is not a read leaves the name free |
| RestorePublish.RestoreBackup | control_plane/backup.py:1002-1051 | an occupied bundle is left alone; through the migrations too, visible implies paused |
| MigrationGate.Migrate | control_plane/db.py:175-246 | every script not recorded in the ledger runs, each once and in list order, and is recorded, or nothing changes; it succeeds exactly when the ledger reads and each of them applies to what those before it left |
| MigrationGate.PendingSelects | control_plane/db.py:147-156 | what is pending is exactly the scripts whose names the ledger does not hold, in list order and none twice |
| MigrationGate.Reusable | control_plane/backup.py:553-625 | an archive is reused only if it opens and holds the exact current image, and none that is readable is overlooked |
| MigrationGate.ControlPlane.CreatePreMigrateBackup | control_plane/backup.py:62-107 | success leaves an archive of exactly the current image; no archive is rewritten and at most one is added; unobstructed it succeeds |
| MigrationGate.ControlPlane.BackupFirst | control_plane/db.py:327-341 | the schema changes only with an exact restore point on disk, and on success every script is recorded and those that were not before have run, in list order |
| MigrationGate.FailingBootsWriteOneArchive | control_plane/backup.py:62-107 | any number of consecutive failing boots adds at most one archive and changes no schema |
| MigrationGate.EveryMigrationStaysRestorable | control_plane/db.py:327-341 | for the rest of any run, every schema change keeps an archive that decrypts to the image before it |
| RelayTrust.Crypto.OwnSignatureVerifies | gateway/whatsapp_router.py:65-74 | what the gateway signs, its own check accepts |
| RelayTrust.MatchesIffSpelt | gateway/whatsapp_router.py:69-74 | a presented signature is accepted exactly when it is `sha256=` or nothing, then white space, then the digest of the body in either case, then white space |
| RelayTrust.ResolvesToSoleHolder | control_plane/bindings_resolution.py:64-108 | a sender resolves exactly when one published binding of an existing household holds it, and to that household |
| RelayTrust.RefusedExactly | control_plane/bindings_resolution.py:64-108 | a sender is ambiguous exactly when two published bindings hold it, and unknown exactly when none does |
| GatewayStore.Store.PersistBeforeAck | gateway/whatsapp_router.py:131-160 | a new row under a new identifier, complete and due at once |
| GatewayStore.Store.Defer | gateway/whatsapp_router.py:166-188 | no other row changes and a row that is gone stays gone; the deferred one keeps all it was accepted as, is due at the time given under the error given, and is an attempt older exactly when one is spent |
| GatewayStore.Store.Due | gateway/whatsapp_router.py:190-199 | the due rows, oldest first, as many as the limit allows |
| GatewayStore.OldestFirst | gateway/whatsapp_router.py:190-199 | of k due rows older than a cutoff a batch of at most L takes min(L, k) |
| GatewayRouter.RoutesWhereItLeads | gateway/whatsapp_router.py:214-359 | a message is routed exactly when its timestamp is a number within 300 seconds of now and one household alone is bound to its sender, and then to that household at its runtime |
| GatewayRouter.RefusedForWhatIsWrong | gateway/whatsapp_router.py:214-359 | each refusal to route is given exactly for its reason: the timestamp, no binding, two, or a lookup that fails or raises |
| GatewayRouter.Router.HandleWebhook | gateway/whatsapp_router.py:361-485 | the answer is the right one for the request and the world: flag_disabled exactly while the switch is off, hmac_rejected exactly for missing or wrong credentials, timestamp_replay exactly for a late one, and so on; switched off, nothing is stored and nobody called; a row remains exactly for the retryable answers and for a stored signature that cannot be compared; at most one call, made while the complete row stands |
| GatewayRouter.AnswersExactly | gateway/whatsapp_router.py:361-485 | every answer of the webhook, and the condition on the request, the directory, the keys and the runtime under which exactly it is given |
| GatewayRouter.StatusTellsWhich | gateway/app.py:333-356 | 503 exactly while the switch is off, 403 exactly for credentials that are missing, late or wrong, 500 exactly for an exception, and 200 for all else |
| GatewayRouter.AnswerTellsTheRow | gateway/whatsapp_router.py:361-485 | a row that remains is complete, with the household it was routed to, or none exactly where the lookup failed; it remains exactly after the retryable answers, and every refusal leaves the table as it was |
| GatewayRouter.RaisesExactly | gateway/whatsapp_router.py:69-74 | a webhook raises exactly when its lookup does, or when it is accepted, its key is there and its signature has 64 characters that are not all ASCII; it leaves a row exactly in the second case |
| GatewayRouter.SomeRequestIsIncomparable | gateway/whatsapp_router.py:69-74 | at every lawful gateway there is such a request |
| GatewayRouter.CallIsAuthorised | gateway/whatsapp_router.py:425-485 | at most one call, exactly for the two answers that come from a runtime: to the household the sender resolved to, unchanged, after its signature verified, while the complete row is stored |
| GatewayWorker.DecidesExactly | gateway/whatsapp_router.py:649-747 | a row is expired, dropped as unverifiable or undeliverable, held, deferred, thrown over or sent, each exactly under its condition on the row, the directory, the keys and the switch |
| GatewayWorker.BackoffBounds | gateway/whatsapp_router.py:780-795 | a kept row backs off between 30 and 1920 seconds |
| GatewayWorker.BackoffDoubles | gateway/whatsapp_router.py:780-795 | the backoff after one attempt is 30 seconds, and every further attempt doubles it |
| GatewayWorker.DeliveriesAreAuthentic | gateway/whatsapp_router.py:649-747 | a redelivery goes to the household stored with the row, the only one the sender now resolves to; the accepted signature verified under the key that signs it, and what is sent verifies |
| GatewayWorker.NoHouseholdNoDelivery | gateway/whatsapp_router.py:679-684 | a row without a household is never delivered |
| GatewayWorker.UnreadableThrows | gateway/whatsapp_router.py:685-688 | a stored signature that cannot be compared makes the row's processing throw, whenever nothing else ends it first |
| GatewayWorker.ThrowsRunOut | gateway/whatsapp_router.py:621-647 | over any series of throws the row is deferred with one more attempt each, and dropped when they run out |
| GatewayWorker.SwitchNeutral | gateway/whatsapp_router.py:655-709 | with the switch off a row is held exactly where with it on it would be delivered or retried; everything else is identical |
| GatewayWorker.ProcessedRow | gateway/whatsapp_router.py:649-747 | a row's processing removes it or keeps it as accepted, an attempt older exactly for a genuine try; no other row changes |
| GatewayWorker.KeptRowIsBounded | gateway/whatsapp_router.py:780-795 | a kept row is due again within a day, 1920 seconds and its own processing time of its arrival |
| GatewayWorker.HoldsSpendNothing | gateway/whatsapp_router.py:749-759 | over any number of holds a row's attempts do not change |
| GatewayWorker.PassAccounts | gateway/whatsapp_router.py:621-647 | the seven counters sum to the rows selected; rows before are rows after plus those reported removed; survivors keep what they were accepted as; what is too old is gone |
| GatewayWorker.PassDeletesAged | gateway/whatsapp_router.py:621-659 | a pass with limit L removes min(L, k) of the k rows older than the retention bound |
| GatewayWorker.Worker.Process | gateway/whatsapp_router.py:649-747 | the outcome and the call are those specified, and where it throws the row is untouched |
| GatewayWorker.Worker.RunOnce | gateway/whatsapp_router.py:621-647 | one outcome for every selected row even where processing throws, each the one its decision calls for, and a report that counts each kind of them and adds up against the table |
| GatewayRuns.StepKeeps | gateway/whatsapp_router.py:361-795 | every step of the interleaving keeps the invariant on rows, attempts, calls and provenance |
| GatewayRuns.EveryCallIsGood | gateway/whatsapp_router.py:551-597 | over every run, all calls for a row go to the one household stored at acceptance, accepted while the switch was on, with the accepted body, after the accepted signature verified under its key, and verify themselves; each webhook's call left while its complete row stood or after the worker had ended it |
| GatewayRuns.EveryRowIsBounded | gateway/whatsapp_router.py:604-613 | over every run, due times stay within the retention bound, attempts within 7 and calls within 8 plus those a crash cut off, or 8 and 9 where a slow webhook was overtaken |
| GatewayRace.OvertakenWebhook | gateway/whatsapp_router.py:604-613 | at every lawful gateway with a deliverer and any handling time of six backoffs or more, a run reaches 8 attempts and then 9 calls |
| GatewayRace.BoundIsExact | gateway/whatsapp_router.py:604-613 | 7 attempts and 8 calls bound every row of every run without a crash if and only if handling takes less than six backoffs |
| GatewayRace.LawfulCryptoExists | gateway/whatsapp_router.py:65-74 | what is assumed of digests and printed numbers can be met |
| GatewayRuns.ReachablePassDeletesAged | gateway/whatsapp_router.py:621-647 | on every reachable table a pass with limit L removes min(L, k) of the k rows past the bound |
| ProviderJobs.SweepsConserve | control_plane/onboarding/service.py:1214-1274 | over any series of sweeps a job that may have reached its provider stays unsettled under the first reconciliation code it got, a pending one is cancelled once, and all others are untouched |
| ProviderJobs.JobLedger.Create | control_plane/repositories/jobs.py:48-92 | one job per intent: the one there was, or one new pending one |
| ProviderJobs.JobLedger.SupersedeUnsettledJobs | control_plane/onboarding/service.py:1214-1274 | status by status: a pending job in reach is cancelled, one that may have reached its provider is of unknown outcome under this reason unless an earlier supersession said so, every other is untouched, and no resource changes |
| ProviderJobs.JobLedger.ScheduleRegisteredCleanup | control_plane/onboarding/service.py:1116-1211 | each resource in scope that is creating, ready or of unknown state ends deleting with exactly one job under its cleanup intent; every other is as it was and got none; dependents first, nothing else changed |
| ProviderJobs.SecondCleanupIsEmpty | control_plane/onboarding/service.py:1116-1211 | an immediate second call finds nothing to schedule |
| ProviderJobs.CleanupIsLeasedInOrder | control_plane/onboarding/service.py:1192-1204 | new cleanup jobs are queued in the order mailbox, number, channel, runtime, namespace, others, and within a type newest first |
| ProviderJobs.NewVersionIsFresh | control_plane/onboarding/service.py:1326-1348 | at a version never used every live resource in scope gets exactly one new pending cleanup job |
| ProviderJobs.WithdrawalQueuesIff | control_plane/onboarding/service.py:1037-1114 | every live resource a withdrawal covers ends marked as being deleted, with a new pending cleanup job exactly when the ledger had none under its intent, and with any pending one exactly then or when the one it had was pending |
| ProviderJobs.WithdrawalCanQueueNothing | control_plane/provisioning/worker.py:2046-2092 | a run from a mailbox being set up, through a withdrawal, a rejected cleanup, a late result and its own rejected cleanup, to a second withdrawal that marks the mailbox and leaves no pending job |
| ProviderJobs.TearsDown | control_plane/onboarding/service.py:1326-1354 | scheduling at the next version and superseding every kind leaves one new pending cleanup job for each live resource in scope and every older job swept |
| ProviderJobs.TornDownMeans | control_plane/onboarding/service.py:1326-1354 | what a tear-down leaves, resource by resource and job by job: all that may stand in scope deleting with one cleanup job each, the rest untouched, every job superseded |
| ProviderJobs.JobLedger.TearDown | control_plane/onboarding/service.py:1470-1482 | the same, for the two calls a reset and a cancellation make |
| ProviderJobs.JobLedger.NewestWaiting | control_plane/onboarding/service.py:799-805 | the waiting job of a kind that is newest, by time and then identifier; none exactly when none waits |
| OnboardingCommands.ResendReplays | control_plane/onboarding/service.py:84-141 | within a day and whatever happens meanwhile, the same key and route change nothing and answer the recorded snapshot for the same body and a refusal for another; all commands but a retry keep their body |
| OnboardingCommands.RetryIsNotAlwaysReplayed | control_plane/onboarding/service.py:759-768 | an input on which a resent retry is refused instead of replayed |
| OnboardingCommands.AnswersExactly | control_plane/onboarding/service.py:84-162 | every answer a command gets and exactly when: the record under its key, then membership, the gate, the version, the state of its step, and what stands outside; only one that passes them all changes anything, and that is this workflow, by this command, and the record of it for a day |
| OnboardingCommands.TransitMoves | control_plane/onboarding/state.py:17-65 | what each accepted command leaves of every step, the state, the current step and the version |
| OnboardingCommands.KeysMatchIff | control_plane/onboarding/service.py:84-103 | two requests share an idempotency key exactly when account, key, command and step are the same |
| OnboardingCommands.CommandsLinearise | control_plane/onboarding/service.py:157-162 | a command that takes effect moves the version it expected by exactly one, so in any run a later one expected a later version |
| OnboardingCommands.CancelSettles | control_plane/onboarding/service.py:1490-1516 | a cancellation leaves every step verified or cancelled |
| OnboardingCommands.CancelHolds | control_plane/onboarding/service.py:1450-1539 | after it nothing - no command by anyone, no late provider result - moves the workflow until a reset takes effect |
| OnboardingCommands.ResetRevives | control_plane/onboarding/service.py:1319-1325 | a member's reset of a user step is accepted after a cancellation if and only if that step was verified |
| OnboardingCommands.CancelIsFinal | control_plane/onboarding/service.py:1319-1325 | if no user step was, the workflow never moves again |
| OnboardingCommands.TransitKeepsOrder | control_plane/onboarding/state.py:17-65 | every command keeps the order of the steps: all before the current one verified, all after it locked |
| OnboardingCommands.WorkerKeepsOrder | control_plane/provisioning/worker.py:2903-2958 | so does every result the worker projects |
| OnboardingCommands.WorkerMovesExactly | control_plane/provisioning/worker.py:2903-2958 | a step that succeeds opens the next one, or the runtime after the last; only a step under way of a workflow that is not cancelled succeeds or fails |
| OnboardingCommands.RunKeepsOrder | control_plane/onboarding/service.py:170-251 | so does every run from a new workflow |
| OnboardingCommands.StepsAreTakenInOrder | control_plane/onboarding/service.py:612-613 | selections, checks and - though their code never looks - retries take effect only on the step the workflow stands at |
| OnboardingLedger.WorkerGrows | control_plane/provisioning/worker.py:2903-2958 | what the worker, the bootstrap and the retention sweep do to a workflow and to the ledger keeps every intent within the workflow's versions and attempts |
| OnboardingLedger.ResetTakesBack | control_plane/onboarding/service.py:1326-1372 | a reset cleans up the runtime and what belongs to the step or to one after it, supersedes every job, and touches nothing else |
| OnboardingLedger.NeedsRepairIff | control_plane/onboarding/service.py:957-982 | the namespace is repaired exactly for an e-mail step whose household has none standing and no job that may make one |
| OnboardingMailbox.OutstandingIsHandedOver | control_plane/email/repository.py:393-427 | once a household's mailbox jobs are superseded and its cleanup scheduled, what keeps `finish_disconnect` from finishing is exactly what may have stood at a provider before |
| OnboardingMailbox.DisconnectMeans | control_plane/onboarding/service.py:1276-1290 | a disconnect leaves no live identity; the one there was is deleted and nothing is held for the household exactly when nothing is outstanding, and otherwise it disconnects; nobody else's identity changes |
| OnboardingMailbox.MayChooseAgainIff | control_plane/email/repository.py:73-172 | after it the household may choose a mailbox exactly when nothing was outstanding and what it chooses is nobody else's |
| OnboardingMailbox.CallKeepsMailbox | control_plane/email/repository.py:393-437 | over any run of supersessions, ledger changes and identity statements that does not settle one call, the call stays unsettled, the identity stays disconnecting under its address, and its household may choose nothing |
| OnboardingMailbox.EventsKeepCoupled | control_plane/email/repository.py:197-236 | nothing the worker, the bootstrap, the sweeps or the health monitor do opens an e-mail step beside a live identity |
| OnboardingMailbox.OnlyDisconnectingBlocks | control_plane/email/repository.py:85-93 | where the e-mail step is open, a choice is refused for the household's own sake exactly while an earlier mailbox disconnects |
| RuntimeRecords.ConfigsRepository.TakeDown | control_plane/onboarding/service.py:1401-1416 | every revision in scope is revoked, every unused token is, and the household has no runtime; nothing else changes, so that nothing is left that could become live |
| RuntimeRecords.ResetAndCancellation | control_plane/onboarding/service.py:1401-1416 | a reset revokes all that was not superseded or revoked before and the household is onboarding; a cancellation spares what is active and the household is a draft |
| RuntimeRecords.NothingOldComesBack | control_plane/provisioning/bootstrap.py:164-202 | after a reset or a cancellation, and whatever happens later, no token for a revision there was is claimed or activates it |
| RuntimeRecords.SomethingNewComesAlive | control_plane/provisioning/bootstrap.py:164-202 | a revision planned afterwards, whose new token is used before it expires, ends as the only active one on its runtime |
| RuntimeRecords.OneTokenAtATime | control_plane/repositories/configs.py:104-140 | in every run a revision has at most one token that could still be used |
| OnboardingService.OnboardingService.Begin | control_plane/onboarding/service.py:84-162 | what decides a command before its own work: replay, membership, rollout gate, version; decided, nothing has changed |
| OnboardingService.OnboardingService.Remember | control_plane/onboarding/service.py:117-141 | for a day and exactly that long, the same key answers the same body with the snapshot of the change just made and refuses any other; no workflow, membership or other record changes |
| OnboardingService.OnboardingService.SaveProfile | control_plane/onboarding/service.py:170-251 | the transaction is the specified command; refused or replayed it changes no job, accepted it adds exactly the namespace job, always new |
| OnboardingService.OnboardingService.Select | control_plane/onboarding/service.py:587-749 | the same, adding exactly one job for an attempt never used before, and for e-mail the identity, provisioning, and its reservation; refused exactly where the command or, for e-mail, the identity tables refuse |
| OnboardingService.OnboardingService.Retry | control_plane/onboarding/service.py:895-1035 | the same, after the namespace repair exactly where one is needed; for e-mail the live identity is provisioning again, and without a retryable one the retry is refused |
| OnboardingService.OnboardingService.Check | control_plane/onboarding/service.py:770-893 | the same; the newest waiting job is settled and one new inspection takes its place; refused where nothing waits or, for e-mail, no live identity is there |
| OnboardingService.OnboardingService.ResetFrom | control_plane/onboarding/service.py:1292-1448 | the same; each resource of the step, of a later one or of the runtime that may stand ends deleting with one cleanup job, no other changes, every job is superseded, and the runtime is taken out of service; for e-mail a namespace is live or asked for by a new pending job, and the mailbox is disconnected, gone at once exactly when nothing of it may have stood at a provider |
| OnboardingService.OnboardingService.Cancel | control_plane/onboarding/service.py:1450-1539 | the same; each resource of the household that may stand ends deleting with one cleanup job, every job is superseded, the runtime is taken out of service and the mailbox disconnected as by a reset |
| OnboardingService.OnboardingService.DisconnectForWithdrawal | control_plane/onboarding/service.py:1037-1114 | each resource of the consent's types that may stand ends deleting with one job under its intent, new exactly when there was none, and no other changes; the jobs of those kinds are superseded; the mailbox, where covered, is disconnected as by a reset |
| Erasure.DeletionService.Resume | control_plane/privacy/delete.py:273-411 | one pass calls exactly the targets without proof, records of each whether it is gone, unknown or on its way as far as it could commit, and reports complete exactly when nothing is left, unknown exactly when something left is unknown, and partial exactly otherwise |
| Erasure.DeletionService.ResumePending | control_plane/privacy/delete.py:413-432 | the deletions that waited longest, at most a limit of them, each resumed once from what it was; it raises exactly when one of the passes does |
| Erasure.ErasureConverges | control_plane/privacy/delete.py:273-411 | a household is gone if and only if some finished pass had no job outstanding and by it the runtime and every resource had each, in whatever pass, answered absent |
| Erasure.NeverCalledAgain | control_plane/privacy/delete.py:306-340 | a target that proved itself absent is never called again, and the targets to call only shrink |
| Erasure.NoDeletionIsStarved | control_plane/privacy/delete.py:413-432 | a deletion passed over by n sweeps whose passes finish had n full batches before it |
| Erasure.UnreadableBlocks | control_plane/privacy/delete.py:413-432 | while a household cannot be read, sweeps change only deletions that waited longer, whatever arrives meanwhile |
| Erasure.UnreadableDrifts | control_plane/privacy/delete.py:413-432 | it drifts to the head: over n sweeps n full batches ahead of it are resumed, or all there is |
| Erasure.ArrivalsWait | control_plane/privacy/delete.py:413-432 | a deletion asked for meanwhile is never resumed |
| Erasure.UnreadableHeadBlocks | control_plane/privacy/delete.py:288-300 | at the head it stops every sweep for good: no deletion is resumed again, whatever arrives |
| EmailIdentity.EmailIdentityRepository.CreateSelected | control_plane/email/repository.py:73-172 | identity and reservation together or neither, exactly when all identities the household ever had are deleted, nobody's live identity bears the address, nothing keeps it reserved, and no undeleted identity brought its domain |
| EmailIdentity.EmailIdentityRepository.AddressAvailable | control_plane/email/repository.py:174-195 | exactly when no undeleted identity bears the address and its reservation is free |
| EmailIdentity.EmailIdentityRepository.MarkVerified | control_plane/email/repository.py:238-313 | only an unverified identity under its own address, which then consumes its own held reservation |
| EmailIdentity.EmailIdentityRepository.FinishDisconnect | control_plane/email/repository.py:393-437 | only a disconnecting identity with nothing unsettled, and its own reservations are released |
| EmailIdentity.EmailIdentityRepository.ExpireReservations | control_plane/email/repository.py:439-447 | it counts the rows it changes, which are holds that have run out; who may have an address does not change, then or later, and no reservation changes its owner |
| EmailIdentity.AvailableMeansCreatable | control_plane/email/repository.py:174-195 | an available address can be had at that instant by exactly the households without an undeleted identity |
| EmailIdentity.CreatableButNotAvailable | control_plane/email/repository.py:181-187 | an address that could be had is said to be taken if and only if a disconnecting identity bears it |
| EmailIdentity.CreatableThoughTaken | control_plane/email/repository.py:181-187 | a run from empty tables to such a state |
| EmailIdentity.StepKeeps | control_plane/email/repository.py:126-168 | every statement keeps one undeleted identity a household, one live identity an address, and reservations in step with their identities |
| EmailIdentity.RunKeeps | control_plane/email/repository.py:73-447 | so does every run, with the health monitor's moves and households erased; in particular a live identity's chosen address stays reserved to it, expired or not |
| EmailIdentity.DisconnectingIsOneWay | control_plane/email/repository.py:232-236 | disconnecting is left only to deleted, deleted never, and what went with its household does not come back |
| EmailIdentity.PassesOnlyFromTheGone | control_plane/email/repository.py:144-168 | a reservation passes on only from a deleted identity or from a disconnecting one whose hold ran out, and disappears only with its household; verifying or finishing one identity never touches another's |
| EmailIdentity.ReservationIsKept | control_plane/email/repository.py:144-168 | over any run a consumed reservation, and an unexpired hold, stay with their identity until it is deleted or its household erased |
| EmailIdentity.ConsumedIffStillHeld | control_plane/email/repository.py:309-313 | verifying consumes the reservation if and only if it was still held |
| EmailIdentity.VerifiedButExpired | control_plane/email/repository.py:439-447 | a run in which a verified identity's reservation is expired |
| RateLimit.RateLimiter.Check | control_plane/auth/rate_limit.py:20-51 | only its own bucket is written, and a refused call writes nothing |
| RateLimit.AnyStretchIsBounded | control_plane/auth/rate_limit.py:20-51 | any half-open stretch of one window's length lets through at most twice the limit less one |
| RateLimit.LimitIsGranted | control_plane/auth/rate_limit.py:45-51 | within a window calls are let through up to the limit |
| RateLimit.BoundIsReached | control_plane/auth/rate_limit.py:35-51 | for every limit and window some calls reach the bound |
| IbanChecksum.SubstitutionIsCaught | scripts/check_fixtures.py:330-336 | no accepted number stays accepted when a digit becomes another digit or a letter another letter |
| IbanChecksum.SwapIsCaught | scripts/check_fixtures.py:330-336 | swapping two neighbours that differ is caught, except exactly a letter beside its twin digit past the fourth character |
| IbanChecksum.SomeSwapIsMissed | scripts/check_fixtures.py:330-336 | two accepted numbers that are such a swap of each other |
| IbanChecksum.AcceptedExactly | scripts/check_fixtures.py:330-336 | accepted is exactly what has the form and whose number, read with letters as 10 to 35 and the first four characters last, leaves 1 modulo 97 |
| IbanChecksum.Gather | scripts/check_fixtures.py:348-361 | the characters gathered from a start, in capitals, at increasing positions each of which ends what was gathered so far |
| IbanChecksum.HitAt | scripts/check_fixtures.py:347-368 | the longest gathered run that passes the check, and the position where exactly that run has been gathered; none exactly when none passes |
| IbanChecksum.PrintingHidesNothing | scripts/check_fixtures.py:339-368 | however a number is spaced and cased and whatever follows, a search that starts at it accepts something at least as long |
| LocalPart.Transliterate | control_plane/email/local_part.py:31-43 | the loop computes the specified slug |
| LocalPart.FormIsSpelled | control_plane/email/local_part.py:6 | what is checked character by character is what the regular expression matches |
| LocalPart.CleanedByWords | control_plane/email/local_part.py:43 | of the transliterated text every word is kept, one underscore of a gap between two words, and nothing of a gap at either end |
| LocalPart.SlugHasForm | control_plane/email/local_part.py:31-43 | any name comes out as nothing or in the form of a local part |
| LocalPart.SlugIsStable | control_plane/email/local_part.py:31-43 | what came out once goes through unchanged |
| LocalPart.SuggestionIsValid | control_plane/email/local_part.py:55-61 | a suggestion is never refused, for any pair of names |
| LocalPart.SuggestionIsTheName | control_plane/email/local_part.py:55-61 | the suggestion is both names, transliterated and joined, cut at 48 characters without the separators they then end in, unless that is shorter than three or reserved |
| LocalPart.CandidateIsValidIff | control_plane/email/local_part.py:64-69 | a numbered variant is refused exactly when its base is or its number has more than 48 digits; otherwise it is valid and unreserved |
| LocalPart.CandidateIs | control_plane/email/local_part.py:64-69 | a numbered variant is the base, cut likewise to make room, and then the number in decimal |
| LocalPart.CandidatesCoincideIff | control_plane/email/local_part.py:64-69 | two numbered variants coincide exactly when their numbers have different lengths, the shorter ends the longer, and what was kept of the base before the shorter spells the rest of the longer |
| LocalPart.CandidatesDiffer | control_plane/email/local_part.py:64-69 | so variants that need no cutting are all different |
| LocalPart.CutCandidatesMayCoincide | control_plane/email/local_part.py:64-69 | bases of 48 characters whose second and twelfth variants are the same |

## Left out

Assumptions the model makes:

- SHA-256 is treated as collision free, lookup digests as injective, and AES-GCM as a key stream and a tag function (sections 7.1 and 7.2 of NIST SP 800-38D).
- No other process touches the volume between two calls; `lstat` does not fail; what an unsynced directory entry loses in a power failure is not modelled beyond the failure of the sync itself.
- Text that carries signatures is Latin-1, and account numbers are ASCII with the four spacers; the regular expression that picks the starts of `check_iban` is not part of this model.
- NFKD, casefolding and the category of a character are arbitrary functions that leave plain text alone and give no ASCII capitals.
- Ciphertext columns are modelled as their plaintext, SQL transactions as all-or-nothing updates, and unique indexes as the refusals they cause.
- The provisioning worker, the bootstrap, the health monitor and membership changes are steps that respect the transition table and the state guards in their code; how they decide on them is not modelled. A request that names the runtime step is refused before anything is read and is not modelled.

Narrower than the source, by member:

- RollbackInstall.Install: moves by link only; `_copy_install`, for bundles on different file systems, journals after publishing and is not modelled, nor are the refusals of `_preflight`.
- RestorePublish.RestoreBackup: migrations are a rewrite of the database and a new sidecar; the integrity and schema checks are verdicts given from outside.
- GatewayWorker.PassDeletesAged: stated for a pass that runs to its end.
- OnboardingService.OnboardingService.Select: consent receipts, the owner's own contact and the reserved address form enter as one verdict; where it and the step's status would both refuse, which refusal is named is not modelled. The same holds of the other commands and their verdict.
- OnboardingService.OnboardingService.Check: the contents of the inspection's request are not modelled.
- OnboardingService.OnboardingService.SaveProfile: the profile's own columns are not modelled.
- OnboardingService.OnboardingService.DisconnectForWithdrawal: for a service configured with e-mail identities; the receipts, the revisions and the runtime stop of control_plane/privacy/withdraw.py around it are not modelled.
- Erasure.DeletionService.ResumePending: no other process finishes a deletion between the listing and its turn.
- Erasure.ErasureConverges: for a fixed set of resources; a worker that settles one between two passes is not modelled.

Not modelled at all, because it would add easy members or depends on libraries:

- `DeletionService.delete` and its replay, the periodic and boot archives, retention sweeps other than the one over recorded answers, consent texts and exports.
- HTTP, templates, configuration, the `hermes_cloud` command line and the digest scheduler; `RedeliverScheduler` beyond running one pass at a time.
- The e-mail, phone, secret and MIME scans of `scripts/check_fixtures.py`.
