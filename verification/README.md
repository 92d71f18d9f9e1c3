# Sean OS durable runtime: verification model

Sean OS keeps its state in SQLite and wraps every irreversible act in the same armour: an approval
bound to one exact plan, an outbox row with a lease and a bounded number of attempts, a write that
never overwrites, and a terminal state that asks for a human when the outcome is unknown. This
project models that armour in Dafny and proves what it promises over every run.

Check everything with `dafny verify dfyconfig.toml`.

## Modules

| modules | what they model |
|---|---|
| `Basics`, `Evidence` | digests and instants; the five evidence documents with their builders and verifiers |
| `Outbox` | the life of one outbox row, shared by transfers and restores |
| `Store`, `StoreRuns`, `RestoreScan` | the effect of each store transaction, whole runs of them, the restore claim scan |
| `StoreClass` | the same transactions as methods of `SeanOSStore` that update its tables in place |
| `TransferProtocol`, `SingleWorker`, `TimelyWorkers` | transfer workers as a step relation: many with crashes, one without, many that keep to their leases |
| `FailingRuns` | the runs that leave an object behind a FAILED row |
| `RestoreProtocol`, `TimelyRestores`, `FailingRestores` | the same three for restore workers: many with crashes, many or one that keep to their leases, and the runs that leave a file behind a FAILED row |
| `TransferWorker`, `RestoreWorker` | `process_backup_transfer_once` and `process_backup_restore_once` as methods |
| `Header`, `EnvelopeHeader` | canonical JSON printing and parsing, base64, the envelope header |
| `Envelope`, `EnvelopeFiles`, `DecryptFiles` | the envelope format, the streaming loops, publication |
| `Download` | the bounded, verified download |
| `WorkQueue`, `WorkAttempts`, `WorkQueueClass` | work items, budgets, reservations and usage, as transactions and as methods; when attempts stay within their maximum |
| `Migrations`, `MigrationsData`, `MigrationsReady`, `MigrationsRun` | the 18 migrations: convergence, data kept, exact success condition, the imperative run |
| `MigrationGuard`, `MigrationGuardRun`, `MigrationRestore` | backup, quarantine, rollback and restoration of a guarded migration |
| `MigrationOutcomes`, `GuardedMigrations` | when each outcome of a guarded migration is reached and what its files hold; the guard around the 18 migrations themselves |
| `Policy`, `PolicyReruns`, `PolicyClass` | at-most-once execution of registered actions, and exactly when an action can run again |
| `CodingDelivery`, `CodingDeliveryClass` | crash recovery of a delivery by its external id |
| `EndToEnd`, `LeasedExecutions` | laws across components: a backup on its whole way, and the queue's leases around the registry's executions |

A committed transaction, or a statement that commits by itself, is one atomic step. An object that
the program updates in place is a class whose methods are proved to have the effect of a transition
function; the laws are lemmas about that function and its runs. Clock readings, answers of the
provider, results of injected ports and failing input or output calls are parameters, so each
statement holds for all of them. Instants are integers in the order the ISO-8601 texts intend.
SHA-256 is an uninterpreted function; where a law needs two texts not to collide it names the two.

## Where the code keeps less than its documentation suggests

- A key reference holding a high surrogate directly followed by a low one is printed and parsed back
  as one character, so the file it was encrypted under is refused on decryption
  (`EnvelopeHeader.RoundTripIff`, `Envelope.SealRoundTrip` give the exact condition). The parser also
  accepts the float `16.0` as tag size (`EnvelopeHeader.FloatTagAccepted`).
- An object can be at the provider while its row ends FAILED: when a worker dies between its put and
  its settlement (`FailingRuns.CrashLeavesObject`), and also without any crash, when another worker's
  claim finds the last attempt's lease expired meanwhile (`FailingRuns.OvertakenLeavesObject`). It
  cannot happen while no worker dies and every claim comes before the end of the leases that are being
  worked under (`TimelyWorkers.TimelyOnePut`); one worker alone always keeps to that
  (`TimelyWorkers.SoloIsTimely`). This is no equivalence over single runs: a crash or a late claim need
  not do harm, the two runs only show that neither half of the condition can be dropped.
- In the same two ways a restored backup can be at its destination while its row ends FAILED
  (`FailingRestores.CrashLeavesFile`, `FailingRestores.OvertakenLeavesFile`,
  `TimelyRestores.TimelyFilesSettled`).
- If removing a file fails during the clean-up of a failed decryption, a partial or even a published
  file stays (`DecryptFiles.DecryptTo` says which, and when).
- If the download's target name already exists, its failure handler removes that older file
  (`Download.DownloadExact`); the random part of the name is what protects it.
- A rename that fails during quarantine is outside the guarded block, so the files already moved stay
  aside; a database that cannot be read any more, or whose ledger has a gap, is never restored
  automatically; and a restored database whose evidence cannot be written is reported as not restored
  (`MigrationOutcomes.AttemptsExactly`, `MigrationOutcomes.BothFailedFiles`).
- After a failed migration only the main file is compared with the backup. If it still has the
  backup's digest the database counts as restored, although a `-wal` file beside it can hold changes:
  it reads as the backup exactly if there is no such log or the log changes nothing
  (`MigrationOutcomes.FoundReads`; `MigrationOutcomes.FoundWithLog` is a run that ends otherwise).
- A migration run on a ledger at version 14 or 15 can fail in the version-16 rebuild on rows with a
  null `available_at`; earlier ledgers cannot (`MigrationsReady.SucceedsIff`,
  `MigrationsReady.NullAvailableFails`, `MigrationsReady.BackfillMakesRebuildSafe`).
- A handler can be called again for an item whose result is stored, by executions that overlap. Over
  all schedules this is possible exactly if the action is not refused and needs no approval, or needs
  one that is reusable; a one-time approval rules it out (`PolicyReruns.RerunsExactly`,
  `PolicyReruns.OverlapRunsTwice`). Executions that do not overlap never do it
  (`PolicyReruns.SerialNeverReruns`), and under the work queue they do not overlap as long as they end
  within the leases of their items (`LeasedExecutions.DisciplinedIsSerial`); nothing renews a lease.
- `claim_work` follows an expired RUNNING item without looking at `max_attempts`: an item's attempts
  exceed its maximum exactly if some claim took it over when it was spent
  (`WorkAttempts.AttemptsWithinIff`; `WorkQueue.ReclaimsUnbounded` is a run for every number).
- The rebuilds of versions 2 and 16 lose every value in a column outside the new table's shape, exactly
  in a table that is not rebuilt yet and whose version is still missing (`MigrationsData.DroppedExactly`).
- An upload can succeed under references that the stricter pattern of a restore plan refuses
  (`Evidence.BuiltPlanVerifies` gives the exact condition).
- `schema.sql` creates an index on `backup_transfer_outbox.available_at` before the migrations run, so
  on a version-13 table that lacks the column the script raises first; the model starts after it.

## Model

| member | source | states |
|---|---|---|
| Evidence.VerifiersCompose | sean_os/backup_restore.py:228-311 | What the verifiers accept of one plan, its evidence and its receipt fixes the whole chain of times, hashes, sizes, versions and references |
| Evidence.DigestsNameEvidence | sean_os/backup_restore.py:387-406 | Verified evidence with the digests that a verified plan records is the plan's own, unless its plan or receipt text collides with that one |
| Evidence.BuiltPlanVerifies | sean_os/backup_restore.py:387-406 | A built restore plan passes re-verification exactly when all its references meet the strict pattern and its text is clean |
| Evidence.BuiltReceiptVerifies | sean_os/backup_restore.py:455-564 | The receipt builder returns exactly the receipts its verifier accepts |
| Outbox.LifeKeeps | sean_os/store.py:435-872 | Over a row's life attempts equal successful claims, never exceed the maximum, and plan, approval and preflight are never rewritten |
| Outbox.TerminalForEver | sean_os/store.py:545-682 | A terminal row never changes again in any column |
| Outbox.LeaseIsLatestClaim | sean_os/store.py:584-605 | Whoever holds the lease is the worker whose claim came last |
| Outbox.Fencing | sean_os/store.py:619-767 | Only the latest claimer can complete, fail or hold; completion also needs an unexpired lease; a new claim finds the old lease released or expired |
| Outbox.ClaimAndFailEnds | sean_os/store.py:545-651 | Every sequence of effective claims, failures and exhaustions is bounded by the attempts left |
| Outbox.SpentRowFails | sean_os/store.py:566-582 | With no attempts left no claim succeeds and the next failure or sweep makes the row FAILED |
| Store.ApprovalsEvolve | sean_os/store.py:402-433 | A consumed or standing reusable approval is never altered, and no approval changes what it approves |
| Store.NextKeepsInv | sean_os/store.py:435-1350 | Every transaction keeps: rows carry their own matching approval, no approval stands behind two rows, receipts verify, restore leases end with the window |
| Store.RunKeepsInv | sean_os/store.py:435-1350 | The same over any sequence of transactions by anyone |
| Store.RestoreLeaseAndReceiptKept | sean_os/store.py:1165-1182 | A restore lease never outlives its window_end and a stored receipt stays the verified one |
| StoreRuns.TransferRowLife | sean_os/store.py:435-767 | In every run of the store a transfer row keeps its plan, counts its claims within the maximum, and stays put once terminal |
| StoreRuns.RestoreRowLife | sean_os/store.py:874-1350 | The same for restore rows |
| StoreRuns.TransferFencing | sean_os/store.py:545-767 | Lease fencing of every transfer row against whatever transaction follows any run |
| StoreRuns.RestoreFencing | sean_os/store.py:1113-1350 | Lease fencing of every restore row, and no lease beyond the window |
| StoreRuns.ApprovalNeverShared | sean_os/store.py:833-872 | No two rows of either outbox share an approval, reusable or not |
| StoreRuns.AuthorizedRowsAreApproved | sean_os/store.py:833-872 | Every reachable row AUTHORIZED or later carries an approval with its own action, target, scope and conditions, consumed unless reusable |
| StoreRuns.RestoredRowsProveTheChain | sean_os/store.py:1272-1319 | Every reachable RESTORED row satisfies the five-document chain back to the upload plan and receipt it was staged from |
| StoreRuns.DigestsProveTheChain | sean_os/store.py:1272-1319 | The same back to any verified plan and receipt with the recorded digests that do not collide with those |
| StoreRuns.RestoreEvidenceExists | sean_os/store.py:874-912 | For every restore row the upload plan and receipt whose digests it records exist and verify |
| RestoreScan.RestoreScanOutcome | sean_os/store.py:1133-1182 | A claim leases the first runnable row in (created_at, hash) order, fails exactly the expired rows with no runnable row before them, and leaves every other row alone |
| StoreClass.ScanPicksFirst | sean_os/store.py:1141-1152 | What the loop over ordered due rows stops at and collects is the first open row and the closed rows before it |
| StoreClass.SeanOSStore.ConsumeApproval | sean_os/store.py:402-433 | Consumes exactly a matching, approved, unexpired approval, once unless reusable |
| StoreClass.SeanOSStore.StageBackupTransfer | sean_os/store.py:435-467 | Staging is idempotent, and refuses different evidence under one hash |
| StoreClass.SeanOSStore.RecordBackupTransferPreflight | sean_os/store.py:515-543 | Succeeds exactly for a matching no-action receipt of a staged row or the one already recorded; a different receipt is an error and changes nothing |
| StoreClass.SeanOSStore.AuthorizeBackupTransfer | sean_os/store.py:833-872 | A failed or raced authorization changes neither approval nor row |
| StoreClass.SeanOSStore.ClaimAuthorizedBackupTransfer | sean_os/store.py:545-617 | Sweeps spent rows and leases the first claimable one |
| StoreClass.SeanOSStore.AssertBackupTransferExecutionAllowed | sean_os/store.py:684-717 | Allows exactly the live, approved, unexpired leaseholder while the kill switch is off |
| StoreClass.SeanOSStore.FailClaimedBackupTransfer | sean_os/store.py:619-651 | Returns the row to AUTHORIZED with a delay, or to FAILED when spent |
| StoreClass.SeanOSStore.HoldClaimedBackupTransferForReconciliation | sean_os/store.py:653-682 | Moves a held row to the terminal state that asks for a human |
| StoreClass.SeanOSStore.CompleteClaimedBackupTransfer | sean_os/store.py:719-767 | Completes only with a verified receipt under an unexpired lease |
| StoreClass.SeanOSStore.StageBackupRestore | sean_os/store.py:874-912 | Stages only a plan that its evidence rebuilds |
| StoreClass.SeanOSStore.RecordBackupRestorePreflight | sean_os/store.py:957-988 | Succeeds exactly for a matching no-action receipt of a staged restore row or the one already recorded; a different receipt is an error and changes nothing |
| StoreClass.SeanOSStore.AuthorizeBackupRestore | sean_os/store.py:1062-1111 | A failed, raced or out-of-window authorization changes neither approval nor row |
| StoreClass.SeanOSStore.ScanDueRestores | sean_os/store.py:1133-1152 | The scan loop returns the row to lease and exactly the rows to fail |
| StoreClass.SeanOSStore.ClaimAuthorizedBackupRestore | sean_os/store.py:1113-1196 | The claim's effect on both outbox tables, with the lease clipped to the window |
| StoreClass.SeanOSStore.AssertBackupRestoreExecutionAllowed | sean_os/store.py:1198-1236 | Allows exactly the live leaseholder of a valid plan inside its window |
| StoreClass.SeanOSStore.FailClaimedBackupRestore | sean_os/store.py:1238-1270 | Returns a held restore row for retry, or fails it when spent |
| StoreClass.SeanOSStore.CompleteClaimedBackupRestore | sean_os/store.py:1272-1319 | Completes only with a verified receipt under an unexpired lease |
| StoreClass.SeanOSStore.HoldClaimedBackupRestoreForReconciliation | sean_os/store.py:1321-1350 | Moves a held restore row to the terminal state that asks for a human |
| TransferProtocol.ObjectsNeverReplaced | sean_os/backup_provider.py:231-243 | No step of any worker replaces or removes an object |
| TransferProtocol.WrittenOnce | sean_os/backup_provider.py:231-243 | Over any run an object, once written, stays as it is |
| TransferProtocol.StepKeepsWorldInv | sean_os/backup_execution.py:320-346 | Every step keeps: past its upload a worker's artifact is what the provider holds under the row's key |
| TransferProtocol.CompletedMeansStored | sean_os/store.py:719-766 | In every interleaving with crashes, expiry and kill-switch flips, a COMPLETED row's object is the ciphertext of its stored receipt |
| SingleWorker.OnePutPerPlan | scripts/worker.py:118-159 | Without crashes each plan sees at most one put ever; a put ends COMPLETED or RECONCILIATION_REQUIRED; AUTHORIZED or FAILED means no put |
| SingleWorker.CrashAfterPutFails | scripts/worker.py:118-159 | From any reachable world: a crash after the last attempt's put, and a later claim, leave the row FAILED while the object exists |
| TimelyWorkers.TimelyOnePut | scripts/worker.py:118-159 | Any number of workers that do not die, no claim coming after the end of a lease that is being worked under: at most one put per plan, a put ends COMPLETED or RECONCILIATION_REQUIRED, FAILED means no put |
| TimelyWorkers.SoloIsTimely | scripts/worker.py:96-116 | One worker that does not die always keeps to that condition |
| TimelyWorkers.StepKeepsTeam | sean_os/store.py:545-617 | What that rests on, kept by every timely step: workers hold the leases of different rows, and a put is settled or its worker is about to settle it |
| FailingRuns.CrashLeavesObject | scripts/worker.py:118-159 | From the empty store: two failed attempts, an accepted put, a crash and another worker's claim leave the row FAILED and the object stored |
| FailingRuns.OvertakenLeavesObject | sean_os/store.py:566-582 | From the empty store and without a crash: a claim after the last lease's end sweeps the row to FAILED behind the put; the run is not timely |
| FailingRuns.FailedIsLate | scripts/worker.py:118-159 | Every run that ends with the object stored behind a FAILED row had a crash or a claim after the end of a lease in use |
| TransferWorker.Bucket.PutObject | sean_os/backup_provider.py:231-243 | A conditional put writes only where nothing is |
| TransferWorker.Worker.UploadNew | sean_os/backup_provider.py:213-283 | An error before the put is retryable, any failure at or after it is ambiguous; evidence is returned exactly for a new object with a verified answer |
| TransferWorker.Worker.ExecuteClaimedBackupTransfer | sean_os/backup_execution.py:320-346 | Which of its three outcomes follows from the clock, the kill switch, the ports and the put |
| TransferWorker.Worker.Settle | scripts/worker.py:130-159 | Completes exactly a receipt in time; holds after a put; otherwise retries, or fails the last attempt |
| TransferWorker.Worker.ProcessBackupTransferOnce | scripts/worker.py:96-159 | One call extends the run of protocol steps, on the first claimable row, none under the kill switch; the status it leaves, COMPLETED included, is determined by the script; a put was made exactly for COMPLETED or RECONCILIATION_REQUIRED |
| RestoreProtocol.FilesOnlyCleaned | sean_os/backup_encryption.py:378-388 | A file at a destination changes only by the clean-up of the worker that linked it |
| RestoreProtocol.StepKeepsWorldInv | scripts/restore_worker.py:60-124 | Every step keeps: from its link on a worker alone owns its destination, and a completed row's file is the planned one |
| RestoreProtocol.RestoredMeansPublished | sean_os/store.py:1272-1319 | In every interleaving of workers, crashes and lease expiry a RESTORED row's destination holds a file with the planned size and hash, under a receipt that verifies |
| TimelyRestores.StepKeepsTeam | sean_os/store.py:1113-1196 | Every timely step keeps: workers hold the leases of different rows, and a file belongs to a settled row or to the worker at it |
| TimelyRestores.TimelyFilesSettled | scripts/restore_worker.py:60-124 | Any number of live workers, no claim coming after the end of a lease in use: a file at a destination belongs to a row that is RESTORED or RECONCILIATION_REQUIRED, once nobody is at it |
| TimelyRestores.SoloIsTimely | scripts/restore_worker.py:60-72 | One worker that does not die always keeps to that condition |
| TimelyRestores.SoloRestores | scripts/restore_worker.py:56-124 | Over every run of one worker: when it is idle an AUTHORIZED or FAILED row has no destination file, every file is of a RESTORED or held row, and a RESTORED row's file is the planned backup |
| FailingRestores.CrashLeavesFile | scripts/restore_worker.py:83-124 | From the empty store: two failed attempts, a link, a crash and another worker's claim leave the backup at the destination and the row FAILED |
| FailingRestores.OvertakenLeavesFile | sean_os/store.py:1141-1164 | The same without a crash, by a claim after the last lease's end; the run is not timely |
| FailingRestores.FailedIsLate | scripts/restore_worker.py:60-124 | Every run that ends with a file behind a FAILED row had a crash or a claim after the end of a lease in use |
| RestoreWorker.SettledStays | sean_os/store.py:1113-1350 | No transaction of anyone unsettles a row behind a file at a destination |
| RestoreWorker.Worker.ExecuteClaimedBackupRestore | sean_os/backup_restore_execution.py:329-391 | With the verified download and decryption: a receipt or an ambiguous end means the planned object was fetched and decrypted to a new destination; a plain error leaves one only if removing it failed; exactly when, if no call fails before the publication |
| RestoreWorker.Worker.FetchObject | sean_os/backup_restore_execution.py:338-350 | From the claim to the guard after the download: the planned ciphertext in its new file, exactly when plan, times, answers and body allow it |
| RestoreWorker.Worker.SettleAfterError | scripts/restore_worker.py:100-124 | Holds when a file may have been published, otherwise retries or fails |
| RestoreWorker.Worker.ProcessBackupRestoreOnce | scripts/restore_worker.py:56-124 | Claims the due row; keeps the store's invariant and changes no row but that one and those the claim's scan fails; a destination exists afterwards exactly for RESTORED or RECONCILIATION_REQUIRED, and a RESTORED file has the planned hash; no older file changes, and beside it only the download's file and, if its removal fails, the partial file are added; the script determines the status when no call fails before the publication |
| Header.HexRoundTrip | sean_os/backup_encryption.py:69-72 | Four printed hex digits read back as the number |
| Header.StringRoundTrip | sean_os/backup_encryption.py:69-72 | Any string, escaped to ASCII and parsed, comes back with its split surrogate pairs joined |
| Header.JoinedLength | sean_os/backup_encryption.py:69-72 | Joining changes a string exactly when it holds a split pair |
| Header.NumberRoundTrip | sean_os/backup_encryption.py:69-72 | Printed numbers parse back, whatever value end follows |
| Header.ObjectRoundTrip | sean_os/backup_encryption.py:69-72 | A printed object parses to its members in order, with split pairs joined |
| EnvelopeHeader.Base64RoundTrip | sean_os/backup_encryption.py:149-177 | Encoding then decoding a nonce is the identity |
| EnvelopeHeader.Base64Canonical | sean_os/backup_encryption.py:172-177 | Whatever decodes is the one encoding of its result |
| EnvelopeHeader.HeaderFits | sean_os/backup_encryption.py:135-200 | Every header the encryptor builds fits in 4096 bytes, even with 200 twelve-fold escapes |
| EnvelopeHeader.AcceptedExactly | sean_os/backup_encryption.py:153-180 | The accepted byte strings are exactly the canonical prints of readable headers, each parsed as the header and nonce it prints |
| EnvelopeHeader.RoundTripIff | sean_os/backup_encryption.py:135-180 | A built header is read back as itself exactly when its key reference has no split surrogate pair; otherwise with another reference |
| EnvelopeHeader.FloatTagAccepted | sean_os/backup_encryption.py:160-180 | The twin header with tag size 16.0 is accepted too |
| Envelope.XorSplit | sean_os/backup_encryption.py:222-227 | Encrypting in pieces, each at its offset, equals encrypting in one shot |
| Envelope.XorInvolution | sean_os/backup_encryption.py:349-357 | Decryption undoes encryption under the same key and nonce |
| Envelope.OpensExactlySeals | sean_os/backup_encryption.py:303-378 | The files that open are exactly the sealed ones, and each opens to what was sealed in it |
| Envelope.SealRoundTrip | sean_os/backup_encryption.py:190-378 | The envelope has size prefix + n + 16, and opens to its plaintext exactly when the key reference has no split pair |
| Envelope.GcmContext.EncryptUpdate | sean_os/backup_encryption.py:222-227 | One update continues the keystream and the ciphertext seen so far |
| EnvelopeFiles.WipeKey | sean_os/backup_encryption.py:104-106 | Every byte of the key is zero |
| EnvelopeFiles.EncryptLoop | sean_os/backup_encryption.py:221-227 | Whatever the chunking, the target gains exactly the one-shot ciphertext |
| EnvelopeFiles.SealInto | sean_os/backup_encryption.py:216-239 | The file is prefix, one-shot ciphertext and tag, and both digests saw all of their bytes |
| EnvelopeFiles.EncryptableIff | sean_os/backup_encryption.py:135-200 | When an encryption without faults succeeds, in terms a caller can check |
| EnvelopeFiles.Encrypt | sean_os/backup_encryption.py:190-273 | Success leaves exactly the sealed source with matching evidence; failure leaves no new file unless its removal fails; the key is wiped |
| DecryptFiles.ReadHeader | sean_os/backup_encryption.py:305-334 | The reads and checks accept exactly the files whose header matches request and size |
| DecryptFiles.DecryptLoop | sean_os/backup_encryption.py:346-358 | Counting down, the partial file becomes the one-shot decryption of exactly the declared bytes |
| DecryptFiles.Publish | sean_os/backup_encryption.py:379-388 | What link, unlink and clean-up failures leave, exactly |
| DecryptFiles.Deliver | sean_os/backup_encryption.py:335-388 | From the key to the published file: what each failing call leaves |
| DecryptFiles.DecryptTo | sean_os/backup_encryption.py:281-401 | Never alters an existing file; success publishes what was sealed; failure leaves neither partial nor destination unless a clean-up call fails; the key is wiped |
| Download.ReadBody | sean_os/backup_restore_provider.py:196-212 | The bounded loop ends, and succeeds exactly on a body of the planned length |
| Download.Fetch | sean_os/backup_restore_provider.py:188-222 | A fresh name ends as the planned bytes with the planned hash, or absent |
| Download.DownloadExact | sean_os/backup_restore_provider.py:137-245 | Success exactly when plan, provider answers and body all match, otherwise no file; an older file of that name is removed |
| EndToEnd.SealedComesBack | sean_os/backup_encryption.py:183-401 | The object of a COMPLETED transfer that was sealed from a source, served as a restore plan demands, is that object and decrypts to the source exactly if the key reference has no split pair; the source passes the restore's checks |
| EndToEnd.RestoredIsSource | sean_os/backup_restore.py:387-406 | In every run the file of a RESTORED row is the backup its upload plan was made for, unless the two collide |
| WorkQueue.NextKeepsInv | sean_os/store.py:2212-2434 | Every transaction keeps reservations, usage events, budgets and work items in balance |
| WorkQueue.RunKeepsInv | sean_os/store.py:2212-2434 | The same over whole runs |
| WorkQueue.AccountsBalance | sean_os/store.py:2212-2259 | Reserved is the sum of reservations, used the sum of usage events, neither is negative, their sum never exceeds the largest limit ever configured |
| WorkQueue.WorkAccounted | sean_os/store.py:2290-2434 | A reservation exists exactly for RUNNING work with positive estimate; SUCCEEDED work with positive estimate has exactly one usage event, other work none |
| WorkQueue.HighestIsLargest | sean_os/store.py:1918-1934 | The bound is one of the limits configured in the run, and the largest |
| WorkQueue.EstimateIsEnqueued | sean_os/store.py:2261-2288 | The estimate is the one of the transaction that created the item, although completion overwrites the payload |
| WorkQueue.ClaimWithinLimit | sean_os/store.py:2212-2239 | A claim raises what is committed only within the limit then in force |
| WorkQueue.SettlementNeverRaises | sean_os/store.py:2241-2259 | Completing keeps what is committed, failing and blocking release exactly the reservation |
| WorkQueue.ReclaimReservesNothing | sean_os/store.py:2302-2318 | Reclaiming an expired lease reserves nothing again and is never budget-blocked |
| WorkQueue.BudgetBlockedIff | sean_os/store.py:2212-2230 | A claim is refused for budget exactly when a queued item costs more than is left |
| WorkQueue.ClosedForEver | sean_os/store.py:2290-2434 | Finished and blocked items are never touched again |
| WorkQueue.ReclaimsUnbounded | sean_os/store.py:2302-2318 | For every n some run reclaims one item n times with max_attempts 1 |
| WorkAttempts.AttemptsWithinIff | sean_os/store.py:2290-2434 | Over every run: a queued item has attempts left, and an item's attempts are within its maximum if and only if no claim took it over when it was spent |
| WorkAttempts.AttemptsMove | sean_os/store.py:2415-2434 | One transaction breaks the bound exactly if it is such a claim, and attempts never decrease |
| WorkQueueClass.WorkStore.ConfigureBudget | sean_os/store.py:1918-1934 | Sets a limit, also below current use, and keeps the balance |
| WorkQueueClass.WorkStore.EnqueueWork | sean_os/store.py:2261-2288 | Adds one queued item within the allowed attempts |
| WorkQueueClass.WorkStore.ReserveCost | sean_os/store.py:2212-2239 | Nothing to do, reserved, or blocked; never more than is available |
| WorkQueueClass.WorkStore.SettleCost | sean_os/store.py:2241-2259 | Turns a reservation into usage or releases it |
| WorkQueueClass.WorkStore.SelectDue | sean_os/store.py:2302-2311 | A due item no due item precedes by priority and age, or none is due |
| WorkQueueClass.WorkStore.ClaimWork | sean_os/store.py:2290-2324 | At most one item, leased and paid for or blocked |
| WorkQueueClass.WorkStore.BlockWork | sean_os/store.py:2326-2343 | Only the leaseholder blocks, releasing the reservation |
| WorkQueueClass.WorkStore.CompleteWork | sean_os/store.py:2389-2413 | Only the leaseholder completes, consuming the reservation |
| WorkQueueClass.WorkStore.FailWork | sean_os/store.py:2415-2434 | Only the leaseholder fails, requeueing or dead-lettering and releasing the reservation |
| Migrations.StepSettles | sean_os/migrations.py:29-158 | Each statement, repeated, changes nothing |
| Migrations.Absorbed | sean_os/migrations.py:161-265 | Restarting a version after any part of it comes to the same as taking it once |
| Migrations.VersionDone | sean_os/migrations.py:14-19 | A version is in the ledger only after all of its steps |
| Migrations.CrashesConverge | sean_os/migrations.py:161-265 | However often a run is cut short, running again reaches the tables, ledger and outcome of one uninterrupted run |
| MigrationsData.MigrationCarries | sean_os/migrations.py:161-265 | At every crash point and at the end keys are kept and every non-null value is kept, but for the version-15 receipt move and columns outside the shape of a table whose rebuild is still to come |
| MigrationsData.DroppedExactly | sean_os/migrations.py:29-158 | After a finished run a value outside a rebuilt shape is kept if and only if the table was rebuilt or its version recorded before; otherwise it is gone |
| MigrationsData.FullLedger | sean_os/migrations.py:161-265 | A finished run leaves versions 1 to 18 and adds nothing beyond |
| MigrationsReady.SucceedsIff | sean_os/migrations.py:161-265 | A run raises nowhere exactly when the starting tables offer what the missing versions need |
| MigrationsReady.RebuildReady | sean_os/migrations.py:93-158 | Whether the version-16 rebuild succeeds, in terms of the rows before versions 14 and 15 |
| MigrationsReady.BackfillMakesRebuildSafe | sean_os/migrations.py:218-252 | From any ledger 1 to k before 14 no missing value in the execution columns can make the rebuild fail |
| MigrationsReady.NullAvailableFails | sean_os/migrations.py:93-158 | From a ledger at 14 or 15 a row with a null available_at makes the run fail |
| MigrationsRun.Connection.Upgrade | sean_os/migrations.py:29-158 | A rebuild happens whole or not at all |
| MigrationsRun.Connection.ApplyMigrations | sean_os/migrations.py:161-265 | The imperative run has the tables of the model's run, and succeeds exactly when the database was ready and no unknown version was recorded |
| MigrationGuard.MoveOneMore | sean_os/migration_guard.py:211-217 | Moving one more file aside adds one move to the set of moves made |
| MigrationGuard.MoveOneBack | sean_os/migration_guard.py:221-223 | Moving one file back, in any order, removes it from that set |
| MigrationGuardRun.Quarantine | sean_os/migration_guard.py:209-217 | The loop moves exactly the existing files, up to the first rename that fails |
| MigrationGuardRun.Rollback | sean_os/migration_guard.py:218-224 | The moved files go back in order, up to the first rename that fails; with working renames the earlier file map is back |
| MigrationGuardRun.CopyInto | sean_os/migration_guard.py:164-175 | The target appears verified and whole, exactly when write, verification and replacement work; otherwise only a copy whose removal failed stays |
| MigrationGuardRun.EnsureBackup | sean_os/migration_guard.py:106-161 | When the backup is made, in terms of version, files, manifest and faults, the files it leaves in every case, and that a backup once there is there in every later state, unchanged |
| MigrationRestore.RestoredContent | sean_os/migration_guard.py:205-236 | A restored database reads as its backup, and the failed files are in quarantine unchanged |
| MigrationRestore.Exchange | sean_os/migration_guard.py:209-224 | When the copy gets in place, and the file map in every case: copied, rolled back as far as renames work, or stuck at a failing rename |
| MigrationRestore.Restore | sean_os/migration_guard.py:178-236 | Which of its three ends follows from evidence, present version and faults, and the file map of each |
| MigrationRestore.RestoringEnds | sean_os/migration_guard.py:205-236 | A restore that goes through leaves copy, quarantine and evidence; one whose copy fails and whose renames work leaves the earlier files |
| MigrationRestore.Attempt | sean_os/migration_guard.py:266-289 | The outcome and the files of backup, runner, verification and restoration; once there the backup stays unchanged through every step; when tried, the guarded files and the runner's come next to each other in the history and the backup verifies from there on |
| MigrationRestore.GuardedMigrate | sean_os/migration_guard.py:247-289 | The outcome and the files, for every database, runner and failing call; once there the backup stays unchanged through every step, and in every tried outcome it verifies from before the runner on |
| MigrationOutcomes.OutcomesExactly | sean_os/migration_guard.py:251-266 | Exactly when a start is a first one, a database is current, and a migration is tried |
| MigrationOutcomes.AttemptsExactly | sean_os/migration_guard.py:267-282 | Exactly when a tried migration ends verified, undone, found restored, or with both failed; the evidence always matches, so only the failed database and the calls decide |
| MigrationOutcomes.UndoneReads | sean_os/migration_guard.py:205-236 | An undone migration reads as the backup, and as the source if the backup is new, and the runner's main file, log and shared-memory file are in quarantine as they were |
| MigrationOutcomes.FoundReads | sean_os/migration_guard.py:197-203 | A database found restored is left as it is, and reads as the backup exactly if there is no log or the log changes nothing |
| MigrationOutcomes.FoundWithLog | sean_os/migration_guard.py:197-203 | A run in which it is found restored and reads as something else |
| MigrationOutcomes.BothFailedFiles | sean_os/migration_guard.py:209-236 | The files of a double failure: the runner's, the moves before a failing rename, or a restored database without its evidence |
| MigrationOutcomes.RaisedFiles | sean_os/migration_guard.py:106-161 | An error before the runner changes no file but the backup's own two names |
| GuardedMigrations.CrashedLedger | sean_os/migrations.py:161-265 | However far the migrations come, the ledger stays contiguous, between source and target |
| GuardedMigrations.GuardedRun | sean_os/migration_guard.py:238-289 | With the migrations as runner: verified exactly if uninterrupted, ready for the missing versions and sound; wherever else it stops the backup can be restored, and only failing file calls prevent that |
| Policy.StoreEvolves | sean_os/store.py:367-433 | Whatever the store does to approvals: contents stay, a pending one is decided or expires, a one-time one is consumed, nothing else |
| Policy.NextKeepsInv | sean_os/policy.py:45-110 | Every step keeps: a spent one-time approval has one owner, an execution under way or a handler call made |
| Policy.ApprovalSpentOnce | sean_os/policy.py:77-108 | All work items that name one non-reusable approval, under actions that require one, cause at most one handler call |
| Policy.EveryRunJustified | sean_os/policy.py:58-91 | Every handler call was permitted by its registered policy, and paid for by the approval its work item names where the policy requires one, for that action, target and scope |
| Policy.NoRunBegunAfterResult | sean_os/policy.py:45-56 | Every handler call of an item belongs to an execution begun before its result was stored |
| Policy.ResultForEver | sean_os/store.py:2364-2387 | A stored result is never replaced or lost |
| Policy.ReplayReturnsResult | sean_os/policy.py:48-55 | An execution that begins after the result was stored returns that very result, or is refused as another type, and calls no handler |
| PolicyReruns.SerialNeverReruns | sean_os/policy.py:45-110 | While executions of an item do not overlap its handler is never called once it has a result |
| PolicyReruns.RerunsExactly | sean_os/policy.py:45-110 | Some schedule calls an item's handler once its result is stored if and only if the action is not refused and needs no approval, or the approval it names can be taken again |
| PolicyReruns.GrantedReruns | sean_os/policy.py:45-110 | With a granted approval no schedule does so exactly if the action is refused, or requires the approval and it is for one use |
| PolicyReruns.NeverReruns | sean_os/policy.py:45-110 | The first half, over overlapping executions: a stored result was paid for, and a one-time approval pays once |
| LeasedExecutions.StepKeepsInv | sean_os/store.py:2290-2324 | An item under execution keeps the lease it was taken up with, while executions end within their leases |
| LeasedExecutions.DisciplinedIsSerial | scripts/worker.py:218-239 | Then executions of one item never overlap, over every run of queue and registry |
| LeasedExecutions.LeasedNeverReruns | scripts/worker.py:218-239 | So no execution about to call its handler is for an item that has a result |
| PolicyReruns.OverlapRunsTwice | sean_os/policy.py:45-110 | Whenever that is possible, two overlapping executions call the handler after the result is stored, also under a reusable approval |
| PolicyClass.ActionRegistry.Register | sean_os/policy.py:34-37 | A name is registered once and for all |
| PolicyClass.ActionRegistry.Permit | sean_os/policy.py:58-91 | Which actions pass, and that only those consume their approval |
| PolicyClass.ActionRegistry.Execute | sean_os/policy.py:45-110 | An undisturbed execution is the four steps of the model taken in a row |
| PolicyClass.HandledIs | sean_os/policy.py:92-110 | What an allowed execution does to approvals, handler calls and results |
| CodingDelivery.CommitKeepsInv | sean_os/integrations.py:187-241 | Every commit keeps one artifact, one ledger row and at most one link of each kind per external id |
| CodingDelivery.CrashesThenDone | sean_os/integrations.py:187-241 | Calls for any external ids, crashed anywhere and interleaved, before and after one that finishes: exactly one artifact, ledger row and link of each kind for its id, for ever |
| CodingDelivery.CallsKeepInv | sean_os/integrations.py:187-241 | Any series of calls keeps one of everything, every finished delivery, and whether an id is in conflict |
| CodingDelivery.DoneIsFinal | sean_os/integrations.py:170-186 | A finished delivery has nothing left to do for any payload under its id |
| CodingDelivery.OtherCommitKeepsDone | sean_os/integrations.py:187-241 | A finished delivery is not touched by calls for other external ids |
| CodingDeliveryClass.CodingDeliveryAdapter.Record | sean_os/integrations.py:140-250 | The method makes exactly the model's commits up to the crash; it returns exactly if admitted, without conflict and with a commit for everything missing, and says whether it found something to continue |

## Left out

- SingleWorker.OnePutPerPlan: stated without crashes; `FailingRuns.CrashLeavesObject` shows that a crash breaks it.
- TransferWorker.Worker.ProcessBackupTransferOnce: a database call that itself raises is a crash of the worker, which this method does not have; `TransferProtocol` covers it.
- Policy.ApprovalSpentOnce: takes `consume_approval` as one step; called from `policy.py`, its select and its update are two statements. The same goes for `PolicyReruns.NeverReruns`.
- PolicyReruns.RerunsExactly: clock readings are arbitrary, so an approval that has expired by then still counts as one that can be taken.
- RestoreProtocol.RestoredMeansPublished: names with random parts never meet a destination, and nobody outside the workers touches the private directory; within one worker's calls `RestoreWorker` lets only the kill switch change.
- RestoreWorker.Worker.ProcessBackupRestoreOnce: the names of the download and of the partial file are new, and checks of configuration and directories before the claim are not modelled.
- LeasedExecutions.DisciplinedIsSerial: that executions end within their leases is a condition on the run; the program takes 30 seconds and does not renew them.
- FailingRestores.CrashLeavesFile: stated for two attempts that fail early and a third; other ways to the last attempt end alike.
- GuardedMigrations.GuardedRun: the runner's integrity check is the soundness that the guard verifies again, and a migrated main file is not empty.
- MigrationGuardRun.CopyInto: a copy that fails part way leaves nothing under its temporary name.
- WorkQueue.AccountsBalance: units are exact reals; rounding of floats, infinities and NaN are not modelled.
- EnvelopeHeader.AcceptedExactly: which texts are stripped and free of secrets, and which float tokens equal 16, are uninterpreted predicates; base64 is read as Python 3.12's strict mode reads it.
- Header.ObjectRoundTrip: a value that is neither string, non-negative integer nor float is refused while it is read; the program refuses it a few checks later.
- EnvelopeFiles.Encrypt: the final permission check is one of the faults of closing the file.
- Migrations.CrashesConverge: starts where `schema.sql` has created missing tables; time stamps are not columns, and an index counts only for the columns it needs.
- MigrationRestore.GuardedMigrate: the random parts of names make them new, and the runner changes only the database file and its two sidecars.
- CodingDeliveryClass.CodingDeliveryAdapter.Record: gate and field checks are one verdict given to the method.
- Fields a verifier compares with one constant are one field that is exact or altered; pattern checks on references, endpoints and secrets are uninterpreted predicates.
- Actor scopes, except where an approval is consumed, and the audit log, which no modelled step reads.
- Requesting an approval and reusing a pending one; approvals enter the model already requested.
- Loading of manifests, configuration and environment secrets; file permissions, links and fsync; real SQLite, HTTP and boto3 clients.
- AES, GHASH and SHA-256 internals, and secrecy or unforgeability; the cipher is a keystream and a tag.
- Alert delivery, scheduling, commands, reporting, monitoring, portfolio and revenue scoring: the same outbox pattern again, formatting, or easy uniqueness.
- The key, pilot, activation and operator packages: comparisons with constants, and checks the store repeats.
