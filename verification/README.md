# Intern, verified

Intern names a document, files it under that name, and takes the filing back on request. This project models
its safety-critical parts in Dafny and proves what they promise. `dafny verify dfyconfig.toml` checks all of it.

**The move.** A document is moved by rename on one volume, or by copy, verification, publication and deletion
across volumes. Each step is journalled in a receipt. A process can die between any two steps; a later session
takes the row and reconciles what is on the disk. Many sessions share one queue through leases, heartbeats and
compare-and-swap updates.

- `Domain` holds statuses, stages, receipts and rows. `QueueSpec` gives each call on the queue's tables as a
  function: those of the store, and the statements the pipeline makes on the same table itself. `QueueStore` is the
  store, tables updated in place, each method proved to do what that function says; `PipelineQueue` the same for the
  pipeline's statements, and the start of its recovery.
- `QueueInvariants`, `QueueRows`, `QueueTries`, `QueueFencing` and `QueueLiveness` prove what every run of calls keeps
  of the journal and of the rows, how often a document is tried, who may touch an item, and that a silent session
  loses what it held. `Watching` says which receipts still
  matter.
- `MoveLaw` says, for each kind and stage of the durable receipt, what the disk holds, and when a file may be
  deleted. `FileMover` is the applier: every primitive may fail, a rename may land unheard, a copy may be wrong,
  the process may die before any primitive, and other sessions call the queue between any two journal calls.
- `MoverRuns` puts the work of any number of processes into whole lives of any number of documents on one disk.
- `DestinationNames` covers the names the mover makes up.

A dead process is one whose `alive` flag is off: its remaining calls return errors and change nothing, so what a
method promises about its end also holds for a crash at each point inside it. A `faultless` process neither
dies nor meets a fault of its own, though other programs may keep the files in `gripped` open; a `sound` one meets not
even that; one that is `barred` is refused every deletion; a `healthy` one is sound and not barred. The log kept by `Disk` records both sides of every step, each going on where the last one ended,
from the first files to the files there are now; that it is lawful says when files may go, on any disk, and, on a
disk that fitted its journal to begin with (`fitting`), that the table of `MoveLaw` held at each of them.

How a reconciliation by the owner ends when nothing fails (`VerdictOf`): with the destination there it completes,
unless a different hash was recorded (then it parks) or the stage is rollback-required (then it sticks, see
below); with only the source it rolls back, unless a recorded temporary has vanished (then it parks). When a deletion that
takes is refused, or the original is kept open (`Hindered`), it parks with the source-delete error.

**Elsewhere.** `Download` and `ContentRange`: the resumable, verified model download. `Fingerprint`: the simhash
and how far a misread character moves it. `Calendar` and `HistoryCsv`: the history export (ISO 8601:2004,
RFC 4180). `Distill` and `RunningLines`: which blocks go into a digest. `Evidence`: whole-word quotation.
`HouseStyle`: what an edit of a name teaches. `WordRuns`, `Numerals`, `Sorting` and `Counting` serve these.

## Assumptions

- `rename_no_replace` is atomic and refuses an existing target, as the Windows call does
  (crates/intern-core/src/file_ops.rs:1607). The portable version links and then unlinks and is not atomic.
- A folder is on one volume (`Disk.volume`), and a rename from one volume to another fails.
- The temporary name is new: its token stands for process, clock and sequence number
  (crates/intern-core/src/file_ops.rs:1473).
- No outside program writes the source, temporary or destination paths during an operation.
- On the disk, processes take turns: any live one may do the next thing, but a row is not taken over, nor another
  item moved, while its owner is in the middle of one. The statements about the queue alone (`QueueInvariants`,
  `QueueRows`, `QueueTries`, `QueueFencing`, `QueueLiveness`) do not assume this.
- SHA-256 is injective on the bytes read, and a read that goes wrong unnoticed yields a digest no honest read
  yields (`Sha256` and `Garbled` in `Domain`). The fingerprint an operation starts from is an honest one.
- The queue starts empty, and its ids are never reused, as the AUTOINCREMENT columns ensure. A path stands for
  its normalised key. The clock is a parameter of each call and may go backwards.
- A model server is truthful when a 200 body is a start of the served file and a 206 says which part it carries;
  an attempt is calm when it has room on disk and meets no fault and no cancellation, and undisturbed when it also
  gets a complete reply.
- `to_lowercase` gives at least one character; a spelling's key ignores white space at its ends.
- Text is a sequence of characters, not of UTF-8 bytes; positions count characters.

## Where the code does not settle or promise what one might expect

- A rollback-required receipt with only the destination left, and no different hash recorded, reaches
  `resolve_verified_operation`, which refuses that stage (crates/intern-core/src/store.rs:675) with an error that
  carries no receipt; `park_unsettled` (crates/intern-core/src/file_ops.rs:411) then does nothing and the row
  stays applying. `FileApplier.Reconcile` states this as the verdict `Sticks`, with the exact condition, and
  `FileMover.SticksHappens` gives a disk where it holds.
- A recorded temporary that has vanished parks the item (crates/intern-core/src/file_ops.rs:493) although the
  source is intact; the verdict `Parks`, and `FileMover.ParksHappens` gives a disk.
- The design document has interrupted work return to the queue with its attempt counted, and an item stop after two
  failed attempts (docs/superpowers/specs/2026-08-11-intern-v1-design.md:210-214). The code puts rows back in one
  statement and counts in another (crates/intern-queue/src/pipeline.rs:1904-1913). A pause, or a death between the
  two, counts nothing, so tries have no bound (`QueueTries.PausesCountNothing`); two sessions that both listed a row as
  interrupted count it twice, so it fails after one try (`QueueTries.RecoveryCanCountTwice`).
  `QueueTries.TriesAreAccounted` is the account that holds, and when it comes to two tries;
  `PipelineQueue.Recover` meets that condition when no other session is at the queue.
- `select` means to drop an optional block shaped like one already kept (crates/intern-engine/src/distill.rs:577-589);
  the code also drops one shaped like a better block it left out (`Distill.SelectionHasNoRepeats`).
- A partial file of the full length is thrown away when reading it back fails, and the next request is for the whole
  file (crates/intern-engine/src/download.rs:465-495): `Download.Downloader.Attempts` promises growth only until
  the file is whole.
- A change of the document type can teach nothing (`HouseStyle.TypeEditCanGoUnnoticed`);
  `HouseStyle.LessonExactlyWhen` says exactly when an edit teaches.
- `QueueStore.Store.RenewLease` keeps the heartbeat even when it refuses the lease: its two statements share no
  transaction.

## Model

| member | source | states |
|---|---|---|
| QueueInvariants.AtMostOneBusyRow | crates/intern-core/src/store.rs:170-210 | From an empty database, after any calls by any number of sessions in any order, at most one row is extracting, analyzing or applying. |
| QueueInvariants.ReceiptsStayBound | crates/intern-core/src/store.rs:432-475 | On every run: a row is applying exactly when it has a previous status, which is ready or completed; the receipt a row is bound to is its own and is an apply exactly when the previous status is ready; an unfinished receipt, and one a row is bound to, is the newest of its item, so an item has at most one. |
| QueueInvariants.RunKeepsValid | crates/intern-core/src/store.rs:61-1403 | The invariant behind those two statements survives every finite run of calls, of the store's and the pipeline's own. |
| QueueInvariants.CallKeepsValid | crates/intern-core/src/store.rs:147-1403 | Every single call, by any session at any time, keeps that invariant, whether it commits or is refused. |
| QueueInvariants.PipelineCallKeepsValid | crates/intern-queue/src/pipeline.rs:2012-2424 | So do the pipeline's own statements on the table: each edits one row outside any operation or removes one that is not busy. |
| QueueInvariants.CreateKeepsValid | crates/intern-core/src/store.rs:1121-1212 | Creating a receipt cannot leave an item with two unfinished receipts. |
| QueueInvariants.JournalKeepsValid | crates/intern-core/src/store.rs:1245-1325 | A journal write that keeps the receipt's identity and never reopens it keeps the invariant. |
| QueueInvariants.NewestIsGreatest | crates/intern-core/src/store.rs:1214-1224 | The newest receipt of an item is the one with the greatest id among all of that item's receipts, and there is none only if the item has none. |
| QueueFencing.TakenOnlyWhenAbandoned | crates/intern-core/src/store.rs:497-543 | An applying row is taken only from nobody, from a session that is gone, or from another session whose lease and heartbeat are both out of date; only owner and lease change. |
| QueueFencing.OthersLeaveApplyingAlone | crates/intern-core/src/store.rs:147-1403 | While one session owns an applying row, no call of another session changes the row or any receipt of the item, a successful takeover apart. |
| QueueFencing.DeadCallIsRefused | crates/intern-core/src/store.rs:212-326 | A lease call, a move out of an active status or a journal call on an item, by a session that does not own its row, is refused and changes no row and no receipt. |
| QueueFencing.OwnershipIsTaken | crates/intern-core/src/store.rs:170-210 | A session comes to own a row only by one of the four calls that take one. |
| QueueFencing.StaysDisowned | crates/intern-core/src/store.rs:497-543 | A session that owns nothing of an item owns nothing of it after any run in which it does not take it. |
| QueueFencing.FencingOverRuns | crates/intern-core/src/store.rs:497-543 | After a takeover in any reachable database, and until the old owner takes the row again, each of its lease calls, moves out of an active status and journal calls on the item is refused and changes nothing, whatever all sessions do in between. |
| QueueFencing.CallKeepsReceipt | crates/intern-core/src/store.rs:1245-1325 | No call changes what a receipt moves, from where, to where, or in which direction; its stage only goes forward, a finished one never changes it, and one that required rollback is never complete. |
| QueueFencing.GoneStaysGone | crates/intern-core/src/store.rs:1043-1069 | A receipt deleted with its item never comes back under the same id. |
| QueueFencing.FinishedReceiptsStayFinished | crates/intern-core/src/store.rs:545-764 | The same over whole runs: stages never go back, and a finished receipt never reopens. |
| QueueFencing.DeferredRetryRestoresErasedStatus | crates/intern-core/src/store.rs:805-938 | The status a retry of a deferred deletion writes back by hand is the one that handing the row to a person erased. |
| QueueFencing.DeferredCanBeRetried | crates/intern-core/src/store.rs:805-938 | After a failed deletion is handed to a person, and as long as nobody touches the row, the retry of any open session is granted once no other row is busy, and binds the very receipt that was published. |
| QueueFencing.ParkedCanBeRetried | crates/intern-core/src/store.rs:865-938 | So is the retry of a row that reconciliation parked with that error on a published apply. |
| QueueLiveness.StaleProcessingIsRecovered | crates/intern-core/src/store.rs:940-975 | A row being extracted or analyzed whose lease has run out and whose owner was last heard a minute ago or more is put back, nobody's, by the next recovery. |
| QueueLiveness.StaleApplyingIsTaken | crates/intern-core/src/store.rs:497-543 | An applying row in the same state is granted to any other open session that asks. |
| QueueLiveness.RunIsHeard | crates/intern-core/src/store.rs:170-326 | On every run, a session's heartbeat is no later than its own last call, and no lease on a row it owns runs more than a minute past that. |
| QueueLiveness.SilentSessionLosesItsRows | crates/intern-core/src/store.rs:497-543 | From an empty database, after any calls by any sessions: each row of a session that made its last call at least a minute ago is put back by another's recovery, or granted to another that asks for it if it was applying. |
| QueueLiveness.QueueNeverFreezes | crates/intern-core/src/store.rs:940-975 | A minute after the last call of all, one recovery leaves no row being processed, and an applying one can be taken by whoever does not own it. |
| QueueStore.Store.constructor | crates/intern-core/src/store.rs:61-142 | Opening a handle inserts the session row and touches nothing else. |
| QueueStore.Store.Close | crates/intern-core/src/store.rs:1411-1423 | Closing deletes the session and clears it from every row it owns. |
| QueueStore.Store.Enqueue | crates/intern-core/src/store.rs:147-168 | Afterwards a row stands for the document; if one already did, nothing changes; otherwise exactly one row is new, queued, under the next id, and every other row is as it was. |
| QueueStore.Store.ClaimNext | crates/intern-core/src/store.rs:170-210 | The scan claims the queued row with the lowest id, and only when no row is busy: it is then extracting, this session's, with a lease of 60 seconds and no error, and nothing else changes but the heartbeat. |
| QueueStore.Store.RenewLease | crates/intern-core/src/store.rs:212-230 | Done exactly when the live session owns the busy row, and then for a whole lease nobody can call the row abandoned; a refusal still leaves the heartbeat, and no other row, status or receipt changes either way. |
| QueueStore.Store.Transition | crates/intern-core/src/store.rs:275-326 | Done exactly when the move is listed, the row is at the expected status and, out of an active one, owned by this session; then owner and lease are there exactly if the new status is active, and no other row and no receipt changes; refused, nothing does. |
| QueueStore.Store.RecordProcessingFailure | crates/intern-core/src/store.rs:1071-1119 | Done exactly for the owner of an extracting or analyzing row; one more failure is counted, the row fails if it had failed before and is queued otherwise, unowned; nothing else changes. |
| QueueStore.Store.RecoverInterrupted | crates/intern-core/src/store.rs:940-975 | Exactly the extracting and analyzing rows are queued and unowned that are nobody's, or of a session that is gone, or past their lease with their owner's heartbeat 60 seconds old; all others are as they were. |
| QueueStore.Store.CasStatus | crates/intern-core/src/store.rs:1327-1354 | Done exactly at the expected status; the row then holds on to nothing but its document and its failures, zero if asked; nothing else changes, and refused nothing does. |
| QueueStore.Store.RetryDuplicate | crates/intern-core/src/store.rs:396-416 | Done exactly in review with the duplicate error; the row is then queued, without failures and bound to nothing; nothing else changes. |
| QueueStore.Store.CompleteKeepOriginal | crates/intern-core/src/store.rs:418-430 | Done exactly from ready or review at that status; the row is then completed and bound to nothing; nothing else changes. |
| QueueStore.Store.ClearTerminal | crates/intern-core/src/store.rs:1043-1062 | Exactly the failed, canceled and completed rows are gone, with exactly their receipts; the rest is as it was, and the reply is the number of rows gone. |
| QueueStore.Store.DiscardQueued | crates/intern-core/src/store.rs:1064-1069 | The same for exactly the queued rows. |
| QueueStore.Store.BeginApplying | crates/intern-core/src/store.rs:432-475 | Done exactly from ready or completed, with no other row busy and the row binding nothing; the whole new row is stated, its epoch one higher, its lease 60 seconds. |
| QueueStore.Store.ClaimApplying | crates/intern-core/src/store.rs:497-543 | Done exactly for an applying row that is nobody's, or of a session that is gone, or of another session past its lease with its heartbeat 60 seconds old; only owner and lease change. |
| QueueStore.Store.ClaimDeferred | crates/intern-core/src/store.rs:899-938 | Done exactly in review with the source-delete error beside a published apply receipt of the item, when no other row is busy; the row is then applying from ready and bound to that receipt. |
| QueueStore.Store.FinishApplying | crates/intern-core/src/store.rs:1356-1403 | Leaves applying only with the bound receipt complete, owned, and in the direction the previous status says. |
| QueueStore.Store.CreateReceipt | crates/intern-core/src/store.rs:1121-1212 | Writes a planned receipt only into an owned epoch that binds none and has none open. |
| QueueStore.Store.LoadReceipt | crates/intern-core/src/store.rs:1214-1224 | Finds the newest receipt of an item. |
| QueueStore.Store.LoadActiveReceipt | crates/intern-core/src/store.rs:1226-1243 | Finds the receipt the row is bound to, if it is the item's own. |
| QueueStore.Store.UpdateReceipt | crates/intern-core/src/store.rs:1245-1325 | Advances a receipt only along the permitted stages, from the expected one, under the owner's lease. |
| QueueStore.Store.RenewOperationLease | crates/intern-core/src/store.rs:232-273 | Renews only while the bound receipt is still at the expected stage. |
| QueueStore.Store.RecordApplyingRollback | crates/intern-core/src/store.rs:766-803 | Notes the failed receipt and its error on the owned row. |
| QueueStore.Store.DeferPublished | crates/intern-core/src/store.rs:805-863 | Done exactly for the source-delete error on the owner's row bound to a published apply; the row is then in review with that error and that receipt, and nothing else changes. |
| QueueStore.Store.ParkForReview | crates/intern-core/src/store.rs:865-897 | Done exactly for the row's owner bound to the receipt; the row is then in review with exactly the given error and that receipt, and nothing else changes. |
| QueueStore.Store.ResolveEmpty | crates/intern-core/src/store.rs:635-667 | An epoch without a receipt returns to the status it came from. |
| QueueStore.Store.ResolveRollback | crates/intern-core/src/store.rs:545-633 | Marks the receipt rolled back and returns the row, in one transaction, from the expected stage only. |
| QueueStore.Store.ResolveVerified | crates/intern-core/src/store.rs:669-764 | Marks the receipt complete and moves the row on; refuses a receipt that required rollback. |
| QueueStore.Store.Serve | crates/intern-core/src/store.rs:147-1403 | The methods of the store are together its calls in the statements about runs. |
| PipelineQueue.Repository.SaveProposal | crates/intern-queue/src/pipeline.rs:2012-2043 | Done exactly for the owner of an analyzing row, which is then ready or in review, unowned, its failures kept; nothing else changes. |
| PipelineQueue.Repository.MarkNeedsReview | crates/intern-queue/src/pipeline.rs:2276-2304 | Done exactly for a ready row, of which only the status changes. |
| PipelineQueue.Repository.RetryUnverified | crates/intern-queue/src/pipeline.rs:2306-2325 | Done exactly in review with the unverified-uploader error; the row is then queued, nobody's, with nothing held against it. |
| PipelineQueue.Repository.RetryCanceled | crates/intern-queue/src/pipeline.rs:2327-2342 | The same for exactly the canceled rows. |
| PipelineQueue.Repository.RecordRecoveredFailure | crates/intern-queue/src/pipeline.rs:2344-2368 | Done exactly for a queued row nobody owns; one more failure is counted, and it fails if it had failed before. |
| PipelineQueue.Repository.RemoveItem | crates/intern-queue/src/pipeline.rs:2370-2383 | Done exactly for a row that is not busy, which goes with exactly its receipts. |
| PipelineQueue.Repository.ApproveEdit | crates/intern-queue/src/pipeline.rs:2385-2424 | Done exactly at the expected status, ready or review; the row is then ready without error, and the rest of it is as it was. |
| PipelineQueue.Recover | crates/intern-queue/src/pipeline.rs:1891-1914 | With no other session at the queue: exactly the interrupted rows are put back, each with one more failure, failed if it had one before; all else is as it was, and every putting back is counted. |
| PipelineQueue.ServeAll | crates/intern-core/src/store.rs:147-1403 | A run of calls through the handles of any sessions, and through the pipeline's own, leaves the tables as the run of their meanings does, so what is proved of every run holds of the tables updated in place. |
| QueueRows.OneRowForEachDocument | crates/intern-core/src/store.rs:147-168 | From an empty database, however often and by whomever documents are added, the same content at the same place has one row. |
| QueueRows.FailuresAreFew | crates/intern-core/src/store.rs:1071-1119 | On every run no more than two failures are ever counted against a row, and the second only on a failed row. |
| QueueRows.OwnersAreBusy | crates/intern-core/src/store.rs:170-326 | On every run an owned row is busy, and a session owns one row at most. |
| QueueRows.CallFollowsEdges | crates/intern-core/src/domain.rs:51-73 | No call of any session, the pipeline's own statements included, moves a row from status to status but along one graph, written out edge by edge. |
| QueueRows.EveryEdgeHappens | crates/intern-core/src/domain.rs:51-73 | And each edge of that graph is taken by some call on some valid queue. |
| QueueRows.CanceledUntilRetried | crates/intern-queue/src/pipeline.rs:2327-2342 | Over any run without a retry of it, a canceled row that still exists is canceled, and the retry then puts it into the queue, nobody's and with no failures, and leaves every other row. |
| QueueRows.RowGoneStaysGone | crates/intern-core/src/store.rs:1043-1069 | A deleted row never comes back under the same id. |
| QueueRows.RenewedLeaseHolds | crates/intern-core/src/store.rs:212-230 | For a whole lease after a renewal nobody can take the row over or recover it. |
| QueueRows.RecoveryIsComplete | crates/intern-core/src/store.rs:940-975 | Recovering again at once finds nothing and changes nothing. |
| QueueTries.TriesAreAccounted | crates/intern-queue/src/pipeline.rs:2344-2368 | On every run in which no person asks for the document again: tries and failures counted on recovery together are at most two more than the times it was put back uncounted; so it is tried twice at most if each of those is counted after all. |
| QueueTries.PausesCountNothing | crates/intern-queue/src/pipeline.rs:990-997 | A document claimed and paused any number of times has been tried that often, with no more failures than before. |
| QueueTries.RecoveryCanCountTwice | crates/intern-queue/src/pipeline.rs:1891-1914 | Two sessions recovering at once fail a row after the one try it had. |
| MoveLaw.DocumentNeverLost | crates/intern-core/src/file_ops.rs:797-1358 | Whatever the kind and stage, a disk that fits the receipt has the document at the source or at the destination, and neither name holds anything else. |
| MoveLaw.ApartStaysFit | crates/intern-core/src/file_ops.rs:797-1358 | An operation that shares no path with another cannot unfit it, wherever it stops. |
| MoveLaw.SharedNameUnfits | crates/intern-core/src/file_ops.rs:1416-1456 | One that shares a path can: a concrete filing takes the free name a parked rename was to fill. |
| MoveLaw.EveryStepKeeps | crates/intern-core/src/file_ops.rs:797-1358 | On any disk, fitting its journal or not, no step of a lawful record destroys what any path but the operation's temporary name holds. |
| MoveLaw.JournalSaysWhatIsThere | crates/intern-core/src/file_ops.rs:797-1358 | On a disk that fitted its journal, each receipt ever journalled said what there was: of source and destination exactly, and of no temporary that it was gone while it was there. |
| MoveLaw.SweepingKeeps | crates/intern-core/src/file_ops.rs:489-739 | Nor does a whole reconciliation, which deletes at most the temporary, or the source while the destination has the document too. |
| MoveLaw.CompleteIsMove | crates/intern-core/src/file_ops.rs:797-1358 | A completed operation on a disk that fits it has moved the bytes and left every other path alone, its temporary gone. |
| MoveLaw.MoveAndBack | crates/intern-core/src/file_ops.rs:344-384 | Moving a file away and back restores the contents of the disk. |
| DestinationNames.NumberedNamesDiffer | crates/intern-core/src/file_ops.rs:1416-1456 | The requested name and all its numbered forms are pairwise different. |
| DestinationNames.NumberKeepsExtension | crates/intern-core/src/file_ops.rs:1416-1456 | A numbered name stays in the folder and keeps the extension last: the number, in decimal without leading zeros, stands before the last dot, or at the end of a name with no dot but a leading one. |
| DestinationNames.TakenNamesAreFiles | crates/intern-core/src/file_ops.rs:1416-1456 | If the first n of them are taken there are at least n files. |
| DestinationNames.FreshTokenIsFresh | crates/intern-core/src/file_ops.rs:1473-1483 | A token no file's name ends in gives a temporary name no file has. |
| DestinationNames.TemporaryIsBeside | crates/intern-core/src/file_ops.rs:1473-1483 | The temporary is in the destination's folder, hidden, and its name carries the destination's and the token. |
| DestinationNames.TemporaryIsNotDestination | crates/intern-core/src/file_ops.rs:1473-1483 | A temporary is never at the destination's name. |
| FileMover.FileApplier.RenameNoReplace | crates/intern-core/src/file_ops.rs:1607-1625 | Atomic within one volume and refused across two; refuses an existing target; may have landed although it reports failure. |
| FileMover.FileApplier.CopyNewLocked | crates/intern-core/src/file_ops.rs:1110-1125 | Writes only the temporary; the bytes that arrive may be wrong, and a failure may leave a fragment. |
| FileMover.FileApplier.DeleteLocked | crates/intern-core/src/file_ops.rs:1340-1346 | Deletes only what the durable receipt of the row's holder allows: the file held, its partner another file, held and holding the document, the lease renewed directly before under the stage still journalled. The step joins a record that starts from the first files, links every step to the one before and ends at the disk as it is, with the table holding on both sides of each step and every journalled receipt true of the three names. |
| FileMover.FileApplier.CreateReceipt | crates/intern-core/src/file_ops.rs:888-916 | Binds a planned receipt to this session's epoch or leaves the epoch as it was; never fails a healthy entitled session without open receipts. |
| FileMover.FileApplier.UpdateReceipt | crates/intern-core/src/store.rs:1245-1325 | With other sessions calling the queue in between: succeeds only for the holder, and a failure leaves the durable receipt. |
| FileMover.FileApplier.RenewOperationLease | crates/intern-core/src/store.rs:232-273 | Succeeds only for the holder, and then leaves a renewal as the last entry of the log. |
| FileMover.FileApplier.ReconciliationError | crates/intern-core/src/file_ops.rs:1390-1414 | A failure keeps the durable receipt bound with exactly the reported error on the row; or, when only the deletion of a published apply's original failed, leaves the row in review with exactly the source-delete error. Reported as a state conflict only if the queue could not be told. |
| FileMover.FileApplier.SameVolumeTransfer | crates/intern-core/src/file_ops.rs:918-960 | A rename leaves disk and receipt fitting wherever it stops, and completes when nothing fails. |
| FileMover.FileApplier.VerifyRenamed | crates/intern-core/src/file_ops.rs:961-1026 | The renamed file is completed only when it reads back as the document; otherwise it is put back, with what was read instead on record, or left to reconciliation. |
| FileMover.FileApplier.RollbackAfterRename | crates/intern-core/src/file_ops.rs:1028-1091 | Journals the intent before putting the file back, and never ends with both names or neither. |
| FileMover.FileApplier.CrossVolumeTransfer | crates/intern-core/src/file_ops.rs:1093-1137 | A copy leaves disk and receipt fitting wherever it stops, and completes when nothing fails; if all that fails is that deletions are refused, it ends with the source-delete error, the receipt published and the document at both names. |
| FileMover.FileApplier.VerifyCopy | crates/intern-core/src/file_ops.rs:1138-1192 | A copy is journalled verified only when it reads back as the document. |
| FileMover.FileApplier.TempFailure | crates/intern-core/src/file_ops.rs:1360-1388 | A bad copy is deleted only under a renewed lease with the source in hand. |
| FileMover.FileApplier.PublishCopy | crates/intern-core/src/file_ops.rs:1197-1232 | A publishing rename that landed unheard still fits the verified stage. |
| FileMover.FileApplier.VerifyPublished | crates/intern-core/src/file_ops.rs:1233-1286 | What was published is read back, and the answer journalled, before anything is deleted. |
| FileMover.FileApplier.Recheck | crates/intern-core/src/file_ops.rs:1287-1328 | Reports no problem only with the source still holding the document. |
| FileMover.FileApplier.DeleteOriginal | crates/intern-core/src/file_ops.rs:1287-1358 | The original is deleted last: published in the journal, destination held and holding the document, lease just renewed; refused that deletion and nothing else, it reports exactly that, and an apply's row goes to review. |
| FileMover.FileApplier.Transfer | crates/intern-core/src/file_ops.rs:797-885 | With a receipt in the result, disk and durable receipt fit and describe this operation, a rename exactly if source and destination are on one volume, and the error is one its stage explains; without one nothing was touched and the epoch is as it was; a deletion is reported failed only of a published copy whose hash was right; when nothing fails it succeeds exactly when the destination is free and the source holds the expected bytes; a source another program keeps open is reported as locked. |
| FileMover.FileApplier.HoldSource | crates/intern-core/src/file_ops.rs:857-876 | Succeeds only with the source held and holding the expected document; with no fault, fails exactly when another program keeps it open, as locked, or when it holds something else, as changed. |
| FileMover.FileApplier.AvailableDestination | crates/intern-core/src/file_ops.rs:1416-1456 | Probes at most one name more than there are files and returns the first free name in the requested folder. |
| FileMover.FileApplier.Apply | crates/intern-core/src/file_ops.rs:327-342 | The same for an apply: the destination is the first free name, so no file is overwritten. |
| FileMover.FileApplier.Undo | crates/intern-core/src/file_ops.rs:344-384 | Only the item's newest receipt, a completed apply the caller knows exactly, is undone, onto a free original name; when nothing fails it succeeds exactly then, and otherwise says which of these was not so. |
| FileMover.NobodyJournalsElsewhere | crates/intern-core/src/store.rs:1121-1325 | While an item is applying, every journal call on another item, by any session, is refused and changes nothing. |
| FileMover.FileApplier.ProveHeld | crates/intern-core/src/file_ops.rs:588-631 | A held file is proved only if it holds the document; when nothing fails, exactly then. |
| FileMover.FileApplier.VerifyReconciledSource | crates/intern-core/src/file_ops.rs:588-631 | Succeeds only with the source held and holding the document. |
| FileMover.FileApplier.VerifyReconciledDestination | crates/intern-core/src/file_ops.rs:741-795 | Succeeds only with the destination held and holding the document and no different hash recorded. |
| FileMover.FileApplier.CleanupTemporary | crates/intern-core/src/file_ops.rs:489-569 | Deletes a leftover temporary only with the source held and verified; a recorded temporary that has vanished is a state conflict, a refused deletion the source-delete error, and with no fault there are no others. |
| FileMover.FileApplier.ReconcileRolledBack | crates/intern-core/src/file_ops.rs:571-586 | Ends as `Reconciled` says from a rolled-back receipt. |
| FileMover.FileApplier.ReconcileComplete | crates/intern-core/src/file_ops.rs:633-649 | Ends as `Reconciled` says from a complete receipt. |
| FileMover.FileApplier.ReconcilePublished | crates/intern-core/src/file_ops.rs:651-739 | Ends as `Reconciled` says from a published receipt, deleting the original if it is still there. |
| FileMover.FileApplier.PublishedUnchanged | crates/intern-core/src/file_ops.rs:678-710 | Reports no problem only with the original still holding the document; with nothing failing, none. |
| FileMover.FileApplier.DeletePublishedSource | crates/intern-core/src/file_ops.rs:660-724 | Succeeds only for the row's holder, and only then is the original gone; with no fault it fails exactly when deletions are refused or another program keeps the original open, with the source-delete error. |
| FileMover.FileApplier.ReconcileIncomplete | crates/intern-core/src/file_ops.rs:422-480 | Ends as `Reconciled` says from every unfinished stage before publication and from one that required rollback. |
| FileMover.FileApplier.CatchUpPublication | crates/intern-core/src/file_ops.rs:449-471 | A published copy whose journal is one write behind is caught up and finished. |
| FileMover.FileApplier.ParkUnsettled | crates/intern-core/src/file_ops.rs:411-420 | Puts the row in review with its receipt kept and exactly the given error, if the error carries a receipt; otherwise changes nothing. |
| FileMover.FileApplier.Reconcile | crates/intern-core/src/file_ops.rs:386-400 | By the owner, on any disk whatever: it deletes nothing but the temporary with the source verified, or the source with the destination verified, and success leaves the document at the destination alone or at the source alone, as the status then says. On a disk that fits: success leaves a finished receipt and a fitting disk; failure leaves the receipt bound, or kept in review with exactly the error returned, and the disk fitting, so it can be run again after a crash at any point; when nothing fails the outcome is the one the disk and receipt decide, the two stuck cases included; when all that fails is a deletion it needs, refused or of an original kept open, the row is in review with the source-delete error. By anyone else: nothing on the disk changes. |
| FileMover.SticksHappens | crates/intern-core/src/file_ops.rs:411-420 | A disk and a receipt that fit each other and that reconciliation leaves stuck: a rename whose rollback was intended and did not land, with no hash on record. |
| FileMover.ParksHappens | crates/intern-core/src/file_ops.rs:489-500 | A disk and a receipt that fit each other and that go to a person although the source is intact: a copy whose recorded temporary is gone. |
| MoverRuns.TransferLosesNothing | crates/intern-core/src/file_ops.rs:797-1358 | Wherever a transfer stops, every document that was safe still is, each in a place of its own, and the disk fits the open operations of every item. |
| MoverRuns.ReconciliationLosesNothing | crates/intern-core/src/file_ops.rs:386-795 | The same for reconciliation. |
| MoverRuns.BystanderKeepsWell | crates/intern-core/src/store.rs:147-1403 | No queue call by anyone that journals nothing exposes a document or unfits the disk, for any item. |
| MoverRuns.Moment | crates/intern-queue/src/pipeline.rs:290-345 | Whichever live process does the next thing with whichever item, dying before any step of it, every document is kept, the record is lawful and only grows, and the disk fits every open operation. |
| MoverRuns.FinishUnlessStopped | crates/intern-queue/src/pipeline.rs:304-311 | Between the journal's last word and the queue's the process may die or find its lease failed, and every document is kept. |
| MoverRuns.SettleOwn | crates/intern-queue/src/pipeline.rs:1501-1503 | A live process may reconcile what its own failed transfer left, and every document is kept. |
| MoverRuns.Start | crates/intern-core/src/store.rs:61-142 | Any disk beside an empty queue meets what the statement on whole lives starts from. |
| MoverRuns.Lifetime | crates/intern-core/src/file_ops.rs:327-400 | Any number of documents on one disk, moved by any number of processes that take turns, with any queue calls between: every document that was on the disk is still on it, no two of them become one, what is done is added to a record that is complete and lawful, and the disk fits every open operation of every item. |
| MoverRuns.NextProcessSettles | crates/intern-queue/src/pipeline.rs:1915-1930 | On what any lives left, a new session that meets no fault settles an applying row that is nobody's, of a session that is gone, or past its lease with its owner's heartbeat 60 seconds old: complete with the document at the destination alone, rolled back with it at the source alone, or in review, or still applying in exactly the case the store refuses. |
| MoverRuns.LivesEndSettled | crates/intern-queue/src/pipeline.rs:1891-1930 | The two together: after any lives, each row that can be taken over ends in one of those ways. |
| MoverRuns.RetrySettles | crates/intern-queue/src/pipeline.rs:1690-1699 | The person's retry of a row in review for a refused deletion, once the queue is quiet and nothing fails: the original goes, the document is at the destination alone, the row is completed; unless a different hash had been recorded, which sends it back to review. |
| MoverRuns.FileThenRetry | crates/intern-queue/src/pipeline.rs:290-320 | A filing that is refused every deletion, then that retry, together move the document as one filing would, and change nothing else on the disk; in between it is at both names and the row is in review with exactly that error. |
| MoverRuns.There | crates/intern-queue/src/pipeline.rs:290-320 | A filing reported done is the item's newest receipt, complete, and has moved the document; when nothing fails it is done exactly if the source holds the document. |
| MoverRuns.Back | crates/intern-queue/src/pipeline.rs:322-339 | Taking back what is filed moves it back and leaves the item ready; when nothing fails it is done. |
| MoverRuns.ThereAndBack | crates/intern-core/src/file_ops.rs:344-384 | A completed apply followed by a completed undo restores the contents of the disk, path by path, and the item is ready, whichever legs were renames or copies; when nothing fails, the source holds the document and the queue lets the apply start, both complete. |
| Calendar.YearOfEraIsRight | src-tauri/src/commands.rs:1942-1943 | The one-line division finds the year of the era each of the 146097 days falls in. |
| Calendar.DateOfDay | src-tauri/src/commands.rs:1938-1955 | Every day number gives a date of the Gregorian calendar, and counting the days to that date gives the number back. |
| Calendar.DayOfDate | src-tauri/src/commands.rs:1938-1955 | Every date of the calendar comes back from its day number. |
| Calendar.NextNumberIsNextDay | src-tauri/src/commands.rs:1938-1955 | The next day number is the next calendar day. |
| Calendar.DayNumbersDiffer | src-tauri/src/commands.rs:1938-1955 | No two dates have the same day number. |
| Calendar.DayZero | src-tauri/src/commands.rs:2660 | Day number 0 is 1 January 1970. |
| Calendar.TimestampRoundTrip | src-tauri/src/commands.rs:1926-1936 | The printed timestamp has its separators in place, is a valid date and time of day, and determines the second it was printed from, negative ones included. |
| Calendar.YearPlaces | src-tauri/src/commands.rs:1926-1936 | A year from 0 to 9999 takes four places, so the timestamp has twenty characters; a later one takes as many places as it needs, an earlier one a sign and at least three. |
| HistoryCsv.Export | src-tauri/src/commands.rs:1874-1912 | A reader of section 2 of RFC 4180 gets the seven column names and one record for each entry, whose columns say, in this order: the second it happened, apply or undo, the kind, the stage, the original path, the new path, and the item's description if there is one. |
| HistoryCsv.FieldReadsBack | src-tauri/src/commands.rs:1915-1921 | A printed field reads back whatever it contains: quotes, commas, CR, LF. |
| HistoryCsv.RowReadsBack | src-tauri/src/commands.rs:1904-1911 | A printed row reads back as its fields, and the text after it is left. |
| HistoryCsv.PrintedReadsBack | src-tauri/src/commands.rs:1874-1912 | A printed file of any records of any fields reads back as those records. |
| HistoryCsv.ExportDeterminesHistory | src-tauri/src/commands.rs:1874-1936 | Two equal exports have the same entries: times, directions, kinds, stages, paths and descriptions. |
| Fingerprint.Fnv1a | crates/intern-engine/src/fingerprint.rs:109-119 | The two loops compute FNV-1a over the little-endian bytes of the characters. |
| Fingerprint.PublishedHashes | crates/intern-engine/src/fingerprint.rs:109-119 | The hash is the one published: it gives the values given out with the algorithm for `a` and `foobar`. |
| Fingerprint.CharacterHash | crates/intern-engine/src/fingerprint.rs:109-119 | And of a character it hashes all four bytes, the lowest first. |
| Fingerprint.BytesAreDigits | crates/intern-engine/src/fingerprint.rs:114 | The bytes of any character are its four digits to base 256, lowest first. |
| Fingerprint.OfNormalised | crates/intern-engine/src/fingerprint.rs:34-57 | None below 200 characters; otherwise exactly the bits with more votes for than against are set. |
| Fingerprint.MajorityDecides | crates/intern-engine/src/fingerprint.rs:34-57 | A fingerprint has exactly the bits that the hashes of more pieces of five characters of the text have than have not. |
| Fingerprint.CastVote | crates/intern-engine/src/fingerprint.rs:41-49 | One shingle adds its vote to every one of the 64 weights. |
| Fingerprint.Normalise | crates/intern-engine/src/fingerprint.rs:61-76 | The output is the words of the text, lower-cased, with single spaces between: layout and punctuation are gone. |
| Fingerprint.TextFingerprint | crates/intern-engine/src/fingerprint.rs:34-57 | The fingerprint is that of the normal form. |
| Fingerprint.MisreadingMovesWeights | crates/intern-engine/src/fingerprint.rs:40-49 | Between equally long texts that differ in k characters, no bit's weight differs by more than 10 k. |
| Fingerprint.MisreadingStaysClose | crates/intern-engine/src/fingerprint.rs:90-96 | Two equally long texts that differ in k places: their fingerprints are at most as far apart as there are bits whose weight lies above -10 k and at most at 10 k; with six such bits or fewer they are near duplicates. |
| Fingerprint.DifferingBit | crates/intern-engine/src/fingerprint.rs:90-92 | A bit counts towards the distance exactly when the two fingerprints differ in it. |
| Fingerprint.DistanceIsDifferences | crates/intern-engine/src/fingerprint.rs:90-96 | The distance is the number of the 64 places in which two fingerprints differ, and near duplicates are exactly those that differ in six at most. |
| WordRuns.OneMoreCharacter | crates/intern-engine/src/evidence.rs:26-39 | What each further character does to the words of a text, set out with single spaces. |
| WordRuns.WordsOfSpaced | crates/intern-engine/src/evidence.rs:16-40 | Words set out with single spaces are found again, so normalising a second time changes nothing. |
| Evidence.ContainsWhole | crates/intern-engine/src/evidence.rs:62-92 | True exactly when some occurrence, overlapping ones included, has no letter or digit running into an end of the needle that is one. |
| Evidence.CollapseWhitespace | crates/intern-engine/src/evidence.rs:26-39 | The words of the text in order, one space between each two, none at the ends. |
| Distill.RankedIsRight | crates/intern-engine/src/distill.rs:562-571 | The ranking lists every block once: a mandatory block before one that is not, among equals in that the higher score first, among equals in both the earlier block. |
| Distill.Select | crates/intern-engine/src/distill.rs:561-616 | The kept indices ascend strictly; a block is kept exactly when no better one reads the same, it is mandatory or shaped like no better one, and the better ones kept leave room (the first always fits). So of two equally mandatory blocks, one with the higher score, no longer and unlike all others, is kept if the other is. |
| Distill.SharedShape | crates/intern-engine/src/distill.rs:628-637 | Two blocks share a shape exactly when their masked texts agree in the first 80 characters, or, being bodies of 240 or more, in the last 80, or the one's last 80 are the other's first. |
| Distill.SelectionFitsBudget | crates/intern-engine/src/distill.rs:605-613 | The best block is kept, and the total cost is within the budget unless it is kept alone. |
| Distill.SelectionHasNoRepeats | crates/intern-engine/src/distill.rs:592-604 | A kept block reads unlike every block ranked above it, and unless mandatory shares no head or tail with any of them. |
| Distill.OmissionsAreExplained | crates/intern-engine/src/distill.rs:592-613 | A block left out repeats a better one, is optional and shaped like one, or did not fit. |
| RunningLines.CollapseRunningLines | crates/intern-engine/src/distill.rs:444-483 | Leaves exactly the blocks that are long, not running, or the first of their shape. |
| RunningLines.NothingRuns | crates/intern-engine/src/distill.rs:458-471 | After one pass no line runs across pages any more. |
| RunningLines.CollapsingTwiceIsOnce | crates/intern-engine/src/distill.rs:444-483 | A second pass changes nothing. |
| RunningLines.EveryLineIsKeptOnce | crates/intern-engine/src/distill.rs:472-482 | Each block is left, or a short line of its shape is. |
| HouseStyle.NameShapeOf | crates/intern-engine/src/house_style.rs:237-283 | The first clause, in the order naming sheds detail, that composes the stem; the type alone if it does; else none. |
| HouseStyle.LessonFromEdit | crates/intern-engine/src/house_style.rs:175-220 | Returns a rule only for a changed, non-empty stem of a composed name, only if the rule is meaningful, and then the rule replays the edit. |
| HouseStyle.LessonReplays | crates/intern-engine/src/house_style.rs:188-219 | Putting the rule's spelling, give or take white space at its ends, into the one field it names composes exactly the approved stem, every other part unchanged. |
| HouseStyle.LessonExactlyWhen | crates/intern-engine/src/house_style.rs:193-219 | An edit says something exactly when a party was respelled, or the type was and the approved stem does not still start with the old type and connecting word. |
| HouseStyle.TypeEditCanGoUnnoticed | crates/intern-engine/src/house_style.rs:203-219 | A concrete proposal, the stem it composes and an edit of its type that teaches nothing, because the edited stem still starts with the old type. |
| HouseStyle.LessonTakesHold | crates/intern-engine/src/house_style.rs:124-159 | A lesson put in force spells the field it was learned from the way the edit did. |
| HouseStyle.Apply | crates/intern-engine/src/house_style.rs:124-152 | Respells the type and the parties by the first matching rule, one party for each key, and lists the rules that fired in field order. |
| HouseStyle.FirstRuleApplies | crates/intern-engine/src/house_style.rs:124-152 | The rule taken for a spelling is the first, in order, of its kind learned from one that reads alike; none is taken only if there is none, or the spelling reads like nothing. |
| HouseStyle.TrimIsRight | crates/intern-engine/src/house_style.rs:175-220 | What is stored of an edit is its text without white space at either end, and nothing but white space is dropped. |
| HouseStyle.StyledPartiesAreFaithful | crates/intern-engine/src/house_style.rs:134-149 | The styled parties have different keys; each is the spelling of one of the document's, and each of the document's is among them. |
| ContentRange.TruthfulHeaderConfirms | crates/intern-engine/src/download.rs:815-829 | A truthful range header (section 14.4 of RFC 9110) is confirmed exactly when the reply starts where asked and runs to the end of a file of the expected length. |
| ContentRange.ConfirmedHeader | crates/intern-engine/src/download.rs:815-829 | Any header is confirmed exactly when its parts, up to the first dash, from there to the first slash, and after it, are the numbers asked for; of an empty file, exactly when its end is no number. |
| ContentRange.ParsesDigitsOnly | crates/intern-engine/src/download.rs:815-829 | A part is read as a number exactly when it is the digits of one below 2^64, after a plus sign or none. |
| Download.Continues | crates/intern-engine/src/download.rs:511-530 | An accepted truthful reply continues the served file from where it is appended. |
| Download.PromptContinues | crates/intern-engine/src/download.rs:511-530 | A complete reply makes the served file whole exactly when what it is appended to is a start of it. |
| Download.Downloader.HashFile | crates/intern-engine/src/download.rs:875-899 | Succeeds only with the length and digest of the whole file. |
| Download.Downloader.ValidateFile | crates/intern-engine/src/download.rs:901-923 | Succeeds only on a regular file of the expected length and digest; with nothing failing, exactly then. |
| Download.Downloader.OpenPartial | crates/intern-engine/src/download.rs:831-839 | Keeps what is there only when appending. |
| Download.Downloader.Receive | crates/intern-engine/src/download.rs:545-577 | What is written is always a start of the body, and all of it if the connection broke off; success only at the expected length. |
| Download.Downloader.Install | crates/intern-engine/src/download.rs:579-609 | Renames into place only a file that matches the manifest. |
| Download.Downloader.Fetch | crates/intern-engine/src/download.rs:496-609 | A partial file that is a start of the served file stays one; success installs a matching file; from a server that answers for the rest with the rest, nothing of the partial file is lost. |
| Download.Downloader.Download | crates/intern-engine/src/download.rs:409-609 | Success means an installed file of the expected length and digest, whatever the server did, and no cancellation; one canceled before touches nothing; on a calm machine a matching installed file stays and a matching partial one is installed, whatever the server; a resumable partial file stays resumable with a truthful server; one that answers for the rest of the file with the rest of it never costs a byte of an unfinished partial file, and when it is cut off all it sent stands behind what there was; undisturbed, it fails only after resuming from bytes that were not a start of the served file, leaving a full-length partial. |
| Download.Downloader.TwoAttemptsSuffice | crates/intern-engine/src/download.rs:409-609 | Whatever regular files there are at the start, two undisturbed attempts install the expected file. |
| Download.Downloader.Attempts | crates/intern-engine/src/download.rs:465-609 | After any number of interrupted or canceled attempts the partial file is a start of the served file, and a reported success is a matching installed file; as long as the file is not whole, with servers that answer for the rest with the rest, what there was at the first attempt is still there at the last. |
| Download.Downloader.InstallSelected | crates/intern-engine/src/download.rs:640-783 | Success means a matching installed file; undisturbed, it succeeds exactly when the installed or the chosen file matches; the partial file itself is refused and both files are left as they are. |

## Left out

- `LockRetry`: a retried call is one that succeeds or fails; the waiting between tries is not modelled.
- SQLite, its migrations and legacy rows: calls are transactions on maps; created and updated timestamps, and the
  proposals, fingerprints and house rules of the pipeline's tables, are not part of this model. A statement of the
  pipeline that fails for want of a proposal is one not made.
- `PipelineQueue.Recover`: the errors of its two statements end the original early; with no other session at the queue
  they do not come. Its second half, reconciling applying rows, is `MoverRuns.NextProcessSettles`.
- Windows and POSIX file calls: an abstract disk. Handles are the set `held`, dropped together when a public
  operation of the applier ends, as leaving scope does.
- File identities are numbers the disk hands out; a misread identity is any number.
- `FileMover.FileApplier.AvailableDestination`: the suffix is unbounded; after 2^32 taken names the original panics.
- `FileMover.FileApplier.CrossVolumeTransfer`: a copy receipt always names its temporary, so the branch that reports
  one without is not modelled; a copy never reaches the rollback-required stage, as no call writes it.
- `MoverRuns.ThereAndBack`: other sessions act during both legs but not between them, where one could clear the
  completed row and leave nothing to take back.
- `MoverRuns.Lifetime`: an operation starts only if no open operation of another item uses one of its names. Without
  that the disk need not fit the other one any more (`MoveLaw.SharedNameUnfits`); with it, it does
  (`MoveLaw.ApartStaysFit`). The original does not look.
- `MoverRuns.Moment`: the lease-keeping thread renews this session's lease at any journal call; that renewal failing is
  the choice in `MoverRuns.FinishUnlessStopped` and `MoverRuns.SettleUnlessStopped`.
- Intake, search and listing calls of the store (`find_completed_duplicate`, `list`, `find_newest_by_source_path`,
  `list_operation_history`): they change nothing.
- `Fingerprint.OfNormalised`: weights are unbounded, the original's are 32-bit; they differ only beyond two thousand
  million shingles. The sixteen-digit stored form and `source_fingerprint` are not modelled: easy.
- `Distill.Select`: block scores and mandatory flags are inputs, and so are the two reductions of a block's text to
  keys; segmenting, scoring, date lines and `emit` are not part of this model.
- `Evidence`: case folding, compatibility forms and typographic quotes are applied before the modelled loop; dates
  in evidence are not part of this model.
- `HouseStyle.LessonFromEdit`: starts from the two editable stems; extension, date and collision suffix are removed
  before. `sanitize_segment`, `HouseRule::key` and `strip_duplicate_extension` are parameters.
- `HistoryCsv.Export`: paths arrive as displayed text.
- `Download.Downloader`: progress callbacks, network threads and the making of the directory are left out; a URL is
  the server function of the attempt. The hash of the resumed prefix is computed and discarded, as in the original.
- Interface, tray, updater, settings, network clients and credential storage: no part of this model.
