/** What each call on the queue database does, as a function of the tables.

    A call either commits or is refused; a refused transaction leaves every row
    and receipt as it was. The clock is a parameter. */
module QueueSpec {
  import opened Domain

  const LEASE_SECONDS := 60

  datatype Reply =
    | Done
    | Found(id: nat)
    | Idle
    | Count(count: nat)
    | Created(receipt: Receipt)
    | Refused(code: ErrorCode)

  datatype Db = Db(
    rows: map<nat, Row>,
    receipts: map<nat, Receipt>,
    sessions: map<Session, int>,
    nextRow: nat,
    nextReceipt: nat)
  {
    function Touch(s: Session, now: int): Db {
      this.(sessions := sessions[s := now])
    }

    function Put(id: nat, row: Row): Db {
      this.(rows := rows[id := row])
    }

    function Write(r: Receipt): Db {
      this.(receipts := receipts[r.id := r])
    }

    /** Some row other than `id` is being extracted, analysed or applied. */
    predicate BusyBesides(id: nat) {
      exists other :: other in rows && other != id && rows[other].status.IsActive()
    }

    predicate Busy() {
      exists other :: other in rows && rows[other].status.IsActive()
    }

    /** Nobody can still be working under this row's lease. */
    predicate Abandoned(row: Row, now: int) {
      row.owner.None?
      || row.owner.value !in sessions
      || (row.lease.Some? && row.lease.value <= now && sessions[row.owner.value] <= now - LEASE_SECONDS)
    }

    predicate Unfinished(rid: nat, id: nat) {
      rid in receipts && receipts[rid].item == id && !receipts[rid].stage.Finished()
    }

    predicate HasUnfinished(id: nat) {
      exists rid :: rid in receipts && Unfinished(rid, id)
    }

    /** `s` owns the applying row `id`, which is bound to receipt `rid`. */
    predicate OwnsBound(s: Session, id: nat, rid: nat) {
      id in rows && rows[id].status.Applying? && rows[id].owner == Some(s) && rows[id].active == Some(rid)
    }

    predicate ReceiptOf(rid: nat, id: nat) {
      rid in receipts && receipts[rid].item == id
    }
  }

  const EMPTY := Db(map[], map[], map[], 1, 1)

  datatype Outcome = Outcome(db: Db, reply: Reply)

  function Refuse(d: Db, code: ErrorCode): Outcome {
    Outcome(d, Refused(code))
  }

  /** The status an operation of this direction starts from. */
  function StatusBefore(direction: OperationDirection): QueueStatus {
    match direction case Apply => Ready case Undo => Completed
  }

  function StatusAfter(direction: OperationDirection): QueueStatus {
    match direction case Apply => Completed case Undo => Ready
  }

  /** A row leaving `applying` forgets its owner, lease, epoch binding and error. */
  function Release(row: Row, status: QueueStatus): Row {
    row.(status := status, owner := None, lease := None, previous := None,
         active := None, reconciliation := None, error := None)
  }

  /** A row handed to a person keeps the receipt it failed on. */
  function Park(row: Row, rid: nat, error: ErrorCode): Row {
    row.(status := NeedsReview, reconciliation := Some(rid), active := None, previous := None,
         owner := None, lease := None, error := Some(error))
  }

  // ---- sessions -------------------------------------------------------------

  function OpenSession(d: Db, s: Session, now: int): Outcome {
    if s in d.sessions then Refuse(d, DatabaseUnavailable) else Outcome(d.Touch(s, now), Done)
  }

  /** Deleting a session row clears it from every row it owns. */
  function CloseSession(d: Db, s: Session): Outcome {
    Outcome(d.(sessions := d.sessions - {s},
               rows := map id | id in d.rows ::
                         if d.rows[id].owner == Some(s) then d.rows[id].(owner := None) else d.rows[id]),
            Done)
  }

  // ---- intake and processing ------------------------------------------------

  predicate SameSource(d: Db, id: nat, source: Path, hash: Digest) {
    id in d.rows && d.rows[id].source == source && d.rows[id].hash == hash
  }

  function Enqueue(d: Db, source: Path, hash: Digest): Outcome {
    if exists id :: id in d.rows && SameSource(d, id, source, hash) then
      Outcome(d, Done)
    else
      var row := Row(source, hash, Queued, 0, None, None, None, None, None, None, 0);
      Outcome(d.Put(d.nextRow, row).(nextRow := d.nextRow + 1), Done)
  }

  /** The lowest queued id in `[from, limit)`, or `limit`. */
  function NextQueued(rows: map<nat, Row>, from: nat, limit: nat): (id: nat)
    requires from <= limit
    ensures from <= id <= limit
    ensures id < limit ==> id in rows && rows[id].status.Queued?
    ensures forall j :: from <= j < id && j in rows ==> !rows[j].status.Queued?
    decreases limit - from
  {
    if from == limit || (from in rows && rows[from].status.Queued?) then from
    else NextQueued(rows, from + 1, limit)
  }

  function ClaimNext(d: Db, s: Session, now: int): Outcome {
    if s !in d.sessions then Refuse(d, StateConflict)
    else
      var id := NextQueued(d.rows, 0, d.nextRow);
      if d.Busy() || id == d.nextRow then Outcome(d.Touch(s, now), Idle)
      else
        var row := d.rows[id].(status := Extracting, error := None, owner := Some(s), lease := Some(now + LEASE_SECONDS));
        Outcome(d.Touch(s, now).Put(id, row), Found(id))
  }

  /** Two statements without a transaction: the heartbeat stays even when the
      lease is not ours. */
  function RenewLease(d: Db, s: Session, now: int, id: nat): Outcome {
    if s !in d.sessions then Refuse(d, StateConflict)
    else if id in d.rows && d.rows[id].owner == Some(s) && d.rows[id].status.IsActive() then
      Outcome(d.Touch(s, now).Put(id, d.rows[id].(lease := Some(now + LEASE_SECONDS))), Done)
    else Refuse(d.Touch(s, now), StateConflict)
  }

  function Transition(d: Db, s: Session, now: int, id: nat, expected: QueueStatus, next: QueueStatus,
                      error: Option<ErrorCode>): Outcome
  {
    if !expected.CanTransitionTo(next) then Refuse(d, InvalidTransition)
    else if id in d.rows && d.rows[id].status == expected
            && (expected.IsActive() ==> d.rows[id].owner == Some(s)) then
      var row := d.rows[id].(
        status := next, error := error,
        owner := if next.IsActive() then Some(s) else None,
        lease := if next.IsActive() then Some(now + LEASE_SECONDS) else None);
      Outcome(d.Put(id, row), Done)
    else Refuse(d, StateConflict)
  }

  function RecordProcessingFailure(d: Db, s: Session, id: nat, error: ErrorCode): Outcome {
    if id in d.rows && (d.rows[id].status.Extracting? || d.rows[id].status.Analyzing?) && d.rows[id].owner == Some(s) then
      var failures := d.rows[id].failures + 1;
      var row := d.rows[id].(
        status := if failures >= 2 then Failed else Queued,
        failures := failures, error := Some(error), owner := None, lease := None);
      Outcome(d.Put(id, row), Done)
    else Refuse(d, StateConflict)
  }

  predicate Interrupted(d: Db, id: nat, now: int) {
    id in d.rows && (d.rows[id].status.Extracting? || d.rows[id].status.Analyzing?) && d.Abandoned(d.rows[id], now)
  }

  function RecoverInterrupted(d: Db, now: int): Outcome {
    Outcome(d.(rows := map id | id in d.rows ::
                         if Interrupted(d, id, now)
                         then d.rows[id].(status := Queued, owner := None, lease := None)
                         else d.rows[id]),
            Count(|set id | id in d.rows && Interrupted(d, id, now)|))
  }

  // ---- decisions a person makes ---------------------------------------------

  function CasStatus(d: Db, id: nat, expected: QueueStatus, next: QueueStatus, resetFailures: bool): Outcome {
    if id in d.rows && d.rows[id].status == expected then
      var row := Release(d.rows[id], next).(failures := if resetFailures then 0 else d.rows[id].failures);
      Outcome(d.Put(id, row), Done)
    else Refuse(d, StateConflict)
  }

  function ManualRetry(d: Db, id: nat): Outcome {
    CasStatus(d, id, Failed, Queued, true)
  }

  function CompleteKeepOriginal(d: Db, id: nat, expected: QueueStatus): Outcome {
    if expected.Ready? || expected.NeedsReview? then CasStatus(d, id, expected, Completed, false)
    else Refuse(d, InvalidTransition)
  }

  function RetryDuplicate(d: Db, id: nat): Outcome {
    if id in d.rows && d.rows[id].status.NeedsReview? && d.rows[id].error == Some(Duplicate) then
      Outcome(d.Put(id, Release(d.rows[id], Queued).(failures := 0)), Done)
    else Refuse(d, StateConflict)
  }

  predicate Terminal(status: QueueStatus) {
    status.Failed? || status.Canceled? || status.Completed?
  }

  /** Deletes rows and, by cascade, their receipts. */
  function DeleteRows(d: Db, gone: set<nat>): Outcome {
    Outcome(d.(rows := d.rows - gone,
               receipts := map rid | rid in d.receipts && d.receipts[rid].item !in gone :: d.receipts[rid]),
            Count(|gone|))
  }

  function ClearTerminal(d: Db): Outcome {
    DeleteRows(d, set id | id in d.rows && Terminal(d.rows[id].status))
  }

  function DiscardQueued(d: Db): Outcome {
    DeleteRows(d, set id | id in d.rows && d.rows[id].status.Queued?)
  }

  // ---- the pipeline's own statements on the same table ----------------------

  /** An analysed document gets its proposal and leaves the session's hands. */
  function SaveProposal(d: Db, s: Session, id: nat, review: bool): Outcome {
    if id in d.rows && d.rows[id].status.Analyzing? && d.rows[id].owner == Some(s) then
      var row := d.rows[id].(status := if review then NeedsReview else Ready, owner := None, lease := None, error := None);
      Outcome(d.Put(id, row), Done)
    else Refuse(d, StateConflict)
  }

  function MarkNeedsReview(d: Db, id: nat): Outcome {
    if id in d.rows && d.rows[id].status.Ready? then Outcome(d.Put(id, d.rows[id].(status := NeedsReview)), Done)
    else Refuse(d, StateConflict)
  }

  /** Back in the queue, with nothing held against it. */
  function Requeued(row: Row): Row {
    row.(status := Queued, failures := 0, error := None, owner := None, lease := None)
  }

  function RetryUnverified(d: Db, id: nat): Outcome {
    if id in d.rows && d.rows[id].status.NeedsReview? && d.rows[id].error == Some(UploaderUnverified) then
      Outcome(d.Put(id, Requeued(d.rows[id])), Done)
    else Refuse(d, StateConflict)
  }

  function RetryCanceled(d: Db, id: nat): Outcome {
    if id in d.rows && d.rows[id].status.Canceled? then Outcome(d.Put(id, Requeued(d.rows[id])), Done)
    else Refuse(d, StateConflict)
  }

  /** Counts a failure against a row that is back in the queue. */
  function RecordRecoveredFailure(d: Db, id: nat): Outcome {
    if id in d.rows && d.rows[id].status.Queued? && d.rows[id].owner.None? then
      var failures := d.rows[id].failures + 1;
      var row := d.rows[id].(
        status := if failures >= 2 then Failed else Queued, failures := failures, error := Some(IoError));
      Outcome(d.Put(id, row), Done)
    else Refuse(d, StateConflict)
  }

  function RemoveItem(d: Db, id: nat): Outcome {
    if id in d.rows && !d.rows[id].status.IsActive() then Outcome(DeleteRows(d, {id}).db, Done)
    else Refuse(d, StateConflict)
  }

  /** A person's approval, of what waits in review or is ready. */
  function ApproveEdit(d: Db, id: nat, expected: QueueStatus): Outcome {
    if !expected.NeedsReview? && !expected.Ready? then Refuse(d, InvalidTransition)
    else if id in d.rows && d.rows[id].status == expected then
      Outcome(d.Put(id, d.rows[id].(status := Ready, error := None)), Done)
    else Refuse(d, StateConflict)
  }

  // ---- the applying epoch ---------------------------------------------------

  function BeginApplying(d: Db, s: Session, now: int, id: nat, expected: QueueStatus): Outcome {
    if !expected.Ready? && !expected.Completed? then Refuse(d, InvalidTransition)
    else if s in d.sessions && id in d.rows && d.rows[id].status == expected && d.rows[id].active.None?
            && !d.BusyBesides(id) then
      var row := d.rows[id].(
        status := Applying, previous := Some(expected), owner := Some(s), lease := Some(now + LEASE_SECONDS),
        active := None, reconciliation := None, epoch := d.rows[id].epoch + 1, error := None);
      Outcome(d.Touch(s, now).Put(id, row), Done)
    else Refuse(d, StateConflict)
  }

  function ClaimApplying(d: Db, s: Session, now: int, id: nat): Outcome {
    // The session is touched first, inside the transaction, so its own
    // heartbeat is fresh by the time the owner is examined.
    if s in d.sessions && id in d.rows && d.rows[id].status.Applying?
       && d.Touch(s, now).Abandoned(d.rows[id], now) then
      var row := d.rows[id].(owner := Some(s), lease := Some(now + LEASE_SECONDS));
      Outcome(d.Touch(s, now).Put(id, row), Done)
    else Refuse(d, StateConflict)
  }

  function ClaimDeferred(d: Db, s: Session, now: int, id: nat): Outcome {
    if s in d.sessions && id in d.rows && d.rows[id].status.NeedsReview?
       && d.rows[id].error == Some(SourceDeleteFailed)
       && d.rows[id].active.None? && d.rows[id].reconciliation.Some?
       && d.ReceiptOf(d.rows[id].reconciliation.value, id)
       && d.receipts[d.rows[id].reconciliation.value].direction.Apply?
       && d.receipts[d.rows[id].reconciliation.value].stage.Published?
       && !d.BusyBesides(id) then
      var row := d.rows[id].(
        status := Applying, previous := Some(Ready), owner := Some(s), lease := Some(now + LEASE_SECONDS),
        active := d.rows[id].reconciliation);
      Outcome(d.Touch(s, now).Put(id, row), Done)
    else Refuse(d, StateConflict)
  }

  function FinishApplying(d: Db, s: Session, now: int, id: nat, rid: nat, direction: OperationDirection): Outcome {
    if s in d.sessions && d.OwnsBound(s, id, rid)
       && d.rows[id].previous == Some(StatusBefore(direction))
       && d.ReceiptOf(rid, id)
       && d.receipts[rid].direction == direction && d.receipts[rid].stage.Complete? then
      Outcome(d.Touch(s, now).Put(id, Release(d.rows[id], StatusAfter(direction))), Done)
    else Refuse(d, StateConflict)
  }

  // ---- the journal ----------------------------------------------------------

  function CreateReceipt(d: Db, s: Session, now: int, id: nat, receipt: Receipt): Outcome {
    if s in d.sessions && id in d.rows && d.rows[id].status.Applying? && d.rows[id].owner == Some(s)
       && d.rows[id].active.None? && !d.HasUnfinished(id)
       && d.rows[id].previous == Some(StatusBefore(receipt.direction)) && receipt.stage.Planned? then
      var r := receipt.(id := d.nextReceipt, item := id);
      var row := d.rows[id].(active := Some(r.id), lease := Some(now + LEASE_SECONDS));
      Outcome(d.Touch(s, now).Put(id, row).Write(r).(nextReceipt := d.nextReceipt + 1), Created(r))
    else Refuse(d, StateConflict)
  }

  /** The columns an update may change; the rest of a receipt is fixed at birth. */
  function Revised(stored: Receipt, r: Receipt): Receipt {
    stored.(temporary := r.temporary, post := r.post, stage := r.stage, sourceExists := r.sourceExists,
            destinationExists := r.destinationExists, temporaryExists := r.temporaryExists)
  }

  function UpdateReceipt(d: Db, s: Session, now: int, expected: OperationStage, r: Receipt): Outcome {
    if !expected.CanAdvanceTo(r.stage) then Refuse(d, InvalidTransition)
    else if s in d.sessions && d.OwnsBound(s, r.item, r.id) && d.ReceiptOf(r.id, r.item)
            && d.receipts[r.id].stage == expected then
      var row := d.rows[r.item].(lease := Some(now + LEASE_SECONDS));
      var revised := Revised(d.receipts[r.id], r);
      Outcome(d.Touch(s, now).Put(r.item, row).(receipts := d.receipts[r.id := revised]), Created(revised))
    else Refuse(d, StateConflict)
  }

  function RenewOperationLease(d: Db, s: Session, now: int, id: nat, rid: nat, expected: OperationStage): Outcome {
    if s in d.sessions && d.OwnsBound(s, id, rid) && d.ReceiptOf(rid, id) && d.receipts[rid].stage == expected then
      Outcome(d.Touch(s, now).Put(id, d.rows[id].(lease := Some(now + LEASE_SECONDS))), Done)
    else Refuse(d, StateConflict)
  }

  function RecordApplyingRollback(d: Db, s: Session, now: int, id: nat, rid: nat, error: ErrorCode): Outcome {
    if s in d.sessions && d.OwnsBound(s, id, rid) then
      Outcome(d.Touch(s, now).Put(id, d.rows[id].(reconciliation := Some(rid), error := Some(error),
                                                  lease := Some(now + LEASE_SECONDS))), Done)
    else Refuse(d, StateConflict)
  }

  function DeferPublished(d: Db, s: Session, id: nat, rid: nat, error: ErrorCode): Outcome {
    if !error.SourceDeleteFailed? then Refuse(d, InvalidData)
    else if d.OwnsBound(s, id, rid) && d.ReceiptOf(rid, id)
            && d.receipts[rid].direction.Apply? && d.receipts[rid].stage.Published? then
      Outcome(d.Put(id, Park(d.rows[id], rid, error)), Done)
    else Refuse(d, StateConflict)
  }

  function ParkForReview(d: Db, s: Session, id: nat, rid: nat, error: ErrorCode): Outcome {
    if d.OwnsBound(s, id, rid) then Outcome(d.Put(id, Park(d.rows[id], rid, error)), Done)
    else Refuse(d, StateConflict)
  }

  function ResolveEmpty(d: Db, s: Session, now: int, id: nat): Outcome {
    if s in d.sessions && id in d.rows && d.rows[id].status.Applying? && d.rows[id].owner == Some(s)
       && d.rows[id].active.None? && d.rows[id].epoch > 0
       && (d.rows[id].previous == Some(Ready) || d.rows[id].previous == Some(Completed)) then
      Outcome(d.Touch(s, now).Put(id, Release(d.rows[id], d.rows[id].previous.value)), Done)
    else Refuse(d, StateConflict)
  }

  /** What the journal says once an operation is known to have been undone. */
  function AsRolledBack(r: Receipt): Receipt {
    if r.stage.RolledBack? then r.(temporaryExists := false)
    else r.(stage := RolledBack, sourceExists := true, destinationExists := false, temporaryExists := false)
  }

  function ResolveRollback(d: Db, s: Session, now: int, id: nat, rid: nat, expected: OperationStage): Outcome {
    if expected.Published? || expected.Complete? then Refuse(d, InvalidTransition)
    else if s in d.sessions && d.ReceiptOf(rid, id) && d.receipts[rid].stage == expected
            && d.OwnsBound(s, id, rid)
            && d.rows[id].previous == Some(StatusBefore(d.receipts[rid].direction)) then
      Outcome(d.Touch(s, now).Put(id, Release(d.rows[id], d.rows[id].previous.value))
               .(receipts := d.receipts[rid := AsRolledBack(d.receipts[rid])]), Done)
    else Refuse(d, StateConflict)
  }

  /** What the journal says once the destination is known to hold the document. */
  function AsComplete(r: Receipt): Receipt {
    if r.stage.Complete? then r
    else r.(stage := Complete, sourceExists := false, destinationExists := true, temporaryExists := false,
            post := Some(r.pre))
  }

  function ResolveVerified(d: Db, s: Session, now: int, id: nat, rid: nat, expected: OperationStage): Outcome {
    if expected.RollbackRequired? || expected.RolledBack? then Refuse(d, InvalidTransition)
    else if s in d.sessions && d.ReceiptOf(rid, id) && d.receipts[rid].stage == expected
            && d.OwnsBound(s, id, rid)
            && d.rows[id].previous == Some(StatusBefore(d.receipts[rid].direction)) then
      Outcome(d.Touch(s, now).Put(id, Release(d.rows[id], StatusAfter(d.receipts[rid].direction)))
               .(receipts := d.receipts[rid := AsComplete(d.receipts[rid])]), Done)
    else Refuse(d, StateConflict)
  }

  /** The item's receipt with the greatest id below `below`. */
  function NewestBelow(d: Db, item: nat, below: nat): Option<Receipt> {
    if below == 0 then None
    else if below - 1 in d.receipts && d.receipts[below - 1].item == item then Some(d.receipts[below - 1])
    else NewestBelow(d, item, below - 1)
  }

  function NewestReceipt(d: Db, item: nat): Option<Receipt> {
    NewestBelow(d, item, d.nextReceipt)
  }

  /** The receipt an item's row is bound to. */
  function ActiveReceipt(d: Db, item: nat): Option<Receipt> {
    if item in d.rows && d.rows[item].active.Some? && d.ReceiptOf(d.rows[item].active.value, item)
    then Some(d.receipts[d.rows[item].active.value])
    else None
  }

  // ---- every call -----------------------------------------------------------

  datatype Call =
    | DoOpenSession
    | DoCloseSession
    | DoEnqueue(source: Path, hash: Digest)
    | DoClaimNext
    | DoRenewLease(id: nat)
    | DoTransition(id: nat, expected: QueueStatus, next: QueueStatus, problem: Option<ErrorCode>)
    | DoRecordProcessingFailure(id: nat, code: ErrorCode)
    | DoRecoverInterrupted
    | DoManualRetry(id: nat)
    | DoCompleteKeepOriginal(id: nat, expected: QueueStatus)
    | DoRetryDuplicate(id: nat)
    | DoClearTerminal
    | DoDiscardQueued
    | DoSaveProposal(id: nat, review: bool)
    | DoMarkNeedsReview(id: nat)
    | DoRetryUnverified(id: nat)
    | DoRetryCanceled(id: nat)
    | DoRecordRecoveredFailure(id: nat)
    | DoRemoveItem(id: nat)
    | DoApproveEdit(id: nat, expected: QueueStatus)
    | DoBeginApplying(id: nat, expected: QueueStatus)
    | DoClaimApplying(id: nat)
    | DoClaimDeferred(id: nat)
    | DoFinishApplying(id: nat, rid: nat, direction: OperationDirection)
    | DoCreateReceipt(id: nat, receipt: Receipt)
    | DoUpdateReceipt(from: OperationStage, receipt: Receipt)
    | DoRenewOperationLease(id: nat, rid: nat, stage: OperationStage)
    | DoRecordApplyingRollback(id: nat, rid: nat, code: ErrorCode)
    | DoDeferPublished(id: nat, rid: nat, code: ErrorCode)
    | DoParkForReview(id: nat, rid: nat, code: ErrorCode)
    | DoResolveEmpty(id: nat)
    | DoResolveRollback(id: nat, rid: nat, stage: OperationStage)
    | DoResolveVerified(id: nat, rid: nat, stage: OperationStage)

  function Perform(d: Db, s: Session, now: int, call: Call): Outcome {
    match call
    case DoOpenSession => OpenSession(d, s, now)
    case DoCloseSession => CloseSession(d, s)
    case DoEnqueue(source, hash) => Enqueue(d, source, hash)
    case DoClaimNext => ClaimNext(d, s, now)
    case DoRenewLease(id) => RenewLease(d, s, now, id)
    case DoTransition(id, expected, next, problem) => Transition(d, s, now, id, expected, next, problem)
    case DoRecordProcessingFailure(id, code) => RecordProcessingFailure(d, s, id, code)
    case DoRecoverInterrupted => RecoverInterrupted(d, now)
    case DoManualRetry(id) => ManualRetry(d, id)
    case DoCompleteKeepOriginal(id, expected) => CompleteKeepOriginal(d, id, expected)
    case DoRetryDuplicate(id) => RetryDuplicate(d, id)
    case DoClearTerminal => ClearTerminal(d)
    case DoDiscardQueued => DiscardQueued(d)
    case DoSaveProposal(id, review) => SaveProposal(d, s, id, review)
    case DoMarkNeedsReview(id) => MarkNeedsReview(d, id)
    case DoRetryUnverified(id) => RetryUnverified(d, id)
    case DoRetryCanceled(id) => RetryCanceled(d, id)
    case DoRecordRecoveredFailure(id) => RecordRecoveredFailure(d, id)
    case DoRemoveItem(id) => RemoveItem(d, id)
    case DoApproveEdit(id, expected) => ApproveEdit(d, id, expected)
    case DoBeginApplying(id, expected) => BeginApplying(d, s, now, id, expected)
    case DoClaimApplying(id) => ClaimApplying(d, s, now, id)
    case DoClaimDeferred(id) => ClaimDeferred(d, s, now, id)
    case DoFinishApplying(id, rid, direction) => FinishApplying(d, s, now, id, rid, direction)
    case DoCreateReceipt(id, receipt) => CreateReceipt(d, s, now, id, receipt)
    case DoUpdateReceipt(from, receipt) => UpdateReceipt(d, s, now, from, receipt)
    case DoRenewOperationLease(id, rid, stage) => RenewOperationLease(d, s, now, id, rid, stage)
    case DoRecordApplyingRollback(id, rid, code) => RecordApplyingRollback(d, s, now, id, rid, code)
    case DoDeferPublished(id, rid, code) => DeferPublished(d, s, id, rid, code)
    case DoParkForReview(id, rid, code) => ParkForReview(d, s, id, rid, code)
    case DoResolveEmpty(id) => ResolveEmpty(d, s, now, id)
    case DoResolveRollback(id, rid, stage) => ResolveRollback(d, s, now, id, rid, stage)
    case DoResolveVerified(id, rid, stage) => ResolveVerified(d, s, now, id, rid, stage)
  }
}
