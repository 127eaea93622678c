/** The vocabulary shared by the queue and the file mover: statuses, stages,
    receipts, and the row of the queue table. */
module Domain {

  datatype Option<+T> = None | Some(value: T)

  datatype QueueStatus =
    | Queued | Extracting | Analyzing | Ready | NeedsReview | Failed | Canceled | Applying | Completed
  {
    predicate IsActive() {
      Extracting? || Analyzing? || Applying?
    }

    /** The moves `transition` permits; everything else has its own call. */
    predicate CanTransitionTo(next: QueueStatus) {
      match this
      case Queued => next.Canceled? || next.NeedsReview?
      case Extracting => next.Analyzing? || next.NeedsReview? || next.Queued? || next.Failed? || next.Canceled?
      case Analyzing => next.Ready? || next.NeedsReview? || next.Queued? || next.Failed? || next.Canceled?
      case Ready => next.Canceled?
      case NeedsReview => next.Ready? || next.Canceled?
      case _ => false
    }
  }

  datatype ErrorCode =
    | FileChanged | SourceLocked | DestinationUnavailable | MoveVerificationFailed | SourceDeleteFailed
    | InvalidTransition | StateConflict | DatabaseUnavailable | IoError | InvalidData
    | ModelOutputInvalid | Duplicate | ModelDeclined | UploaderUnverified | ReconciliationRequired

  datatype OperationKind = Rename | VerifiedCopy

  datatype OperationDirection = Apply | Undo

  datatype OperationStage =
    | Planned | Copied | Verified | Published | RollbackRequired | RolledBack | Complete
  {
    predicate Finished() {
      RolledBack? || Complete?
    }

    predicate CanAdvanceTo(next: OperationStage) {
      this == next ||
      match this
      case Planned => next.Copied? || next.Published? || next.RollbackRequired? || next.RolledBack?
      case Copied => next.Verified? || next.RollbackRequired?
      case Verified => next.Published? || next.RollbackRequired?
      case Published => next.Complete? || next.RollbackRequired?
      case RollbackRequired => next.RolledBack?
      case _ => false
    }
  }

  type Bytes = seq<bv8>

  /** SHA-256 taken as injective: the digest of an honest read names the bytes.
      A read that went wrong yields a digest no honest read can yield. */
  datatype Digest = Sha256(content: Bytes) | Garbled(noise: nat)

  datatype Path = Path(folder: string, name: string)

  type Session = nat

  datatype Receipt = Receipt(
    id: nat,
    item: nat,
    direction: OperationDirection,
    source: Path,
    destination: Path,
    temporary: Option<Path>,
    pre: Digest,
    post: Option<Digest>,
    kind: OperationKind,
    stage: OperationStage,
    sourceExists: bool,
    destinationExists: bool,
    temporaryExists: bool)

  /** One row of the queue table. */
  datatype Row = Row(
    source: Path,
    hash: Digest,
    status: QueueStatus,
    failures: nat,
    error: Option<ErrorCode>,
    owner: Option<Session>,
    lease: Option<int>,
    previous: Option<QueueStatus>,
    active: Option<nat>,
    reconciliation: Option<nat>,
    epoch: nat)
}
