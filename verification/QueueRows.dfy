/** What every run of queue calls keeps of the rows themselves: one for each
    document, two failures counted at most, owned only while busy, and moved from
    status to status along the edges of one graph. */
module QueueRows {
  import opened Domain
  import opened QueueSpec
  import opened QueueInvariants
  import opened QueueFencing

  // ---- one row, and what it remembers ---------------------------------------

  predicate Tidy(row: Row) {
    && (row.owner.Some? || row.lease.Some? ==> row.status.IsActive())
    && row.failures <= 2 && (row.failures == 2 ==> row.status.Failed?)
  }

  ghost predicate AllTidy(d: Db) {
    forall id :: id in d.rows ==> Tidy(d.rows[id])
  }

  /** No two rows stand for the same content at the same place. */
  ghost predicate OneRowEach(d: Db) {
    forall i, j ::
      i in d.rows && j in d.rows && d.rows[i].source == d.rows[j].source && d.rows[i].hash == d.rows[j].hash ==> i == j
  }

  /** The row stands for the document it stood for, or is new and queued. */
  ghost predicate SameDocument(d: Db, call: Call, d': Db, id: nat)
    requires id in d'.rows
  {
    if id in d.rows then d'.rows[id].source == d.rows[id].source && d'.rows[id].hash == d.rows[id].hash
    else call.DoEnqueue? && id == d.nextRow && d'.rows[id].status.Queued?
  }

  lemma BulkCallKeepsDocuments(d: Db, s: Session, now: int, call: Call, id: nat)
    requires Numbered(d) && id in Perform(d, s, now, call).db.rows && BulkCall(call)
    ensures SameDocument(d, call, Perform(d, s, now, call).db, id)
  {
  }

  lemma DecisionCallKeepsDocuments(d: Db, s: Session, now: int, call: Call, id: nat)
    requires id in Perform(d, s, now, call).db.rows && DecisionCall(call)
    ensures SameDocument(d, call, Perform(d, s, now, call).db, id)
  {
  }

  lemma LeaseCallKeepsDocuments(d: Db, s: Session, now: int, call: Call, id: nat)
    requires id in Perform(d, s, now, call).db.rows && LeaseCall(call)
    ensures SameDocument(d, call, Perform(d, s, now, call).db, id)
  {
  }

  lemma PipelineCallKeepsDocuments(d: Db, s: Session, now: int, call: Call, id: nat)
    requires id in Perform(d, s, now, call).db.rows && PipelineCall(call)
    ensures SameDocument(d, call, Perform(d, s, now, call).db, id)
  {
  }

  lemma JournalCallKeepsDocuments(d: Db, s: Session, now: int, call: Call, id: nat)
    requires id in Perform(d, s, now, call).db.rows && JournalCall(call)
    ensures SameDocument(d, call, Perform(d, s, now, call).db, id)
  {
  }

  /** A row is born queued, and no call renames the document it stands for. */
  lemma CallKeepsDocuments(d: Db, s: Session, now: int, call: Call, id: nat)
    requires Numbered(d) && id in Perform(d, s, now, call).db.rows
    ensures SameDocument(d, call, Perform(d, s, now, call).db, id)
  {
    hide Perform, SameDocument;
    if BulkCall(call) {
      BulkCallKeepsDocuments(d, s, now, call, id);
    } else if PipelineCall(call) {
      PipelineCallKeepsDocuments(d, s, now, call, id);
    } else if JournalCall(call) {
      JournalCallKeepsDocuments(d, s, now, call, id);
    } else if DecisionCall(call) {
      DecisionCallKeepsDocuments(d, s, now, call, id);
    } else {
      LeaseCallKeepsDocuments(d, s, now, call, id);
    }
  }

  lemma EnqueueKeepsOneRowEach(d: Db, source: Path, hash: Digest)
    requires OneRowEach(d)
    ensures OneRowEach(Enqueue(d, source, hash).db)
    ensures exists id :: id in Enqueue(d, source, hash).db.rows && SameSource(Enqueue(d, source, hash).db, id, source, hash)
  {
    var d' := Enqueue(d, source, hash).db;
    if d'.nextRow != d.nextRow {
      assert SameSource(d', d.nextRow, source, hash);
      assert forall id :: id in d.rows ==> !SameSource(d, id, source, hash);
    }
  }

  lemma CallKeepsOneRowEach(d: Db, s: Session, now: int, call: Call)
    requires Numbered(d) && OneRowEach(d)
    ensures OneRowEach(Perform(d, s, now, call).db)
  {
    var d' := Perform(d, s, now, call).db;
    if call.DoEnqueue? {
      EnqueueKeepsOneRowEach(d, call.source, call.hash);
    } else {
      forall id | id in d'.rows
        ensures id in d.rows && d'.rows[id].source == d.rows[id].source && d'.rows[id].hash == d.rows[id].hash
      {
        CallKeepsDocuments(d, s, now, call, id);
      }
    }
  }

  lemma BulkCallKeepsTidy(d: Db, s: Session, now: int, call: Call)
    requires AllTidy(d) && BulkCall(call)
    ensures AllTidy(Perform(d, s, now, call).db)
  {
  }

  lemma DecisionCallKeepsTidy(d: Db, s: Session, now: int, call: Call)
    requires AllTidy(d) && DecisionCall(call)
    ensures AllTidy(Perform(d, s, now, call).db)
  {
  }

  lemma LeaseCallKeepsTidy(d: Db, s: Session, now: int, call: Call)
    requires AllTidy(d) && LeaseCall(call)
    ensures AllTidy(Perform(d, s, now, call).db)
  {
  }

  lemma PipelineCallKeepsTidy(d: Db, s: Session, now: int, call: Call)
    requires AllTidy(d) && PipelineCall(call)
    ensures AllTidy(Perform(d, s, now, call).db)
  {
  }

  lemma JournalCallKeepsTidy(d: Db, s: Session, now: int, call: Call)
    requires AllTidy(d) && JournalCall(call)
    ensures AllTidy(Perform(d, s, now, call).db)
  {
  }

  lemma CallKeepsTidy(d: Db, s: Session, now: int, call: Call)
    requires AllTidy(d)
    ensures AllTidy(Perform(d, s, now, call).db)
  {
    hide Perform, AllTidy;
    if BulkCall(call) {
      BulkCallKeepsTidy(d, s, now, call);
    } else if JournalCall(call) {
      JournalCallKeepsTidy(d, s, now, call);
    } else if PipelineCall(call) {
      PipelineCallKeepsTidy(d, s, now, call);
    } else if DecisionCall(call) {
      DecisionCallKeepsTidy(d, s, now, call);
    } else {
      LeaseCallKeepsTidy(d, s, now, call);
    }
  }

  lemma {:induction false} RunKeepsRows(d: Db, events: seq<Event>)
    requires Valid(d) && AllTidy(d) && OneRowEach(d)
    ensures AllTidy(Run(d, events)) && OneRowEach(Run(d, events))
    decreases |events|
  {
    hide Perform, AllTidy, OneRowEach;
    if events != [] {
      var e := events[0];
      CallKeepsValid(d, e.session, e.now, e.call);
      assert Numbered(d);
      CallKeepsTidy(d, e.session, e.now, e.call);
      CallKeepsOneRowEach(d, e.session, e.now, e.call);
      RunKeepsRows(Perform(d, e.session, e.now, e.call).db, events[1..]);
    }
  }

  /** From an empty database, however often and by whomever documents are added,
      the same content at the same place has one row. */
  lemma OneRowForEachDocument(events: seq<Event>, i: nat, j: nat)
    requires i in Run(EMPTY, events).rows && j in Run(EMPTY, events).rows
    requires Run(EMPTY, events).rows[i].source == Run(EMPTY, events).rows[j].source
    requires Run(EMPTY, events).rows[i].hash == Run(EMPTY, events).rows[j].hash
    ensures i == j
  {
    RunKeepsRows(EMPTY, events);
  }

  /** No more than two failures are ever counted against a row, and the second only
      on a failed one: a row the queue would still try has failed once at most. */
  lemma FailuresAreFew(events: seq<Event>, id: nat)
    requires id in Run(EMPTY, events).rows
    ensures Run(EMPTY, events).rows[id].failures <= 2
    ensures Run(EMPTY, events).rows[id].failures == 2 ==> Run(EMPTY, events).rows[id].status.Failed?
  {
    RunKeepsRows(EMPTY, events);
    assert Tidy(Run(EMPTY, events).rows[id]);
  }

  /** Owners and leases belong to busy rows; so a session owns one row at most. */
  lemma OwnersAreBusy(events: seq<Event>, s: Session, i: nat, j: nat)
    requires OwnedBy(Run(EMPTY, events), s, i) && OwnedBy(Run(EMPTY, events), s, j)
    ensures Run(EMPTY, events).rows[i].status in {Extracting, Analyzing, Applying}
    ensures i == j
  {
    RunKeepsRows(EMPTY, events);
    RunKeepsValid(EMPTY, events);
    assert Tidy(Run(EMPTY, events).rows[i]) && Tidy(Run(EMPTY, events).rows[j]);
  }

  // ---- the life cycle -------------------------------------------------------

  /** The moves the calls of the store make. */
  predicate StoreEdge(from: QueueStatus, to: QueueStatus) {
    from == to ||
    match from
    case Queued => to.Extracting? || to.NeedsReview? || to.Canceled?
    case Extracting => to.Analyzing? || to.NeedsReview? || to.Queued? || to.Failed? || to.Canceled?
    case Analyzing => to.Ready? || to.NeedsReview? || to.Queued? || to.Failed? || to.Canceled?
    case Ready => to.Canceled? || to.Completed? || to.Applying?
    case NeedsReview => to.Ready? || to.Canceled? || to.Queued? || to.Completed? || to.Applying?
    case Failed => to.Queued?
    case Canceled => false
    case Applying => to.Ready? || to.Completed? || to.NeedsReview?
    case Completed => to.Applying?
  }

  /** With the three that only the pipeline's own statements make, the moves by
      which a row gets from status to status. */
  predicate Edge(from: QueueStatus, to: QueueStatus) {
    || StoreEdge(from, to)
    || (from.Canceled? && to.Queued?)
    || (from.Queued? && to.Failed?)
    || (from.Ready? && to.NeedsReview?)
  }

  lemma BulkCallFollowsEdges(d: Db, s: Session, now: int, call: Call, id: nat)
    requires BulkCall(call) && id in d.rows && id in Perform(d, s, now, call).db.rows && id < d.nextRow
    ensures StoreEdge(d.rows[id].status, Perform(d, s, now, call).db.rows[id].status)
  {
  }

  lemma DecisionCallFollowsEdges(d: Db, s: Session, now: int, call: Call, id: nat)
    requires DecisionCall(call) && id in d.rows && id in Perform(d, s, now, call).db.rows
    ensures StoreEdge(d.rows[id].status, Perform(d, s, now, call).db.rows[id].status)
  {
  }

  lemma LeaseCallFollowsEdges(d: Db, s: Session, now: int, call: Call, id: nat)
    requires LeaseCall(call) && id in d.rows && id in Perform(d, s, now, call).db.rows
    ensures StoreEdge(d.rows[id].status, Perform(d, s, now, call).db.rows[id].status)
  {
  }

  lemma PipelineCallFollowsEdges(d: Db, s: Session, now: int, call: Call, id: nat)
    requires PipelineCall(call) && id in d.rows && id in Perform(d, s, now, call).db.rows
    ensures Edge(d.rows[id].status, Perform(d, s, now, call).db.rows[id].status)
  {
  }

  lemma JournalCallFollowsEdges(d: Db, s: Session, now: int, call: Call, id: nat)
    requires Bound(d) && JournalCall(call) && id in d.rows && id in Perform(d, s, now, call).db.rows
    ensures StoreEdge(d.rows[id].status, Perform(d, s, now, call).db.rows[id].status)
  {
    assert RowBound(d, id);
  }

  lemma StoreCallFollowsEdges(d: Db, s: Session, now: int, call: Call, id: nat)
    requires Valid(d) && id in d.rows && id in Perform(d, s, now, call).db.rows && !PipelineCall(call)
    ensures StoreEdge(d.rows[id].status, Perform(d, s, now, call).db.rows[id].status)
  {
    assert Numbered(d) && Bound(d);
    hide Perform, Bound, StoreEdge;
    if BulkCall(call) {
      BulkCallFollowsEdges(d, s, now, call, id);
    } else if DecisionCall(call) {
      DecisionCallFollowsEdges(d, s, now, call, id);
    } else if LeaseCall(call) {
      LeaseCallFollowsEdges(d, s, now, call, id);
    } else {
      JournalCallFollowsEdges(d, s, now, call, id);
    }
  }

  /** No call of any session moves a row along any other edge. */
  lemma CallFollowsEdges(d: Db, s: Session, now: int, call: Call, id: nat)
    requires Valid(d) && id in d.rows && id in Perform(d, s, now, call).db.rows
    ensures Edge(d.rows[id].status, Perform(d, s, now, call).db.rows[id].status)
  {
    hide Perform, Valid, StoreEdge;
    if PipelineCall(call) {
      PipelineCallFollowsEdges(d, s, now, call, id);
    } else {
      StoreCallFollowsEdges(d, s, now, call, id);
    }
  }

  /** A queue of one row, in the hands of session 1 if it is busy. */
  function OneRow(status: QueueStatus, failures: nat, error: Option<ErrorCode>, stage: Option<OperationStage>): Db {
    var path := Path("", "");
    var held := status.IsActive();
    var bound := if stage.Some? then Some(1) else None;
    var row := Row(path, Sha256([]), status, failures, error, if held then Some(1) else None, if held then Some(60) else None,
                   if status.Applying? then Some(Ready) else None, if status.Applying? then bound else None,
                   if status.NeedsReview? then bound else None, 1);
    var receipts := if stage.Some?
      then map[1 := Receipt(1, 1, OperationDirection.Apply, path, path, None, Sha256([]), None, Rename, stage.value, true, false, false)]
      else map[];
    Db(map[1 := row], receipts, map[1 := 0], 2, 2)
  }

  /** A queue and a call that take a row along an edge. */
  function Scene(from: QueueStatus, to: QueueStatus): (Db, Call) {
    if from.CanTransitionTo(to) then (OneRow(from, 0, None, None), DoTransition(1, from, to, None))
    else match from
      case Queued => if to.Failed? then (OneRow(from, 1, None, None), DoRecordRecoveredFailure(1))
                     else (OneRow(from, 0, None, None), DoClaimNext)
      case Failed => (OneRow(from, 2, None, None), DoManualRetry(1))
      case Canceled => (OneRow(from, 0, None, None), DoRetryCanceled(1))
      case NeedsReview =>
        if to.Queued? then (OneRow(from, 0, Some(Duplicate), None), DoRetryDuplicate(1))
        else if to.Completed? then (OneRow(from, 0, None, None), DoCompleteKeepOriginal(1, from))
        else (OneRow(from, 0, Some(SourceDeleteFailed), Some(Published)), DoClaimDeferred(1))
      case Ready =>
        if to.NeedsReview? then (OneRow(from, 0, None, None), DoMarkNeedsReview(1))
        else if to.Completed? then (OneRow(from, 0, None, None), DoCompleteKeepOriginal(1, from))
        else (OneRow(from, 0, None, None), DoBeginApplying(1, from))
      case Applying =>
        if to.Ready? then (OneRow(from, 0, None, None), DoResolveEmpty(1))
        else if to.Completed? then (OneRow(from, 0, None, Some(Complete)), DoFinishApplying(1, 1, OperationDirection.Apply))
        else (OneRow(from, 0, None, Some(Planned)), DoParkForReview(1, 1, IoError))
      case _ => (OneRow(from, 0, None, None), DoBeginApplying(1, from))
  }

  lemma OneRowIsValid(status: QueueStatus, failures: nat, error: Option<ErrorCode>, stage: Option<OperationStage>)
    requires failures <= 1 || (failures == 2 && status.Failed?)
    requires stage.Some? ==> status.Applying? || status.NeedsReview?
    ensures Valid(OneRow(status, failures, error, stage)) && AllTidy(OneRow(status, failures, error, stage))
  {
    assert RowBound(OneRow(status, failures, error, stage), 1);
  }

  lemma SceneIsValid(from: QueueStatus, to: QueueStatus)
    ensures Valid(Scene(from, to).0) && AllTidy(Scene(from, to).0)
  {
    OneRowIsValid(from, 0, None, None);
    OneRowIsValid(from, 0, Some(Duplicate), None);
    OneRowIsValid(from, 1, None, None);
    if from.Failed? { OneRowIsValid(from, 2, None, None); }
    if from.NeedsReview? { OneRowIsValid(from, 0, Some(SourceDeleteFailed), Some(Published)); }
    if from.Applying? {
      OneRowIsValid(from, 0, None, Some(Complete));
      OneRowIsValid(from, 0, None, Some(Planned));
    }
    hide Valid, AllTidy;
  }

  ghost predicate Moves(from: QueueStatus, to: QueueStatus) {
    var (d, call) := Scene(from, to);
    && 1 in d.rows && d.rows[1].status == from
    && 1 in Perform(d, 1, 0, call).db.rows && Perform(d, 1, 0, call).db.rows[1].status == to
  }

  lemma TransitionDone(d: Db, from: QueueStatus, to: QueueStatus)
    requires from.CanTransitionTo(to) && 1 in d.rows && d.rows[1].status == from
    requires from.IsActive() ==> d.rows[1].owner == Some(1)
    ensures
      var d' := Perform(d, 1, 0, DoTransition(1, from, to, None)).db;
      1 in d'.rows && d'.rows[1].status == to
  {
  }

  lemma TransitionsMove(from: QueueStatus, to: QueueStatus)
    requires from.CanTransitionTo(to)
    ensures Moves(from, to)
  {
    hide Perform;
    TransitionDone(OneRow(from, 0, None, None), from, to);
  }

  lemma BeginningMoves(from: QueueStatus)
    requires from.Ready? || from.Completed?
    ensures Moves(from, Applying)
  {
  }

  lemma TakingBackMoves()
    ensures Moves(NeedsReview, Applying)
  {
  }

  lemma EmptyingMoves()
    ensures Moves(Applying, Ready)
  {
  }

  lemma FinishingMoves()
    ensures Moves(Applying, Completed)
  {
  }

  lemma ParkingMoves()
    ensures Moves(Applying, NeedsReview)
  {
  }

  lemma ClaimsMove(to: QueueStatus)
    requires to.Extracting? || to.Failed?
    ensures Moves(Queued, to)
  {
  }

  lemma RetriesMove(from: QueueStatus)
    requires from.Failed? || from.Canceled? || from.NeedsReview?
    ensures Moves(from, Queued)
  {
  }

  lemma DecisionsMove(from: QueueStatus, to: QueueStatus)
    requires Edge(from, to) && from != to && !from.CanTransitionTo(to) && !from.Applying? && (to.Completed? || to.NeedsReview?)
    ensures Moves(from, to)
  {
  }

  /** And every edge is one that some call moves some row along. */
  lemma EveryEdgeHappens(from: QueueStatus, to: QueueStatus)
    requires Edge(from, to) && from != to
    ensures Valid(Scene(from, to).0) && AllTidy(Scene(from, to).0) && Moves(from, to)
  {
    hide Moves, Valid, AllTidy, Scene;
    SceneIsValid(from, to);
    if from.CanTransitionTo(to) {
      TransitionsMove(from, to);
    } else if from.Applying? {
      if to.Ready? { EmptyingMoves(); } else if to.Completed? { FinishingMoves(); } else { ParkingMoves(); }
    } else if to.Applying? {
      if from.NeedsReview? { TakingBackMoves(); } else { BeginningMoves(from); }
    } else if from.Queued? {
      ClaimsMove(to);
    } else if to.Queued? {
      RetriesMove(from);
    } else {
      DecisionsMove(from, to);
    }
  }

  lemma RowNeverReused(d: Db, s: Session, now: int, call: Call, id: nat)
    requires Numbered(d) && id < d.nextRow && id !in d.rows
    ensures id !in Perform(d, s, now, call).db.rows
    ensures d.nextRow <= Perform(d, s, now, call).db.nextRow
  {
    hide Perform;
    NumberingGrows(d, s, now, call);
    if id in Perform(d, s, now, call).db.rows { CallKeepsDocuments(d, s, now, call, id); }
  }

  lemma {:induction false} RowGoneStaysGone(d: Db, events: seq<Event>, id: nat)
    requires Valid(d) && id < d.nextRow && id !in d.rows
    ensures id !in Run(d, events).rows
    decreases |events|
  {
    hide Perform;
    if events != [] {
      var e := events[0];
      CallKeepsValid(d, e.session, e.now, e.call);
      RowNeverReused(d, e.session, e.now, e.call, id);
      RowGoneStaysGone(Perform(d, e.session, e.now, e.call).db, events[1..], id);
    }
  }

  /** No call but a person's retry of the row takes it out of canceled. */
  lemma CanceledLeftByRetryOnly(d: Db, s: Session, now: int, call: Call, id: nat)
    requires Valid(d) && id in d.rows && d.rows[id].status.Canceled? && id in Perform(d, s, now, call).db.rows
    requires call != DoRetryCanceled(id)
    ensures Perform(d, s, now, call).db.rows[id].status.Canceled?
  {
    hide Perform, Valid;
    if PipelineCall(call) {
      StatementsLeaveCanceled(d, s, now, call, id);
    } else {
      StoreCallFollowsEdges(d, s, now, call, id);
    }
  }

  lemma StatementsLeaveCanceled(d: Db, s: Session, now: int, call: Call, id: nat)
    requires id in d.rows && d.rows[id].status.Canceled? && id in Perform(d, s, now, call).db.rows
    requires PipelineCall(call) && call != DoRetryCanceled(id)
    ensures Perform(d, s, now, call).db.rows[id].status.Canceled?
  {
  }

  lemma {:induction false} CanceledStays(d: Db, events: seq<Event>, id: nat)
    requires Valid(d) && id in d.rows && d.rows[id].status.Canceled? && id in Run(d, events).rows
    requires forall k :: 0 <= k < |events| ==> events[k].call != DoRetryCanceled(id)
    ensures Run(d, events).rows[id].status.Canceled?
    decreases |events|
  {
    hide Perform;
    if events != [] {
      var e := events[0];
      var d1 := Perform(d, e.session, e.now, e.call).db;
      CallKeepsValid(d, e.session, e.now, e.call);
      NumberingGrows(d, e.session, e.now, e.call);
      if id !in d1.rows {
        RowGoneStaysGone(d1, events[1..], id);
      } else {
        CanceledLeftByRetryOnly(d, e.session, e.now, e.call, id);
        CanceledStays(d1, events[1..], id);
      }
    }
  }

  /** A canceled row stays canceled until it is deleted or a person retries it,
      whatever all sessions do; and the first retry that finds it puts it back into
      the queue, with no failures held against it and nobody's. */
  lemma CanceledUntilRetried(d: Db, events: seq<Event>, id: nat, s: Session, now: int)
    requires Valid(d) && id in d.rows && d.rows[id].status.Canceled? && id in Run(d, events).rows
    requires forall k :: 0 <= k < |events| ==> events[k].call != DoRetryCanceled(id)
    ensures Run(d, events).rows[id].status.Canceled?
    ensures
      var d' := Run(d, events + [Event(s, now, DoRetryCanceled(id))]);
      && id in d'.rows && d'.rows[id].status.Queued? && d'.rows[id].failures == 0 && d'.rows[id].owner.None?
      && (forall other :: other in Run(d, events).rows && other != id ==>
            other in d'.rows && d'.rows[other] == Run(d, events).rows[other])
  {
    CanceledStays(d, events, id);
    RunOneMore(d, events, Event(s, now, DoRetryCanceled(id)));
  }

  lemma {:induction false} RunOneMore(d: Db, events: seq<Event>, e: Event)
    ensures Run(d, events + [e]) == Perform(Run(d, events), e.session, e.now, e.call).db
    decreases |events|
  {
    hide Perform;
    if events != [] {
      assert (events + [e])[1..] == events[1..] + [e];
      RunOneMore(Perform(d, events[0].session, events[0].now, events[0].call).db, events[1..], e);
    }
  }

  lemma NumberingGrows(d: Db, s: Session, now: int, call: Call)
    ensures d.nextRow <= Perform(d, s, now, call).db.nextRow
  {
  }

  // ---- leases ---------------------------------------------------------------

  /** For a whole lease after a renewal nobody takes the row or recovers it. */
  lemma RenewedLeaseHolds(d: Db, s: Session, now: int, id: nat, other: Session, later: int)
    requires RenewLease(d, s, now, id).reply.Done? && later < now + LEASE_SECONDS
    ensures ClaimApplying(RenewLease(d, s, now, id).db, other, later, id).reply.Refused?
    ensures !Interrupted(RenewLease(d, s, now, id).db, id, later)
    ensures RecoverInterrupted(RenewLease(d, s, now, id).db, later).db.rows[id] == RenewLease(d, s, now, id).db.rows[id]
  {
  }

  /** Recovery leaves nothing to recover: done again at once it finds nothing. */
  lemma RecoveryIsComplete(d: Db, now: int)
    ensures RecoverInterrupted(RecoverInterrupted(d, now).db, now) == Outcome(RecoverInterrupted(d, now).db, Count(0))
  {
    var d' := RecoverInterrupted(d, now).db;
    assert forall id :: !Interrupted(d', id, now);
    assert (set id | id in d'.rows && Interrupted(d', id, now)) == {};
    assert RecoverInterrupted(d', now).db.rows == d'.rows;
  }
}
