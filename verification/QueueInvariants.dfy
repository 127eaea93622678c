/** What every run of queue calls keeps, from an empty database, for any number
    of sessions and any interleaving: one busy row at most, receipts bound to
    the epoch that made them, one unfinished receipt per item. */
module QueueInvariants {
  import opened Domain
  import opened QueueSpec

  ghost predicate Numbered(d: Db) {
    && (forall id :: id in d.rows ==> id < d.nextRow)
    && (forall rid :: rid in d.receipts ==>
          rid < d.nextReceipt && d.receipts[rid].id == rid && d.receipts[rid].item in d.rows)
  }

  /** The epoch a row is in and the receipt it is bound to. */
  ghost predicate RowBound(d: Db, id: nat)
    requires id in d.rows
  {
    var row := d.rows[id];
    && (row.status.Applying? ==>
          row.epoch > 0 && (row.previous == Some(Ready) || row.previous == Some(Completed)))
    && (!row.status.Applying? ==> row.active.None? && row.previous.None?)
    && (row.active.Some? ==>
          && d.ReceiptOf(row.active.value, id)
          && row.previous == Some(StatusBefore(d.receipts[row.active.value].direction)))
    && (row.reconciliation.Some? ==> row.epoch > 0 && d.ReceiptOf(row.reconciliation.value, id))
  }

  ghost predicate Bound(d: Db) {
    forall id :: id in d.rows ==> RowBound(d, id)
  }

  ghost predicate OneBusy(d: Db) {
    forall i, j :: i in d.rows && j in d.rows && d.rows[i].status.IsActive() && d.rows[j].status.IsActive() ==> i == j
  }

  /** An unfinished receipt is the newest of its item. */
  ghost predicate OpenIsNewest(d: Db) {
    forall i, j ::
      i in d.receipts && j in d.receipts && d.receipts[i].item == d.receipts[j].item && !d.receipts[i].stage.Finished()
      ==> j <= i
  }

  /** So is the one a row is bound to. */
  ghost predicate BoundIsNewest(d: Db) {
    forall id, rid :: id in d.rows && d.rows[id].active.Some? && rid in d.receipts && d.receipts[rid].item == id
      ==> rid <= d.rows[id].active.value
  }

  ghost predicate Valid(d: Db) {
    Numbered(d) && Bound(d) && OneBusy(d) && OpenIsNewest(d) && BoundIsNewest(d)
  }

  /** The receipts are the same, and each row keeps status-independent bindings:
      the shape of every call that leaves the journal alone and edits rows
      outside any operation. */
  ghost predicate QuietRow(before: Row, after: Row) {
    && !before.status.Applying? && !after.status.Applying?
    && (after.status.IsActive() ==> before.status.IsActive())
    && after.active == before.active && after.previous == before.previous
    && (after.reconciliation == before.reconciliation || after.reconciliation.None?)
    && after.epoch == before.epoch
  }

  ghost predicate SameBinding(before: Row, after: Row) {
    && after.status == before.status && after.active == before.active && after.previous == before.previous
    && (after.reconciliation == before.reconciliation || (after.reconciliation == before.active))
    && after.epoch == before.epoch
  }

  ghost predicate Released(before: Row, after: Row) {
    && before.status.Applying? && !after.status.IsActive()
    && after.active.None? && after.previous.None?
    && (after.reconciliation.None? || after.reconciliation == before.reconciliation || after.reconciliation == before.active)
    && after.epoch == before.epoch
  }

  /** What a row may become when the journal stays as it is. */
  ghost predicate Gentle(before: Row, after: Row) {
    after == before || QuietRow(before, after) || SameBinding(before, after) || Released(before, after)
  }

  lemma GentleKeepsBound(d: Db, d': Db, id: nat)
    requires id in d.rows && id in d'.rows && RowBound(d, id) && d'.receipts == d.receipts
    requires Gentle(d.rows[id], d'.rows[id])
    ensures RowBound(d', id)
  {
  }

  lemma QuietKeepsValid(d: Db, d': Db)
    requires Valid(d)
    requires d'.receipts == d.receipts && d'.rows.Keys == d.rows.Keys
    requires d'.nextRow == d.nextRow && d'.nextReceipt == d.nextReceipt
    requires forall id :: id in d.rows ==> Gentle(d.rows[id], d'.rows[id])
    ensures Valid(d')
  {
    forall id | id in d'.rows
      ensures RowBound(d', id)
      ensures d'.rows[id].status.IsActive() ==> d.rows[id].status.IsActive()
      ensures d'.rows[id].active.Some? ==> d'.rows[id].active == d.rows[id].active
    {
      GentleKeepsBound(d, d', id);
    }
    hide RowBound, Gentle;
  }

  /** A row that becomes active when nothing else is. */
  lemma ActivateKeepsValid(d: Db, d': Db, id: nat)
    requires Valid(d) && id in d.rows && id in d'.rows && !d.rows[id].status.Applying? && !d.BusyBesides(id)
    requires d' == d.(rows := d'.rows, sessions := d'.sessions)
    requires d'.rows == d.rows[id := d'.rows[id]]
    requires RowBound(d', id)
    requires d'.rows[id].active.Some? ==> d.Unfinished(d'.rows[id].active.value, id)
    ensures Valid(d')
  {
    forall other | other in d'.rows && other != id ensures RowBound(d', other) && !d'.rows[other].status.IsActive() {
      assert RowBound(d, other);
    }
  }

  lemma EnqueueKeepsValid(d: Db, source: Path, hash: Digest)
    requires Valid(d)
    ensures Valid(Enqueue(d, source, hash).db)
  {
    var d' := Enqueue(d, source, hash).db;
    if d' != d {
      forall id | id in d'.rows ensures RowBound(d', id) {
        if id != d.nextRow { assert RowBound(d, id); }
      }
    }
  }

  lemma DeleteKeepsValid(d: Db, gone: set<nat>)
    requires Valid(d)
    ensures Valid(DeleteRows(d, gone).db)
  {
    var d' := DeleteRows(d, gone).db;
    forall id | id in d'.rows ensures RowBound(d', id) {
      assert RowBound(d, id);
    }
  }

  lemma CreateKeepsValid(d: Db, s: Session, now: int, id: nat, receipt: Receipt)
    requires Valid(d)
    ensures Valid(CreateReceipt(d, s, now, id, receipt).db)
  {
    var d' := CreateReceipt(d, s, now, id, receipt).db;
    if d'.nextReceipt != d.nextReceipt {
      var rid := d.nextReceipt;
      forall other | other in d'.rows ensures RowBound(d', other) { assert RowBound(d, other); }
      assert forall k :: k in d.receipts ==> !d.Unfinished(k, id);
    }
  }

  /** A journal write on the bound receipt of `id` that keeps its identity,
      never reopening it, with the row kept or released. */
  lemma JournalKeepsValid(d: Db, d': Db, id: nat, rid: nat)
    requires Valid(d) && id in d.rows && d.rows[id].active == Some(rid) && d.ReceiptOf(rid, id)
    requires d'.nextRow == d.nextRow && d'.nextReceipt == d.nextReceipt
    requires rid in d'.receipts && d'.receipts == d.receipts[rid := d'.receipts[rid]]
    requires id in d'.rows && d'.rows == d.rows[id := d'.rows[id]]
    requires SameBinding(d.rows[id], d'.rows[id]) || Released(d.rows[id], d'.rows[id])
    requires d'.receipts[rid].id == rid && d'.receipts[rid].item == id
    requires d'.receipts[rid].direction == d.receipts[rid].direction
    requires d.receipts[rid].stage.Finished() ==> d'.receipts[rid].stage.Finished()
    ensures Valid(d')
  {
    forall other | other in d'.rows ensures RowBound(d', other) { assert RowBound(d, other); }
    JournalKeepsNewest(d, d', id, rid);
  }

  lemma JournalKeepsNewest(d: Db, d': Db, id: nat, rid: nat)
    requires OpenIsNewest(d) && BoundIsNewest(d) && id in d.rows && d.ReceiptOf(rid, id)
    requires rid in d'.receipts && d'.receipts == d.receipts[rid := d'.receipts[rid]]
    requires id in d'.rows && d'.rows == d.rows[id := d'.rows[id]]
    requires d'.rows[id].active.None? || d'.rows[id].active == d.rows[id].active
    requires d'.receipts[rid].item == id
    requires d.receipts[rid].stage.Finished() ==> d'.receipts[rid].stage.Finished()
    ensures OpenIsNewest(d') && BoundIsNewest(d')
  {
  }

  lemma ClaimDeferredKeepsValid(d: Db, s: Session, now: int, id: nat)
    requires Valid(d)
    ensures Valid(ClaimDeferred(d, s, now, id).db)
  {
    var o := ClaimDeferred(d, s, now, id);
    if o.reply.Done? {
      assert RowBound(d, id);
      assert d.Unfinished(d.rows[id].reconciliation.value, id);
      ActivateKeepsValid(d, o.db, id);
    }
  }

  lemma BeginKeepsValid(d: Db, s: Session, now: int, id: nat, expected: QueueStatus)
    requires Valid(d)
    ensures Valid(BeginApplying(d, s, now, id, expected).db)
  {
    var o := BeginApplying(d, s, now, id, expected);
    if o.reply.Done? {
      assert RowBound(d, id);
      ActivateKeepsValid(d, o.db, id);
    }
  }

  lemma ClaimNextKeepsValid(d: Db, s: Session, now: int)
    requires Valid(d)
    ensures Valid(ClaimNext(d, s, now).db)
  {
    var o := ClaimNext(d, s, now);
    if o.reply.Found? {
      assert RowBound(d, o.reply.id);
      assert !d.BusyBesides(o.reply.id);
      ActivateKeepsValid(d, o.db, o.reply.id);
    } else {
      QuietKeepsValid(d, o.db);
    }
  }

  lemma UpdateKeepsValid(d: Db, s: Session, now: int, expected: OperationStage, r: Receipt)
    requires Valid(d)
    ensures Valid(UpdateReceipt(d, s, now, expected, r).db)
  {
    var o := UpdateReceipt(d, s, now, expected, r);
    if o.reply.Created? {
      JournalKeepsValid(d, o.db, r.item, r.id);
    }
  }

  lemma ResolveKeepsValid(d: Db, s: Session, now: int, id: nat, rid: nat, expected: OperationStage)
    requires Valid(d)
    ensures Valid(ResolveRollback(d, s, now, id, rid, expected).db)
    ensures Valid(ResolveVerified(d, s, now, id, rid, expected).db)
  {
    if ResolveRollback(d, s, now, id, rid, expected).reply.Done? {
      assert RowBound(d, id);
      JournalKeepsValid(d, ResolveRollback(d, s, now, id, rid, expected).db, id, rid);
    }
    if ResolveVerified(d, s, now, id, rid, expected).reply.Done? {
      assert RowBound(d, id);
      JournalKeepsValid(d, ResolveVerified(d, s, now, id, rid, expected).db, id, rid);
    }
  }

  /** An edit of one row that is quiet, keeps its binding, or releases it. */
  lemma EditKeepsValid(d: Db, d': Db, id: nat)
    requires Valid(d) && id in d.rows && id in d'.rows
    requires d' == d.(rows := d.rows[id := d'.rows[id]], sessions := d'.sessions)
    requires Gentle(d.rows[id], d'.rows[id])
    ensures Valid(d')
  {
    QuietKeepsValid(d, d');
  }

  lemma SessionCallKeepsValid(d: Db, s: Session, now: int, call: Call)
    requires Valid(d)
    requires call.DoOpenSession? || call.DoCloseSession? || call.DoRecoverInterrupted?
    ensures Valid(Perform(d, s, now, call).db)
  {
    assert forall id :: id in d.rows ==> RowBound(d, id);
    QuietKeepsValid(d, Perform(d, s, now, call).db);
  }

  /** A processing call edits one row outside any operation, or a lease. */
  lemma ProcessingCallEdits(d: Db, s: Session, now: int, call: Call)
    requires Valid(d)
    requires call.DoRenewLease? || call.DoTransition? || call.DoRecordProcessingFailure?
    ensures
      var d' := Perform(d, s, now, call).db;
      && d' == d.(rows := d'.rows, sessions := d'.sessions)
      && (d'.rows == d.rows
          || (&& call.id in d.rows && call.id in d'.rows && d'.rows == d.rows[call.id := d'.rows[call.id]]
              && (QuietRow(d.rows[call.id], d'.rows[call.id]) || SameBinding(d.rows[call.id], d'.rows[call.id]))))
  {
    if call.id in d.rows { assert RowBound(d, call.id); }
  }

  lemma ProcessingCallKeepsValid(d: Db, s: Session, now: int, call: Call)
    requires Valid(d)
    requires call.DoRenewLease? || call.DoTransition? || call.DoRecordProcessingFailure?
    ensures Valid(Perform(d, s, now, call).db)
  {
    hide Perform, Valid, QuietRow, SameBinding;
    ProcessingCallEdits(d, s, now, call);
    QuietKeepsValid(d, Perform(d, s, now, call).db);
  }

  lemma DecisionCallKeepsValid(d: Db, s: Session, now: int, call: Call)
    requires Valid(d)
    requires call.DoManualRetry? || call.DoCompleteKeepOriginal? || call.DoRetryDuplicate?
    ensures Valid(Perform(d, s, now, call).db)
  {
    var d' := Perform(d, s, now, call).db;
    if d' != d {
      assert RowBound(d, call.id);
      EditKeepsValid(d, d', call.id);
    }
  }

  /** The statements the pipeline makes on the queue's table itself. */
  predicate PipelineCall(call: Call) {
    || call.DoSaveProposal? || call.DoMarkNeedsReview? || call.DoRetryUnverified? || call.DoRetryCanceled?
    || call.DoRecordRecoveredFailure? || call.DoRemoveItem? || call.DoApproveEdit?
  }

  /** Such a statement edits one row outside any operation, or removes it. */
  lemma PipelineCallEdits(d: Db, s: Session, now: int, call: Call)
    requires Valid(d) && PipelineCall(call)
    ensures
      var o := Perform(d, s, now, call);
      || o == Refuse(d, StateConflict) || o == Refuse(d, InvalidTransition)
      || (&& call.DoRemoveItem? && call.id in d.rows && !d.rows[call.id].status.IsActive()
          && o.db == DeleteRows(d, {call.id}).db && o.reply.Done?)
      || (&& call.id in d.rows && call.id in o.db.rows && o.reply.Done?
          && o.db == d.(rows := d.rows[call.id := o.db.rows[call.id]])
          && QuietRow(d.rows[call.id], o.db.rows[call.id]))
  {
    if call.id in d.rows { assert RowBound(d, call.id); }
  }

  lemma PipelineCallKeepsValid(d: Db, s: Session, now: int, call: Call)
    requires Valid(d) && PipelineCall(call)
    ensures Valid(Perform(d, s, now, call).db)
  {
    hide Perform, Valid, QuietRow, DeleteRows;
    PipelineCallEdits(d, s, now, call);
    var d' := Perform(d, s, now, call).db;
    if d' != d {
      if call.DoRemoveItem? && d' == DeleteRows(d, {call.id}).db {
        DeleteKeepsValid(d, {call.id});
      } else {
        EditKeepsValid(d, d', call.id);
      }
    }
  }

  predicate EpochCall(call: Call) {
    || call.DoClaimApplying? || call.DoFinishApplying? || call.DoRenewOperationLease?
    || call.DoRecordApplyingRollback? || call.DoDeferPublished? || call.DoParkForReview? || call.DoResolveEmpty?
  }

  /** A call within an epoch keeps the binding of one row or releases it. */
  lemma EpochCallEdits(d: Db, s: Session, now: int, call: Call)
    requires EpochCall(call)
    ensures
      var d' := Perform(d, s, now, call).db;
      && d' == d.(rows := d'.rows, sessions := d'.sessions)
      && (d'.rows == d.rows
          || (&& call.id in d.rows && call.id in d'.rows && d'.rows == d.rows[call.id := d'.rows[call.id]]
              && (SameBinding(d.rows[call.id], d'.rows[call.id]) || Released(d.rows[call.id], d'.rows[call.id]))))
  {
  }

  lemma EpochCallKeepsValid(d: Db, s: Session, now: int, call: Call)
    requires Valid(d) && EpochCall(call)
    ensures Valid(Perform(d, s, now, call).db)
  {
    hide Perform, Valid, SameBinding, Released;
    EpochCallEdits(d, s, now, call);
    QuietKeepsValid(d, Perform(d, s, now, call).db);
  }

  /** Every call of every session keeps the invariant. */
  lemma CallKeepsValid(d: Db, s: Session, now: int, call: Call)
    requires Valid(d)
    ensures Valid(Perform(d, s, now, call).db)
  {
    hide Perform, Valid;
    if PipelineCall(call) {
      PipelineCallKeepsValid(d, s, now, call);
    } else {
      StoreCallKeepsValid(d, s, now, call);
    }
  }

  lemma StoreCallKeepsValid(d: Db, s: Session, now: int, call: Call)
    requires Valid(d) && !PipelineCall(call)
    ensures Valid(Perform(d, s, now, call).db)
  {
    match call
    case DoEnqueue(source, hash) => EnqueueKeepsValid(d, source, hash);
    case DoClaimNext => ClaimNextKeepsValid(d, s, now);
    case DoClearTerminal => DeleteKeepsValid(d, set id | id in d.rows && Terminal(d.rows[id].status));
    case DoDiscardQueued => DeleteKeepsValid(d, set id | id in d.rows && d.rows[id].status.Queued?);
    case DoBeginApplying(id, expected) => BeginKeepsValid(d, s, now, id, expected);
    case DoClaimDeferred(id) => ClaimDeferredKeepsValid(d, s, now, id);
    case DoCreateReceipt(id, receipt) => CreateKeepsValid(d, s, now, id, receipt);
    case DoUpdateReceipt(from, receipt) => UpdateKeepsValid(d, s, now, from, receipt);
    case DoResolveRollback(id, rid, stage) => ResolveKeepsValid(d, s, now, id, rid, stage);
    case DoResolveVerified(id, rid, stage) => ResolveKeepsValid(d, s, now, id, rid, stage);
    case DoOpenSession => SessionCallKeepsValid(d, s, now, call);
    case DoCloseSession => SessionCallKeepsValid(d, s, now, call);
    case DoRecoverInterrupted => SessionCallKeepsValid(d, s, now, call);
    case DoRenewLease(_) => ProcessingCallKeepsValid(d, s, now, call);
    case DoTransition(_, _, _, _) => ProcessingCallKeepsValid(d, s, now, call);
    case DoRecordProcessingFailure(_, _) => ProcessingCallKeepsValid(d, s, now, call);
    case DoManualRetry(_) => DecisionCallKeepsValid(d, s, now, call);
    case DoCompleteKeepOriginal(_, _) => DecisionCallKeepsValid(d, s, now, call);
    case DoRetryDuplicate(_) => DecisionCallKeepsValid(d, s, now, call);
    case _ => EpochCallKeepsValid(d, s, now, call);
  }

  // ---- runs -----------------------------------------------------------------

  datatype Event = Event(session: Session, now: int, call: Call)

  function Run(d: Db, events: seq<Event>): Db
    decreases |events|
  {
    if events == [] then d
    else Run(Perform(d, events[0].session, events[0].now, events[0].call).db, events[1..])
  }

  lemma {:induction false} RunKeepsValid(d: Db, events: seq<Event>)
    requires Valid(d)
    ensures Valid(Run(d, events))
    decreases |events|
  {
    if events != [] {
      CallKeepsValid(d, events[0].session, events[0].now, events[0].call);
      RunKeepsValid(Perform(d, events[0].session, events[0].now, events[0].call).db, events[1..]);
    }
  }

  /** From an empty database, no interleaving of any sessions' calls ever puts
      two rows into extracting, analysing or applying. */
  lemma AtMostOneBusyRow(events: seq<Event>, i: nat, j: nat)
    requires i in Run(EMPTY, events).rows && j in Run(EMPTY, events).rows
    requires Run(EMPTY, events).rows[i].status in {Extracting, Analyzing, Applying}
    requires Run(EMPTY, events).rows[j].status in {Extracting, Analyzing, Applying}
    ensures i == j
  {
    RunKeepsValid(EMPTY, events);
  }

  /** From an empty database, whatever happens: an applying row came from ready
      or completed; the receipt it is bound to is its own and matches that
      direction; other rows bind nothing; an open receipt, and one a row is bound
      to, is the newest of its item, so there is one at most. */
  lemma ReceiptsStayBound(events: seq<Event>, id: nat)
    requires id in Run(EMPTY, events).rows
    ensures
      var d := Run(EMPTY, events);
      var row := d.rows[id];
      && (row.status.Applying? <==> row.previous.Some?)
      && (row.previous.Some? ==> row.previous.value.Ready? || row.previous.value.Completed?)
      && (row.active.Some? ==>
            && row.status.Applying? && d.ReceiptOf(row.active.value, id)
            && (d.receipts[row.active.value].direction.Apply? <==> row.previous == Some(Ready)))
      && (forall i: nat, j: nat :: d.Unfinished(i, id) && d.ReceiptOf(j, id) ==> j <= i)
      && (forall j: nat :: row.active.Some? && d.ReceiptOf(j, id) ==> j <= row.active.value)
  {
    RunKeepsValid(EMPTY, events);
    BindingOf(Run(EMPTY, events), id);
  }

  lemma BindingOf(d: Db, id: nat)
    requires Valid(d) && id in d.rows
    ensures RowBound(d, id)
    ensures forall i: nat, j: nat :: d.Unfinished(i, id) && d.ReceiptOf(j, id) ==> j <= i
    ensures forall j: nat :: d.rows[id].active.Some? && d.ReceiptOf(j, id) ==> j <= d.rows[id].active.value
  {
  }

  /** The newest receipt of an item is the one of its receipts with the greatest id. */
  lemma {:induction false} NewestIsGreatest(d: Db, item: nat, below: nat)
    requires Numbered(d)
    ensures
      var newest := NewestBelow(d, item, below);
      && (newest.None? ==> forall rid :: rid in d.receipts && rid < below ==> d.receipts[rid].item != item)
      && (newest.Some? ==>
            && newest.value.id < below && newest.value.id in d.receipts && d.receipts[newest.value.id] == newest.value
            && newest.value.item == item
            && forall rid :: rid in d.receipts && rid < below && d.receipts[rid].item == item ==> rid <= newest.value.id)
  {
    if below > 0 {
      NewestIsGreatest(d, item, below - 1);
    }
  }
}
