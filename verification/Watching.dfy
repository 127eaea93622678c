/** Which receipts still matter, and which calls can bring about one that does. */
module Watching {
  import opened Domain
  import opened QueueSpec
  import opened QueueInvariants
  import opened QueueFencing

  /** A receipt of the item that still matters: open, or bound to its row. */
  predicate Watched(d: Db, item: nat, rid: nat) {
    d.ReceiptOf(rid, item)
    && (!d.receipts[rid].stage.Finished() || (item in d.rows && d.rows[item].active == Some(rid)))
  }

  lemma DeletingWatchesNothingNew(d: Db, gone: set<nat>, item: nat, rid: nat)
    requires rid in DeleteRows(d, gone).db.receipts && Watched(DeleteRows(d, gone).db, item, rid)
    ensures rid in d.receipts && d.receipts[rid] == DeleteRows(d, gone).db.receipts[rid] && Watched(d, item, rid)
  {
  }

  lemma BulkEditWatchesNothingNew(d: Db, s: Session, now: int, call: Call, item: nat, rid: nat)
    requires Numbered(d) && Bound(d) && BulkCall(call) && !call.DoClearTerminal? && !call.DoDiscardQueued?
    requires rid in Perform(d, s, now, call).db.receipts && Watched(Perform(d, s, now, call).db, item, rid)
    ensures rid in d.receipts && d.receipts[rid] == Perform(d, s, now, call).db.receipts[rid] && Watched(d, item, rid)
  {
    assert item in d.rows ==> RowBound(d, item);
    if call.DoClaimNext? {
    } else if call.DoEnqueue? {
    } else {
    }
  }

  lemma BulkCallWatchesNothingNew(d: Db, s: Session, now: int, call: Call, item: nat, rid: nat)
    requires Valid(d) && BulkCall(call)
    requires rid in Perform(d, s, now, call).db.receipts && Watched(Perform(d, s, now, call).db, item, rid)
    ensures rid in d.receipts && d.receipts[rid] == Perform(d, s, now, call).db.receipts[rid] && Watched(d, item, rid)
  {
    assert Numbered(d) && Bound(d);
    hide Valid, Numbered, Bound, Watched, DeleteRows;
    if call.DoClearTerminal? {
      DeletingWatchesNothingNew(d, (set id | id in d.rows && Terminal(d.rows[id].status)), item, rid);
    } else if call.DoDiscardQueued? {
      DeletingWatchesNothingNew(d, (set id | id in d.rows && d.rows[id].status.Queued?), item, rid);
    } else {
      BulkEditWatchesNothingNew(d, s, now, call, item, rid);
    }
  }

  lemma DecisionCallBindsOnlyOpen(d: Db, s: Session, now: int, call: Call, item: nat)
    requires DecisionCall(call)
    ensures
      var d' := Perform(d, s, now, call).db;
      && d'.receipts == d.receipts
      && (item in d'.rows ==>
            && item in d.rows
            && (d'.rows[item].active == d.rows[item].active || d'.rows[item].active.None?
                || d.Unfinished(d'.rows[item].active.value, item)))
  {
  }

  lemma DecisionCallWatchesNothingNew(d: Db, s: Session, now: int, call: Call, item: nat, rid: nat)
    requires Valid(d) && DecisionCall(call)
    requires rid in Perform(d, s, now, call).db.receipts && Watched(Perform(d, s, now, call).db, item, rid)
    ensures rid in d.receipts && d.receipts[rid] == Perform(d, s, now, call).db.receipts[rid] && Watched(d, item, rid)
  {
    hide Perform, Valid;
    DecisionCallBindsOnlyOpen(d, s, now, call, item);
  }

  lemma PipelineCallWatchesNothingNew(d: Db, s: Session, now: int, call: Call, item: nat, rid: nat)
    requires Valid(d) && PipelineCall(call)
    requires rid in Perform(d, s, now, call).db.receipts && Watched(Perform(d, s, now, call).db, item, rid)
    ensures rid in d.receipts && d.receipts[rid] == Perform(d, s, now, call).db.receipts[rid] && Watched(d, item, rid)
  {
    hide Perform, Valid;
    PipelineCallEdits(d, s, now, call);
  }

  /** Row and receipts of the item are as they were; others may have come or gone. */
  ghost predicate SameItem(d: Db, d': Db, item: nat) {
    && (item in d.rows <==> item in d'.rows) && (item in d.rows ==> d'.rows[item] == d.rows[item])
    && (forall rid :: rid in d'.receipts && d'.receipts[rid].item == item ==>
          rid in d.receipts && d'.receipts[rid] == d.receipts[rid])
  }

  lemma CreateStaysOnItsItem(d: Db, s: Session, now: int, id: nat, receipt: Receipt, item: nat)
    requires Numbered(d) && id != item
    ensures SameItem(d, Perform(d, s, now, DoCreateReceipt(id, receipt)).db, item)
  {
  }

  lemma UpdateStaysOnItsItem(d: Db, s: Session, now: int, from: OperationStage, receipt: Receipt, item: nat)
    requires Numbered(d) && receipt.item != item
    ensures SameItem(d, Perform(d, s, now, DoUpdateReceipt(from, receipt)).db, item)
  {
  }

  lemma RollingBackStaysOnItsItem(d: Db, s: Session, now: int, id: nat, rid: nat, stage: OperationStage, item: nat)
    requires id != item
    ensures SameItem(d, Perform(d, s, now, DoResolveRollback(id, rid, stage)).db, item)
  {
  }

  lemma CompletingStaysOnItsItem(d: Db, s: Session, now: int, id: nat, rid: nat, stage: OperationStage, item: nat)
    requires id != item
    ensures SameItem(d, Perform(d, s, now, DoResolveVerified(id, rid, stage)).db, item)
  {
  }

  /** A call that writes a receipt of the item: only processes that move it do. */
  predicate WritesJournal(call: Call, item: nat) {
    match call
    case DoCreateReceipt(i, _) => i == item
    case DoUpdateReceipt(_, r) => r.item == item
    case DoResolveRollback(i, _, _) => i == item
    case DoResolveVerified(i, _, _) => i == item
    case _ => false
  }

  lemma JournalCallStaysOnItsItem(d: Db, s: Session, now: int, call: Call, item: nat)
    requires Numbered(d) && !WritesJournal(call, item) && JournalCall(call)
    ensures SameItem(d, Perform(d, s, now, call).db, item)
  {
    hide Perform, SameItem;
    if call.DoCreateReceipt? {
      CreateStaysOnItsItem(d, s, now, call.id, call.receipt, item);
    } else if call.DoUpdateReceipt? {
      UpdateStaysOnItsItem(d, s, now, call.from, call.receipt, item);
    } else if call.DoResolveRollback? {
      RollingBackStaysOnItsItem(d, s, now, call.id, call.rid, call.stage, item);
    } else {
      CompletingStaysOnItsItem(d, s, now, call.id, call.rid, call.stage, item);
    }
  }

  lemma SameItemSameWatch(d: Db, d': Db, item: nat, rid: nat)
    requires SameItem(d, d', item) && rid in d'.receipts && Watched(d', item, rid)
    ensures rid in d.receipts && d.receipts[rid] == d'.receipts[rid] && Watched(d, item, rid)
  {
  }

  lemma JournalCallElsewhere(d: Db, s: Session, now: int, call: Call, item: nat, rid: nat)
    requires Valid(d) && !WritesJournal(call, item)
    requires JournalCall(call)
    requires rid in Perform(d, s, now, call).db.receipts && Watched(Perform(d, s, now, call).db, item, rid)
    ensures rid in d.receipts && d.receipts[rid] == Perform(d, s, now, call).db.receipts[rid] && Watched(d, item, rid)
  {
    assert Numbered(d);
    hide Perform, WritesJournal, Valid, Numbered, JournalCall, SameItem, Watched;
    JournalCallStaysOnItsItem(d, s, now, call, item);
    SameItemSameWatch(d, Perform(d, s, now, call).db, item, rid);
  }

  lemma LeaseCallBindsNothing(d: Db, s: Session, now: int, call: Call, item: nat)
    requires LeaseCall(call)
    ensures
      var d' := Perform(d, s, now, call).db;
      && d'.receipts == d.receipts
      && (item in d'.rows ==>
            item in d.rows && (d'.rows[item].active == d.rows[item].active || d'.rows[item].active.None?))
  {
  }

  /** Any call that writes no receipt of this item watches nothing new. */
  lemma BystanderWatchesNothingNew(d: Db, s: Session, now: int, call: Call, item: nat, rid: nat)
    requires Valid(d) && !WritesJournal(call, item)
    requires rid in Perform(d, s, now, call).db.receipts && Watched(Perform(d, s, now, call).db, item, rid)
    ensures rid in d.receipts && d.receipts[rid] == Perform(d, s, now, call).db.receipts[rid] && Watched(d, item, rid)
  {
    hide Perform, Valid, WritesJournal;
    if BulkCall(call) {
      BulkCallWatchesNothingNew(d, s, now, call, item, rid);
    } else if DecisionCall(call) {
      DecisionCallWatchesNothingNew(d, s, now, call, item, rid);
    } else if LeaseCall(call) {
      LeaseCallBindsNothing(d, s, now, call, item);
    } else if PipelineCall(call) {
      PipelineCallWatchesNothingNew(d, s, now, call, item, rid);
    } else {
      JournalCallElsewhere(d, s, now, call, item, rid);
    }
  }

  // ---- of any item ----------------------------------------------------------

  /** The receipt still matters to its own item. */
  predicate Matters(d: Db, rid: nat) {
    rid in d.receipts && Watched(d, d.receipts[rid].item, rid)
  }

  /** What matters now mattered before, and is the same. */
  ghost predicate Fewer(d: Db, d': Db) {
    forall rid :: Matters(d', rid) ==> Matters(d, rid) && d'.receipts[rid] == d.receipts[rid]
  }

  /** A call that journals nothing makes nothing matter that did not. */
  lemma QuietCallWatchesFewer(d: Db, s: Session, now: int, call: Call)
    requires Valid(d) && !JournalCall(call)
    ensures Fewer(d, Perform(d, s, now, call).db)
  {
    hide Perform, Valid, WritesJournal;
    var d' := Perform(d, s, now, call).db;
    forall rid | Matters(d', rid) ensures Matters(d, rid) && d'.receipts[rid] == d.receipts[rid] {
      QuietCallWritesNothing(call, d'.receipts[rid].item);
      BystanderWatchesNothingNew(d, s, now, call, d'.receipts[rid].item, rid);
    }
  }

  lemma QuietCallWritesNothing(call: Call, item: nat)
    requires !JournalCall(call)
    ensures !WritesJournal(call, item)
  {
  }

  /** The receipts of other items that matter. */
  ghost function Others(d: Db, item: nat): set<Receipt> {
    set rid | rid in d.receipts && d.receipts[rid].item != item && Matters(d, rid) :: d.receipts[rid]
  }

  lemma StandsMeans(d: Db, d': Db, item: nat, rid: nat)
    requires Numbered(d) && Numbered(d') && Stands(d', item, Others(d, item))
    requires Matters(d', rid) && d'.receipts[rid].item != item
    ensures Matters(d, rid) && d'.receipts[rid] == d.receipts[rid]
  {
  }

  // ---- the receipts of everyone else ----------------------------------------

  /** Every receipt that still matters and is not the item's is among `standing`. */
  ghost predicate Stands(d: Db, item: nat, standing: set<Receipt>) {
    forall rid :: rid in d.receipts && d.receipts[rid].item != item && Watched(d, d.receipts[rid].item, rid) ==>
      d.receipts[rid] in standing
  }

  /** A call that journals nothing, or something of the item's, adds none. */
  lemma CallStands(d: Db, s: Session, now: int, call: Call, item: nat, standing: set<Receipt>)
    requires Valid(d) && Stands(d, item, standing)
    requires JournalCall(call) ==> WritesJournal(call, item)
    ensures Stands(Perform(d, s, now, call).db, item, standing)
  {
    WritesOneItem(call, item);
    hide Perform, Valid, WritesJournal, JournalCall, Watched;
    var d' := Perform(d, s, now, call).db;
    forall rid | rid in d'.receipts && d'.receipts[rid].item != item && Watched(d', d'.receipts[rid].item, rid)
      ensures d'.receipts[rid] in standing
    {
      BystanderWatchesNothingNew(d, s, now, call, d'.receipts[rid].item, rid);
    }
  }

  lemma WritesOneItem(call: Call, item: nat)
    requires JournalCall(call) ==> WritesJournal(call, item)
    ensures forall other: nat :: other != item ==> !WritesJournal(call, other)
  {
  }

  // The same, call by call.

  lemma LeaseStands(d: Db, s: Session, now: int, item: nat, standing: set<Receipt>)
    requires Valid(d) && Stands(d, item, standing)
    ensures Stands(RenewLease(d, s, now, item).db, item, standing)
  {
    hide Valid, Stands;
    CallStands(d, s, now, DoRenewLease(item), item, standing);
  }

  lemma CreateStands(d: Db, s: Session, now: int, item: nat, receipt: Receipt, standing: set<Receipt>)
    requires Valid(d) && Stands(d, item, standing)
    ensures Stands(CreateReceipt(d, s, now, item, receipt).db, item, standing)
  {
    hide Valid, Stands;
    CallStands(d, s, now, DoCreateReceipt(item, receipt), item, standing);
  }

  lemma UpdateStands(d: Db, s: Session, now: int, item: nat, from: OperationStage, receipt: Receipt, standing: set<Receipt>)
    requires Valid(d) && Stands(d, item, standing) && receipt.item == item
    ensures Stands(UpdateReceipt(d, s, now, from, receipt).db, item, standing)
  {
    hide Valid, Stands;
    CallStands(d, s, now, DoUpdateReceipt(from, receipt), item, standing);
  }

  lemma RenewalStands(d: Db, s: Session, now: int, item: nat, rid: nat, stage: OperationStage, standing: set<Receipt>)
    requires Valid(d) && Stands(d, item, standing)
    ensures Stands(RenewOperationLease(d, s, now, item, rid, stage).db, item, standing)
  {
    hide Valid, Stands;
    CallStands(d, s, now, DoRenewOperationLease(item, rid, stage), item, standing);
  }

  lemma RollbackNoteStands(d: Db, s: Session, now: int, item: nat, rid: nat, code: ErrorCode, standing: set<Receipt>)
    requires Valid(d) && Stands(d, item, standing)
    ensures Stands(RecordApplyingRollback(d, s, now, item, rid, code).db, item, standing)
  {
    hide Valid, Stands;
    CallStands(d, s, now, DoRecordApplyingRollback(item, rid, code), item, standing);
  }

  lemma DeferralStands(d: Db, s: Session, item: nat, rid: nat, code: ErrorCode, standing: set<Receipt>)
    requires Valid(d) && Stands(d, item, standing)
    ensures Stands(DeferPublished(d, s, item, rid, code).db, item, standing)
  {
    hide Valid, Stands;
    CallStands(d, s, 0, DoDeferPublished(item, rid, code), item, standing);
  }

  lemma ParkingStands(d: Db, s: Session, item: nat, rid: nat, code: ErrorCode, standing: set<Receipt>)
    requires Valid(d) && Stands(d, item, standing)
    ensures Stands(ParkForReview(d, s, item, rid, code).db, item, standing)
  {
    hide Valid, Stands;
    CallStands(d, s, 0, DoParkForReview(item, rid, code), item, standing);
  }

  lemma RolledBackStands(d: Db, s: Session, now: int, item: nat, rid: nat, stage: OperationStage, standing: set<Receipt>)
    requires Valid(d) && Stands(d, item, standing)
    ensures Stands(ResolveRollback(d, s, now, item, rid, stage).db, item, standing)
  {
    hide Valid, Stands;
    CallStands(d, s, now, DoResolveRollback(item, rid, stage), item, standing);
  }

  lemma VerifiedStands(d: Db, s: Session, now: int, item: nat, rid: nat, stage: OperationStage, standing: set<Receipt>)
    requires Valid(d) && Stands(d, item, standing)
    ensures Stands(ResolveVerified(d, s, now, item, rid, stage).db, item, standing)
  {
    hide Valid, Stands;
    CallStands(d, s, now, DoResolveVerified(item, rid, stage), item, standing);
  }

  lemma EmptiedStands(d: Db, s: Session, now: int, item: nat, standing: set<Receipt>)
    requires Valid(d) && Stands(d, item, standing)
    ensures Stands(ResolveEmpty(d, s, now, item).db, item, standing)
  {
    hide Valid, Stands;
    CallStands(d, s, now, DoResolveEmpty(item), item, standing);
  }

  lemma BeginStands(d: Db, s: Session, now: int, item: nat, expected: QueueStatus, standing: set<Receipt>)
    requires Valid(d) && Stands(d, item, standing)
    ensures Stands(BeginApplying(d, s, now, item, expected).db, item, standing)
  {
    hide Valid, Stands;
    CallStands(d, s, now, DoBeginApplying(item, expected), item, standing);
  }

  lemma FinishStands(d: Db, s: Session, now: int, item: nat, rid: nat, direction: OperationDirection, standing: set<Receipt>)
    requires Valid(d) && Stands(d, item, standing)
    ensures Stands(FinishApplying(d, s, now, item, rid, direction).db, item, standing)
  {
    hide Valid, Stands;
    CallStands(d, s, now, DoFinishApplying(item, rid, direction), item, standing);
  }
}
