/** Who may touch an item while it is being applied: a session takes an applying
    row only from an owner that is gone or silent, and the old owner's calls
    then change nothing until it takes the row again itself. */
module QueueFencing {
  import opened Domain
  import opened QueueSpec
  import opened QueueInvariants

  /** Row `id` and all its receipts are the same in both databases. */
  ghost predicate Untouched(d: Db, d': Db, id: nat) {
    && id in d.rows && id in d'.rows && d'.rows[id] == d.rows[id]
    && (forall rid :: rid in d.receipts && d.receipts[rid].item == id ==>
          rid in d'.receipts && d'.receipts[rid] == d.receipts[rid])
    && (forall rid :: rid in d'.receipts && d'.receipts[rid].item == id ==>
          rid in d.receipts && d.receipts[rid] == d'.receipts[rid])
  }

  /** The calls only the owner of a row may make: leases, the moves out of an
      active status, and the journal. */
  predicate OwnerCall(call: Call, id: nat) {
    match call
    case DoRenewLease(i) => i == id
    case DoTransition(i, expected, _, _) => i == id && expected.IsActive()
    case DoRecordProcessingFailure(i, _) => i == id
    case DoSaveProposal(i, _) => i == id
    case DoFinishApplying(i, _, _) => i == id
    case DoCreateReceipt(i, _) => i == id
    case DoUpdateReceipt(_, r) => r.item == id
    case DoRenewOperationLease(i, _, _) => i == id
    case DoRecordApplyingRollback(i, _, _) => i == id
    case DoDeferPublished(i, _, _) => i == id
    case DoParkForReview(i, _, _) => i == id
    case DoResolveEmpty(i) => i == id
    case DoResolveRollback(i, _, _) => i == id
    case DoResolveVerified(i, _, _) => i == id
    case _ => false
  }

  /** The calls by which a session comes to own row `id`. */
  predicate Takes(d: Db, e: Event, id: nat) {
    var reply := Perform(d, e.session, e.now, e.call).reply;
    || (e.call == DoClaimNext && reply == Found(id))
    || (e.call.DoBeginApplying? && e.call.id == id && reply.Done?)
    || (e.call.DoClaimApplying? && e.call.id == id && reply.Done?)
    || (e.call.DoClaimDeferred? && e.call.id == id && reply.Done?)
  }

  ghost predicate OwnedBy(d: Db, s: Session, id: nat) {
    id in d.rows && d.rows[id].owner == Some(s)
  }

  /** An applying row is taken only from nobody, from a session that is gone, or
      from one whose lease and heartbeat are both out of date; a session never
      takes it from itself. */
  lemma TakenOnlyWhenAbandoned(d: Db, s: Session, now: int, id: nat)
    requires id in d.rows && d.rows[id].status.Applying?
    requires ClaimApplying(d, s, now, id).reply.Done?
    ensures
      || d.rows[id].owner.None?
      || d.rows[id].owner.value !in d.sessions
      || (&& d.rows[id].owner.value != s
          && d.rows[id].lease.Some? && d.rows[id].lease.value <= now
          && d.sessions[d.rows[id].owner.value] + LEASE_SECONDS <= now)
    ensures ClaimApplying(d, s, now, id).db.rows == d.rows[id := d.rows[id].(owner := Some(s), lease := Some(now + LEASE_SECONDS))]
    ensures ClaimApplying(d, s, now, id).db.receipts == d.receipts
  {
  }

  lemma DeleteSpares(d: Db, gone: set<nat>, id: nat)
    requires id in d.rows && id !in gone
    ensures Untouched(d, DeleteRows(d, gone).db, id)
  {
  }

  predicate BulkCall(call: Call) {
    || call.DoOpenSession? || call.DoCloseSession? || call.DoEnqueue? || call.DoClaimNext?
    || call.DoRecoverInterrupted? || call.DoClearTerminal? || call.DoDiscardQueued?
  }

  predicate DecisionCall(call: Call) {
    || call.DoTransition? || call.DoManualRetry? || call.DoCompleteKeepOriginal? || call.DoRetryDuplicate?
    || call.DoBeginApplying? || call.DoClaimApplying? || call.DoClaimDeferred?
  }

  predicate LeaseCall(call: Call) {
    || call.DoRenewLease? || call.DoRecordProcessingFailure? || call.DoFinishApplying? || call.DoRenewOperationLease?
    || call.DoRecordApplyingRollback? || call.DoDeferPublished? || call.DoParkForReview? || call.DoResolveEmpty?
  }

  predicate JournalCall(call: Call) {
    call.DoCreateReceipt? || call.DoUpdateReceipt? || call.DoResolveRollback? || call.DoResolveVerified?
  }

  lemma DeletingCallSpares(d: Db, s: Session, now: int, call: Call, id: nat)
    requires id in d.rows && d.rows[id].status.Applying? && (call.DoClearTerminal? || call.DoDiscardQueued?)
    ensures Untouched(d, Perform(d, s, now, call).db, id)
  {
    if call.DoClearTerminal? {
      DeleteSpares(d, (set i | i in d.rows && Terminal(d.rows[i].status)), id);
    } else {
      DeleteSpares(d, (set i | i in d.rows && d.rows[i].status.Queued?), id);
    }
  }

  lemma BulkCallSpares(d: Db, s: Session, now: int, call: Call, id: nat)
    requires Valid(d) && id in d.rows && d.rows[id].status.Applying? && d.rows[id].owner != Some(s)
    requires BulkCall(call)
    ensures Untouched(d, Perform(d, s, now, call).db, id)
  {
    if call.DoClearTerminal? || call.DoDiscardQueued? {
      DeletingCallSpares(d, s, now, call, id);
    }
  }

  /** An edit of another row spares this one. */
  lemma EditSpares(d: Db, d': Db, other: nat, id: nat)
    requires id in d.rows && other in d.rows && other in d'.rows
    requires other != id || d'.rows[id] == d.rows[id]
    requires d' == d.(rows := d.rows[other := d'.rows[other]], sessions := d'.sessions)
    ensures Untouched(d, d', id)
  {
  }

  lemma NothingSpares(d: Db, id: nat)
    requires id in d.rows
    ensures Untouched(d, d, id)
  {
  }

  lemma DecisionCallSpares(d: Db, s: Session, now: int, call: Call, id: nat)
    requires Valid(d) && id in d.rows && d.rows[id].status.Applying? && d.rows[id].owner != Some(s)
    requires DecisionCall(call) && !(call.DoClaimApplying? && call.id == id)
    ensures Untouched(d, Perform(d, s, now, call).db, id)
  {
    hide Valid, Untouched;
    var d' := Perform(d, s, now, call).db;
    if d' != d { EditSpares(d, d', call.id, id); } else { NothingSpares(d, id); }
  }

  lemma DeadCallIsRefused(d: Db, s: Session, now: int, call: Call, id: nat)
    requires OwnerCall(call, id) && !OwnedBy(d, s, id)
    ensures Perform(d, s, now, call).reply.Refused?
    ensures Perform(d, s, now, call).db.rows == d.rows
    ensures Perform(d, s, now, call).db.receipts == d.receipts
  {
  }

  lemma LeaseCallEditsOneRow(d: Db, s: Session, now: int, call: Call)
    requires LeaseCall(call)
    ensures
      var d' := Perform(d, s, now, call).db;
      && d'.receipts == d.receipts
      && (d'.rows == d.rows
          || (call.id in d.rows && call.id in d'.rows && d'.rows == d.rows[call.id := d'.rows[call.id]]))
  {
  }

  lemma LeaseCallSpares(d: Db, s: Session, now: int, call: Call, id: nat)
    requires Valid(d) && id in d.rows && d.rows[id].status.Applying? && d.rows[id].owner != Some(s)
    requires LeaseCall(call)
    ensures Untouched(d, Perform(d, s, now, call).db, id)
  {
    hide Perform, Valid;
    if call.id == id {
      DeadCallIsRefused(d, s, now, call, id);
    } else {
      LeaseCallEditsOneRow(d, s, now, call);
    }
  }

  lemma CreateSpares(d: Db, s: Session, now: int, i: nat, receipt: Receipt, id: nat)
    requires Numbered(d) && OneBusy(d) && id in d.rows && d.rows[id].status.Applying? && d.rows[id].owner != Some(s)
    ensures Untouched(d, Perform(d, s, now, DoCreateReceipt(i, receipt)).db, id)
  {
  }

  lemma UpdateSpares(d: Db, s: Session, now: int, from: OperationStage, receipt: Receipt, id: nat)
    requires OneBusy(d) && id in d.rows && d.rows[id].status.Applying? && d.rows[id].owner != Some(s)
    ensures Untouched(d, Perform(d, s, now, DoUpdateReceipt(from, receipt)).db, id)
  {
  }

  lemma RollingBackSpares(d: Db, s: Session, now: int, i: nat, rid: nat, stage: OperationStage, id: nat)
    requires OneBusy(d) && id in d.rows && d.rows[id].status.Applying? && d.rows[id].owner != Some(s)
    ensures Untouched(d, Perform(d, s, now, DoResolveRollback(i, rid, stage)).db, id)
  {
  }

  lemma CompletingSpares(d: Db, s: Session, now: int, i: nat, rid: nat, stage: OperationStage, id: nat)
    requires OneBusy(d) && id in d.rows && d.rows[id].status.Applying? && d.rows[id].owner != Some(s)
    ensures Untouched(d, Perform(d, s, now, DoResolveVerified(i, rid, stage)).db, id)
  {
  }

  lemma JournalCallSpares(d: Db, s: Session, now: int, call: Call, id: nat)
    requires Valid(d) && id in d.rows && d.rows[id].status.Applying? && d.rows[id].owner != Some(s)
    requires JournalCall(call)
    ensures Untouched(d, Perform(d, s, now, call).db, id)
  {
    assert Numbered(d) && OneBusy(d);
    hide Perform, Valid, Numbered, OneBusy, Untouched;
    if call.DoCreateReceipt? {
      CreateSpares(d, s, now, call.id, call.receipt, id);
    } else if call.DoUpdateReceipt? {
      UpdateSpares(d, s, now, call.from, call.receipt, id);
    } else if call.DoResolveRollback? {
      RollingBackSpares(d, s, now, call.id, call.rid, call.stage, id);
    } else {
      CompletingSpares(d, s, now, call.id, call.rid, call.stage, id);
    }
  }

  /** The pipeline's own statements leave every applying row alone, whoever owns it. */
  lemma PipelineCallSpares(d: Db, s: Session, now: int, call: Call, id: nat)
    requires Valid(d) && id in d.rows && d.rows[id].status.Applying? && PipelineCall(call)
    ensures Untouched(d, Perform(d, s, now, call).db, id)
  {
    hide Perform, Valid, DeleteRows;
    var d' := Perform(d, s, now, call).db;
    PipelineCallEdits(d, s, now, call);
    if d' != d {
      if call.DoRemoveItem? {
        DeleteSpares(d, {call.id}, id);
      } else {
        EditSpares(d, d', call.id, id);
      }
    }
  }

  /** While someone else owns an applying row, no call of `s` but a successful
      claim changes the row or any of its receipts. */
  lemma OthersLeaveApplyingAlone(d: Db, s: Session, now: int, call: Call, id: nat)
    requires Valid(d) && id in d.rows && d.rows[id].status.Applying? && d.rows[id].owner != Some(s)
    requires !(call.DoClaimApplying? && call.id == id && ClaimApplying(d, s, now, id).reply.Done?)
    ensures Untouched(d, Perform(d, s, now, call).db, id)
  {
    if BulkCall(call) {
      BulkCallSpares(d, s, now, call, id);
    } else if LeaseCall(call) {
      LeaseCallSpares(d, s, now, call, id);
    } else if DecisionCall(call) {
      if !(call.DoClaimApplying? && call.id == id) { DecisionCallSpares(d, s, now, call, id); }
    } else if PipelineCall(call) {
      PipelineCallSpares(d, s, now, call, id);
    } else {
      JournalCallSpares(d, s, now, call, id);
    }
  }

  lemma BulkCallKeepsOwners(d: Db, s: Session, e: Event, id: nat)
    requires Valid(d) && !OwnedBy(d, s, id) && BulkCall(e.call)
    requires e.session == s ==> !Takes(d, e, id)
    ensures !OwnedBy(Perform(d, e.session, e.now, e.call).db, s, id)
  {
  }

  lemma EditKeepsOwners(d: Db, s: Session, e: Event, id: nat)
    requires !OwnedBy(d, s, id) && (LeaseCall(e.call) || DecisionCall(e.call))
    requires e.session == s ==> !Takes(d, e, id)
    ensures !OwnedBy(Perform(d, e.session, e.now, e.call).db, s, id)
  {
  }

  lemma JournalCallKeepsOwners(d: Db, s: Session, e: Event, id: nat)
    requires !OwnedBy(d, s, id) && JournalCall(e.call)
    ensures !OwnedBy(Perform(d, e.session, e.now, e.call).db, s, id)
  {
  }

  lemma PipelineCallKeepsOwners(d: Db, s: Session, e: Event, id: nat)
    requires !OwnedBy(d, s, id) && PipelineCall(e.call)
    ensures !OwnedBy(Perform(d, e.session, e.now, e.call).db, s, id)
  {
  }

  /** Only a taking call makes a session the owner of a row. */
  lemma OwnershipIsTaken(d: Db, s: Session, e: Event, id: nat)
    requires Valid(d) && !OwnedBy(d, s, id)
    requires e.session == s ==> !Takes(d, e, id)
    ensures !OwnedBy(Perform(d, e.session, e.now, e.call).db, s, id)
  {
    hide Perform, OwnedBy, Takes;
    if BulkCall(e.call) {
      BulkCallKeepsOwners(d, s, e, id);
    } else if JournalCall(e.call) {
      JournalCallKeepsOwners(d, s, e, id);
    } else if PipelineCall(e.call) {
      PipelineCallKeepsOwners(d, s, e, id);
    } else {
      EditKeepsOwners(d, s, e, id);
    }
  }

  /** `s` takes row `id` at no point of the run. */
  predicate NeverTakes(d: Db, s: Session, events: seq<Event>, id: nat)
    decreases |events|
  {
    events == [] ||
    (&& (events[0].session == s ==> !Takes(d, events[0], id))
     && NeverTakes(Perform(d, events[0].session, events[0].now, events[0].call).db, s, events[1..], id))
  }

  lemma {:induction false} StaysDisowned(d: Db, s: Session, events: seq<Event>, k: nat, id: nat)
    requires Valid(d) && !OwnedBy(d, s, id) && k <= |events|
    requires NeverTakes(d, s, events, id)
    ensures Valid(Run(d, events[..k])) && !OwnedBy(Run(d, events[..k]), s, id)
    decreases k
  {
    if k > 0 {
      var e := events[0];
      var d1 := Perform(d, e.session, e.now, e.call).db;
      CallKeepsValid(d, e.session, e.now, e.call);
      OwnershipIsTaken(d, s, e, id);
      StaysDisowned(d1, s, events[1..], k - 1, id);
      assert events[..k][1..] == events[1..][..k - 1];
    }
  }

  lemma ClaimKeepsValid(d: Db, s: Session, now: int, id: nat)
    requires Valid(d)
    ensures Valid(ClaimApplying(d, s, now, id).db)
  {
    CallKeepsValid(d, s, now, DoClaimApplying(id));
  }

  /** Fencing over whole runs. Session `t` takes the applying row `id` from `s`
      in a reachable database. Whatever all sessions then do, as long as `s`
      does not take the row again, every lease, transition or journal call of `s`
      on the item is refused and leaves the rows and the journal as they are. */
  lemma FencingOverRuns(before: seq<Event>, s: Session, t: Session, now: int, id: nat, after: seq<Event>, k: nat)
    requires s != t && k < |after|
    requires ClaimApplying(Run(EMPTY, before), t, now, id).reply.Done?
    requires NeverTakes(ClaimApplying(Run(EMPTY, before), t, now, id).db, s, after, id)
    requires after[k].session == s && OwnerCall(after[k].call, id)
    ensures
      var d := Run(ClaimApplying(Run(EMPTY, before), t, now, id).db, after[..k]);
      var o := Perform(d, s, after[k].now, after[k].call);
      o.reply.Refused? && o.db.rows == d.rows && o.db.receipts == d.receipts
  {
    hide Perform, OwnerCall;
    var d0 := Run(EMPTY, before);
    RunKeepsValid(EMPTY, before);
    ClaimKeepsValid(d0, t, now, id);
    var d1 := ClaimApplying(d0, t, now, id).db;
    StaysDisowned(d1, s, after, k, id);
    DeadCallIsRefused(Run(d1, after[..k]), s, after[k].now, after[k].call, id);
  }

  // ---- receipts over time ---------------------------------------------------

  /** What a receipt may become: its birth columns are fixed, its stage only goes
      forward, and once rolled back or complete it stays so. One that required rollback
      is never complete. */
  ghost predicate Descends(before: Receipt, after: Receipt) {
    && after.id == before.id && after.item == before.item && after.direction == before.direction
    && after.source == before.source && after.destination == before.destination
    && after.pre == before.pre && after.kind == before.kind
    && (after.stage == before.stage ||
        match before.stage
        case Planned => true
        case Copied => !after.stage.Planned?
        case Verified => !after.stage.Planned? && !after.stage.Copied?
        case Published => after.stage.RollbackRequired? || after.stage.RolledBack? || after.stage.Complete?
        case RollbackRequired => after.stage.RolledBack?
        case RolledBack => false
        case Complete => false)
  }

  lemma CreateKeepsReceipts(d: Db, s: Session, now: int, id: nat, receipt: Receipt, rid: nat)
    requires Numbered(d) && rid in d.receipts
    ensures rid in Perform(d, s, now, DoCreateReceipt(id, receipt)).db.receipts
    ensures Perform(d, s, now, DoCreateReceipt(id, receipt)).db.receipts[rid] == d.receipts[rid]
  {
  }

  lemma UpdateKeepsReceipts(d: Db, s: Session, now: int, from: OperationStage, receipt: Receipt, rid: nat)
    requires Numbered(d) && rid in d.receipts
    ensures rid in Perform(d, s, now, DoUpdateReceipt(from, receipt)).db.receipts
    ensures Descends(d.receipts[rid], Perform(d, s, now, DoUpdateReceipt(from, receipt)).db.receipts[rid])
  {
  }

  lemma RollingBackKeepsReceipts(d: Db, s: Session, now: int, id: nat, bound: nat, stage: OperationStage, rid: nat)
    requires rid in d.receipts
    ensures rid in Perform(d, s, now, DoResolveRollback(id, bound, stage)).db.receipts
    ensures Descends(d.receipts[rid], Perform(d, s, now, DoResolveRollback(id, bound, stage)).db.receipts[rid])
  {
  }

  lemma CompletingKeepsReceipts(d: Db, s: Session, now: int, id: nat, bound: nat, stage: OperationStage, rid: nat)
    requires rid in d.receipts
    ensures rid in Perform(d, s, now, DoResolveVerified(id, bound, stage)).db.receipts
    ensures Descends(d.receipts[rid], Perform(d, s, now, DoResolveVerified(id, bound, stage)).db.receipts[rid])
  {
  }

  lemma OtherCallsKeepReceipts(d: Db, s: Session, now: int, call: Call, rid: nat)
    requires !JournalCall(call) && rid in d.receipts && rid in Perform(d, s, now, call).db.receipts
    ensures Perform(d, s, now, call).db.receipts[rid] == d.receipts[rid]
  {
  }

  lemma CallKeepsReceipt(d: Db, s: Session, now: int, call: Call, rid: nat)
    requires Numbered(d) && rid in d.receipts && rid in Perform(d, s, now, call).db.receipts
    ensures Descends(d.receipts[rid], Perform(d, s, now, call).db.receipts[rid])
  {
    hide Perform;
    if call.DoCreateReceipt? {
      CreateKeepsReceipts(d, s, now, call.id, call.receipt, rid);
    } else if call.DoUpdateReceipt? {
      UpdateKeepsReceipts(d, s, now, call.from, call.receipt, rid);
    } else if call.DoResolveRollback? {
      RollingBackKeepsReceipts(d, s, now, call.id, call.rid, call.stage, rid);
    } else if call.DoResolveVerified? {
      CompletingKeepsReceipts(d, s, now, call.id, call.rid, call.stage, rid);
    } else {
      OtherCallsKeepReceipts(d, s, now, call, rid);
    }
  }

  lemma OtherCallsMakeNoReceipt(d: Db, s: Session, now: int, call: Call, rid: nat)
    requires !JournalCall(call) && rid !in d.receipts
    ensures rid !in Perform(d, s, now, call).db.receipts
  {
  }

  lemma JournalCallNeverReusesReceipt(d: Db, s: Session, now: int, call: Call, rid: nat)
    requires JournalCall(call) && rid < d.nextReceipt && rid !in d.receipts
    ensures rid !in Perform(d, s, now, call).db.receipts
  {
  }

  lemma CallNeverReusesReceipt(d: Db, s: Session, now: int, call: Call, rid: nat)
    requires rid < d.nextReceipt && rid !in d.receipts
    ensures rid !in Perform(d, s, now, call).db.receipts
    ensures rid < Perform(d, s, now, call).db.nextReceipt
  {
    hide Perform;
    CallKeepsNumbering(d, s, now, call);
    if JournalCall(call) {
      JournalCallNeverReusesReceipt(d, s, now, call, rid);
    } else {
      OtherCallsMakeNoReceipt(d, s, now, call, rid);
    }
  }

  lemma CallKeepsNumbering(d: Db, s: Session, now: int, call: Call)
    ensures d.nextReceipt <= Perform(d, s, now, call).db.nextReceipt
  {
  }

  lemma {:induction false} GoneStaysGone(d: Db, events: seq<Event>, rid: nat)
    requires Valid(d) && rid < d.nextReceipt && rid !in d.receipts
    ensures rid !in Run(d, events).receipts
    decreases |events|
  {
    if events != [] {
      var e := events[0];
      CallKeepsValid(d, e.session, e.now, e.call);
      CallNeverReusesReceipt(d, e.session, e.now, e.call, rid);
      GoneStaysGone(Perform(d, e.session, e.now, e.call).db, events[1..], rid);
    }
  }

  /** A finished receipt never reopens, and no run changes what a receipt moves,
      from where to where, in which direction. */
  lemma {:induction false} FinishedReceiptsStayFinished(d: Db, events: seq<Event>, rid: nat)
    requires Valid(d) && rid in d.receipts && rid in Run(d, events).receipts
    ensures Descends(d.receipts[rid], Run(d, events).receipts[rid])
    decreases |events|
  {
    if events != [] {
      var e := events[0];
      var d1 := Perform(d, e.session, e.now, e.call).db;
      CallKeepsValid(d, e.session, e.now, e.call);
      CallKeepsNumbering(d, e.session, e.now, e.call);
      if rid !in d1.receipts {
        GoneStaysGone(d1, events[1..], rid);
      } else {
        CallKeepsReceipt(d, e.session, e.now, e.call, rid);
        FinishedReceiptsStayFinished(d1, events[1..], rid);
      }
    }
  }

  /** Handing a row to a person erases the status it came from, and the retry
      writes 'ready' back by hand. It is the status that was erased: whenever a
      retry succeeds, every earlier state in which the row was applying under
      that same receipt had come from ready. */
  lemma DeferredRetryRestoresErasedStatus(before: seq<Event>, after: seq<Event>, s: Session, now: int, id: nat)
    requires id in Run(EMPTY, before).rows && Run(EMPTY, before).rows[id].active.Some?
    requires
      var d := Run(Run(EMPTY, before), after);
      && ClaimDeferred(d, s, now, id).reply.Done?
      && d.rows[id].reconciliation == Run(EMPTY, before).rows[id].active
    ensures
      ClaimDeferred(Run(Run(EMPTY, before), after), s, now, id).db.rows[id].previous == Run(EMPTY, before).rows[id].previous
  {
    var d0 := Run(EMPTY, before);
    RunKeepsValid(EMPTY, before);
    assert RowBound(d0, id);
    FinishedReceiptsStayFinished(d0, after, d0.rows[id].active.value);
  }

  // ---- what a failed deletion leaves to a person -----------------------------

  /** Nobody but, perhaps, this row is being extracted, analysed or applied. */
  predicate QuietBesides(d: Db, id: nat) {
    forall other :: other in d.rows && other != id ==>
      d.rows[other].status != Extracting && d.rows[other].status != Analyzing && d.rows[other].status != Applying
  }

  /** A row handed over because the original of a published copy could not be deleted
      can be taken back: as long as nobody touches it, any open session's retry is
      granted once the queue is quiet, and binds the receipt that was published. */
  lemma DeferredCanBeRetried(d: Db, s: Session, id: nat, rid: nat, code: ErrorCode, d2: Db, other: Session, now: int)
    requires DeferPublished(d, s, id, rid, code).reply.Done?
    requires Untouched(DeferPublished(d, s, id, rid, code).db, d2, id)
    requires other in d2.sessions && QuietBesides(d2, id)
    ensures
      var o := ClaimDeferred(d2, other, now, id);
      && o.reply.Done? && o.db.rows[id].status == Applying && o.db.rows[id].owner == Some(other)
      && o.db.rows[id].active == Some(rid) && o.db.receipts == d2.receipts
  {
  }

  /** So can one that reconciliation parked for the same reason. */
  lemma ParkedCanBeRetried(d: Db, s: Session, id: nat, rid: nat, d2: Db, other: Session, now: int)
    requires ParkForReview(d, s, id, rid, SourceDeleteFailed).reply.Done?
    requires rid in d.receipts && d.receipts[rid].item == id
    requires d.receipts[rid].direction.Apply? && d.receipts[rid].stage == Published
    requires Untouched(ParkForReview(d, s, id, rid, SourceDeleteFailed).db, d2, id)
    requires other in d2.sessions && QuietBesides(d2, id)
    ensures
      var o := ClaimDeferred(d2, other, now, id);
      && o.reply.Done? && o.db.rows[id].status == Applying && o.db.rows[id].owner == Some(other)
      && o.db.rows[id].active == Some(rid) && o.db.receipts == d2.receipts
  {
  }
}
