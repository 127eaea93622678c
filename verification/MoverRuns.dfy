/** Whole lives of documents on one disk: applies, undos, crashes, takeovers and
    retries of any items in any order, by any processes in turn, each dying where it
    may. */
module MoverRuns {
  import opened Domain
  import opened QueueSpec
  import opened QueueInvariants
  import opened QueueFencing
  import opened QueueStore
  import opened MoveLaw
  import opened DestinationNames
  import opened FileMover
  import opened Watching

  /** Operations of different items that still matter share no path. */
  ghost predicate Apart(d: Db) {
    forall i, j :: Matters(d, i) && Matters(d, j) && d.receipts[i].item != d.receipts[j].item ==>
      PathsOf(d.receipts[i]) !! PathsOf(d.receipts[j])
  }

  /** The disk fits every receipt that still matters, of whatever item. */
  ghost predicate Sound(files: Files, d: Db) {
    Valid(d) && Apart(d) && forall rid :: Matters(d, rid) ==> Fits(files, d.receipts[rid])
  }

  /** Where each document of `start` is now: still there, no two at one place. */
  ghost predicate Conserved(start: Files, files: Files, kept: map<Path, Path>) {
    && kept.Keys == start.Keys
    && (forall p :: p in start ==> kept[p] in files && files[kept[p]].bytes == start[p].bytes)
    && (forall p, q :: p in kept && q in kept && p != q ==> kept[p] != kept[q])
  }

  /** No document rests where the operation of `r` is free to delete a file: under
      its temporary name, or at one of its two names while another is at the other. */
  ghost predicate Spared(r: Receipt, kept: map<Path, Path>) {
    && (forall p :: p in kept ==> Some(kept[p]) != r.temporary)
    && (forall p, q :: p in kept && q in kept ==> kept[p] != r.source || kept[q] != r.destination)
  }

  ghost predicate Keeps(start: Files, files: Files, d: Db, kept: map<Path, Path>) {
    Conserved(start, files, kept) && forall rid :: Matters(d, rid) ==> Spared(d.receipts[rid], kept)
  }

  /** Every document there was in `start` still exists, each in its own place. */
  ghost predicate NothingLost(start: Files, files: Files, d: Db) {
    exists kept :: Keeps(start, files, d, kept)
  }

  /** All is well: the disk fits, and nothing is lost. */
  ghost predicate Well(start: Files, files: Files, d: Db) {
    Sound(files, d) && NothingLost(start, files, d)
  }

  /** Only receipt `entry`, if any, still matters to its item, and to other items
      only what mattered to them before. */
  ghost predicate OnlyAdds(d: Db, d': Db, entry: Receipt) {
    && Valid(d') && Stands(d', entry.item, Others(d, entry.item))
    && (forall rid :: Matters(d', rid) && d'.receipts[rid].item == entry.item ==> d'.receipts[rid] == entry)
  }

  /** No operation of another item that still matters uses these paths. */
  predicate Clear(d: Db, item: nat, paths: set<Path>) {
    forall rid :: rid in d.receipts && d.receipts[rid].item != item && Matters(d, rid) ==>
      PathsOf(d.receipts[rid]) !! paths
  }

  lemma LeftAddsOnly(d: Db, d': Db, s: Session, entry: Receipt)
    requires Holding(d', s, entry) || Kept(d', entry)
    requires Stands(d', entry.item, Others(d, entry.item))
    ensures OnlyAdds(d, d', entry)
  {
    forall rid | Matters(d', rid) && d'.receipts[rid].item == entry.item ensures rid == entry.id {
      assert d'.Unfinished(rid, entry.item) || d'.rows[entry.item].active == Some(rid);
    }
  }

  /** Where the documents are after an operation of `entry`: the one at either of
      its names is wherever the document is now. */
  function Followed(kept: map<Path, Path>, entry: Receipt, after: Files): map<Path, Path> {
    map p | p in kept ::
      if kept[p] != entry.source && kept[p] != entry.destination then kept[p]
      else if Holds(after, entry.source, entry.pre) then entry.source
      else entry.destination
  }

  lemma OperationConserves(start: Files, before: Files, after: Files, entry: Receipt, kept: map<Path, Path>)
    requires Conserved(start, before, kept) && Spared(entry, kept)
    requires forall p :: p in kept && (kept[p] == entry.source || kept[p] == entry.destination) ==>
               Sha256(before[kept[p]].bytes) == entry.pre
    requires Fits(after, entry) && SameElsewhere(before, after, entry)
    ensures Conserved(start, after, Followed(kept, entry, after)) && Spared(entry, Followed(kept, entry, after))
  {
    DocumentNeverLost(after, entry);
    OneAtBothNames(start, before, entry, kept);
    hide Fits;
    assert DistinctPaths(entry);
  }

  /** At most one document is at the two names of an operation. */
  lemma OneAtBothNames(start: Files, files: Files, entry: Receipt, kept: map<Path, Path>)
    requires Conserved(start, files, kept) && Spared(entry, kept)
    ensures forall p, q ::
      (&& p in kept && q in kept
       && (kept[p] == entry.source || kept[p] == entry.destination)
       && (kept[q] == entry.source || kept[q] == entry.destination)) ==> p == q
  {
  }

  /** An operation with no path in common moves no document under another's names. */
  lemma OthersStaySpared(entry: Receipt, r: Receipt, kept: map<Path, Path>, after: Files)
    requires Spared(r, kept) && PathsOf(r) !! PathsOf(entry)
    ensures Spared(r, Followed(kept, entry, after))
  {
    assert r.source in PathsOf(r) && r.destination in PathsOf(r) && (r.temporary.Some? ==> r.temporary.value in PathsOf(r));
    assert entry.source in PathsOf(entry) && entry.destination in PathsOf(entry);
  }

  lemma OperationKeeps(start: Files, before: Files, d: Db, after: Files, d': Db, entry: Receipt, kept: map<Path, Path>)
    requires Valid(d) && Keeps(start, before, d, kept) && Spared(entry, kept)
    requires forall p :: p in kept && (kept[p] == entry.source || kept[p] == entry.destination) ==>
               Sha256(before[kept[p]].bytes) == entry.pre
    requires Clear(d, entry.item, PathsOf(entry))
    requires Fits(after, entry) && SameElsewhere(before, after, entry) && OnlyAdds(d, d', entry)
    ensures NothingLost(start, after, d')
  {
    assert Numbered(d) && Numbered(d');
    hide Fits, SameElsewhere, Conserved, Spared, Valid, Stands, PathsOf, Numbered;
    var kept' := Followed(kept, entry, after);
    OperationConserves(start, before, after, entry, kept);
    forall rid | Matters(d', rid) ensures Spared(d'.receipts[rid], kept') {
      if d'.receipts[rid].item != entry.item {
        StandsMeans(d, d', entry.item, rid);
        OthersStaySpared(entry, d.receipts[rid], kept, after);
      }
    }
    assert Keeps(start, after, d', kept');
  }

  /** The operation fits where it stopped; those of other items still do. */
  lemma OperationStaysSound(before: Files, d: Db, after: Files, d': Db, entry: Receipt)
    requires Sound(before, d) && Clear(d, entry.item, PathsOf(entry))
    requires Fits(after, entry) && SameElsewhere(before, after, entry) && OnlyAdds(d, d', entry)
    ensures Sound(after, d')
  {
    assert Numbered(d) && Numbered(d');
    hide Fits, SameElsewhere, Valid, Stands, PathsOf, Numbered;
    forall rid | Matters(d', rid) && d'.receipts[rid].item != entry.item
      ensures Matters(d, rid) && d'.receipts[rid] == d.receipts[rid] && Fits(after, d'.receipts[rid])
    {
      StandsMeans(d, d', entry.item, rid);
      ApartStaysFit(before, after, entry, d.receipts[rid]);
    }
  }

  /** A transfer loses nothing, wherever it stops. */
  lemma TransferLosesNothing(start: Files, before: Files, d: Db, after: Files, d': Db, entry: Receipt)
    requires Well(start, before, d) && Clear(d, entry.item, PathsOf(entry))
    requires Holds(before, entry.source, entry.pre) && entry.destination !in before && HoldsNothing(before, entry.temporary)
    requires Fits(after, entry) && SameElsewhere(before, after, entry) && OnlyAdds(d, d', entry)
    ensures Well(start, after, d')
  {
    hide Fits, SameElsewhere, OnlyAdds, Clear, Valid;
    var kept :| Keeps(start, before, d, kept);
    OperationKeeps(start, before, d, after, d', entry, kept);
    OperationStaysSound(before, d, after, d', entry);
  }

  /** Reconciliation loses nothing either: it starts on a disk that fits. */
  lemma ReconciliationLosesNothing(start: Files, before: Files, d: Db, after: Files, d': Db, receipt: Receipt, entry: Receipt)
    requires Well(start, before, d)
    requires Matters(d, receipt.id) && d.receipts[receipt.id] == receipt && SameOperation(receipt, entry)
    requires Fits(after, entry) && SameElsewhere(before, after, receipt) && OnlyAdds(d, d', entry)
    ensures Well(start, after, d')
  {
    var kept :| Keeps(start, before, d, kept);
    DocumentNeverLost(before, receipt);
    hide Fits, OnlyAdds, Valid, PathsOf;
    SamePaths(receipt, entry);
    assert Clear(d, entry.item, PathsOf(entry));
    OperationKeeps(start, before, d, after, d', entry, kept);
    OperationStaysSound(before, d, after, d', entry);
  }

  lemma SamePaths(r: Receipt, r': Receipt)
    requires SameOperation(r, r')
    ensures PathsOf(r) == PathsOf(r')
  {
  }

  /** With less that matters, all stays well. */
  lemma FewerKeepsWell(start: Files, files: Files, d: Db, d': Db)
    requires Well(start, files, d) && Valid(d') && Fewer(d, d')
    ensures Well(start, files, d')
  {
    hide Valid, Matters, Fits, Spared;
    var kept :| Keeps(start, files, d, kept);
    assert Keeps(start, files, d', kept);
  }

  /** No queue call by anyone that journals nothing exposes a document or unfits
      the disk. */
  lemma BystanderKeepsWell(start: Files, files: Files, d: Db, s: Session, now: int, call: Call)
    requires Well(start, files, d) && !JournalCall(call)
    ensures Well(start, files, Perform(d, s, now, call).db) && Fewer(d, Perform(d, s, now, call).db)
  {
    hide Perform, JournalCall, Valid, Fewer, NothingLost;
    CallKeepsValid(d, s, now, call);
    QuietCallWatchesFewer(d, s, now, call);
    FewerKeepsWell(start, files, d, Perform(d, s, now, call).db);
  }

  /** The item's receipts are as they were and no other item's has come to matter. */
  lemma UntouchedIsFewer(d: Db, d': Db, item: nat)
    requires Valid(d) && Valid(d') && Stands(d', item, Others(d, item))
    requires forall rid :: Matters(d', rid) && d'.receipts[rid].item == item ==>
               Matters(d, rid) && d'.receipts[rid] == d.receipts[rid]
    ensures Fewer(d, d')
  {
    forall rid | Matters(d', rid) && d'.receipts[rid].item != item ensures Matters(d, rid) && d'.receipts[rid] == d.receipts[rid] {
      StandsMeans(d, d', item, rid);
    }
  }

  // ---- one process ----------------------------------------------------------

  /** A process at work on one item, between two things it does with it. */
  ghost predicate Going(applier: FileApplier, start: Files)
    reads applier, applier.disk, applier.store.database
  {
    && applier.Ready() && applier.held == {} && applier.disk.fitting
    && Well(start, applier.disk.files, applier.Tables())
  }

  /** Finishing an operation this session holds leaves nothing of the item watched. */
  lemma FinishWatchesNothing(d: Db, s: Session, now: int, entry: Receipt)
    requires Holding(d, s, entry) && entry.stage.Complete?
    ensures
      var o := FinishApplying(d, s, now, entry.item, entry.id, entry.direction);
      && o.reply.Done? && Valid(o.db) && o.db.rows[entry.item].status == StatusAfter(entry.direction)
      && (forall rid :: rid in o.db.receipts ==> !Watched(o.db, entry.item, rid))
  {
    EpochCallKeepsValid(d, s, now, DoFinishApplying(entry.item, entry.id, entry.direction));
    assert RowBound(d, entry.item);
    forall rid | rid in d.receipts && Watched(d, entry.item, rid) ensures rid == entry.id {
      assert d.Unfinished(rid, entry.item) || d.rows[entry.item].active == Some(rid);
    }
  }

  lemma FinishKeepsWell(start: Files, files: Files, d: Db, s: Session, now: int, entry: Receipt)
    requires Well(start, files, d)
    ensures Well(start, files, FinishApplying(d, s, now, entry.item, entry.id, entry.direction).db)
  {
    hide Well;
    BystanderKeepsWell(start, files, d, s, now, DoFinishApplying(entry.item, entry.id, entry.direction));
  }

  lemma BeginKeepsWell(start: Files, files: Files, d: Db, s: Session, now: int, item: nat, direction: OperationDirection)
    requires Well(start, files, d)
    ensures
      var o := BeginApplying(d, s, now, item, StatusBefore(direction));
      && Well(start, files, o.db) && Fewer(d, o.db)
      && (o.reply.Done? ==> Entitled(o.db, s, item, direction))
  {
    hide Well, Fewer;
    BystanderKeepsWell(start, files, d, s, now, DoBeginApplying(item, StatusBefore(direction)));
  }

  lemma ClaimKeepsWell(start: Files, files: Files, d: Db, s: Session, now: int, item: nat, deferred: bool)
    requires Well(start, files, d)
    ensures
      var o := if deferred then ClaimDeferred(d, s, now, item) else ClaimApplying(d, s, now, item);
      && Well(start, files, o.db) && Fewer(d, o.db)
      && (o.reply.Done? ==> Applies(o.db, s, item) && s in o.db.sessions)
  {
    hide Well, Fewer;
    BystanderKeepsWell(start, files, d, s, now, if deferred then DoClaimDeferred(item) else DoClaimApplying(item));
  }

  /** If what matters has only become less since `d0`, no other item has added to it. */
  lemma FewerStands(d0: Db, d: Db, item: nat)
    requires Fewer(d0, d)
    ensures Stands(d, item, Others(d0, item))
  {
    assert forall rid :: Matters(d, rid) ==> d.receipts[rid] == d0.receipts[rid];
  }

  lemma NothingAdded(d: Db)
    ensures Fewer(d, d)
  {
  }

  lemma FewerTwice(d0: Db, d1: Db, d2: Db)
    requires Fewer(d0, d1) && Fewer(d1, d2)
    ensures Fewer(d0, d2)
  {
    hide Matters;
  }

  /** Starts an epoch on the item, if the queue lets this session. */
  method Begin(applier: FileApplier, ghost start: Files, direction: OperationDirection) returns (begun: bool)
    requires Going(applier, start) && applier.standing == Others(applier.Tables(), applier.subject)
    modifies applier.store.database
    ensures Going(applier, start) && Fewer(old(applier.Tables()), applier.Tables())
    ensures begun ==> Entitled(applier.Tables(), applier.store.session, applier.subject, direction)
  {
    hide Recorded, NothingLost, Fewer, Stands, Others, Apart;
    var now: int := *;
    ghost var d := applier.Tables();
    BeginKeepsWell(start, applier.disk.files, d, applier.store.session, now, applier.subject, direction);
    var reply := applier.store.BeginApplying(now, applier.subject, StatusBefore(direction));
    FewerStands(d, applier.Tables(), applier.subject);
    begun := reply.Done?;
  }

  /** Tells the queue the move is done. */
  method Finish(applier: FileApplier, ghost start: Files, entry: Receipt)
    requires Going(applier, start) && applier.Mine(entry) && entry.stage.Complete?
    modifies applier.store.database
    ensures Going(applier, start)
    ensures entry.item in applier.Tables().rows
            && applier.Tables().rows[entry.item].status == StatusAfter(entry.direction)
  {
    hide Recorded, Stands, Well;
    var now: int := *;
    FinishWatchesNothing(applier.Tables(), applier.store.session, now, entry);
    FinishKeepsWell(start, applier.disk.files, applier.Tables(), applier.store.session, now, entry);
    FinishStands(applier.Tables(), applier.store.session, now, applier.subject, entry.id, entry.direction, applier.standing);
    var _ := applier.store.FinishApplying(now, entry.item, entry.id, entry.direction);
  }

  /** A settled item has nothing that matters. */
  lemma ClosedAddsOnly(d: Db, d': Db, entry: Receipt, status: QueueStatus)
    requires Closed(d', entry, status) && Stands(d', entry.item, Others(d, entry.item))
    ensures OnlyAdds(d, d', entry)
  {
    assert forall rid :: rid in d'.receipts ==> !d'.Unfinished(rid, entry.item);
  }

  lemma EpochEndedIsFewer(d0: Db, d: Db, d': Db, s: Session, item: nat)
    requires Valid(d0) && Valid(d) && Valid(d') && Fewer(d0, d) && Stands(d', item, Others(d0, item))
    requires Emptied(d, d', s, item) || Undisturbed(d, d', item)
    ensures Fewer(d0, d')
  {
    forall rid | Matters(d', rid) && d'.receipts[rid].item == item
      ensures Matters(d0, rid) && d'.receipts[rid] == d0.receipts[rid]
    {
      assert Matters(d, rid) && d'.receipts[rid] == d.receipts[rid];
    }
    hide Matters, Valid;
    assert Valid(d0) && Valid(d');
    UntouchedIsFewer(d0, d', item);
  }

  /** The receipt an item is bound to matters, and comes from an honest fingerprint. */
  lemma ActiveMatters(start: Files, files: Files, d0: Db, d: Db, item: nat)
    requires Well(start, files, d0) && Valid(d) && Fewer(d0, d) && item in d.rows && ActiveReceipt(d, item).Some?
    ensures
      var r := ActiveReceipt(d, item).value;
      && Matters(d0, r.id) && d0.receipts[r.id] == r && r.item == item && r.pre.Sha256? && Fits(files, r)
  {
    assert RowBound(d, item);
    var r := ActiveReceipt(d, item).value;
    assert Matters(d, r.id);
    DocumentNeverLost(files, r);
  }

  /** Settles a row this session owns. */
  method Settle(applier: FileApplier, ghost start: Files, ghost d0: Db)
    requires Going(applier, start)
    requires Applies(applier.Tables(), applier.store.session, applier.subject)
    requires applier.store.session in applier.Tables().sessions
    requires applier.standing == Others(d0, applier.subject)
    requires Well(start, applier.disk.files, d0) && Fewer(d0, applier.Tables())
    modifies applier, applier.disk, applier.store.database
    ensures Going(applier, start)
  {
    hide Recorded, NothingLost, Fits, SameElsewhere, Fewer, Stands, Others, Matters, Apart;
    ghost var d, before := applier.Tables(), applier.disk.files;
    ghost var active := ActiveReceipt(d, applier.subject);
    if active.Some? { ActiveMatters(start, before, d0, d, applier.subject); }
    ghost var entry;
    var r;
    r, entry := applier.Reconcile(applier.subject);
    ghost var d' := applier.Tables();
    if active.Some? {
      AfterReconciling(start, before, d0, applier.disk.files, d', applier.store.session, active.value, entry.value, r.Ok?);
    } else {
      EpochEndedIsFewer(d0, d, d', applier.store.session, applier.subject);
      FewerKeepsWell(start, before, d0, d');
    }
  }

  lemma AfterReconciling(start: Files, before: Files, d0: Db, after: Files, d': Db, s: Session, receipt: Receipt,
                         entry: Receipt, settled: bool)
    requires Well(start, before, d0) && Matters(d0, receipt.id) && d0.receipts[receipt.id] == receipt
    requires SameOperation(receipt, entry) && Fits(after, entry) && SameElsewhere(before, after, receipt)
    requires Stands(d', entry.item, Others(d0, entry.item))
    requires if settled then
               Closed(d', entry, if entry.stage.Complete? then StatusAfter(entry.direction) else StatusBefore(entry.direction))
             else Holding(d', s, entry) || Kept(d', entry)
    ensures Well(start, after, d')
  {
    hide Well, Fits, SameElsewhere, Stands, Others, Matters, Closed, Holding, Kept, OnlyAdds;
    if settled {
      ClosedAddsOnly(d0, d', entry, if entry.stage.Complete? then StatusAfter(entry.direction) else StatusBefore(entry.direction));
    } else {
      LeftAddsOnly(d0, d', s, entry);
    }
    ReconciliationLosesNothing(start, before, d0, after, d', receipt, entry);
  }

  lemma AfterTransfer(start: Files, before: Files, d: Db, after: Files, d': Db, s: Session, entry: Receipt)
    requires Well(start, before, d) && Clear(d, entry.item, PathsOf(entry))
    requires Holds(before, entry.source, entry.pre) && entry.destination !in before && HoldsNothing(before, entry.temporary)
    requires Fits(after, entry) && SameElsewhere(before, after, entry)
    requires Stands(d', entry.item, Others(d, entry.item))
    requires Holding(d', s, entry) || Kept(d', entry)
    ensures Well(start, after, d')
  {
    hide Well, Fits, SameElsewhere, Stands, Others, Clear, Holding, Kept, OnlyAdds;
    LeftAddsOnly(d, d', s, entry);
    TransferLosesNothing(start, before, d, after, d', entry);
  }

  /** A transfer that made no receipt left the item's epoch as it was. */
  lemma AfterNothing(start: Files, files: Files, d0: Db, d: Db, d': Db, item: nat)
    requires Well(start, files, d0) && Valid(d) && Valid(d') && Fewer(d0, d)
    requires Stands(d', item, Others(d0, item)) && Undisturbed(d, d', item)
    ensures Well(start, files, d') && Fewer(d0, d')
  {
    hide Fewer, Stands, Others, Undisturbed, NothingLost;
    EpochEndedIsFewer(d0, d, d', 0, item);
    FewerKeepsWell(start, files, d0, d');
  }

  /** None of the names a filing may use is used by another item's operation. */
  predicate FilesClear(d: Db, files: Files, item: nat, source: Path, requested: Path, token: string) {
    && Clear(d, item, {source})
    && forall k {:trigger Candidate(requested, k)} :: 1 <= k <= |files| + 1 ==>
         Clear(d, item, {Candidate(requested, k), TemporaryPath(Candidate(requested, k), token)})
  }

  lemma FilingIsClear(d: Db, files: Files, item: nat, source: Path, requested: Path, token: string, k: nat, entry: Receipt)
    requires FilesClear(d, files, item, source, requested, token) && 1 <= k <= |files| + 1
    requires entry.source == source && entry.destination == Candidate(requested, k)
    requires entry.temporary.None? || entry.temporary == Some(TemporaryPath(entry.destination, token))
    ensures Clear(d, item, PathsOf(entry))
  {
    assert Clear(d, item, {Candidate(requested, k), TemporaryPath(Candidate(requested, k), token)});
    assert PathsOf(entry) <= {source} + {Candidate(requested, k), TemporaryPath(Candidate(requested, k), token)};
    hide Matters, PathsOf;
  }

  /** Files the document, if no name it may use is another operation's. */
  method File(applier: FileApplier, ghost start: Files, source: Path, requested: Path, expected: Digest, token: string)
    requires Going(applier, start) && applier.standing == Others(applier.Tables(), applier.subject) && expected.Sha256?
    modifies applier, applier.disk, applier.store.database
    ensures Going(applier, start)
  {
    hide Recorded, Perform, NothingLost, Fits, SameElsewhere, Stands, Others, Apart, Fewer, FilesClear, Clear, Undisturbed;
    ghost var d0, before := applier.Tables(), applier.disk.files;
    if !FreshToken(applier.disk.files, token)
       || !FilesClear(applier.Tables(), applier.disk.files, applier.subject, source, requested, token) {
      return;
    }
    var begun := Begin(applier, start, OperationDirection.Apply);
    if !begun { return; }
    ghost var d := applier.Tables();
    var r;
    ghost var entry, probes;
    r, entry, probes := applier.Apply(applier.subject, source, requested, expected, token);
    if r.Err? && r.receipt.None? {
      AfterNothing(start, before, d0, d, applier.Tables(), applier.subject);
      SettleUnlessStopped(applier, start, d0);
    } else {
      FilingIsClear(d0, before, applier.subject, source, requested, token, probes, entry);
      AfterTransfer(start, before, d0, applier.disk.files, applier.Tables(), applier.store.session, entry);
      if r.Ok? { FinishUnlessStopped(applier, start, r.value); }
    }
  }

  method TakeBack(applier: FileApplier, ghost start: Files, token: string)
    requires Going(applier, start) && applier.standing == Others(applier.Tables(), applier.subject)
    modifies applier, applier.disk, applier.store.database
    ensures Going(applier, start)
  {
    hide Recorded, Perform, NothingLost, Fits, SameElsewhere, Stands, Others, Apart, Fewer, Clear, Undisturbed;
    ghost var d0, before := applier.Tables(), applier.disk.files;
    var applied := applier.store.LoadReceipt(applier.subject);
    if applied.None? || (applied.value.post.Some? && applied.value.post.value.Garbled?)
       || !FreshToken(applier.disk.files, token)
       || !Clear(applier.Tables(), applier.subject, TakingBack(applied.value, token)) {
      return;
    }
    var begun := Begin(applier, start, OperationDirection.Undo);
    if !begun { return; }
    ghost var d := applier.Tables();
    var r;
    ghost var entry;
    r, entry := applier.Undo(applier.subject, applied.value, token);
    if r.Err? && r.receipt.None? {
      AfterNothing(start, before, d0, d, applier.Tables(), applier.subject);
      SettleUnlessStopped(applier, start, d0);
    } else {
      TakingBackIsClear(d0, applier.subject, applied.value, token, entry);
      AfterTransfer(start, before, d0, applier.disk.files, applier.Tables(), applier.store.session, entry);
      if r.Ok? { FinishUnlessStopped(applier, start, r.value); }
    }
  }

  /** The names an undo of `applied` may use. */
  function TakingBack(applied: Receipt, token: string): set<Path> {
    {applied.source, applied.destination, TemporaryPath(applied.source, token)}
  }

  lemma TakingBackIsClear(d: Db, item: nat, applied: Receipt, token: string, entry: Receipt)
    requires Clear(d, item, TakingBack(applied, token))
    requires entry.source == applied.destination && entry.destination == applied.source
    requires entry.temporary.None? || entry.temporary == Some(TemporaryPath(entry.destination, token))
    ensures Clear(d, item, PathsOf(entry))
  {
    assert PathsOf(entry) <= TakingBack(applied, token);
    hide Matters, PathsOf;
  }

  /** The journal says complete. The process may die before the queue hears of it,
      or find that its lease could not be kept and leave the row as it is. */
  method FinishUnlessStopped(applier: FileApplier, ghost start: Files, entry: Receipt)
    requires Going(applier, start) && applier.Mine(entry) && entry.stage.Complete?
    modifies applier`alive, applier.store.database
    ensures Going(applier, start)
  {
    hide Recorded, Valid, Holding, Stands, Well;
    applier.MayDie();
    var leaseFailed: bool := *;
    if applier.alive && !leaseFailed { Finish(applier, start, entry); }
  }

  /** A transfer that failed without a receipt is reconciled at once. */
  method SettleUnlessStopped(applier: FileApplier, ghost start: Files, ghost d0: Db)
    requires Going(applier, start)
    requires Applies(applier.Tables(), applier.store.session, applier.subject)
    requires applier.store.session in applier.Tables().sessions
    requires applier.standing == Others(d0, applier.subject)
    requires Well(start, applier.disk.files, d0) && Fewer(d0, applier.Tables())
    modifies applier, applier.disk, applier.store.database
    ensures Going(applier, start)
  {
    hide Recorded, Valid, Stands, Well, Others, Fewer;
    applier.MayDie();
    var leaseFailed: bool := *;
    if applier.alive && !leaseFailed { Settle(applier, start, d0); }
  }

  /** Reconciles a row this session still owns, as after a transfer that failed. */
  method SettleOwn(applier: FileApplier, ghost start: Files)
    requires Going(applier, start) && applier.standing == Others(applier.Tables(), applier.subject)
    modifies applier, applier.disk, applier.store.database
    ensures Going(applier, start)
  {
    hide Recorded, Valid, Stands, Well, Others, Fewer;
    var rows, session := applier.store.database.rows, applier.store.session;
    NothingAdded(applier.Tables());
    if session in applier.store.database.sessions && applier.subject in rows && rows[applier.subject].status.Applying?
       && rows[applier.subject].owner == Some(session) {
      Settle(applier, start, applier.Tables());
    }
  }

  /** Takes over what another process left, and reconciles it. */
  method TakeOver(applier: FileApplier, ghost start: Files, deferred: bool)
    requires Going(applier, start) && applier.standing == Others(applier.Tables(), applier.subject)
    modifies applier, applier.disk, applier.store.database
    ensures Going(applier, start)
  {
    hide Recorded, NothingLost, Fewer, Stands, Others, Apart;
    var now: int := *;
    ghost var d0 := applier.Tables();
    ClaimKeepsWell(start, applier.disk.files, d0, applier.store.session, now, applier.subject, deferred);
    var claimed;
    if deferred {
      claimed := applier.store.ClaimDeferred(now, applier.subject);
    } else {
      claimed := applier.store.ClaimApplying(now, applier.subject);
    }
    FewerStands(d0, applier.Tables(), applier.subject);
    applier.MayDie();
    if claimed.Done? && applier.alive { Settle(applier, start, d0); }
  }

  /** One thing a process may do with an item. */
  method Action(applier: FileApplier, ghost start: Files)
    requires Going(applier, start) && applier.standing == Others(applier.Tables(), applier.subject)
    modifies applier, applier.disk, applier.store.database
    ensures Going(applier, start)
  {
    hide Going, Others;
    var choice: nat := *;
    if choice == 0 {
      var source: Path, requested: Path, expected: Digest, token: string := *, *, *, *;
      if expected.Sha256? { File(applier, start, source, requested, expected, token); }
    } else if choice == 1 {
      var token: string := *;
      TakeBack(applier, start, token);
    } else if choice == 2 {
      SettleOwn(applier, start);
    } else {
      var deferred: bool := *;
      TakeOver(applier, start, deferred);
    }
  }

  /** A moment in the lives of any number of processes: one starts, one ends, or one
      does one thing with one item, meeting any fault and dying before any step. */
  method Moment(disk: Disk, database: Database, live: seq<Store>, ghost start: Files) returns (still: seq<Store>)
    requires disk.fitting && disk.InOrder() && Well(start, disk.files, database.Value())
    requires forall k :: 0 <= k < |live| ==> live[k].database == database
    modifies disk, database
    ensures disk.InOrder() && Well(start, disk.files, database.Value())
    ensures old(disk.log) <= disk.log
    ensures forall k :: 0 <= k < |still| ==> still[k].database == database
  {
    hide Recorded, Perform, Well, Stands, Others, Fewer;
    still := live;
    var choice: nat, who: nat, now: int := *, *, *;
    if choice == 0 {
      var session: Session := *;
      if session in database.sessions { return; }
      OpeningIsACall(database.Value(), session, now);
      BystanderKeepsWell(start, disk.files, database.Value(), session, now, DoOpenSession);
      var store := new Store(database, session, now);
      still := still + [store];
    } else if who < |live| && choice == 1 {
      ClosingIsACall(database.Value(), live[who].session, now);
      BystanderKeepsWell(start, disk.files, database.Value(), live[who].session, now, DoCloseSession);
      var _ := live[who].Close();
      still := live[..who] + live[who + 1..];
    } else if who < |live| {
      var subject: nat, healthy: bool := *, *;
      NothingAdded(database.Value());
      FewerStands(database.Value(), database.Value(), subject);
      WellIsValid(start, disk.files, database.Value());
      var applier := new FileApplier(disk, live[who], healthy, {}, false, subject, Others(database.Value(), subject));
      Action(applier, start);
      if !applier.alive { still := live[..who] + live[who + 1..]; }
    }
  }

  lemma WellIsValid(start: Files, files: Files, d: Db)
    requires Well(start, files, d)
    ensures Valid(d)
  {
  }

  /** Any number of calls, by any sessions, that journal nothing. */
  method Bystanders(disk: Disk, database: Database, ghost start: Files)
    requires Well(start, disk.files, database.Value())
    modifies database
    ensures Well(start, disk.files, database.Value())
  {
    hide Perform, Well, Fewer, JournalCall;
    var calls: nat := *;
    while calls > 0
      invariant Well(start, disk.files, database.Value())
    {
      var s: Session, now: int, call: Call := *, *, *;
      if !JournalCall(call) {
        BystanderKeepsWell(start, disk.files, database.Value(), s, now, call);
        var _ := database.Act(s, now, call);
      }
      calls := calls - 1;
    }
  }

  lemma OpeningIsACall(d: Db, s: Session, now: int)
    ensures Perform(d, s, now, DoOpenSession) == OpenSession(d, s, now)
  {
  }

  lemma ClosingIsACall(d: Db, s: Session, now: int)
    ensures Perform(d, s, now, DoCloseSession) == CloseSession(d, s)
  {
  }

  /** A disk with any files and an empty queue: where every life starts. */
  method Start(files: Files, volume: string -> nat) returns (disk: Disk, database: Database)
    ensures fresh(disk) && fresh(database) && disk.files == disk.initial == files && disk.fitting && disk.InOrder()
    ensures Well(files, files, database.Value())
  {
    disk := new Disk(files, volume, true);
    database := new Database();
    ghost var same := map p | p in files :: p;
    assert Keeps(files, files, database.Value(), same);
  }

  /** Whole lives of any number of documents on one disk. Any number of processes file,
      take back, crash, reconcile and take over any items in any order, with any calls
      by any sessions in between: every document that was on the disk is still on it,
      no two become one, everything done to the disk is on record and lawful, and the
      disk fits every operation that still matters. */
  method Lifetime(disk: Disk, database: Database, moments: nat)
    requires disk.fitting && disk.InOrder() && Well(disk.files, disk.files, database.Value())
    modifies disk, database
    ensures disk.InOrder() && Well(old(disk.files), disk.files, database.Value())
    ensures exists kept :: Conserved(old(disk.files), disk.files, kept)
    ensures old(disk.log) <= disk.log
  {
    hide Recorded, Well;
    ghost var start := disk.files;
    var live: seq<Store> := [];
    for i := 0 to moments
      invariant disk.InOrder() && Well(start, disk.files, database.Value())
      invariant old(disk.log) <= disk.log
      invariant forall k :: 0 <= k < |live| ==> live[k].database == database
    {
      live := Moment(disk, database, live, start);
      Bystanders(disk, database, start);
    }
    LostNothing(start, disk.files, database.Value());
  }

  lemma LostNothing(start: Files, files: Files, d: Db)
    requires Well(start, files, d)
    ensures exists kept :: Conserved(start, files, kept)
  {
    var kept :| Keeps(start, files, d, kept);
  }

  // ---- the end of an operation ----------------------------------------------

  /** A new session can take the applying row over: it is nobody's, or of a session that
      is gone, or its lease has run out and its owner's heartbeat is a minute old. */
  predicate Takeable(d: Db, session: Session, now: int, item: nat) {
    && session !in d.sessions && item in d.rows && d.rows[item].status == Applying
    && d.rows[item].owner != Some(session)
    && (|| d.rows[item].owner == None
        || d.rows[item].owner.value !in d.sessions
        || (&& d.rows[item].lease != None && d.rows[item].lease.value <= now
            && d.sessions[d.rows[item].owner.value] + 60 <= now))
  }

  lemma TakeableIsTaken(d: Db, session: Session, now: int, item: nat)
    requires Valid(d) && Takeable(d, session, now, item)
    ensures
      var d1 := OpenSession(d, session, now).db;
      var o := ClaimApplying(d1, session, now, item);
      && session !in d.sessions && item in d.rows
      && Valid(d1) && o.reply.Done? && Valid(o.db)
      && Applies(o.db, session, item) && session in o.db.sessions
      && o.db.receipts == d.receipts && o.db.rows[item].active == d.rows[item].active
      && o.db.rows[item].previous == d.rows[item].previous
      && ActiveReceipt(o.db, item) == ActiveReceipt(d, item)
  {
    hide Valid;
    SessionCallKeepsValid(d, session, now, DoOpenSession);
    EpochCallKeepsValid(OpenSession(d, session, now).db, session, now, DoClaimApplying(item));
  }

  /** How a row stands once it is settled: the statuses of a complete operation and of
      one that left no trace, a person's desk, or still applying. */
  predicate EndsAs(before: Row, active: Option<Receipt>, files: Files, after: Row) {
    match active
    case None => Some(after.status) == before.previous
    case Some(r) =>
      match VerdictOf(files, r)
      case Completes => after.status == StatusAfter(r.direction)
      case RollsBack => after.status == StatusBefore(r.direction)
      case Parks => after.status.NeedsReview?
      case Sticks => after.status.Applying?
  }

  /** A process that meets no fault, taking over what a dead one left, settles it: the
      row ends complete with the document at the destination alone, or back where it
      was with the document at the source alone, or in review; or it stays as it was
      in the one case in which the store refuses. */
  method NextProcessSettles(disk: Disk, database: Database, item: nat, session: Session, now: int)
    requires disk.fitting && disk.InOrder() && Sound(disk.files, database.Value())
    requires Takeable(database.Value(), session, now, item)
    modifies disk, database
    ensures disk.InOrder() && Valid(database.Value()) && old(disk.log) <= disk.log
    ensures item in database.rows
    ensures EndsAs(old(database.rows)[item], ActiveReceipt(old(database.Value()), item), old(disk.files), database.rows[item])
    ensures ActiveReceipt(old(database.Value()), item).Some? ==>
      var r := ActiveReceipt(old(database.Value()), item).value;
      && (VerdictOf(old(disk.files), r).Completes? ==> DestinationOnly(disk.files, r))
      && (VerdictOf(old(disk.files), r).RollsBack? ==> SourceOnly(disk.files, r))
  {
    hide Recorded, Perform, Stands, Others, Takeable, Fits, SameElsewhere, Sound, Valid;
    ghost var d := database.Value();
    ghost var active := ActiveReceipt(d, item);
    SoundActive(disk.files, d, item);
    TakeableIsTaken(d, session, now, item);
    TakingOverStands(d, session, now, item);
    var store := new Store(database, session, now);
    var _ := store.ClaimApplying(now, item);
    var applier := new FileApplier(disk, store, true, {}, false, item, Others(d, item));
    ghost var before := applier.Tables();
    var r;
    ghost var entry;
    r, entry := applier.Reconcile(item);
    if active.None? { assert Emptied(before, applier.Tables(), session, item); }
  }

  lemma SoundActive(files: Files, d: Db, item: nat)
    requires Sound(files, d)
    ensures Valid(d)
    ensures ActiveReceipt(d, item).Some? ==>
      var r := ActiveReceipt(d, item).value;
      r.item == item && r.pre.Sha256? && Fits(files, r)
  {
    if ActiveReceipt(d, item).Some? {
      assert RowBound(d, item);
      var r := ActiveReceipt(d, item).value;
      assert Matters(d, r.id);
      DocumentNeverLost(files, r);
    }
  }

  lemma TakingOverStands(d: Db, session: Session, now: int, item: nat)
    requires Valid(d)
    ensures Stands(ClaimApplying(OpenSession(d, session, now).db, session, now, item).db, item, Others(d, item))
  {
    NothingAdded(d);
    FewerStands(d, d, item);
    CallStands(d, session, now, DoOpenSession, item, Others(d, item));
    SessionCallKeepsValid(d, session, now, DoOpenSession);
    CallStands(OpenSession(d, session, now).db, session, now, DoClaimApplying(item), item, Others(d, item));
  }

  /** A row handed to a person because an original could not be deleted. */
  predicate Deferred(d: Db, item: nat, rid: nat) {
    && item in d.rows && d.rows[item].status == NeedsReview && d.rows[item].error == Some(SourceDeleteFailed)
    && d.rows[item].active == None && d.rows[item].reconciliation == Some(rid)
    && rid in d.receipts && d.receipts[rid].item == item && d.receipts[rid].direction.Apply?
    && d.receipts[rid].stage == Published
  }

  lemma DeferredIsTaken(d: Db, session: Session, now: int, item: nat, rid: nat)
    requires Valid(d) && session !in d.sessions && Deferred(d, item, rid) && QuietBesides(d, item)
    ensures
      var d1 := OpenSession(d, session, now).db;
      var o := ClaimDeferred(d1, session, now, item);
      && Valid(d1) && o.reply.Done? && Valid(o.db)
      && Applies(o.db, session, item) && session in o.db.sessions
      && ActiveReceipt(o.db, item) == Some(d.receipts[rid])
  {
    hide Valid;
    SessionCallKeepsValid(d, session, now, DoOpenSession);
    ClaimDeferredKeepsValid(OpenSession(d, session, now).db, session, now, item);
  }

  lemma DeferredFits(files: Files, d: Db, item: nat, rid: nat)
    requires Sound(files, d) && Deferred(d, item, rid)
    ensures Valid(d) && d.receipts[rid].pre.Sha256? && Fits(files, d.receipts[rid])
    ensures Holds(files, d.receipts[rid].destination, d.receipts[rid].pre)
  {
    assert Matters(d, rid);
    DocumentNeverLost(files, d.receipts[rid]);
  }

  lemma RetakingStands(d: Db, session: Session, now: int, item: nat)
    requires Valid(d)
    ensures Stands(ClaimDeferred(OpenSession(d, session, now).db, session, now, item).db, item, Others(d, item))
  {
    NothingAdded(d);
    FewerStands(d, d, item);
    CallStands(d, session, now, DoOpenSession, item, Others(d, item));
    SessionCallKeepsValid(d, session, now, DoOpenSession);
    CallStands(OpenSession(d, session, now).db, session, now, DoClaimDeferred(item), item, Others(d, item));
  }

  /** The person's retry of such a row, by a process that meets no fault: the original
      goes, the document is left at the destination alone, and the row is completed;
      unless a reading of the copy had gone wrong, and the row goes back to review. */
  method RetrySettles(disk: Disk, database: Database, item: nat, ghost rid: nat, session: Session, now: int)
    returns (ghost settled: Receipt)
    requires disk.fitting && disk.InOrder() && Sound(disk.files, database.Value())
    requires session !in database.sessions && Deferred(database.Value(), item, rid) && QuietBesides(database.Value(), item)
    modifies disk, database
    ensures disk.InOrder() && Valid(database.Value()) && old(disk.log) <= disk.log
    ensures item in database.rows
    ensures
      var r := old(database.receipts)[rid];
      if r.post == None || r.post == Some(r.pre) then
        && database.rows[item].status == Completed && DestinationOnly(disk.files, r)
        && settled.stage.Complete? && SameOperation(r, settled) && Fits(disk.files, settled)
        && SameElsewhere(old(disk.files), disk.files, r)
      else database.rows[item].status == NeedsReview && database.rows[item].error == Some(MoveVerificationFailed)
  {
    hide Recorded, Perform, Stands, Others, Fits, SameElsewhere, Sound, Valid, QuietBesides;
    ghost var d := database.Value();
    DeferredFits(disk.files, d, item, rid);
    PublishedPost(disk.files, d.receipts[rid]);
    DeferredIsTaken(d, session, now, item, rid);
    RetakingStands(d, session, now, item);
    var store := new Store(database, session, now);
    var _ := store.ClaimDeferred(now, item);
    var applier := new FileApplier(disk, store, true, {}, false, item, Others(d, item));
    var r;
    ghost var entry;
    r, entry := applier.Reconcile(item);
    settled := entry.value;
  }

  lemma PublishedPost(files: Files, r: Receipt)
    requires Fits(files, r) && r.stage == Published
    ensures r.destination in files
    ensures VerdictOf(files, r) == if r.post.Some? && r.post.value != r.pre then Parks else Completes
  {
  }

  /** After any lives whatever, a row nobody works on any more can be settled. */
  method LivesEndSettled(disk: Disk, database: Database, moments: nat, item: nat, session: Session, now: int)
    returns (ghost d: Db, ghost files: Files)
    requires disk.fitting && disk.InOrder() && Well(disk.files, disk.files, database.Value())
    modifies disk, database
    ensures Takeable(d, session, now, item) ==>
      item in database.rows && EndsAs(d.rows[item], ActiveReceipt(d, item), files, database.rows[item])
    ensures exists kept :: Conserved(old(disk.files), files, kept)
  {
    Lifetime(disk, database, moments);
    d, files := database.Value(), disk.files;
    if Takeable(database.Value(), session, now, item) {
      NextProcessSettles(disk, database, item, session, now);
    }
  }

  // ---- there and back -------------------------------------------------------

  /** The queue lets this session start an operation of the item. */
  ghost predicate Startable(d: Db, s: Session, item: nat, direction: OperationDirection) {
    && Valid(d) && s in d.sessions && item in d.rows && d.rows[item].status == StatusBefore(direction)
    && d.rows[item].active.None? && !d.BusyBesides(item) && !d.HasUnfinished(item)
  }

  /** The item's newest receipt is a completed filing that still describes the disk. */
  ghost predicate Filed(files: Files, d: Db, r: Receipt) {
    && NewestReceipt(d, r.item) == Some(r)
    && r.direction.Apply? && r.stage.Complete? && r.post == Some(r.pre) && r.pre.Sha256?
    && r.source !in files && Holds(files, r.destination, r.pre)
  }

  lemma RestartBegins(d: Db, s: Session, now: int, item: nat, direction: OperationDirection)
    requires Valid(d)
    ensures
      var o := BeginApplying(d, s, now, item, StatusBefore(direction));
      && Valid(o.db) && o.db.receipts == d.receipts && o.db.nextReceipt == d.nextReceipt
      && (o.reply.Done? ==> Entitled(o.db, s, item, direction))
      && (Startable(d, s, item, direction) ==> o.reply.Done?)
  {
    BeginKeepsValid(d, s, now, item, StatusBefore(direction));
  }

  lemma {:induction false} SameReceiptsSameNewest(d: Db, d': Db, item: nat, below: nat)
    requires d'.receipts == d.receipts
    ensures NewestBelow(d', item, below) == NewestBelow(d, item, below)
  {
    if below > 0 { SameReceiptsSameNewest(d, d', item, below - 1); }
  }

  /** The receipt a row is bound to is the newest one. */
  lemma BoundIsLoaded(d: Db, s: Session, entry: Receipt)
    requires Holding(d, s, entry)
    ensures NewestReceipt(d, entry.item) == Some(entry)
  {
    NewestIsGreatest(d, entry.item, d.nextReceipt);
  }

  lemma FinishEnds(d: Db, s: Session, now: int, entry: Receipt)
    requires Holding(d, s, entry) && entry.stage.Complete?
    ensures
      var o := FinishApplying(d, s, now, entry.item, entry.id, entry.direction);
      && Valid(o.db) && o.db.rows[entry.item].status == StatusAfter(entry.direction)
      && (entry.direction.Apply? ==> Startable(o.db, s, entry.item, OperationDirection.Undo))
      && NewestReceipt(o.db, entry.item) == Some(entry)
  {
    hide NewestReceipt;
    FinishWatchesNothing(d, s, now, entry);
    BoundIsLoaded(d, s, entry);
    var d' := FinishApplying(d, s, now, entry.item, entry.id, entry.direction).db;
    NewestUnchanged(d, d', entry.item);
    forall rid: nat ensures !d'.Unfinished(rid, entry.item) {
      if rid in d'.receipts { assert !Watched(d', entry.item, rid); }
    }
  }

  lemma NewestUnchanged(d: Db, d': Db, item: nat)
    requires d'.receipts == d.receipts && d'.nextReceipt == d.nextReceipt
    ensures NewestReceipt(d', item) == NewestReceipt(d, item)
  {
    SameReceiptsSameNewest(d, d', item, d.nextReceipt);
  }

  /** Starts an epoch on the item. */
  method Restart(applier: FileApplier, item: nat, direction: OperationDirection) returns (begun: bool)
    requires applier.Ready() && item == applier.subject
    modifies applier.store.database
    ensures applier.Ready()
    ensures applier.Tables().receipts == old(applier.Tables()).receipts
    ensures applier.Tables().nextReceipt == old(applier.Tables()).nextReceipt
    ensures begun ==> Entitled(applier.Tables(), applier.store.session, item, direction)
    ensures Startable(old(applier.Tables()), applier.store.session, item, direction) ==> begun
  {
    hide Valid, Startable, Entitled, Stands;
    var now: int := *;
    BeginStands(applier.Tables(), applier.store.session, now, item, StatusBefore(direction), applier.standing);
    RestartBegins(applier.Tables(), applier.store.session, now, item, direction);
    var reply := applier.store.BeginApplying(now, item, StatusBefore(direction));
    begun := reply.Done?;
  }

  /** Tells the queue the operation is complete. */
  method Close(applier: FileApplier, entry: Receipt)
    requires applier.Ready() && applier.Mine(entry) && entry.stage.Complete?
    modifies applier.store.database
    ensures applier.Ready()
    ensures entry.item in applier.Tables().rows
            && applier.Tables().rows[entry.item].status == StatusAfter(entry.direction)
    ensures NewestReceipt(applier.Tables(), entry.item) == Some(entry)
    ensures entry.direction.Apply? ==>
      Startable(applier.Tables(), applier.store.session, entry.item, OperationDirection.Undo)
  {
    hide NewestReceipt, Startable, Stands;
    var now: int := *;
    FinishStands(applier.Tables(), applier.store.session, now, entry.item, entry.id, entry.direction, applier.standing);
    FinishEnds(applier.Tables(), applier.store.session, now, entry);
    FinishWatchesNothing(applier.Tables(), applier.store.session, now, entry);
    var _ := applier.store.FinishApplying(now, entry.item, entry.id, entry.direction);
  }

  /** Files the document and reports it filed. When nothing fails and the queue
      lets it start, it does so exactly if the source holds the document. */
  method There(applier: FileApplier, item: nat, source: Path, requested: Path, expected: Digest, token: string)
    returns (r: Option<Receipt>)
    requires applier.Ready() && item == applier.subject && applier.held == {} && expected.Sha256?
    requires FreshToken(applier.disk.files, token)
    modifies applier, applier.disk, applier.store.database
    ensures applier.Ready() && applier.held == {} && (applier.healthy ==> applier.alive == old(applier.alive))
    ensures r.Some? ==>
      && Filed(applier.disk.files, applier.Tables(), r.value) && r.value.item == item
      && Startable(applier.Tables(), applier.store.session, item, OperationDirection.Undo)
      && r.value.source in old(applier.disk.files) && r.value.destination !in old(applier.disk.files)
      && (exists k: nat {:trigger Candidate(requested, k)} :: r.value.destination == Candidate(requested, k))
      && Contents(applier.disk.files)
           == MovedContents(Contents(old(applier.disk.files)), r.value.source, r.value.destination)
    ensures applier.healthy && old(applier.alive)
            && Startable(old(applier.Tables()), applier.store.session, item, OperationDirection.Apply) ==>
              (r.Some? <==> Holds(old(applier.disk.files), source, expected))
  {
    hide Recorded, Stands, Perform, NewestReceipt;
    r := None;
    var begun := Restart(applier, item, OperationDirection.Apply);
    if !begun { return; }
    var applied;
    ghost var entry, probes;
    ghost var before := applier.disk.files;
    applied, entry, probes := applier.Apply(item, source, requested, expected, token);
    if applied.Err? { return; }
    CompleteIsMove(before, applier.disk.files, entry);
    Close(applier, applied.value);
    r := Some(applied.value);
  }

  /** A filing by a process that is refused every deletion, then the person's retry by
      one that is not. By rename, the first is all it takes. By copy, the first leaves the
      document at both names and the row in review for just that reason; and unless the
      queue has become busy, the retry completes the row. Either way the document has
      moved, and nothing else on the disk is changed. */
  method FileThenRetry(disk: Disk, database: Database, store: Store, item: nat, source: Path, requested: Path,
                       expected: Digest, token: string, session: Session, now: int)
    returns (ghost d: Db, ghost entry: Receipt)
    requires disk.fitting && disk.InOrder() && Well(disk.files, disk.files, database.Value())
    requires store.database == database && expected.Sha256? && FreshToken(disk.files, token)
    requires FilesClear(database.Value(), disk.files, item, source, requested, token)
    requires Startable(database.Value(), store.session, item, OperationDirection.Apply)
    requires Holds(disk.files, source, expected)
    modifies disk, database
    ensures entry.item == item && entry.source == source && entry.destination !in old(disk.files)
    ensures exists k: nat {:trigger Candidate(requested, k)} :: entry.destination == Candidate(requested, k)
    ensures item in d.rows && (entry.kind.Rename? ==> d.rows[item].status == Completed)
    ensures entry.kind.VerifiedCopy? ==> Deferred(d, item, entry.id) && d.receipts[entry.id] == entry
    ensures entry.kind.VerifiedCopy? && (session in d.sessions || !QuietBesides(d, item)) ==>
      Holds(disk.files, source, expected) && Holds(disk.files, entry.destination, expected)
    ensures entry.kind.Rename? || (session !in d.sessions && QuietBesides(d, item)) ==>
      && item in database.rows && database.rows[item].status == Completed
      && Contents(disk.files) == MovedContents(Contents(old(disk.files)), source, entry.destination)
  {
    hide Recorded, Stands, Perform, Others, Well, FilesClear, QuietBesides, SameElsewhere, Fits;
    ghost var before, d0 := disk.files, database.Value();
    NothingAdded(d0);
    FewerStands(d0, d0, item);
    WellIsValid(before, before, d0);
    var applier := new FileApplier(disk, store, true, {}, true, item, Others(d0, item));
    var begun := Restart(applier, item, OperationDirection.Apply);
    var r;
    ghost var probes;
    r, entry, probes := applier.Apply(item, source, requested, expected, token);
    if r.Ok? {
      CompleteIsMove(before, disk.files, entry);
      Close(applier, r.value);
      d := database.Value();
    } else {
      d := database.Value();
      FilingIsClear(d0, before, item, source, requested, token, probes, entry);
      AfterTransfer(before, before, d0, disk.files, d, store.session, entry);
      WellIsSound(before, disk.files, d);
      if session !in database.sessions && QuietBesides(database.Value(), item) {
        ghost var between := disk.files;
        ghost var settled := RetrySettles(disk, database, item, entry.id, session, now);
        ElsewhereTwice(before, between, disk.files, entry, entry);
        CompleteIsMove(before, disk.files, settled);
      }
    }
  }

  lemma WellIsSound(start: Files, files: Files, d: Db)
    requires Well(start, files, d)
    ensures Sound(files, d)
  {
  }

  /** Takes a filed document back and reports it ready; when nothing fails, it does. */
  method Back(applier: FileApplier, item: nat, applied: Receipt, token: string) returns (done: bool)
    requires applier.Ready() && item == applier.subject && applier.held == {} && applied.item == item
    requires Filed(applier.disk.files, applier.Tables(), applied) && FreshToken(applier.disk.files, token)
    modifies applier, applier.disk, applier.store.database
    ensures done ==>
      && applied.destination in old(applier.disk.files)
      && Contents(applier.disk.files)
           == MovedContents(Contents(old(applier.disk.files)), applied.destination, applied.source)
      && item in applier.Tables().rows && applier.Tables().rows[item].status.Ready?
    ensures (&& applier.healthy && old(applier.alive)
             && Startable(old(applier.Tables()), applier.store.session, item, OperationDirection.Undo)) ==> done
  {
    hide Recorded, Stands, Perform, NewestReceipt;
    done := false;
    ghost var d := applier.Tables();
    var begun := Restart(applier, item, OperationDirection.Undo);
    if !begun { return; }
    NewestUnchanged(d, applier.Tables(), item);
    var undone;
    ghost var entry;
    ghost var before := applier.disk.files;
    undone, entry := applier.Undo(item, applied, token);
    if undone.Err? { return; }
    CompleteIsMove(before, applier.disk.files, entry);
    Close(applier, undone.value);
    done := true;
  }

  /** A filing that completes, followed by a taking back that completes, restores
      the disk and leaves the item ready, whatever mix of renames and copies the
      two legs were. When nothing fails, both complete. */
  method ThereAndBack(applier: FileApplier, item: nat, source: Path, requested: Path, expected: Digest,
                      there: string, back: string)
    returns (done: bool)
    requires applier.Ready() && item == applier.subject && applier.held == {} && expected.Sha256?
    requires FreshToken(applier.disk.files, there) && FreshToken(applier.disk.files, back)
    requires forall k: nat {:trigger Candidate(requested, k)} :: !UsesToken(Candidate(requested, k), back)
    modifies applier, applier.disk, applier.store.database
    ensures done ==>
      && Contents(applier.disk.files) == old(Contents(applier.disk.files))
      && item in applier.Tables().rows && applier.Tables().rows[item].status.Ready?
    ensures (&& applier.healthy && old(applier.alive) && Holds(old(applier.disk.files), source, expected)
             && Startable(old(applier.Tables()), applier.store.session, item, OperationDirection.Apply)) ==> done
  {
    hide Valid, Recorded, Stands, MovedContents, Startable, Filed, UsesToken;
    var applied := There(applier, item, source, requested, expected, there);
    if applied.None? { return false; }
    var moved := applied.value;
    StillFresh(old(applier.disk.files), applier.disk.files, moved.source, moved.destination, back);
    MoveAndBack(Contents(old(applier.disk.files)), moved.source, moved.destination);
    done := Back(applier, item, moved, back);
  }

  lemma StillFresh(before: Files, after: Files, source: Path, destination: Path, token: string)
    requires source in before && Contents(after) == MovedContents(Contents(before), source, destination)
    requires FreshToken(before, token) && !UsesToken(destination, token)
    ensures FreshToken(after, token)
  {
    forall p | p in after ensures !UsesToken(p, token) {
      assert p in Contents(after);
      assert p == destination || p in Contents(before);
    }
  }
}
