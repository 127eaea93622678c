/** The journalled file move, step by step: rename on one volume, or copy,
    verify, publish and delete across volumes; and the reconciliation that
    settles whatever a crash left behind.

    Every primitive may fail. A process may die before any of them, and a dead
    process does nothing more: its remaining calls return errors and change
    nothing, so what a method promises about its final state also holds for a
    crash at every point inside it. A faultless process neither dies nor meets a fault
    of its own, though another program may keep files open; a sound one meets not even
    that; one that is barred is refused every deletion; a healthy one is sound and not
    barred. Other sessions call the queue between any two journal
    calls. */
module FileMover {
  import opened Domain
  import opened QueueSpec
  import opened QueueInvariants
  import opened QueueFencing
  import opened QueueStore
  import opened MoveLaw
  import opened DestinationNames
  import opened Watching

  /** A file held open against writers, renamers and deleters. */
  datatype LockedFile = LockedFile(path: Path, identity: nat)

  datatype IoKind = AlreadyExists | StillHeld | Otherwise

  datatype Io<+T> = Good(value: T) | Bad(kind: IoKind)

  datatype Result<+T> = Ok(value: T) | Err(code: ErrorCode, receipt: Option<Receipt>)

  function RenamedFiles(files: Files, source: Path, target: Path): Files
    requires source in files
  {
    (files - {source})[target := files[source]]
  }

  /** Nothing is done yet: there is the source, and nothing else. */
  function PlannedReceipt(item: nat, direction: OperationDirection, source: Path, destination: Path,
                          temporary: Option<Path>, pre: Digest, kind: OperationKind): (planned: Receipt)
    ensures planned.stage.Planned? && planned.sourceExists && !planned.destinationExists && !planned.temporaryExists
  {
    Receipt(0, item, direction, source, destination, temporary, pre, None, kind, Planned, true, false, false)
  }

  /** A failure to read or move the source. */
  function SourceFailure(kind: IoKind): (code: ErrorCode)
    ensures code == SourceLocked || code == FileChanged
    ensures code == SourceLocked <==> kind.StillHeld?
  {
    if kind.StillHeld? then SourceLocked else FileChanged
  }

  /** A failure to rename it. */
  function RenameFailure(kind: IoKind): (code: ErrorCode)
    ensures code == DestinationUnavailable <==> kind.AlreadyExists?
    ensures code == SourceLocked <==> kind.StillHeld?
    ensures code == IoError <==> kind.Otherwise?
  {
    if kind.AlreadyExists? then DestinationUnavailable else if kind.StillHeld? then SourceLocked else IoError
  }

  /** An applying row of this session that has no receipt yet. */
  ghost predicate Entitled(d: Db, s: Session, item: nat, direction: OperationDirection) {
    && s in d.sessions && item in d.rows && d.rows[item].status.Applying? && d.rows[item].owner == Some(s)
    && d.rows[item].active.None? && d.rows[item].previous == Some(StatusBefore(direction))
  }

  /** Row `item`, its lease apart, and all its receipts are the same. */
  ghost predicate Undisturbed(d: Db, d': Db, item: nat) {
    && item in d.rows && item in d'.rows && d'.rows[item] == d.rows[item].(lease := d'.rows[item].lease)
    && (forall rid :: rid in d.receipts && d.receipts[rid].item == item ==>
          rid in d'.receipts && d'.receipts[rid] == d.receipts[rid])
    && (forall rid :: rid in d'.receipts && d'.receipts[rid].item == item ==>
          rid in d.receipts && d.receipts[rid] == d'.receipts[rid])
  }

  ghost predicate Respected(d: Db, d': Db, s: Session, item: nat) {
    && (s in d.sessions <==> s in d'.sessions)
    && (Applies(d, s, item) ==> Undisturbed(d, d', item))
    && (!Applies(d, s, item) ==> !Applies(d', s, item))
  }

  ghost predicate Applies(d: Db, s: Session, item: nat) {
    item in d.rows && d.rows[item].status.Applying? && d.rows[item].owner == Some(s)
  }

  /** An epoch of this session's that has journalled nothing. */
  ghost predicate Empty(d: Db, s: Session, item: nat) {
    s in d.sessions && Applies(d, s, item) && d.rows[item].active.None?
  }

  /** Such an epoch, called off. */
  ghost predicate Emptied(d: Db, d': Db, s: Session, item: nat) {
    && Applies(d, s, item) && d.rows[item].active.None?
    && item in d'.rows && d'.rows[item].active.None? && d.rows[item].previous == Some(d'.rows[item].status)
    && (forall rid: nat :: d'.Unfinished(rid, item) ==> d.Unfinished(rid, item) && d'.receipts[rid] == d.receipts[rid])
  }

  /** Kept in review, with exactly this error. */
  ghost predicate ParkedWith(d: Db, r: Receipt, code: ErrorCode) {
    Kept(d, r) && d.rows[r.item].error == Some(code)
  }

  /** How reconciliation ends on a disk that fits the receipt, when nothing fails. */
  datatype Verdict = Completes | RollsBack | Parks | Sticks

  function VerdictOf(files: Files, r: Receipt): Verdict {
    if r.destination in files then
      if r.post.Some? && r.post.value != r.pre then Parks
      else if r.stage.RollbackRequired? then Sticks
      else Completes
    else if r.temporaryExists && r.temporary.Some? && r.temporary.value !in files then Parks
    else RollsBack
  }

  /** Settling this takes a deletion: of the original, once the destination is there, or
      of the temporary. */
  predicate NeedsDeletion(files: Files, r: Receipt) {
    match VerdictOf(files, r)
    case Completes => r.source in files
    case RollsBack => r.temporary.Some? && r.temporary.value in files
    case Parks => false
    case Sticks => false
  }

  /** Why a row is parked: the destination is not what was journalled, or the temporary
      that was is gone. */
  function ParkingCode(files: Files, r: Receipt): ErrorCode {
    if r.destination in files then MoveVerificationFailed else StateConflict
  }

  /** A rename whose rollback was intended and did not land: the destination alone
      is left, no hash on record, and reconciliation is refused without a receipt. */
  lemma SticksHappens(source: Path, destination: Path, bytes: Bytes)
    requires source != destination
    ensures
      var r := Receipt(1, 1, OperationDirection.Apply, source, destination, None, Sha256(bytes), None, Rename,
                       RollbackRequired, false, true, false);
      var files := map[destination := File(0, bytes)];
      Fits(files, r) && VerdictOf(files, r).Sticks?
  {
  }

  /** A copy whose recorded temporary is gone: the source is intact, and yet the row
      goes to a person. */
  lemma ParksHappens(source: Path, destination: Path, temporary: Path, bytes: Bytes)
    requires source != destination && temporary != source && temporary != destination
    ensures
      var r := Receipt(1, 1, OperationDirection.Apply, source, destination, Some(temporary), Sha256(bytes), None,
                       VerifiedCopy, Copied, true, false, true);
      var files := map[source := File(0, bytes)];
      Fits(files, r) && VerdictOf(files, r).Parks?
  {
  }

  class Disk {
    var files: Files
    var nextIdentity: nat
    /** The volume a folder is on. */
    const volume: string -> nat
    ghost const initial: Files
    /** Whether the disk fits the journal it is used with. */
    ghost const fitting: bool
    ghost var log: seq<Step>

    constructor (files: Files, volume: string -> nat, ghost fitting: bool)
      ensures this.files == files && initial == files && this.fitting == fitting && log == []
      ensures this.volume == volume
    {
      this.files, initial, this.fitting, this.volume := files, files, fitting, volume;
      nextIdentity := 0;
      log := [];
    }

    ghost predicate InOrder()
      reads this
    {
      Recorded(fitting, initial, log, files)
    }

    predicate Together(p: Path, q: Path) {
      volume(p.folder) == volume(q.folder)
    }
  }

  class FileApplier {
    const disk: Disk
    const store: Store
    const faultless: bool
    /** The files some other program keeps open: they can be neither read nor locked. */
    const gripped: set<Path>
    const barred: bool
    const sound: bool := faultless && gripped == {}
    const healthy: bool := sound && !barred
    /** The item this is about. */
    const subject: nat
    /** What was on record at the start, and the receipts of other items that then
        still mattered. */
    ghost const past: seq<Step>
    ghost const standing: set<Receipt>
    var alive: bool
    var held: set<Path>

    constructor (disk: Disk, store: Store, faultless: bool, gripped: set<Path>, barred: bool, subject: nat,
                 ghost standing: set<Receipt>)
      ensures this.disk == disk && this.store == store && this.subject == subject
      ensures this.faultless == faultless && this.gripped == gripped && this.barred == barred
      ensures past == disk.log && this.standing == standing
      ensures alive && held == {}
    {
      this.disk, this.store, this.subject := disk, store, subject;
      this.faultless, this.gripped, this.barred := faultless, gripped, barred;
      past, this.standing := disk.log, standing;
      alive, held := true, {};
    }

    function Tables(): Db
      reads store.database
    {
      store.database.Value()
    }

    ghost predicate Ready()
      reads disk, store.database
    {
      Valid(Tables()) && disk.InOrder() && past <= disk.log && Stands(Tables(), subject, standing)
    }

    /** The disk fits the receipt, if it is one that fits its journal. */
    ghost predicate Suits(entry: Receipt)
      reads disk
    {
      disk.fitting ==> Fits(disk.files, entry)
    }

    ghost predicate Mine(entry: Receipt)
      reads store.database
    {
      entry.item == subject && Holding(Tables(), store.session, entry)
    }

    /** The epoch is as it was: still this session's, still without a receipt. */
    ghost predicate Idle(before: Db, now: Db, item: nat, direction: OperationDirection) {
      Entitled(now, store.session, item, direction) && Undisturbed(before, now, item)
    }

    /** Either this session owns the operation journalled as `entry`, or the row
        is not this session's to apply. */
    ghost predicate Grip(mine: bool, entry: Receipt)
      reads store.database
    {
      entry.item == subject && if mine then Mine(entry) else !Applies(Tables(), store.session, subject)
    }

    // ---- what can go wrong --------------------------------------------------

    method MayDie()
      modifies `alive
      ensures alive ==> old(alive)
      ensures faultless ==> alive == old(alive)
    {
      if !faultless && alive { alive := *; }
    }

    method Fails() returns (fails: bool)
      ensures faultless ==> !fails
    {
      fails := *;
      if faultless { fails := false; }
    }

    /** Any number of queue calls by other sessions, and by this session's other
        threads: renewals of the lease by the one that keeps it, and the pipeline's
        own statements. No other session takes this item while this process lives;
        and no journal call on another item is among them, as such a call is refused
        while this one is applying (`NobodyJournalsElsewhere`). */
    method OthersAct()
      requires Ready()
      modifies store.database
      ensures Ready() && Respected(old(Tables()), Tables(), store.session, subject)
    {
      hide Recorded, Perform, Valid, Stands, Respected, WritesJournal, PipelineCall, JournalCall;
      var calls: nat := *;
      ghost var d0 := Tables();
      NothingDone(d0, store.session, subject);
      while calls > 0
        invariant Ready() && Respected(d0, Tables(), store.session, subject)
      {
        var other: Session, now: int, call: Call := *, *, *;
        if JournalCall(call) && !WritesJournal(call, subject) {
        } else if other != store.session && !(call.DoClaimApplying? && call.id == subject) {
          OneOtherCall(d0, Tables(), store.session, other, now, call, subject);
          CallStands(Tables(), other, now, call, subject, standing);
          var _ := store.database.Act(other, now, call);
        } else if other == store.session && alive && PipelineCall(call) {
          OneStatement(d0, Tables(), store.session, now, call, subject);
          CallStands(Tables(), other, now, call, subject, standing);
          var _ := store.database.Act(other, now, call);
        } else if other == store.session && alive {
          OneRenewal(d0, Tables(), store.session, now, subject);
          LeaseStands(Tables(), store.session, now, subject, standing);
          var _ := store.RenewLease(now, subject);
        }
        calls := calls - 1;
      }
    }

    // ---- the filesystem -----------------------------------------------------

    method Exists(p: Path) returns (there: bool)
      modifies `alive
      ensures alive ==> old(alive)
      ensures faultless ==> alive == old(alive)
      ensures there ==> alive
      ensures alive ==> (there <==> p in disk.files)
    {
      MayDie();
      there := alive && p in disk.files;
    }

    /** Reads a file to the end. A read that goes wrong unnoticed yields a digest
        that no honest read can yield. */
    method Hash(p: Path) returns (r: Io<Digest>)
      modifies `alive
      ensures alive ==> old(alive)
      ensures faultless ==> alive == old(alive)
      ensures r.Good? ==> alive && p in disk.files && (r.value == Sha256(disk.files[p].bytes) || r.value.Garbled?)
      ensures faultless && alive && p in disk.files ==>
        r == if p in gripped then Bad(StillHeld) else Good(Sha256(disk.files[p].bytes))
    {
      MayDie();
      var fails := Fails();
      if alive && p in gripped && p in disk.files { return Bad(StillHeld); }
      if !alive || fails || p !in disk.files {
        var kind: IoKind := *;
        return Bad(kind);
      }
      r := Good(Sha256(disk.files[p].bytes));
      var misread := Fails();
      if misread {
        var noise: nat := *;
        r := Good(Garbled(noise));
      }
    }

    method SameVolume(source: Path, destination: Path) returns (r: Io<bool>)
      modifies `alive
      ensures alive ==> old(alive)
      ensures faultless ==> alive == old(alive)
      ensures r.Good? ==> alive && source in disk.files && r.value == (disk.volume(source.folder) == disk.volume(destination.folder))
      ensures faultless && alive ==>
        if source !in disk.files then r == Bad(Otherwise)
        else if source in gripped then r.Good? || r == Bad(StillHeld)
        else r.Good?
    {
      MayDie();
      var fails := Fails();
      var met: bool := *;
      if alive && met && source in gripped && source in disk.files { return Bad(StillHeld); }
      if !alive || fails || source !in disk.files {
        var kind: IoKind := *;
        return Bad(if faultless then Otherwise else kind);
      }
      r := Good(disk.Together(source, destination));
    }

    method LockForDelete(p: Path) returns (r: Io<LockedFile>)
      modifies `alive, `held
      ensures alive ==> old(alive)
      ensures faultless ==> alive == old(alive)
      ensures r.Bad? ==> held == old(held)
      ensures r.Good? ==> alive && p in disk.files && p !in old(held) && held == old(held) + {p} && r.value.path == p
      ensures faultless && alive && p in disk.files && p !in old(held) ==>
        r == if p in gripped then Bad(StillHeld) else Good(LockedFile(p, disk.files[p].identity))
    {
      MayDie();
      var fails := Fails();
      if alive && (p in held || (p in gripped && p in disk.files)) { return Bad(StillHeld); }
      if !alive || fails || p !in disk.files {
        var kind: IoKind := *;
        return Bad(kind);
      }
      held := held + {p};
      r := Good(LockedFile(p, disk.files[p].identity));
    }

    method Identity(lock: LockedFile) returns (r: Io<nat>)
      modifies `alive
      ensures alive ==> old(alive)
      ensures faultless ==> alive == old(alive)
      ensures r.Good? ==> alive
      ensures faultless && alive && lock.path in disk.files ==> r == Good(disk.files[lock.path].identity)
    {
      MayDie();
      var fails := Fails();
      if !alive || fails || lock.path !in disk.files { return Bad(Otherwise); }
      r := Good(disk.files[lock.path].identity);
      var misread := Fails();
      if misread {
        var noise: nat := *;
        r := Good(noise);
      }
    }

    method Drop(lock: LockedFile)
      modifies `held
      ensures held == old(held) - {lock.path}
    {
      held := held - {lock.path};
    }

    /** Atomic within one volume, and refuses an existing target. It may have landed
        although it reports a failure. */
    method RenameNoReplace(source: Path, target: Path, ghost entry: Receipt) returns (r: Io<()>)
      requires Ready() && Mine(entry) && Fits(disk.files, entry)
      requires source in disk.files && target !in disk.files ==>
        && Fits(RenamedFiles(disk.files, source, target), entry)
        && SameElsewhere(disk.files, RenamedFiles(disk.files, source, target), entry)
      modifies `alive, disk
      ensures Ready()
      ensures alive ==> old(alive)
      ensures faultless ==> alive == old(alive)
      ensures disk.files == old(disk.files)
           || (source in old(disk.files) && target !in old(disk.files)
               && disk.files == RenamedFiles(old(disk.files), source, target))
      ensures r.Good? ==> alive && source in old(disk.files) && target !in old(disk.files)
                          && disk.files == RenamedFiles(old(disk.files), source, target)
      ensures sound && alive && source in old(disk.files) && target !in old(disk.files) && source !in held
              && disk.volume(source.folder) == disk.volume(target.folder) ==>
                r.Good?
      ensures disk.volume(source.folder) != disk.volume(target.folder) ==> r.Bad? && disk.files == old(disk.files)
    {
      MayDie();
      var refused := Fails();
      if alive && target in disk.files { return Bad(AlreadyExists); }
      if !disk.Together(source, target) { return Bad(Otherwise); }
      if !alive || refused || source !in disk.files || source in held {
        var kind: IoKind := *;
        return Bad(kind);
      }
      ghost var step := Step(Renamed(source, target), disk.files, entry,
                             RenamedFiles(disk.files, source, target), entry, held);
      Append(disk.fitting, disk.initial, disk.log, disk.files, step);
      disk.files := RenamedFiles(disk.files, source, target);
      disk.log := disk.log + [step];
      var unheard := Fails();
      r := if unheard then Bad(Otherwise) else Good(());
    }

    /** Creates the temporary and holds it. The bytes that arrive may be wrong,
        and a failed copy may leave a fragment behind. */
    method CopyNewLocked(source: Path, target: Path, ghost entry: Receipt) returns (r: Io<LockedFile>)
      requires Ready() && Mine(entry) && Fits(disk.files, entry)
      requires entry.kind.VerifiedCopy? && entry.stage.Planned? && entry.source == source && entry.temporary == Some(target)
      modifies `alive, `held, disk
      ensures Ready()
      ensures alive ==> old(alive)
      ensures faultless ==> alive == old(alive)
      ensures Fits(disk.files, entry)
      ensures SameElsewhere(old(disk.files), disk.files, entry)
      ensures disk.files - {target} == old(disk.files) - {target}
      ensures forall p :: p != target && p in old(disk.files) ==> p in disk.files && disk.files[p] == old(disk.files)[p]
      ensures r.Bad? ==> held == old(held)
      ensures r.Good? ==> alive && target in disk.files && held == old(held) + {target}
                          && r.value.path == target
      ensures sound && alive && target !in old(disk.files) && target !in old(held) ==>
                r.Good? && disk.files[target].bytes == disk.files[source].bytes
    {
      hide Valid, Holding, Recorded, Stands, Fits, SameElsewhere;
      BeforeCopying(disk.files, entry);
      MayDie();
      var fails := Fails();
      if !alive || fails || target in disk.files || source !in disk.files {
        return Bad(Otherwise);
      }
      var bytes := disk.files[source].bytes;
      var wrong := Fails();
      if wrong { bytes := *; }
      var copied := disk.files[target := File(disk.nextIdentity, bytes)];
      Copying(disk.files, entry, File(disk.nextIdentity, bytes));
      ghost var step := Step(Written(target), disk.files, entry, copied, entry, held);
      Append(disk.fitting, disk.initial, disk.log, disk.files, step);
      disk.files := copied;
      disk.nextIdentity := disk.nextIdentity + 1;
      disk.log := disk.log + [step];
      var fragment := Fails();
      if fragment { return Bad(Otherwise); }
      held := held + {target};
      r := Good(LockedFile(target, copied[target].identity));
    }

    /** Deletes through the open handle, which is used up either way. */
    method DeleteLocked(lock: LockedFile, ghost entry: Receipt) returns (r: Io<()>)
      requires Ready() && Mine(entry) && Suits(entry)
      requires MayDelete(disk.files, entry, lock.path, held)
      requires disk.fitting ==> Fits(disk.files - {lock.path}, entry)
      requires disk.log != [] && disk.log[|disk.log| - 1].action.Renewed? && disk.log[|disk.log| - 1].revised == entry
      modifies `alive, `held, disk
      ensures Ready()
      ensures alive ==> old(alive)
      ensures faultless ==> alive == old(alive)
      ensures held == old(held) - {lock.path}
      ensures disk.files == old(disk.files) || disk.files == old(disk.files) - {lock.path}
      ensures r.Good? ==> alive && disk.files == old(disk.files) - {lock.path}
      ensures faultless && !barred && alive && lock.path in old(disk.files) ==> r.Good?
      ensures barred ==> r.Bad? && disk.files == old(disk.files)
    {
      hide Valid, Holding, Recorded, Stands, Fits;
      MayDie();
      var fails := Fails();
      if !alive || fails || barred || lock.path !in disk.files {
        held := held - {lock.path};
        return Bad(Otherwise);
      }
      ghost var step := Step(Deleted(lock.path), disk.files, entry, disk.files - {lock.path}, entry, held);
      Append(disk.fitting, disk.initial, disk.log, disk.files, step);
      disk.files := disk.files - {lock.path};
      disk.log := disk.log + [step];
      held := held - {lock.path};
      var unheard := Fails();
      r := if unheard then Bad(Otherwise) else Good(());
    }

    // ---- the journal --------------------------------------------------------

    /** Whether this journal call gets as far as the database. */
    method Reach(ghost mine: bool, ghost entry: Receipt) returns (go: bool)
      requires Ready() && Grip(mine, entry)
      modifies `alive, store.database
      ensures Ready() && Grip(mine, entry)
      ensures alive ==> old(alive)
      ensures faultless ==> alive == old(alive) && (alive ==> go)
      ensures go ==> alive
    {
      MayDie();
      OthersAct();
      if mine { OthersLeaveHolding(old(Tables()), Tables(), store.session, entry); }
      var fails := Fails();
      go := alive && !fails;
    }

    method CreateReceipt(item: nat, receipt: Receipt) returns (r: Result<Receipt>)
      requires Ready() && item == subject && Fits(disk.files, receipt) && receipt.item == item
      requires alive ==> FlagsTrue(disk.files, receipt)
      modifies `alive, disk`log, store.database
      ensures Ready()
      ensures alive ==> old(alive)
      ensures faultless ==> alive == old(alive)
      ensures r.Ok? ==> alive && Mine(r.value) && r.value == receipt.(id := r.value.id)
      ensures r.Err? ==> r.receipt.None? && disk.log == old(disk.log)
      ensures r.Err? && Entitled(old(Tables()), store.session, item, receipt.direction) ==>
                Idle(old(Tables()), Tables(), item, receipt.direction)
      ensures sound && alive && receipt.stage.Planned? && !old(Tables()).HasUnfinished(item) ==>
                (r.Ok? <==> Entitled(old(Tables()), store.session, item, receipt.direction))
      ensures sound && alive && r.Err? ==> r.code.StateConflict?
    {
      hide Valid, Holding, Recorded, Stands, Entitled, Undisturbed, Respected, QueueSpec.CreateReceipt;
      MayDie();
      OthersAct();
      RespectKeepsEntitled(old(Tables()), Tables(), store.session, item, receipt.direction);
      var fails := Fails();
      var now: int := *;
      CreateHolds(old(Tables()), Tables(), store.session, now, item, receipt);
      if !alive || fails { return Err(DatabaseUnavailable, None); }
      CreateStands(Tables(), store.session, now, item, receipt, standing);
      var reply := store.CreateReceipt(now, item, receipt);
      if reply.Refused? { return Err(reply.code, None); }
      Note(Journaled, reply.receipt, reply.receipt);
      r := Ok(reply.receipt);
    }

    /** Records a step that leaves the disk alone. */
    ghost method Note(action: Action, entry: Receipt, revised: Receipt)
      requires Ready() && Suits(entry) && Suits(revised) && SameOperation(entry, revised)
      requires action.Journaled? || action.Renewed?
      requires disk.fitting && action.Journaled? ==> FlagsTrue(disk.files, revised)
      modifies disk`log
      ensures Ready()
      ensures disk.log == old(disk.log) + [Step(action, disk.files, entry, disk.files, revised, held)]
    {
      var step := Step(action, disk.files, entry, disk.files, revised, held);
      Append(disk.fitting, disk.initial, disk.log, disk.files, step);
      disk.log := disk.log + [step];
    }

    method UpdateReceipt(expected: OperationStage, receipt: Receipt, ghost mine: bool, ghost entry: Receipt)
      returns (r: Result<Receipt>)
      requires Ready() && Grip(mine, entry) && SameOperation(entry, receipt)
      requires mine ==> Suits(entry)
      requires mine && entry.stage == expected ==> Suits(receipt)
      requires disk.fitting && alive && mine && entry.stage == expected ==> FlagsTrue(disk.files, receipt)
      modifies `alive, disk`log, store.database
      ensures Ready()
      ensures alive ==> old(alive)
      ensures faultless ==> alive == old(alive)
      ensures r.Ok? ==> mine && alive && r.value == receipt && Mine(receipt)
      ensures r.Err? ==> Grip(mine, entry) && disk.log == old(disk.log)
      ensures faultless && alive && mine && expected == entry.stage && expected.CanAdvanceTo(receipt.stage) ==> r.Ok?
    {
      var go := Reach(mine, entry);
      if !go { return Err(DatabaseUnavailable, None); }
      var now: int := *;
      UpdateHolds(Tables(), store.session, now, expected, mine, entry, receipt);
      UpdateStands(Tables(), store.session, now, subject, expected, receipt, standing);
      var reply := store.UpdateReceipt(now, expected, receipt);
      if reply.Refused? { return Err(reply.code, None); }
      Note(Journaled, entry, receipt);
      r := Ok(reply.receipt);
    }

    method RenewOperationLease(receipt: Receipt, expected: OperationStage, ghost mine: bool, ghost entry: Receipt)
      returns (r: Result<()>)
      requires Ready() && Grip(mine, entry) && receipt.id == entry.id && receipt.item == entry.item
      requires mine ==> Suits(entry)
      modifies `alive, disk`log, store.database
      ensures Ready() && Grip(mine, entry)
      ensures alive ==> old(alive)
      ensures faultless ==> alive == old(alive)
      ensures r.Ok? ==> mine && alive && disk.log == old(disk.log) + [Step(Renewed, disk.files, entry, disk.files, entry, held)]
      ensures r.Err? ==> disk.log == old(disk.log)
      ensures faultless && alive && mine && expected == entry.stage ==> r.Ok?
    {
      var go := Reach(mine, entry);
      if !go { return Err(DatabaseUnavailable, None); }
      var now: int := *;
      RenewHolds(Tables(), store.session, now, expected, mine, entry);
      RenewalStands(Tables(), store.session, now, subject, receipt.id, expected, standing);
      var reply := store.RenewOperationLease(now, receipt.item, receipt.id, expected);
      if reply.Refused? { return Err(reply.code, None); }
      Note(Renewed, entry, entry);
      r := Ok(());
    }

    /** The queue knows why the operation failed: the error stands on this session's
        row beside its receipt; or, when only the original of a published copy is left
        to delete, the row waits in review with exactly that error. */
    ghost predicate Reported(entry: Receipt, code: ErrorCode)
      reads store.database
    {
      if code.SourceDeleteFailed? && entry.direction.Apply? && entry.stage.Published? then
        entry.item == subject && ParkedWith(Tables(), entry, code)
      else
        && Mine(entry) && Tables().rows[entry.item].error == Some(code)
        && Tables().rows[entry.item].reconciliation == Some(entry.id)
    }

    /** An operation failed and may have left something behind: note it on the
        row, or, when only the original of a published copy is left to delete,
        hand the row to a person at once. */
    method ReconciliationError(receipt: Receipt, code: ErrorCode, ghost entry: Receipt) returns (r: Result<Receipt>)
      requires Ready() && Mine(entry) && SameOperation(entry, receipt)
      modifies `alive, store.database
      ensures Ready() && Left(entry)
      ensures alive ==> old(alive)
      ensures faultless ==> alive == old(alive)
      ensures r.Err? && r.receipt == Some(receipt) && (r.code == code || r.code.StateConflict?)
      ensures code != SourceDeleteFailed ==> Mine(entry)
      ensures r.code == code && code != StateConflict && receipt.stage == entry.stage ==> Reported(entry, code)
      ensures sound && alive && receipt.stage == entry.stage ==> r.code == code
    {
      var go := Reach(true, entry);
      if !go { return Err(StateConflict, Some(receipt)); }
      var now: int := *;
      var reply;
      if code == SourceDeleteFailed && receipt.direction.Apply? && receipt.stage.Published? {
        DeferHolds(Tables(), store.session, entry, code);
        DeferralStands(Tables(), store.session, subject, receipt.id, code, standing);
        reply := store.DeferPublished(receipt.item, receipt.id, code);
      } else {
        RecordHolds(Tables(), store.session, now, entry, code);
        RollbackNoteStands(Tables(), store.session, now, subject, receipt.id, code, standing);
        reply := store.RecordApplyingRollback(now, receipt.item, receipt.id, code);
      }
      r := Err(if reply.Refused? then StateConflict else code, Some(receipt));
    }

    /** The durable receipt outlives the call: bound to this session's applying
        row, or kept beside a row in review. */
    ghost predicate Left(entry: Receipt)
      reads store.database
    {
      Mine(entry) || (entry.item == subject && Kept(Tables(), entry))
    }

    /** Where a transfer that began with `planned`, on disk `before`, leaves disk
        and journal. */
    ghost predicate Transferred(before: Files, wasAlive: bool, planned: Receipt, r: Result<Receipt>, entry: Receipt)
      reads this, disk, store.database
    {
      && Ready() && SameOperation(planned, entry)
      && Fits(disk.files, entry) && SameElsewhere(before, disk.files, planned)
      && (r.Ok? ==> alive && Mine(entry) && r.value == entry && entry.stage.Complete?)
      && (r.Err? ==> r.receipt.Some? && Left(entry))
      && (r.Err? && !r.code.StateConflict? ==> Reported(entry, r.code))
      && (r.Err? && !r.code.StateConflict? ==> Explains(entry, r.code))
      && (faultless && wasAlive ==> alive)
      && (sound && wasAlive ==> if barred && planned.kind.VerifiedCopy? then LeftDouble(r, entry) else r.Ok?)
    }

    /** What may have gone wrong at this stage, as it is reported: what the person is told,
        and whether the row can be retried, depends on it. */
    predicate Explains(entry: Receipt, code: ErrorCode) {
      match (entry.kind, entry.stage)
      case (Rename, Planned) => code in {DestinationUnavailable, SourceLocked, IoError}
      case (Rename, _) => code == MoveVerificationFailed
      case (VerifiedCopy, Planned) => code == DestinationUnavailable
      case (VerifiedCopy, Copied) => code == MoveVerificationFailed
      case (VerifiedCopy, Verified) => code in {MoveVerificationFailed, DestinationUnavailable}
      case (VerifiedCopy, _) =>
        || code in {MoveVerificationFailed, FileChanged}
        || (code == SourceDeleteFailed && entry.post == Some(entry.pre))
    }

    /** All that is left to do is deleting the original, which was refused. */
    ghost predicate LeftDouble(r: Result<Receipt>, entry: Receipt)
      reads disk
    {
      && r.Err? && r.code.SourceDeleteFailed? && entry.stage.Published? && entry.post == Some(entry.pre)
      && Holds(disk.files, entry.source, entry.pre) && Holds(disk.files, entry.destination, entry.pre)
    }

    /** Journals an advance; if the journal refuses, the operation has failed. */
    method Advance(expected: OperationStage, receipt: Receipt, ghost entry: Receipt) returns (r: Result<Receipt>)
      requires Ready() && Mine(entry) && SameOperation(entry, receipt) && Fits(disk.files, entry)
      requires entry.stage == expected && expected.CanAdvanceTo(receipt.stage) && Fits(disk.files, receipt)
      requires alive ==> FlagsTrue(disk.files, receipt)
      modifies `alive, disk`log, store.database
      ensures Ready()
      ensures alive ==> old(alive)
      ensures faultless ==> alive == old(alive)
      ensures r.Ok? ==> alive && r.value == receipt && Mine(receipt)
      ensures r.Err? ==> r.receipt.Some? && Mine(entry) && r.code.StateConflict?
      ensures sound && alive ==> r.Ok?
    {
      r := UpdateReceipt(expected, receipt, true, entry);
      if r.Err? {
        r := ReconciliationError(receipt, StateConflict, entry);
      }
    }

    /** Journals what a failed step left behind, and reports the failure. */
    method Fail(expected: OperationStage, receipt: Receipt, code: ErrorCode, ghost durable: Receipt)
      returns (r: Result<Receipt>, ghost entry: Receipt)
      requires Ready() && Mine(durable) && SameOperation(durable, receipt) && Fits(disk.files, durable)
      requires durable.stage == expected && expected.CanAdvanceTo(receipt.stage) && Fits(disk.files, receipt) && code != SourceDeleteFailed
      requires alive ==> FlagsTrue(disk.files, receipt)
      modifies `alive, disk`log, store.database
      ensures Ready() && (entry == durable || entry == receipt) && Mine(entry)
      ensures alive ==> old(alive)
      ensures faultless ==> alive == old(alive)
      ensures r.Err? && r.receipt.Some? && (r.code.StateConflict? || (r.code == code && Reported(entry, code)))
    {
      entry := durable;
      var actual := UpdateReceipt(expected, receipt, true, durable);
      if actual.Err? {
        r := ReconciliationError(receipt, StateConflict, durable);
        return;
      }
      entry := receipt;
      r := ReconciliationError(actual.value, code, receipt);
    }

    // ---- one volume ---------------------------------------------------------

    method SameVolumeTransfer(planned: Receipt) returns (r: Result<Receipt>, ghost entry: Receipt)
      requires Ready() && Mine(planned) && planned.kind.Rename? && planned.stage.Planned? && held == {}
      requires Fits(disk.files, planned) && SourceOnly(disk.files, planned) && !planned.temporaryExists
      requires disk.Together(planned.source, planned.destination)
      requires alive ==> FlagsTrue(disk.files, planned)
      modifies `alive, `held, disk, store.database
      ensures Transferred(old(disk.files), old(alive), planned, r, entry)
    {
      hide Valid, Holding, Recorded, Stands, Reported, Kept;
      entry := planned;
      var receipt := planned;
      var renamed := RenameNoReplace(receipt.source, receipt.destination, entry);
      if renamed.Bad? {
        r := ReconciliationError(receipt, RenameFailure(renamed.kind), entry);
        return;
      }
      receipt := receipt.(sourceExists := false, destinationExists := true, stage := Published);
      var journaled := Advance(Planned, receipt, entry);
      if journaled.Err? { r := journaled; return; }
      receipt, entry := journaled.value, journaled.value;
      ghost var found;
      r, entry, found := VerifyRenamed(receipt);
    }

    /** The rename has landed and is journalled: look at what it put there. What was
        `found` instead of the document is on record before anything is put back. */
    method VerifyRenamed(published: Receipt) returns (r: Result<Receipt>, ghost entry: Receipt, ghost found: Option<Digest>)
      requires Ready() && Mine(published) && published.kind.Rename? && published.stage.Published? && held == {}
      requires Fits(disk.files, published)
      requires !published.sourceExists && published.destinationExists && !published.temporaryExists
      requires alive ==> FlagsTrue(disk.files, published)
      modifies `alive, `held, disk, store.database
      ensures Transferred(old(disk.files), old(alive), published, r, entry)
      ensures found.Some? && found != Some(published.pre) && !entry.stage.Published? ==> !entry.stage.Complete? && entry.post == found
      ensures r.Ok? ==> found == Some(published.pre)
    {
      hide Valid, Holding, Recorded, Stands, Reported, Kept;
      entry, found := published, None;
      var receipt := published;
      var locked := LockForDelete(receipt.destination);
      if locked.Bad? {
        r := ReconciliationError(receipt, MoveVerificationFailed, entry);
        return;
      }
      var publishedIdentity := Identity(locked.value);
      if publishedIdentity.Bad? {
        r := ReconciliationError(receipt, MoveVerificationFailed, entry);
        return;
      }
      var postHash := Hash(locked.value.path);
      if postHash.Bad? {
        Drop(locked.value);
        r, entry := RollbackAfterRename(receipt, entry);
        return;
      }
      found := Some(postHash.value);
      if postHash.value != receipt.pre {
        receipt := receipt.(post := Some(postHash.value));
        Drop(locked.value);
        r, entry := RollbackAfterRename(receipt, entry);
        return;
      }
      var identityAfter := Identity(locked.value);
      if identityAfter.Bad? || identityAfter.value != publishedIdentity.value {
        r := ReconciliationError(receipt, MoveVerificationFailed, entry);
        return;
      }
      receipt := receipt.(post := Some(postHash.value), stage := Complete);
      var complete := Advance(Published, receipt, entry);
      if complete.Err? { r := complete; return; }
      entry := complete.value;
      Drop(locked.value);
      r := Ok(complete.value);
    }

    /** Puts the renamed file back, journalling the intent first. */
    method RollbackAfterRename(published: Receipt, ghost durable: Receipt)
      returns (r: Result<Receipt>, ghost entry: Receipt)
      requires Ready() && Mine(durable) && durable.kind.Rename? && durable.stage.Published? && !sound
      requires Fits(disk.files, durable) && published == durable.(post := published.post)
      requires !durable.temporaryExists
      requires alive ==> FlagsTrue(disk.files, durable)
      modifies `alive, disk, store.database
      ensures Transferred(old(disk.files), old(alive), durable, r, entry)
      ensures r.Err? && (entry == durable || (!entry.stage.Complete? && entry.post == published.post))
    {
      hide Valid, Holding, Recorded, Stands, Reported, Kept;
      entry := durable;
      var receipt := published.(stage := RollbackRequired);
      var intent := Advance(Published, receipt, entry);
      if intent.Err? { r := intent; return; }
      entry := intent.value;
      r, entry := PutBack(intent.value);
    }

    /** Renames the file back, and journals where it is. */
    method PutBack(intended: Receipt) returns (r: Result<Receipt>, ghost entry: Receipt)
      requires Ready() && Mine(intended) && intended.kind.Rename? && intended.stage.RollbackRequired? && !sound
      requires Fits(disk.files, intended) && DestinationOnly(disk.files, intended) && !intended.temporaryExists
      requires alive ==> FlagsTrue(disk.files, intended)
      modifies `alive, disk, store.database
      ensures Transferred(old(disk.files), old(alive), intended, r, entry)
      ensures r.Err? && !entry.stage.Complete? && entry.post == intended.post
    {
      hide Valid, Holding, Recorded, Stands, Reported, Kept;
      var receipt := intended;
      var back := RenameNoReplace(receipt.destination, receipt.source, intended);
      if back.Good? {
        receipt := receipt.(sourceExists := true, destinationExists := false, stage := RolledBack);
      } else {
        var sourceExists := Exists(receipt.source);
        var destinationExists := Exists(receipt.destination);
        receipt := receipt.(sourceExists := sourceExists, destinationExists := destinationExists);
      }
      r, entry := Fail(RollbackRequired, receipt, MoveVerificationFailed, intended);
    }

    // ---- across volumes -----------------------------------------------------

    method CrossVolumeTransfer(planned: Receipt, identity: nat, source: LockedFile)
      returns (r: Result<Receipt>, ghost entry: Receipt)
      requires Ready() && Mine(planned) && planned.kind.VerifiedCopy? && planned.stage.Planned?
      requires Fits(disk.files, planned) && HoldsNothing(disk.files, planned.temporary)
      requires planned.temporary.Some? && planned.temporary.value.folder == planned.destination.folder
      requires source.path == planned.source && held == {source.path}
      requires sound && alive ==> identity == disk.files[source.path].identity
      requires alive ==> FlagsTrue(disk.files, planned)
      modifies `alive, `held, disk, store.database
      ensures Transferred(old(disk.files), old(alive), planned, r, entry)
    {
      hide Valid, Holding, Recorded, Stands, Reported, Kept;
      entry := planned;
      var receipt := planned;
      var temporary := receipt.temporary.value;
      var copy := CopyNewLocked(receipt.source, temporary, entry);
      if copy.Bad? {
        var survives := Exists(temporary);
        receipt := receipt.(temporaryExists := survives);
        r, entry := Fail(Planned, receipt, DestinationUnavailable, entry);
        return;
      }
      receipt := receipt.(temporaryExists := true, stage := Copied);
      var journaled := Advance(Planned, receipt, entry);
      if journaled.Err? { r := journaled; return; }
      receipt, entry := journaled.value, journaled.value;
      r, entry := VerifyCopy(receipt, identity, source, copy.value);
    }

    method VerifyCopy(copied: Receipt, identity: nat, source: LockedFile, copy: LockedFile)
      returns (r: Result<Receipt>, ghost entry: Receipt)
      requires Ready() && Mine(copied) && copied.kind.VerifiedCopy? && copied.stage.Copied?
      requires Fits(disk.files, copied) && copied.temporary == Some(copy.path) && copy.path.folder == copied.destination.folder
      requires source.path == copied.source && held == {source.path, copy.path}
      requires alive ==> copy.path in disk.files
      requires sound && alive ==>
        && identity == disk.files[source.path].identity && Holds(disk.files, copy.path, copied.pre)
      requires alive ==> FlagsTrue(disk.files, copied)
      modifies `alive, `held, disk, store.database
      ensures Transferred(old(disk.files), old(alive), copied, r, entry)
    {
      hide Valid, Holding, Recorded, Stands, Reported, Kept;
      entry := copied;
      var receipt := copied;
      var copiedIdentity := Identity(copy);
      if copiedIdentity.Bad? {
        r := ReconciliationError(receipt, MoveVerificationFailed, entry);
        return;
      }
      var copiedHash := Hash(copy.path);
      if copiedHash.Bad? || copiedHash.value != receipt.pre {
        r, entry := TempFailure(receipt, copy, MoveVerificationFailed, entry);
        return;
      }
      receipt := receipt.(post := Some(copiedHash.value), stage := Verified);
      var journaled := Advance(Copied, receipt, entry);
      if journaled.Err? { r := journaled; return; }
      receipt, entry := journaled.value, journaled.value;
      var identityAfter := Identity(copy);
      if identityAfter.Bad? {
        r := ReconciliationError(receipt, MoveVerificationFailed, entry);
        return;
      }
      if identityAfter.value != copiedIdentity.value {
        r, entry := TempFailure(receipt, copy, MoveVerificationFailed, entry);
        return;
      }
      Drop(copy);
      r, entry := PublishCopy(receipt, identity, source, copy.path);
    }

    /** The copy is no good: delete it under a renewed lease and journal what is left. */
    method TempFailure(failed: Receipt, copy: LockedFile, code: ErrorCode, ghost durable: Receipt)
      returns (r: Result<Receipt>, ghost entry: Receipt)
      requires Ready() && Mine(durable) && failed == durable && !(sound && alive) && code == MoveVerificationFailed
      requires durable.kind.VerifiedCopy? && (durable.stage.Copied? || durable.stage.Verified?)
      requires Fits(disk.files, durable) && durable.temporary == Some(copy.path)
      requires held == {durable.source, copy.path}
      requires alive ==> FlagsTrue(disk.files, durable)
      modifies `alive, `held, disk, store.database
      ensures Transferred(old(disk.files), old(alive), durable, r, entry)
      ensures r.Err?
    {
      hide Valid, Holding, Recorded, Stands, Reported, Kept, Fits, SameElsewhere;
      DeletingTemporary(disk.files, durable);
      entry := durable;
      var receipt := failed;
      var renewed := RenewOperationLease(receipt, receipt.stage, true, entry);
      if renewed.Err? {
        receipt := receipt.(temporaryExists := true);
        r := ReconciliationError(receipt, StateConflict, entry);
        return;
      }
      var gone := DeleteTemporary(copy, entry);
      receipt := receipt.(temporaryExists := !gone);
      r, entry := Fail(receipt.stage, receipt, code, entry);
    }

    method DeleteTemporary(copy: LockedFile, ghost durable: Receipt) returns (gone: bool)
      requires Ready() && Mine(durable) && Fits(disk.files, durable)
      requires durable.kind.VerifiedCopy? && (durable.stage.Copied? || durable.stage.Verified?)
      requires durable.temporary == Some(copy.path) && held == {durable.source, copy.path}
      requires disk.log != [] && disk.log[|disk.log| - 1].action.Renewed? && disk.log[|disk.log| - 1].revised == durable
      requires alive ==> FlagsTrue(disk.files, durable)
      modifies `alive, `held, disk
      ensures Ready() && Mine(durable)
      ensures alive ==> old(alive)
      ensures faultless ==> alive == old(alive)
      ensures Fits(disk.files, durable) && Fits(disk.files, durable.(temporaryExists := !gone))
      ensures SameElsewhere(old(disk.files), disk.files, durable)
      ensures gone ==> copy.path !in disk.files
      ensures alive ==> FlagsTrue(disk.files, durable.(temporaryExists := !gone))
    {
      hide Valid, Holding, Recorded, Stands, Fits, SameElsewhere;
      DeletingTemporary(disk.files, durable);
      var deleted := DeleteLocked(copy, durable);
      gone := deleted.Good?;
    }

    method PublishCopy(verified: Receipt, identity: nat, source: LockedFile, temporary: Path)
      returns (r: Result<Receipt>, ghost entry: Receipt)
      requires Ready() && Mine(verified) && verified.kind.VerifiedCopy? && verified.stage.Verified?
      requires Fits(disk.files, verified) && verified.temporary == Some(temporary) && temporary.folder == verified.destination.folder
      requires source.path == verified.source && held == {source.path}
      requires alive ==> temporary in disk.files && verified.destination !in disk.files
      requires sound && alive ==> identity == disk.files[source.path].identity
      requires alive ==> FlagsTrue(disk.files, verified)
      modifies `alive, `held, disk, store.database
      ensures Transferred(old(disk.files), old(alive), verified, r, entry)
    {
      hide Valid, Holding, Recorded, Stands, Reported, Kept, Fits, SameElsewhere;
      Publishing(disk.files, verified);
      entry := verified;
      var receipt := verified;
      var published := RenameNoReplace(temporary, receipt.destination, entry);
      if published.Bad? {
        var temporaryExists := Exists(temporary);
        var destinationExists := Exists(receipt.destination);
        receipt := receipt.(temporaryExists := temporaryExists, destinationExists := destinationExists);
        r, entry := Fail(Verified, receipt, DestinationUnavailable, entry);
        return;
      }
      receipt := receipt.(temporaryExists := false, destinationExists := true, stage := Published);
      var journaled := Advance(Verified, receipt, entry);
      if journaled.Err? { r := journaled; return; }
      receipt, entry := journaled.value, journaled.value;
      ghost var after := disk.files;
      r, entry := VerifyPublished(receipt, identity, source);
      ElsewhereTwice(old(disk.files), after, disk.files, verified, receipt);
    }

    method VerifyPublished(published: Receipt, identity: nat, source: LockedFile)
      returns (r: Result<Receipt>, ghost entry: Receipt)
      requires Ready() && Mine(published) && published.kind.VerifiedCopy? && published.stage.Published?
      requires Fits(disk.files, published) && published.destinationExists && !published.temporaryExists
      requires source.path == published.source && held == {source.path}
      requires alive ==> source.path in disk.files
      requires sound && alive ==> identity == disk.files[source.path].identity
      requires alive ==> FlagsTrue(disk.files, published)
      modifies `alive, `held, disk, store.database
      ensures Transferred(old(disk.files), old(alive), published, r, entry)
    {
      hide Valid, Holding, Recorded, Stands, Reported, Kept;
      entry := published;
      var receipt := published;
      var locked := LockForDelete(receipt.destination);
      if locked.Bad? {
        r := ReconciliationError(receipt, MoveVerificationFailed, entry);
        return;
      }
      var publishedIdentity := Identity(locked.value);
      if publishedIdentity.Bad? {
        r := ReconciliationError(receipt, MoveVerificationFailed, entry);
        return;
      }
      var publishedHash := Hash(locked.value.path);
      if publishedHash.Bad? {
        r := ReconciliationError(receipt, MoveVerificationFailed, entry);
        return;
      }
      receipt := receipt.(post := Some(publishedHash.value));
      var journaled := Advance(Published, receipt, entry);
      if journaled.Err? { r := journaled; return; }
      receipt, entry := journaled.value, journaled.value;
      if publishedHash.value != receipt.pre {
        r := ReconciliationError(receipt, MoveVerificationFailed, entry);
        return;
      }
      r, entry := DeleteOriginal(receipt, identity, source, locked.value, publishedIdentity.value);
    }

    /** Are the two held files still the ones that were verified? */
    method Recheck(receipt: Receipt, identity: nat, source: LockedFile, destination: LockedFile, destinationIdentity: nat)
      returns (problem: Option<ErrorCode>)
      modifies `alive
      ensures alive ==> old(alive)
      ensures faultless ==> alive == old(alive)
      ensures problem.None? && receipt.pre.Sha256? ==> alive && Holds(disk.files, source.path, receipt.pre)
      ensures problem.Some? ==> problem.value.FileChanged? || problem.value.MoveVerificationFailed?
      ensures sound && alive && Holds(disk.files, source.path, receipt.pre) && destination.path in disk.files
              && identity == disk.files[source.path].identity
              && destinationIdentity == disk.files[destination.path].identity
              ==> problem.None?
    {
      var identityBefore := Identity(source);
      if identityBefore.Bad? || identityBefore.value != identity { return Some(FileChanged); }
      var sourceHash := Hash(source.path);
      if sourceHash.Bad? || sourceHash.value != receipt.pre { return Some(FileChanged); }
      var identityAfter := Identity(destination);
      if identityAfter.Bad? || identityAfter.value != destinationIdentity { return Some(MoveVerificationFailed); }
      problem := None;
    }

    /** The last step of a copy: check both held files once more, renew the
        lease, and only then delete the original. */
    method DeleteOriginal(published: Receipt, identity: nat, source: LockedFile, destination: LockedFile,
                          destinationIdentity: nat)
      returns (r: Result<Receipt>, ghost entry: Receipt)
      requires Ready() && Mine(published) && published.kind.VerifiedCopy? && published.stage.Published?
      requires Fits(disk.files, published) && published.destinationExists && !published.temporaryExists
      requires published.post == Some(published.pre)
      requires source.path == published.source && destination.path == published.destination
      requires held == {source.path, destination.path}
      requires alive ==> source.path in disk.files
      requires sound && alive ==>
        && identity == disk.files[source.path].identity
        && destinationIdentity == disk.files[destination.path].identity
      requires alive ==> FlagsTrue(disk.files, published)
      modifies `alive, `held, disk, store.database
      ensures Transferred(old(disk.files), old(alive), published, r, entry)
    {
      hide Valid, Holding, Recorded, Stands, Reported, Kept, Fits, SameElsewhere, MayDelete;
      DeletingOriginal(disk.files, published);
      entry := published;
      var receipt := published;
      var problem := Recheck(receipt, identity, source, destination, destinationIdentity);
      if problem.Some? {
        r := ReconciliationError(receipt, problem.value, entry);
        return;
      }
      var renewed := RenewOperationLease(receipt, Published, true, entry);
      if renewed.Err? {
        r := ReconciliationError(receipt, StateConflict, entry);
        return;
      }
      var deleted := DeleteLocked(source, entry);
      if deleted.Bad? {
        r := ReconciliationError(receipt, SourceDeleteFailed, entry);
        return;
      }
      Drop(destination);
      receipt := receipt.(sourceExists := false, stage := Complete);
      var complete := Advance(Published, receipt, entry);
      if complete.Err? { r := complete; return; }
      entry := complete.value;
      r := Ok(complete.value);
    }

    // ---- a whole transfer ---------------------------------------------------

    /** The receipt, as durable, is the one this transfer planned. */
    ghost predicate Describes(entry: Receipt, item: nat, direction: OperationDirection, source: Path, destination: Path,
                              expected: Digest, token: string)
    {
      && entry.item == item && entry.direction == direction
      && entry.source == source && entry.destination == destination && entry.pre == expected
      && (entry.kind.Rename? <==> disk.volume(source.folder) == disk.volume(destination.folder))
      && entry.temporary == if entry.kind.Rename? then None else Some(TemporaryPath(destination, token))
    }

    /** Takes the source to the destination, or says why not. Without a receipt
        in the error nothing was touched; with one, what was left fits it. */
    method Transfer(item: nat, direction: OperationDirection, source: Path, destination: Path, expected: Digest,
                    token: string)
      returns (r: Result<Receipt>, ghost entry: Receipt)
      requires Ready() && item == subject && held == {} && expected.Sha256?
      requires FreshToken(disk.files, token)
      modifies `alive, `held, disk, store.database
      ensures Ready() && held == {}
      ensures alive ==> old(alive)
      ensures faultless ==> alive == old(alive)
      ensures r.Ok? || r.receipt.Some? ==>
        && Describes(entry, item, direction, source, destination, expected, token)
        && Holds(old(disk.files), source, expected) && destination !in old(disk.files)
        && HoldsNothing(old(disk.files), entry.temporary)
        && Transferred(old(disk.files), old(alive), entry, r, entry)
      ensures r.Err? && r.receipt.None? ==>
        && disk.files == old(disk.files) && disk.log == old(disk.log)
        && (Entitled(old(Tables()), store.session, item, direction) ==> Idle(old(Tables()), Tables(), item, direction))
      ensures sound && alive && (destination in old(disk.files) || source !in old(disk.files)) ==>
                r == Err(DestinationUnavailable, None)
      ensures faultless && alive && destination !in old(disk.files) && source in old(disk.files) && source in gripped ==>
                r == Err(SourceLocked, None)
      ensures sound && alive && destination !in old(disk.files) && source in old(disk.files)
              && !Holds(old(disk.files), source, expected) ==>
                r == Err(FileChanged, None)
      ensures healthy && alive && !old(Tables()).HasUnfinished(item)
              && Entitled(old(Tables()), store.session, item, direction) ==>
                (r.Ok? <==> destination !in old(disk.files) && Holds(old(disk.files), source, expected))
      ensures sound && barred && alive && !old(Tables()).HasUnfinished(item)
              && Entitled(old(Tables()), store.session, item, direction) ==>
                (r.Ok? || r.receipt.Some? <==> destination !in old(disk.files) && Holds(old(disk.files), source, expected))
    {
      r, entry := TransferHolding(item, direction, source, destination, expected, token);
      held := {};
    }

    method TransferHolding(item: nat, direction: OperationDirection, source: Path, destination: Path, expected: Digest,
                           token: string)
      returns (r: Result<Receipt>, ghost entry: Receipt)
      requires Ready() && item == subject && held == {} && expected.Sha256?
      requires FreshToken(disk.files, token)
      modifies `alive, `held, disk, store.database
      ensures Ready()
      ensures alive ==> old(alive)
      ensures faultless ==> alive == old(alive)
      ensures r.Ok? || r.receipt.Some? ==>
        && Describes(entry, item, direction, source, destination, expected, token)
        && Holds(old(disk.files), source, expected) && destination !in old(disk.files)
        && HoldsNothing(old(disk.files), entry.temporary)
        && Transferred(old(disk.files), old(alive), entry, r, entry)
      ensures r.Err? && r.receipt.None? ==>
        && disk.files == old(disk.files) && disk.log == old(disk.log)
        && (Entitled(old(Tables()), store.session, item, direction) ==> Idle(old(Tables()), Tables(), item, direction))
      ensures sound && alive && (destination in old(disk.files) || source !in old(disk.files)) ==>
                r == Err(DestinationUnavailable, None)
      ensures faultless && alive && destination !in old(disk.files) && source in old(disk.files) && source in gripped ==>
                r == Err(SourceLocked, None)
      ensures sound && alive && destination !in old(disk.files) && source in old(disk.files)
              && !Holds(old(disk.files), source, expected) ==>
                r == Err(FileChanged, None)
      ensures healthy && alive && !old(Tables()).HasUnfinished(item)
              && Entitled(old(Tables()), store.session, item, direction) ==>
                (r.Ok? <==> destination !in old(disk.files) && Holds(old(disk.files), source, expected))
      ensures sound && barred && alive && !old(Tables()).HasUnfinished(item)
              && Entitled(old(Tables()), store.session, item, direction) ==>
                (r.Ok? || r.receipt.Some? <==> destination !in old(disk.files) && Holds(old(disk.files), source, expected))
    {
      hide Valid, Holding, Recorded, Stands, Reported, Kept, LeftDouble;
      entry := PlannedReceipt(item, direction, source, destination, None, expected, Rename);
      FreshTokenIsFresh(disk.files, destination, token);
      var occupied := Exists(destination);
      if occupied { return Err(DestinationUnavailable, None), entry; }
      var sameVolume := SameVolume(source, destination);
      if sameVolume.Bad? {
        return Err(if sameVolume.kind.StillHeld? then SourceLocked else DestinationUnavailable, None), entry;
      }
      if sameVolume.value {
        var preHash := Hash(source);
        if preHash.Bad? { return Err(SourceFailure(preHash.kind), None), entry; }
        if preHash.value != expected { return Err(FileChanged, None), entry; }
        var planned := CreateReceipt(item, PlannedReceipt(item, direction, source, destination, None, preHash.value, Rename));
        if planned.Err? { return planned, entry; }
        r, entry := SameVolumeTransfer(planned.value);
        return;
      }
      var locked, identity := HoldSource(source, expected);
      if locked.Err? { return Err(locked.code, None), entry; }
      var temporary := TemporaryPath(destination, token);
      TemporaryIsNotDestination(destination, token);
      TemporaryIsBeside(destination, token);
      var planned := CreateReceipt(item,
        PlannedReceipt(item, direction, source, destination, Some(temporary), expected, VerifiedCopy));
      if planned.Err? { return planned, entry; }
      r, entry := CrossVolumeTransfer(planned.value, identity, locked.value);
    }

    /** Holds the source, and makes sure it is the document expected. */
    method HoldSource(source: Path, expected: Digest) returns (r: Result<LockedFile>, identity: nat)
      requires held == {} && expected.Sha256?
      modifies `alive, `held
      ensures alive ==> old(alive)
      ensures faultless ==> alive == old(alive)
      ensures r.Ok? ==> alive && Holds(disk.files, source, expected) && r.value.path == source && held == {source}
      ensures r.Ok? && faultless ==> identity == disk.files[source].identity
      ensures r.Err? ==> r.receipt.None?
      ensures faultless && alive && source in disk.files ==>
        if source in gripped then r == Err(SourceLocked, None)
        else if Holds(disk.files, source, expected) then r.Ok?
        else r == Err(FileChanged, None)
    {
      identity := 0;
      var locked := LockForDelete(source);
      if locked.Bad? { return Err(SourceFailure(locked.kind), None), 0; }
      var before := Identity(locked.value);
      if before.Bad? { return Err(FileChanged, None), 0; }
      var preHash := Hash(source);
      if preHash.Bad? || preHash.value != expected { return Err(FileChanged, None), 0; }
      r, identity := Ok(locked.value), before.value;
    }

    /** Finds the first free name in the destination's folder. */
    method AvailableDestination(requested: Path) returns (destination: Path, ghost probes: nat)
      modifies `alive
      ensures alive ==> old(alive)
      ensures faultless ==> alive == old(alive)
      ensures 1 <= probes <= |disk.files| + 1
      ensures destination == Candidate(requested, probes) && destination.folder == requested.folder
      ensures forall i {:trigger Candidate(requested, i)} :: 1 <= i < probes ==> Candidate(requested, i) in disk.files
      ensures alive ==> destination !in disk.files
    {
      var index := 1;
      while true
        invariant 1 <= index
        invariant alive ==> old(alive)
        invariant faultless ==> alive == old(alive)
        invariant forall i {:trigger Candidate(requested, i)} :: 1 <= i < index ==> Candidate(requested, i) in disk.files
        decreases |disk.files| + 1 - index
      {
        TakenNamesAreFiles(requested, disk.files.Keys, index - 1);
        assert |disk.files.Keys| == |disk.files|;
        destination := Candidate(requested, index);
        var taken := Exists(destination);
        if !taken {
          return destination, index;
        }
        TakenNamesAreFiles(requested, disk.files.Keys, index);
        index := index + 1;
      }
    }

    /** Files the source under the requested name or the first free one after it. */
    method Apply(item: nat, source: Path, requested: Path, expected: Digest, token: string)
      returns (r: Result<Receipt>, ghost entry: Receipt, ghost probes: nat)
      requires Ready() && item == subject && held == {} && expected.Sha256?
      requires FreshToken(disk.files, token)
      modifies `alive, `held, disk, store.database
      ensures Ready() && held == {}
      ensures alive ==> old(alive)
      ensures faultless ==> alive == old(alive)
      ensures 1 <= probes <= |old(disk.files)| + 1
      ensures forall i {:trigger Candidate(requested, i)} :: 1 <= i < probes ==> Candidate(requested, i) in old(disk.files)
      ensures r.Ok? || r.receipt.Some? ==>
        && Describes(entry, item, OperationDirection.Apply, source, Candidate(requested, probes), expected, token)
        && Holds(old(disk.files), source, expected) && Candidate(requested, probes) !in old(disk.files)
        && HoldsNothing(old(disk.files), entry.temporary)
        && Transferred(old(disk.files), old(alive), entry, r, entry)
      ensures r.Err? && r.receipt.None? ==>
        && disk.files == old(disk.files) && disk.log == old(disk.log)
        && (Entitled(old(Tables()), store.session, item, OperationDirection.Apply) ==> Idle(old(Tables()), Tables(), item, OperationDirection.Apply))
      ensures healthy && alive && !old(Tables()).HasUnfinished(item)
              && Entitled(old(Tables()), store.session, item, OperationDirection.Apply) ==>
                (r.Ok? <==> Holds(old(disk.files), source, expected))
      ensures sound && barred && alive && !old(Tables()).HasUnfinished(item)
              && Entitled(old(Tables()), store.session, item, OperationDirection.Apply) ==>
                (r.Ok? || r.receipt.Some? <==> Holds(old(disk.files), source, expected))
    {
      var destination;
      destination, probes := AvailableDestination(requested);
      r, entry := Transfer(item, OperationDirection.Apply, source, destination, expected, token);
    }

    /** Moves a filed document back to where it came from. Only the item's newest
        receipt, a completed apply the caller knows exactly, can be undone, and
        only onto a free name. */
    method Undo(item: nat, applied: Receipt, token: string)
      returns (r: Result<Receipt>, ghost entry: Receipt)
      requires Ready() && item == subject && held == {}
      requires applied.post.Some? ==> applied.post.value.Sha256?
      requires FreshToken(disk.files, token)
      modifies `alive, `held, disk, store.database
      ensures Ready() && held == {}
      ensures alive ==> old(alive)
      ensures faultless ==> alive == old(alive)
      ensures r.Ok? || r.receipt.Some? ==>
        && applied.post.Some? && applied.stage.Complete? && applied.direction.Apply? && applied.item == item
        && Describes(entry, item, OperationDirection.Undo, applied.destination, applied.source, applied.post.value, token)
        && Holds(old(disk.files), applied.destination, applied.post.value) && applied.source !in old(disk.files)
        && HoldsNothing(old(disk.files), entry.temporary)
        && Transferred(old(disk.files), old(alive), entry, r, entry)
      ensures r.Err? && r.receipt.None? ==>
        && disk.files == old(disk.files) && disk.log == old(disk.log)
        && (Entitled(old(Tables()), store.session, item, OperationDirection.Undo) ==> Idle(old(Tables()), Tables(), item, OperationDirection.Undo))
      ensures healthy && alive && Entitled(old(Tables()), store.session, item, OperationDirection.Undo)
              && !old(Tables()).HasUnfinished(item) && NewestReceipt(old(Tables()), item) == Some(applied)
              && applied.direction.Apply? && applied.stage.Complete? && applied.post.Some? ==>
                (r.Ok? <==> applied.source !in old(disk.files)
                            && Holds(old(disk.files), applied.destination, applied.post.value))
      ensures faultless && alive && Entitled(old(Tables()), store.session, item, OperationDirection.Undo) ==>
        var known := NewestReceipt(old(Tables()), item) == Some(applied) && applied.direction.Apply? && applied.stage.Complete?;
        && (!known ==> r == Err(StateConflict, None))
        && (known && applied.source in old(disk.files) ==> r == Err(DestinationUnavailable, None))
        && (known && applied.source !in old(disk.files) && applied.post.None? ==> r == Err(InvalidData, None))
    {
      hide NewestReceipt;
      entry := applied;
      var problem := Undoable(item, applied);
      if problem.Some? { return Err(problem.value, None), entry; }
      r, entry := Transfer(item, OperationDirection.Undo, applied.destination, applied.source, applied.post.value, token);
    }

    /** Why a filing cannot be taken back, if it cannot. */
    method Undoable(item: nat, applied: Receipt) returns (problem: Option<ErrorCode>)
      requires Ready() && item == subject
      modifies `alive, store.database
      ensures Ready()
      ensures alive ==> old(alive)
      ensures faultless ==> alive == old(alive)
      ensures problem.None? ==>
        && applied.post.Some? && applied.stage.Complete? && applied.direction.Apply? && applied.item == item
        && (alive ==> applied.source !in disk.files)
      ensures Entitled(old(Tables()), store.session, item, OperationDirection.Undo) ==>
        && Idle(old(Tables()), Tables(), item, OperationDirection.Undo)
        && Tables().HasUnfinished(item) == old(Tables()).HasUnfinished(item)
      ensures faultless && alive && Entitled(old(Tables()), store.session, item, OperationDirection.Undo) ==>
        problem ==
          if NewestReceipt(old(Tables()), item) != Some(applied) || !applied.direction.Apply? || !applied.stage.Complete? then
            Some(StateConflict)
          else if applied.source in disk.files then Some(DestinationUnavailable)
          else if applied.post.None? then Some(InvalidData)
          else None
    {
      hide Valid, Recorded, Stands, Undisturbed, NewestReceipt;
      var durable := LoadReceipt(item);
      if Entitled(old(Tables()), store.session, item, OperationDirection.Undo) {
        EntitlementIsRespected(old(Tables()), Tables(), store.session, item, OperationDirection.Undo);
      }
      if durable.Err? { return Some(durable.code); }
      if durable.value.None? { return Some(StateConflict); }
      if durable.value.value != applied || applied.item != item || !applied.direction.Apply? || !applied.stage.Complete? {
        return Some(StateConflict);
      }
      var occupied := Exists(applied.source);
      if occupied { return Some(DestinationUnavailable); }
      if applied.post.None? { return Some(InvalidData); }
      problem := None;
    }

    method LoadReceipt(item: nat) returns (r: Result<Option<Receipt>>)
      requires Ready() && item == subject
      modifies `alive, store.database
      ensures Ready() && Respected(old(Tables()), Tables(), store.session, item)
      ensures alive ==> old(alive)
      ensures faultless ==> alive == old(alive)
      ensures r.Ok? ==> alive && r.value == NewestReceipt(Tables(), item)
      ensures r.Err? ==> r.receipt.None?
      ensures faultless && alive ==> r.Ok?
    {
      MayDie();
      OthersAct();
      var fails := Fails();
      if !alive || fails { return Err(DatabaseUnavailable, None); }
      var newest := store.LoadReceipt(item);
      r := Ok(newest);
    }

    // ---- reconciliation -----------------------------------------------------

    /** The row is settled: `entry` finished, the disk its proof. */
    ghost predicate SettledAs(before: Files, r: Receipt, entry: Receipt)
      reads this, disk, store.database
    {
      && Ready() && SameOperation(r, entry) && entry.stage.Finished()
      && (if entry.stage.Complete? then DestinationOnly(disk.files, entry) else SourceOnly(disk.files, entry))
      && Suits(entry) && SameElsewhere(before, disk.files, r)
      && Closed(Tables(), entry,
                if entry.stage.Complete? then StatusAfter(entry.direction) else StatusBefore(entry.direction))
    }

    /** Proves that a file held open holds the document, and is still the same file. */
    method ProveHeld(lock: LockedFile, receipt: Receipt) returns (proved: bool)
      modifies `alive
      ensures alive ==> old(alive)
      ensures faultless ==> alive == old(alive)
      ensures proved ==> alive && lock.path in disk.files
      ensures proved && receipt.pre.Sha256? ==> Holds(disk.files, lock.path, receipt.pre)
      ensures faultless && lock.path !in gripped && alive && Holds(disk.files, lock.path, receipt.pre) ==> proved
    {
      var identity := Identity(lock);
      if identity.Bad? { return false; }
      var hash := Hash(lock.path);
      if hash.Bad? { return false; }
      var identityAfter := Identity(lock);
      proved := identityAfter.Good? && hash.value == receipt.pre && identityAfter.value == identity.value;
    }

    /** Locks a file and proves it holds the document. */
    method VerifyHeld(p: Path, receipt: Receipt, code: ErrorCode) returns (r: Result<LockedFile>)
      requires p !in held
      modifies `alive, `held
      ensures alive ==> old(alive)
      ensures faultless ==> alive == old(alive)
      ensures r.Ok? ==> alive && r.value.path == p && held == old(held) + {p} && p in disk.files
      ensures r.Ok? && receipt.pre.Sha256? ==> Holds(disk.files, p, receipt.pre)
      ensures r.Err? ==> r == Err(code, Some(receipt)) && old(held) <= held <= old(held) + {p}
      ensures faultless && alive && Holds(disk.files, p, receipt.pre) && p !in old(held) ==> (r.Ok? <==> p !in gripped)
    {
      var locked := LockForDelete(p);
      if locked.Bad? { return Err(code, Some(receipt)); }
      var proved := ProveHeld(locked.value, receipt);
      r := if proved then Ok(locked.value) else Err(code, Some(receipt));
    }

    method VerifyReconciledSource(receipt: Receipt) returns (r: Result<LockedFile>)
      requires receipt.source !in held
      modifies `alive, `held
      ensures alive ==> old(alive)
      ensures faultless ==> alive == old(alive)
      ensures r.Ok? ==> alive && r.value.path == receipt.source && held == old(held) + {receipt.source}
                        && receipt.source in disk.files
      ensures r.Ok? && receipt.pre.Sha256? ==> Holds(disk.files, receipt.source, receipt.pre)
      ensures r.Err? ==> r == Err(FileChanged, Some(receipt))
      ensures faultless && alive && Holds(disk.files, receipt.source, receipt.pre) ==> (r.Ok? <==> receipt.source !in gripped)
    {
      r := VerifyHeld(receipt.source, receipt, FileChanged);
    }

    method VerifyReconciledDestination(receipt: Receipt) returns (r: Result<LockedFile>)
      requires receipt.destination !in held
      modifies `alive, `held
      ensures alive ==> old(alive)
      ensures faultless ==> alive == old(alive)
      ensures r.Ok? ==> alive && r.value.path == receipt.destination && held == old(held) + {receipt.destination}
                        && receipt.destination in disk.files
                        && (receipt.post.None? || receipt.post == Some(receipt.pre))
      ensures r.Ok? && receipt.pre.Sha256? ==> Holds(disk.files, receipt.destination, receipt.pre)
      ensures r.Err? ==> r == Err(MoveVerificationFailed, Some(receipt))
      ensures faultless && receipt.destination !in gripped && alive && Holds(disk.files, receipt.destination, receipt.pre) ==>
                (r.Ok? <==> receipt.post.None? || receipt.post == Some(receipt.pre))
    {
      if receipt.post.Some? && receipt.post.value != receipt.pre { return Err(MoveVerificationFailed, Some(receipt)); }
      r := VerifyHeld(receipt.destination, receipt, MoveVerificationFailed);
    }

    /** Removes what a copy left under its temporary name, source in hand. */
    method CleanupTemporary(receipt: Receipt, ghost mine: bool) returns (r: Result<()>)
      requires Ready() && Grip(mine, receipt)
      requires mine ==> Suits(receipt) && SourceOnly(disk.files, receipt)
      requires held == {receipt.source}
      modifies `alive, `held, disk, store.database
      ensures Ready() && Grip(mine, receipt)
      ensures alive ==> old(alive)
      ensures faultless ==> alive == old(alive)
      ensures mine ==> Suits(receipt) && SourceOnly(disk.files, receipt)
                       && SameElsewhere(old(disk.files), disk.files, receipt)
                       && Swept(old(disk.files), disk.files, receipt)
      ensures !mine ==> disk.files == old(disk.files) && disk.log == old(disk.log)
      ensures r.Ok? && alive ==> HoldsNothing(disk.files, receipt.temporary)
      ensures r.Err? ==> r.receipt == Some(receipt)
      ensures disk.fitting && sound && alive && mine ==>
        if receipt.temporaryExists && receipt.temporary.Some? && receipt.temporary.value !in old(disk.files) then
          r == Err(StateConflict, Some(receipt))
        else if barred && receipt.temporary.Some? && receipt.temporary.value in old(disk.files) then
          r == Err(SourceDeleteFailed, Some(receipt))
        else r.Ok?
      ensures faultless && alive && receipt.temporary.Some? && receipt.temporary.value in old(disk.files)
              && receipt.temporary.value in gripped && receipt.temporary != Some(receipt.source) ==>
                r == Err(MoveVerificationFailed, Some(receipt))
    {
      hide Valid, Holding, Recorded, Stands;
      if receipt.temporary.None? { return Ok(()); }
      var temporary := receipt.temporary.value;
      var survives := Exists(temporary);
      if !survives {
        if receipt.temporaryExists { return Err(StateConflict, Some(receipt)); }
        return Ok(());
      }
      var locked := LockForDelete(temporary);
      if locked.Bad? { return Err(MoveVerificationFailed, Some(receipt)); }
      if !receipt.stage.Planned? && !receipt.stage.Copied? {
        var proved := ProveHeld(locked.value, receipt);
        if !proved { return Err(MoveVerificationFailed, Some(receipt)); }
      }
      var renewed := RenewOperationLease(receipt, receipt.stage, mine, receipt);
      if renewed.Err? { return Err(StateConflict, Some(receipt)); }
      var deleted := DeleteLocked(locked.value, receipt);
      if deleted.Bad? { return Err(SourceDeleteFailed, Some(receipt)); }
      r := Ok(());
    }

    method ResolveRollback(receipt: Receipt, expected: OperationStage, ghost mine: bool) returns (r: Result<()>)
      requires Ready() && Grip(mine, receipt)
      requires mine ==> Suits(receipt) && receipt.pre.Sha256?
      requires mine && alive ==> SourceOnly(disk.files, receipt) && HoldsNothing(disk.files, receipt.temporary)
      modifies `alive, disk`log, store.database
      ensures Ready()
      ensures alive ==> old(alive)
      ensures faultless ==> alive == old(alive)
      ensures r.Ok? ==> mine && alive && Closed(Tables(), AsRolledBack(receipt), StatusBefore(receipt.direction))
                        && Suits(AsRolledBack(receipt))
      ensures r.Err? ==> Grip(mine, receipt) && r.receipt.None? && disk.log == old(disk.log)
      ensures sound && alive && mine && expected == receipt.stage && !expected.Published? && !expected.Complete? ==> r.Ok?
    {
      hide Valid, Recorded, Stands, Closed;
      var go := Reach(mine, receipt);
      if !go { return Err(DatabaseUnavailable, None); }
      var now: int := *;
      ResolveRollbackCloses(Tables(), store.session, now, expected, mine, receipt);
      RolledBackStands(Tables(), store.session, now, subject, receipt.id, expected, standing);
      var reply := store.ResolveRollback(now, receipt.item, receipt.id, expected);
      if reply.Refused? { return Err(reply.code, None); }
      Note(Journaled, receipt, AsRolledBack(receipt));
      r := Ok(());
    }

    method ResolveVerified(receipt: Receipt, expected: OperationStage, ghost mine: bool) returns (r: Result<()>)
      requires Ready() && Grip(mine, receipt)
      requires mine ==> Suits(receipt) && receipt.pre.Sha256?
      requires mine && alive ==> DestinationOnly(disk.files, receipt) && (disk.fitting ==> HoldsNothing(disk.files, receipt.temporary))
      modifies `alive, disk`log, store.database
      ensures Ready()
      ensures alive ==> old(alive)
      ensures faultless ==> alive == old(alive)
      ensures r.Ok? ==> mine && alive && Closed(Tables(), AsComplete(receipt), StatusAfter(receipt.direction))
                        && Suits(AsComplete(receipt))
      ensures r.Err? ==> Grip(mine, receipt) && r.receipt.None? && disk.log == old(disk.log)
      ensures sound && alive && mine && expected == receipt.stage ==>
                if expected.RollbackRequired? || expected.RolledBack? then r == Err(InvalidTransition, None) else r.Ok?
    {
      hide Valid, Recorded, Stands, Closed;
      var go := Reach(mine, receipt);
      if !go { return Err(DatabaseUnavailable, None); }
      var now: int := *;
      ResolveVerifiedCloses(Tables(), store.session, now, expected, mine, receipt);
      VerifiedStands(Tables(), store.session, now, subject, receipt.id, expected, standing);
      var reply := store.ResolveVerified(now, receipt.item, receipt.id, expected);
      if reply.Refused? { return Err(reply.code, None); }
      Note(Journaled, receipt, AsComplete(receipt));
      r := Ok(());
    }

    /** Nothing fails but the deletion that settling this takes: every deletion is refused,
        or some other program keeps the original of a published copy open. */
    predicate Hindered(files: Files, receipt: Receipt) {
      || (sound && barred && NeedsDeletion(files, receipt))
      || (faultless && gripped == {receipt.source} && receipt.destination in files && NeedsDeletion(files, receipt))
    }

    /** How a reconciliation of `receipt`, begun on disk `before`, ends. Owned by
        this session, it settles the row or leaves disk and receipt fitting;
        with nothing failing, it does what the verdict says. Owned by another,
        it touches nothing. */
    ghost predicate Reconciled(before: Files, wasAlive: bool, mine: bool, receipt: Receipt, r: Result<()>, entry: Receipt)
      reads this, disk, store.database
    {
      && Ready() && SameOperation(receipt, entry)
      && (r.Ok? ==> mine && alive && SettledAs(before, receipt, entry))
      && (r.Err? ==> Grip(mine, entry))
      && (r.Err? && r.receipt.Some? ==> SameOperation(entry, r.receipt.value))
      && (mine ==> Suits(entry) && SameElsewhere(before, disk.files, receipt) && Swept(before, disk.files, receipt))
      && (!mine ==> disk.files == before)
      && (mine && disk.fitting && wasAlive && Hindered(before, receipt) ==>
            && r.Err? && r.receipt.Some? && r.code == SourceDeleteFailed
            && (receipt.destination in before ==> entry.stage.Published?))
      && (mine && disk.fitting && sound && wasAlive && !(barred && NeedsDeletion(before, receipt)) ==>
            match VerdictOf(before, receipt)
            case Completes => r.Ok? && entry.stage.Complete?
            case RollsBack => r.Ok? && entry.stage.RolledBack?
            case Parks => r.Err? && r.receipt.Some? && r.code == ParkingCode(before, receipt)
            case Sticks => r == Err(InvalidTransition, None) && entry == receipt)
    }

    method ReconcileRolledBack(receipt: Receipt, ghost mine: bool) returns (r: Result<()>, ghost entry: Receipt)
      requires Ready() && Grip(mine, receipt) && held == {} && receipt.stage.RolledBack?
      requires mine ==> Suits(receipt) && receipt.pre.Sha256?
      modifies `alive, `held, disk, store.database
      ensures Reconciled(old(disk.files), old(alive), mine, receipt, r, entry)
      ensures alive ==> old(alive)
      ensures faultless ==> alive == old(alive)
      ensures !mine ==> disk.log == old(disk.log)
      ensures faultless && old(alive) && receipt.destination in old(disk.files) ==> r == Err(StateConflict, Some(receipt))
    {
      hide Valid, Holding, Recorded, Stands, Closed;
      entry := receipt;
      var occupied := Exists(receipt.destination);
      if occupied { return Err(StateConflict, Some(receipt)), entry; }
      var source := VerifyReconciledSource(receipt);
      if source.Err? { return Err(source.code, source.receipt), entry; }
      var cleaned := CleanupTemporary(receipt, mine);
      if cleaned.Err? { return cleaned, entry; }
      r := ResolveRollback(receipt, RolledBack, mine);
      if r.Ok? { entry := AsRolledBack(receipt); }
    }

    method ReconcileComplete(receipt: Receipt, ghost mine: bool) returns (r: Result<()>, ghost entry: Receipt)
      requires Ready() && Grip(mine, receipt) && held == {} && receipt.stage.Complete?
      requires mine ==> Suits(receipt) && receipt.pre.Sha256?
      modifies `alive, `held, disk, store.database
      ensures Reconciled(old(disk.files), old(alive), mine, receipt, r, entry)
      ensures alive ==> old(alive)
      ensures faultless ==> alive == old(alive)
      ensures !mine ==> disk.log == old(disk.log)
      ensures faultless && old(alive) && receipt.source in old(disk.files) ==> r == Err(StateConflict, Some(receipt))
    {
      hide Valid, Holding, Recorded, Stands;
      entry := receipt;
      var occupied := Exists(receipt.source);
      if occupied { return Err(StateConflict, Some(receipt)), entry; }
      var destination := VerifyReconciledDestination(receipt);
      if destination.Err? { return Err(destination.code, destination.receipt), entry; }
      r := ResolveVerified(receipt, Complete, mine);
      Drop(destination.value);
    }

    method ReconcilePublished(receipt: Receipt, ghost mine: bool) returns (r: Result<()>, ghost entry: Receipt)
      requires Ready() && Grip(mine, receipt) && held == {} && receipt.stage.Published?
      requires mine ==> Suits(receipt) && receipt.pre.Sha256?
      modifies `alive, `held, disk, store.database
      ensures Reconciled(old(disk.files), old(alive), mine, receipt, r, entry)
      ensures alive ==> old(alive)
      ensures faultless ==> alive == old(alive)
      ensures !mine ==> disk.log == old(disk.log)
    {
      hide Valid, Holding, Recorded, Stands;
      entry := receipt;
      var destination := VerifyReconciledDestination(receipt);
      if destination.Err? { return Err(destination.code, destination.receipt), entry; }
      var removed := RemoveOriginal(receipt, destination.value, mine);
      if removed.Err? { return removed, entry; }
      r := ResolveVerified(receipt, Published, mine);
      Drop(destination.value);
      if r.Ok? { entry := AsComplete(receipt); }
    }

    /** The destination is proved and held; the original, if it is still there, goes. */
    method RemoveOriginal(receipt: Receipt, destination: LockedFile, ghost mine: bool) returns (r: Result<()>)
      requires Ready() && Grip(mine, receipt) && receipt.stage.Published?
      requires mine ==> Suits(receipt) && receipt.pre.Sha256?
      requires destination.path == receipt.destination && held == {receipt.destination}
      requires mine && alive ==> Holds(disk.files, receipt.destination, receipt.pre)
      modifies `alive, `held, disk, store.database
      ensures Ready() && Grip(mine, receipt)
      ensures alive ==> old(alive)
      ensures faultless ==> alive == old(alive)
      ensures mine ==> Suits(receipt) && SameElsewhere(old(disk.files), disk.files, receipt)
                       && Swept(old(disk.files), disk.files, receipt)
      ensures !mine ==> disk.files == old(disk.files) && disk.log == old(disk.log)
      ensures r.Ok? && alive ==> receipt.source !in disk.files && (mine ==> DestinationOnly(disk.files, receipt))
      ensures r.Err? ==> r.receipt == Some(receipt)
      ensures disk.fitting && faultless && receipt.destination !in gripped && alive && mine ==>
        if (barred || receipt.source in gripped) && receipt.source in old(disk.files) then
          r == Err(SourceDeleteFailed, Some(receipt))
        else r.Ok?
    {
      hide Valid, Holding, Recorded, Stands;
      var destinationIdentity := Identity(destination);
      if destinationIdentity.Bad? { return Err(MoveVerificationFailed, Some(receipt)); }
      var original := Exists(receipt.source);
      if !original { return Ok(()); }
      r := DeletePublishedSource(receipt, destination, destinationIdentity.value, mine);
    }

    /** Is the original the document still, and the destination the file that was proved? */
    method PublishedUnchanged(receipt: Receipt, source: LockedFile, destination: LockedFile, destinationIdentity: nat)
      returns (problem: Option<ErrorCode>)
      modifies `alive
      ensures alive ==> old(alive)
      ensures faultless ==> alive == old(alive)
      ensures problem.None? && receipt.pre.Sha256? ==> alive && Holds(disk.files, source.path, receipt.pre)
      ensures problem.Some? ==> problem.value.FileChanged? || problem.value.MoveVerificationFailed?
      ensures faultless && alive && source.path !in gripped && Holds(disk.files, source.path, receipt.pre)
              && destination.path in disk.files && destinationIdentity == disk.files[destination.path].identity
              ==> problem.None?
    {
      var sourceIdentity := Identity(source);
      if sourceIdentity.Bad? { return Some(FileChanged); }
      var sourceHash := Hash(source.path);
      if sourceHash.Bad? { return Some(FileChanged); }
      var sourceIdentityAfter := Identity(source);
      if sourceIdentityAfter.Bad? { return Some(FileChanged); }
      var destinationIdentityAfter := Identity(destination);
      if destinationIdentityAfter.Bad? { return Some(MoveVerificationFailed); }
      if sourceHash.value != receipt.pre || sourceIdentityAfter.value != sourceIdentity.value
         || destinationIdentityAfter.value != destinationIdentity {
        return Some(FileChanged);
      }
      problem := None;
    }

    method DeletePublishedSource(receipt: Receipt, destination: LockedFile, destinationIdentity: nat, ghost mine: bool)
      returns (r: Result<()>)
      requires Ready() && Grip(mine, receipt) && receipt.stage.Published?
      requires mine ==> Suits(receipt) && receipt.pre.Sha256? && (alive ==> receipt.source in disk.files)
      requires destination.path == receipt.destination && held == {receipt.destination}
      requires mine && alive ==> Holds(disk.files, receipt.destination, receipt.pre)
      requires faultless && alive && mine ==> destinationIdentity == disk.files[destination.path].identity
      modifies `alive, `held, disk, store.database
      ensures Ready() && Grip(mine, receipt)
      ensures alive ==> old(alive)
      ensures faultless ==> alive == old(alive)
      ensures mine ==> Suits(receipt) && SameElsewhere(old(disk.files), disk.files, receipt)
                       && Swept(old(disk.files), disk.files, receipt)
      ensures !mine ==> disk.files == old(disk.files) && disk.log == old(disk.log)
      ensures r.Ok? ==> mine && alive && DestinationOnly(disk.files, receipt)
      ensures r.Err? ==> r.receipt == Some(receipt)
      ensures disk.fitting && faultless && receipt.destination !in gripped && alive && mine ==>
        if (barred || receipt.source in gripped) && receipt.source in old(disk.files) then
          r == Err(SourceDeleteFailed, Some(receipt))
        else r.Ok?
    {
      hide Valid, Holding, Recorded, Stands;
      var source := LockForDelete(receipt.source);
      if source.Bad? { return Err(SourceDeleteFailed, Some(receipt)); }
      var problem := PublishedUnchanged(receipt, source.value, destination, destinationIdentity);
      if problem.Some? { return Err(problem.value, Some(receipt)); }
      var renewed := RenewOperationLease(receipt, Published, mine, receipt);
      if renewed.Err? { return Err(StateConflict, Some(receipt)); }
      var deleted := DeleteLocked(source.value, receipt);
      if deleted.Bad? { return Err(SourceDeleteFailed, Some(receipt)); }
      r := Ok(());
    }

    method TemporarySurvives(receipt: Receipt) returns (survives: bool)
      modifies `alive
      ensures alive ==> old(alive)
      ensures faultless ==> alive == old(alive)
      ensures alive ==> (survives <==> receipt.temporary.Some? && receipt.temporary.value in disk.files)
    {
      survives := false;
      if receipt.temporary.Some? { survives := Exists(receipt.temporary.value); }
    }

    method ReconcileIncomplete(receipt: Receipt, ghost mine: bool) returns (r: Result<()>, ghost entry: Receipt)
      requires Ready() && Grip(mine, receipt) && held == {}
      requires !receipt.stage.Finished() && !receipt.stage.Published?
      requires mine ==> Suits(receipt) && receipt.pre.Sha256?
      modifies `alive, `held, disk, store.database
      ensures Reconciled(old(disk.files), old(alive), mine, receipt, r, entry)
      ensures alive ==> old(alive)
      ensures faultless ==> alive == old(alive)
      ensures !mine ==> disk.log == old(disk.log)
    {
      hide Valid, Holding, Recorded, Stands;
      entry := receipt;
      var sourceExists := Exists(receipt.source);
      var destinationExists := Exists(receipt.destination);
      if sourceExists && !destinationExists {
        r, entry := FinishRollback(receipt, mine);
        return;
      }
      if !sourceExists && destinationExists {
        var destination := VerifyReconciledDestination(receipt);
        if destination.Err? { return Err(destination.code, destination.receipt), entry; }
        r := ResolveVerified(receipt, receipt.stage, mine);
        if r.Ok? { entry := AsComplete(receipt); }
        return;
      }
      if sourceExists && destinationExists && receipt.kind.VerifiedCopy? && receipt.stage.Verified? {
        var survives := TemporarySurvives(receipt);
        if !survives {
          r, entry := CatchUpPublication(receipt, mine);
          return;
        }
      }
      r := Err(ReconciliationRequired, Some(receipt));
    }

    /** Only the source is there: prove it, clear the temporary, roll back. */
    method FinishRollback(receipt: Receipt, ghost mine: bool) returns (r: Result<()>, ghost entry: Receipt)
      requires Ready() && Grip(mine, receipt) && held == {}
      requires !receipt.stage.Finished() && !receipt.stage.Published?
      requires mine ==> Suits(receipt) && receipt.pre.Sha256?
      requires mine && alive ==> receipt.source in disk.files && receipt.destination !in disk.files
      modifies `alive, `held, disk, store.database
      ensures Reconciled(old(disk.files), old(alive), mine, receipt, r, entry)
      ensures alive ==> old(alive)
      ensures faultless ==> alive == old(alive)
      ensures !mine ==> disk.log == old(disk.log)
    {
      hide Valid, Holding, Recorded, Stands;
      entry := receipt;
      var source := VerifyReconciledSource(receipt);
      if source.Err? { return Err(source.code, source.receipt), entry; }
      var cleaned := CleanupTemporary(receipt, mine);
      if cleaned.Err? { return cleaned, entry; }
      r := ResolveRollback(receipt, receipt.stage, mine);
      if r.Ok? { entry := AsRolledBack(receipt); }
    }

    /** The rename into place landed and the journal is one write behind. */
    method CatchUpPublication(receipt: Receipt, ghost mine: bool) returns (r: Result<()>, ghost entry: Receipt)
      requires Ready() && Grip(mine, receipt) && held == {}
      requires receipt.kind.VerifiedCopy? && receipt.stage.Verified?
      requires mine ==> Suits(receipt) && receipt.pre.Sha256?
      requires mine && alive ==> receipt.destination in disk.files
      modifies `alive, `held, disk, store.database
      ensures Reconciled(old(disk.files), old(alive), mine, receipt, r, entry)
      ensures alive ==> old(alive)
      ensures faultless ==> alive == old(alive)
      ensures !mine ==> disk.log == old(disk.log)
    {
      hide Valid, Holding, Recorded, Stands;
      entry := receipt;
      var destination := VerifyReconciledDestination(receipt);
      if destination.Err? { return Err(destination.code, destination.receipt), entry; }
      Drop(destination.value);
      var publication := receipt.(destinationExists := true, temporaryExists := false, stage := Published);
      var published := UpdateReceipt(Verified, publication, mine, receipt);
      if published.Err? { return Err(StateConflict, Some(receipt)), entry; }
      r, entry := ReconcilePublished(published.value, mine);
    }

    method LoadActiveReceipt(item: nat) returns (r: Result<Option<Receipt>>)
      requires Ready() && item == subject
      modifies `alive, store.database
      ensures Ready() && Respected(old(Tables()), Tables(), store.session, item)
      ensures alive ==> old(alive)
      ensures faultless ==> alive == old(alive)
      ensures r.Ok? ==> alive && r.value == ActiveReceipt(Tables(), item)
      ensures r.Err? ==> r.receipt.None?
      ensures faultless && alive ==> r.Ok?
    {
      MayDie();
      OthersAct();
      var fails := Fails();
      if !alive || fails { return Err(DatabaseUnavailable, None); }
      var active := store.LoadActiveReceipt(item);
      r := Ok(active);
    }

    /** An epoch that ended before it journalled anything. */
    method ResolveEmpty(item: nat) returns (r: Result<()>)
      requires Ready() && item == subject
      modifies `alive, store.database
      ensures Ready()
      ensures alive ==> old(alive)
      ensures faultless ==> alive == old(alive)
      ensures r.Ok? ==> alive && Emptied(old(Tables()), Tables(), store.session, item)
      ensures r.Err? ==> Respected(old(Tables()), Tables(), store.session, item) && r.receipt.None?
      ensures sound && alive && Empty(old(Tables()), store.session, item) ==> r.Ok?
    {
      MayDie();
      OthersAct();
      var fails := Fails();
      if !alive || fails { return Err(DatabaseUnavailable, None); }
      var now: int := *;
      ResolveEmptyReleases(old(Tables()), Tables(), store.session, now, item);
      EmptiedStands(Tables(), store.session, now, subject, standing);
      var reply := store.ResolveEmpty(now, item);
      r := if reply.Refused? then Err(reply.code, None) else Ok(());
    }

    /** Hands an operation reconciliation could not settle to a person. An error
        without a receipt parks nothing. */
    method ParkUnsettled(code: ErrorCode, receipt: Option<Receipt>, ghost mine: bool, ghost entry: Receipt)
      requires Ready() && Grip(mine, entry)
      requires receipt.Some? ==> SameOperation(entry, receipt.value)
      modifies `alive, store.database
      ensures Ready()
      ensures alive ==> old(alive)
      ensures faultless ==> alive == old(alive)
      ensures mine ==> Mine(entry) || ParkedWith(Tables(), entry, code)
      ensures receipt.None? ==> Grip(mine, entry)
      ensures !mine ==> !Applies(Tables(), store.session, subject)
      ensures faultless && alive && mine && receipt.Some? ==> ParkedWith(Tables(), entry, code)
    {
      if receipt.None? { return; }
      var go := Reach(mine, entry);
      if !go { return; }
      ParkKeeps(Tables(), store.session, mine, entry, code);
      ParkingStands(Tables(), store.session, subject, receipt.value.id, code, standing);
      var _ := store.ParkForReview(receipt.value.item, receipt.value.id, code);
    }

    /** The branches of a reconciliation, by the stage last journalled. */
    method ReconcileReceipt(receipt: Receipt, ghost mine: bool) returns (r: Result<()>, ghost entry: Receipt)
      requires Ready() && Grip(mine, receipt) && held == {}
      requires mine ==> Suits(receipt) && receipt.pre.Sha256?
      modifies `alive, `held, disk, store.database
      ensures Reconciled(old(disk.files), old(alive), mine, receipt, r, entry)
      ensures alive ==> old(alive)
      ensures faultless ==> alive == old(alive)
      ensures !mine ==> disk.log == old(disk.log)
    {
      hide Valid, Holding, Recorded, Stands, Reconciled;
      if receipt.stage.RolledBack? {
        r, entry := ReconcileRolledBack(receipt, mine);
      } else if receipt.stage.Published? {
        r, entry := ReconcilePublished(receipt, mine);
      } else if receipt.stage.Complete? {
        r, entry := ReconcileComplete(receipt, mine);
      } else {
        r, entry := ReconcileIncomplete(receipt, mine);
      }
    }

    /** Settles an applying row from what is on disk, or hands it to a person.

        When this session owns the row and the disk fits its receipt: success
        leaves a finished receipt, a disk that fits it, and the matching status;
        failure leaves the receipt bound or kept in review with the disk still
        fitting, so crashing here and reconciling again is safe. With nothing
        failing the outcome is the verdict. When another session owns the row,
        neither the disk nor this session's claim on the row changes. */
    method Reconcile(item: nat) returns (r: Result<()>, ghost entry: Option<Receipt>)
      requires Ready() && item == subject && held == {}
      requires Applies(Tables(), store.session, item) ==> store.session in Tables().sessions
      requires Applies(Tables(), store.session, item) && ActiveReceipt(Tables(), item).Some? ==>
                 ActiveReceipt(Tables(), item).value.pre.Sha256? && Suits(ActiveReceipt(Tables(), item).value)
      modifies `alive, `held, disk, store.database
      ensures Ready() && held == {}
      ensures alive ==> old(alive)
      ensures faultless ==> alive == old(alive)
      ensures !Applies(old(Tables()), store.session, item) ==>
        && r.Err? && disk.files == old(disk.files) && disk.log == old(disk.log)
        && !Applies(Tables(), store.session, item)
      ensures Applies(old(Tables()), store.session, item) && ActiveReceipt(old(Tables()), item).None? ==>
        && disk.files == old(disk.files) && disk.log == old(disk.log)
        && (r.Ok? ==> Emptied(old(Tables()), Tables(), store.session, item))
        && (r.Err? ==> Undisturbed(old(Tables()), Tables(), item))
        && (sound && old(alive) ==> r.Ok?)
      ensures Applies(old(Tables()), store.session, item) && ActiveReceipt(old(Tables()), item).Some? ==>
        var receipt := ActiveReceipt(old(Tables()), item).value;
        && entry.Some? && SameOperation(receipt, entry.value)
        && Suits(entry.value) && SameElsewhere(old(disk.files), disk.files, receipt)
        && Swept(old(disk.files), disk.files, receipt)
        && (r.Ok? ==> SettledAs(old(disk.files), receipt, entry.value))
        && (r.Err? ==> Mine(entry.value) || ParkedWith(Tables(), entry.value, r.code))
        && (disk.fitting && old(alive) && Hindered(old(disk.files), receipt) ==>
              && r.Err? && ParkedWith(Tables(), entry.value, SourceDeleteFailed)
              && (receipt.destination in old(disk.files) ==> entry.value.stage.Published?))
        && (disk.fitting && sound && old(alive) && !(barred && NeedsDeletion(old(disk.files), receipt)) ==>
              match VerdictOf(old(disk.files), receipt)
              case Completes => r.Ok? && entry.value.stage.Complete?
              case RollsBack => r.Ok? && entry.value.stage.RolledBack?
              case Parks => r.Err? && ParkedWith(Tables(), entry.value, ParkingCode(old(disk.files), receipt))
              case Sticks => r == Err(InvalidTransition, None) && entry.value == receipt && Mine(receipt))
    {
      hide Recorded, Stands;
      entry := None;
      ghost var mine := Applies(Tables(), store.session, item);
      ghost var d0 := Tables();
      var loaded := LoadActiveReceipt(item);
      ActiveIsRespected(d0, Tables(), store.session, item);
      if loaded.Err? {
        entry := ActiveReceipt(d0, item);
        return Err(loaded.code, None), entry;
      }
      if loaded.value.None? {
        r := ResolveEmpty(item);
        if r.Err? && mine { UndisturbedTwice(d0, d0, Tables(), item); }
        return;
      }
      var receipt := loaded.value.value;
      ghost var settled;
      r, settled := ReconcileReceipt(receipt, mine);
      entry := Some(settled);
      held := {};
      if r.Err? {
        ParkUnsettled(r.code, r.receipt, mine, settled);
      }
    }
  }

  lemma StatementKeepsSessions(d: Db, s: Session, now: int, call: Call)
    requires PipelineCall(call)
    ensures Perform(d, s, now, call).db.sessions == d.sessions
  {
  }

  lemma OtherBulkCallKeepsSession(d: Db, s: Session, other: Session, now: int, call: Call)
    requires other != s && BulkCall(call)
    ensures s in d.sessions <==> s in Perform(d, other, now, call).db.sessions
  {
  }

  lemma OtherDecisionCallKeepsSession(d: Db, s: Session, other: Session, now: int, call: Call)
    requires other != s && DecisionCall(call)
    ensures s in d.sessions <==> s in Perform(d, other, now, call).db.sessions
  {
  }

  lemma OtherLeaseCallKeepsSession(d: Db, s: Session, other: Session, now: int, call: Call)
    requires other != s && LeaseCall(call)
    ensures s in d.sessions <==> s in Perform(d, other, now, call).db.sessions
  {
  }

  lemma OtherJournalCallKeepsSession(d: Db, s: Session, other: Session, now: int, call: Call)
    requires other != s && JournalCall(call)
    ensures s in d.sessions <==> s in Perform(d, other, now, call).db.sessions
  {
  }

  lemma OtherCallKeepsSession(d: Db, s: Session, other: Session, now: int, call: Call)
    requires other != s
    ensures s in d.sessions <==> s in Perform(d, other, now, call).db.sessions
  {
    hide Perform;
    if PipelineCall(call) {
      StatementKeepsSessions(d, other, now, call);
    } else if BulkCall(call) {
      OtherBulkCallKeepsSession(d, s, other, now, call);
    } else if JournalCall(call) {
      OtherJournalCallKeepsSession(d, s, other, now, call);
    } else if DecisionCall(call) {
      OtherDecisionCallKeepsSession(d, s, other, now, call);
    } else {
      OtherLeaseCallKeepsSession(d, s, other, now, call);
    }
  }

  lemma OtherBulkCallNeverApplies(d: Db, s: Session, other: Session, now: int, call: Call, item: nat)
    requires other != s && item in d.rows && !d.rows[item].status.Applying? && BulkCall(call)
    requires item < d.nextRow
    ensures !Applies(Perform(d, other, now, call).db, s, item)
  {
  }

  lemma OtherEditNeverApplies(d: Db, s: Session, other: Session, now: int, call: Call, item: nat)
    requires other != s && item in d.rows && !d.rows[item].status.Applying?
    requires DecisionCall(call) || LeaseCall(call)
    ensures !Applies(Perform(d, other, now, call).db, s, item)
  {
  }

  /** The pipeline's own statements, whoever makes them, start no operation. */
  lemma PipelineCallNeverApplies(d: Db, s: Session, any: Session, now: int, call: Call, item: nat)
    requires Valid(d) && !Applies(d, s, item) && PipelineCall(call)
    ensures !Applies(Perform(d, any, now, call).db, s, item)
  {
    hide Perform, Valid, DeleteRows;
    PipelineCallEdits(d, any, now, call);
    if call.DoRemoveItem? { DeletingNeverApplies(d, s, call.id, item); }
  }

  lemma DeletingNeverApplies(d: Db, s: Session, id: nat, item: nat)
    requires !Applies(d, s, item)
    ensures !Applies(DeleteRows(d, {id}).db, s, item)
  {
  }

  lemma OtherJournalCallNeverApplies(d: Db, s: Session, other: Session, now: int, call: Call, item: nat)
    requires other != s && item in d.rows && !d.rows[item].status.Applying? && JournalCall(call)
    ensures !Applies(Perform(d, other, now, call).db, s, item)
  {
  }

  lemma OtherCallNeverApplies(d: Db, s: Session, other: Session, now: int, call: Call, item: nat)
    requires Valid(d) && other != s && item in d.rows && !d.rows[item].status.Applying?
    ensures !Applies(Perform(d, other, now, call).db, s, item)
  {
    assert !Applies(d, s, item);
    hide Perform, Applies;
    if BulkCall(call) {
      OtherBulkCallNeverApplies(d, s, other, now, call, item);
    } else if JournalCall(call) {
      OtherJournalCallNeverApplies(d, s, other, now, call, item);
    } else if PipelineCall(call) {
      PipelineCallNeverApplies(d, s, other, now, call, item);
    } else {
      OtherEditNeverApplies(d, s, other, now, call, item);
    }
  }

  lemma UntouchedIsUndisturbed(d: Db, d': Db, item: nat)
    requires Untouched(d, d', item)
    ensures Undisturbed(d, d', item)
  {
  }

  lemma RespectMeans(d: Db, d': Db, s: Session, item: nat)
    ensures Respected(d, d', s, item) <==>
      && (s in d.sessions <==> s in d'.sessions)
      && (Applies(d, s, item) ==> Undisturbed(d, d', item))
      && (!Applies(d, s, item) ==> !Applies(d', s, item))
    ensures Undisturbed(d, d', item) && Applies(d, s, item) ==> Applies(d', s, item)
  {
  }

  lemma OneOtherCall(d0: Db, d: Db, s: Session, other: Session, now: int, call: Call, item: nat)
    requires Valid(d) && Respected(d0, d, s, item)
    requires other != s && !(call.DoClaimApplying? && call.id == item)
    ensures Valid(Perform(d, other, now, call).db)
    ensures Respected(d0, Perform(d, other, now, call).db, s, item)
  {
    hide Perform, Valid, Respected, Undisturbed;
    RespectMeans(d0, d, s, item);
    var d' := Perform(d, other, now, call).db;
    CallKeepsValid(d, other, now, call);
    OtherCallKeepsSession(d, s, other, now, call);
    if Applies(d, s, item) {
      OthersLeaveApplyingAlone(d, other, now, call, item);
      UntouchedIsUndisturbed(d, d', item);
    } else if !OwnedBy(d, s, item) {
      OwnershipIsTaken(d, s, Event(other, now, call), item);
    } else {
      OtherCallNeverApplies(d, s, other, now, call, item);
    }
    if Applies(d0, s, item) { UndisturbedTwice(d0, d, d', item); }
    RespectMeans(d0, d', s, item);
  }

  lemma OneStatement(d0: Db, d: Db, s: Session, now: int, call: Call, item: nat)
    requires Valid(d) && Respected(d0, d, s, item) && PipelineCall(call)
    ensures Valid(Perform(d, s, now, call).db)
    ensures Respected(d0, Perform(d, s, now, call).db, s, item)
  {
    hide Perform, Valid;
    var d' := Perform(d, s, now, call).db;
    CallKeepsValid(d, s, now, call);
    StatementKeepsSessions(d, s, now, call);
    if Applies(d, s, item) {
      PipelineCallSpares(d, s, now, call, item);
      if Applies(d0, s, item) { UndisturbedTwice(d0, d, d', item); }
    } else {
      PipelineCallNeverApplies(d, s, s, now, call, item);
    }
  }

  lemma OneRenewal(d0: Db, d: Db, s: Session, now: int, item: nat)
    requires Valid(d) && Respected(d0, d, s, item)
    ensures Valid(RenewLease(d, s, now, item).db)
    ensures Respected(d0, RenewLease(d, s, now, item).db, s, item)
  {
    RenewalKeepsValid(d, s, now, item);
  }

  lemma RenewalKeepsValid(d: Db, s: Session, now: int, item: nat)
    requires Valid(d)
    ensures Valid(RenewLease(d, s, now, item).db)
  {
    hide Valid;
    ProcessingCallKeepsValid(d, s, now, DoRenewLease(item));
  }

  lemma NothingDone(d: Db, s: Session, item: nat)
    ensures Respected(d, d, s, item)
  {
  }

  /** While the item is being applied nobody can journal anything of another. */
  lemma NobodyJournalsElsewhere(d: Db, s: Session, now: int, call: Call, item: nat)
    requires Valid(d) && item in d.rows && d.rows[item].status.Applying?
    requires JournalCall(call) && !WritesJournal(call, item)
    ensures Perform(d, s, now, call).reply.Refused? && Perform(d, s, now, call).db == d
  {
  }

  lemma UndisturbedTwice(d0: Db, d1: Db, d2: Db, item: nat)
    requires Undisturbed(d0, d1, item) && Undisturbed(d1, d2, item)
    ensures Undisturbed(d0, d2, item)
  {
  }

  // ---- what this session's own calls do to the operation it holds -----------

  lemma OthersLeaveHolding(d: Db, d': Db, s: Session, entry: Receipt)
    requires Valid(d') && Respected(d, d', s, entry.item) && Holding(d, s, entry)
    ensures Holding(d', s, entry)
  {
    assert Applies(d, s, entry.item);
  }

  lemma RespectKeepsEntitled(d0: Db, d: Db, s: Session, item: nat, direction: OperationDirection)
    requires Respected(d0, d, s, item)
    ensures Entitled(d0, s, item, direction) ==> Entitled(d, s, item, direction) && Undisturbed(d0, d, item)
  {
  }

  lemma CreateHolds(d0: Db, d: Db, s: Session, now: int, item: nat, receipt: Receipt)
    requires Valid(d) && Respected(d0, d, s, item) && receipt.item == item
    ensures
      var o := CreateReceipt(d, s, now, item, receipt);
      && Valid(o.db)
      && (o.reply.Created? ==>
            && Holding(o.db, s, o.reply.receipt) && o.reply.receipt == receipt.(id := o.reply.receipt.id)
            && Entitled(d0, s, item, receipt.direction))
      && (!o.reply.Created? ==>
            && o.reply == Refused(StateConflict)
            && (Entitled(d0, s, item, receipt.direction) ==>
                  Entitled(o.db, s, item, receipt.direction) && Undisturbed(d0, o.db, item)))
      && (Entitled(d0, s, item, receipt.direction) && !d0.HasUnfinished(item) && receipt.stage.Planned? ==> o.reply.Created?)
  {
    CreateKeepsValid(d, s, now, item, receipt);
    if Entitled(d0, s, item, receipt.direction) {
      assert Applies(d0, s, item);
      assert forall rid: nat :: d.Unfinished(rid, item) ==> d0.Unfinished(rid, item);
    }
    if CreateReceipt(d, s, now, item, receipt).reply.Created? {
      assert Applies(d, s, item);
    }
  }

  lemma UpdateHolds(d: Db, s: Session, now: int, expected: OperationStage, mine: bool, entry: Receipt, receipt: Receipt)
    requires Valid(d) && SameOperation(entry, receipt)
    requires if mine then Holding(d, s, entry) else !Applies(d, s, entry.item)
    ensures
      var o := UpdateReceipt(d, s, now, expected, receipt);
      && Valid(o.db)
      && (o.reply.Created? ==> mine && entry.stage == expected && o.reply.receipt == receipt && Holding(o.db, s, receipt))
      && (!o.reply.Created? ==> o.reply.Refused? && o.db == d)
      && (mine && expected == entry.stage && expected.CanAdvanceTo(receipt.stage) ==> o.reply.Created?)
  {
    hide Valid;
    UpdateKeepsValid(d, s, now, expected, receipt);
  }

  lemma RenewHolds(d: Db, s: Session, now: int, expected: OperationStage, mine: bool, entry: Receipt)
    requires Valid(d)
    requires if mine then Holding(d, s, entry) else !Applies(d, s, entry.item)
    ensures
      var o := RenewOperationLease(d, s, now, entry.item, entry.id, expected);
      && Valid(o.db)
      && (o.reply.Done? ==> mine && Holding(o.db, s, entry))
      && (!o.reply.Done? ==> o.reply.Refused? && o.db == d)
      && (mine && expected == entry.stage ==> o.reply.Done?)
  {
    hide Valid;
    EpochCallKeepsValid(d, s, now, DoRenewOperationLease(entry.item, entry.id, expected));
  }

  lemma RecordHolds(d: Db, s: Session, now: int, entry: Receipt, code: ErrorCode)
    requires Holding(d, s, entry)
    ensures
      var o := RecordApplyingRollback(d, s, now, entry.item, entry.id, code);
      && o.reply.Done? && Holding(o.db, s, entry)
      && o.db.rows[entry.item].error == Some(code) && o.db.rows[entry.item].reconciliation == Some(entry.id)
  {
    hide Valid;
    EpochCallKeepsValid(d, s, now, DoRecordApplyingRollback(entry.item, entry.id, code));
  }

  lemma DeferHolds(d: Db, s: Session, entry: Receipt, code: ErrorCode)
    requires Holding(d, s, entry)
    ensures
      var o := DeferPublished(d, s, entry.item, entry.id, code);
      && Valid(o.db)
      && (o.reply.Done? ==> ParkedWith(o.db, entry, SourceDeleteFailed))
      && (!o.reply.Done? ==> o.db == d)
      && (code.SourceDeleteFailed? && entry.direction.Apply? && entry.stage.Published? ==> o.reply.Done?)
  {
    EpochCallKeepsValid(d, s, 0, DoDeferPublished(entry.item, entry.id, code));
  }

  // ---- what the steps of a copy do to the table -----------------------------

  lemma DeletingOriginal(files: Files, published: Receipt)
    requires Fits(files, published) && published.kind.VerifiedCopy? && published.stage.Published?
    requires published.post == Some(published.pre) && published.destinationExists && !published.temporaryExists
    ensures published.pre.Sha256?
    ensures published.source in files ==> Holds(files, published.source, published.pre)
    ensures published.destination in files
    ensures published.source in files ==>
      MayDelete(files, published, published.source, {published.source, published.destination})
    ensures Fits(files - {published.source}, published)
    ensures Fits(files - {published.source}, published.(sourceExists := false, stage := Complete))
    ensures SameElsewhere(files, files, published)
    ensures SameElsewhere(files, files - {published.source}, published)
  {
  }

  /** A copy not yet published may go while its source is held. */
  lemma DeletingTemporary(files: Files, durable: Receipt)
    requires Fits(files, durable) && durable.kind.VerifiedCopy? && (durable.stage.Copied? || durable.stage.Verified?)
    ensures durable.temporary.Some? && durable.temporary != Some(durable.source) && durable.temporary != Some(durable.destination)
    ensures MayDelete(files, durable, durable.temporary.value, {durable.source, durable.temporary.value})
    ensures SameElsewhere(files, files, durable) && SameElsewhere(files, files - {durable.temporary.value}, durable)
    ensures Fits(files - {durable.temporary.value}, durable)
    ensures forall t :: Fits(files, durable.(temporaryExists := t))
    ensures forall t :: Fits(files - {durable.temporary.value}, durable.(temporaryExists := t))
  {
  }

  lemma ElsewhereTwice(f0: Files, f1: Files, f2: Files, r: Receipt, r': Receipt)
    requires SameElsewhere(f0, f1, r) && SameElsewhere(f1, f2, r') && SameOperation(r, r')
    ensures SameElsewhere(f0, f2, r)
  {
  }

  lemma BeforeCopying(files: Files, planned: Receipt)
    requires Fits(files, planned) && planned.kind.VerifiedCopy? && planned.stage.Planned?
    ensures planned.source in files && planned.temporary != Some(planned.source)
    ensures SameElsewhere(files, files, planned)
  {
  }

  /** Whatever lands under the temporary name of a planned copy, the table holds. */
  lemma Copying(files: Files, planned: Receipt, file: File)
    requires Fits(files, planned) && planned.kind.VerifiedCopy? && planned.stage.Planned?
    ensures Fits(files[planned.temporary.value := file], planned)
    ensures SameElsewhere(files, files[planned.temporary.value := file], planned)
  {
  }

  lemma Publishing(files: Files, verified: Receipt)
    requires Fits(files, verified) && verified.kind.VerifiedCopy? && verified.stage.Verified?
    ensures SameElsewhere(files, files, verified)
    ensures verified.source in files && verified.sourceExists
    ensures verified.temporary.Some? && verified.temporary != Some(verified.source) && verified.temporary != Some(verified.destination)
    ensures forall t, d :: Fits(files, verified.(temporaryExists := t, destinationExists := d))
    ensures verified.temporary.value in files && verified.destination !in files ==>
      var published := RenamedFiles(files, verified.temporary.value, verified.destination);
      && SameElsewhere(files, published, verified)
      && (forall t, d :: Fits(published, verified.(temporaryExists := t, destinationExists := d)))
      && Fits(published, verified.(temporaryExists := false, destinationExists := true, stage := Published))
      && verified.source in published && published[verified.source] == files[verified.source]
  {
  }

  lemma EntitlementIsRespected(d: Db, d': Db, s: Session, item: nat, direction: OperationDirection)
    requires Valid(d) && Valid(d') && Respected(d, d', s, item) && Entitled(d, s, item, direction)
    ensures Entitled(d', s, item, direction) && Undisturbed(d, d', item)
    ensures d'.HasUnfinished(item) <==> d.HasUnfinished(item)
    ensures NewestReceipt(d', item) == NewestReceipt(d, item)
    ensures NewestReceipt(d, item).Some? ==> NewestReceipt(d, item).value.item == item
  {
    assert Applies(d, s, item);
    assert forall rid: nat :: d.Unfinished(rid, item) <==> d'.Unfinished(rid, item);
    NewestIsGreatest(d, item, d.nextReceipt);
    NewestIsGreatest(d', item, d'.nextReceipt);
  }

  lemma ResolveRollbackCloses(d: Db, s: Session, now: int, expected: OperationStage, mine: bool, r: Receipt)
    requires Valid(d)
    requires if mine then Holding(d, s, r) else !Applies(d, s, r.item)
    ensures
      var o := ResolveRollback(d, s, now, r.item, r.id, expected);
      && Valid(o.db)
      && (o.reply.Done? ==> mine && Closed(o.db, AsRolledBack(r), StatusBefore(r.direction)))
      && (!o.reply.Done? ==> o.reply.Refused? && o.db == d)
      && (mine && expected == r.stage && !expected.Published? && !expected.Complete? ==> o.reply.Done?)
  {
    ResolveKeepsValid(d, s, now, r.item, r.id, expected);
    if mine {
      BindingOf(d, r.item);
      if ResolveRollback(d, s, now, r.item, r.id, expected).reply.Done? {
        BoundCloses(d, ResolveRollback(d, s, now, r.item, r.id, expected).db, AsRolledBack(r), StatusBefore(r.direction));
      }
    }
  }

  /** Finishing the receipt a row is bound to, and releasing the row, closes the item. */
  lemma BoundCloses(d: Db, d': Db, r': Receipt, status: QueueStatus)
    requires Valid(d) && Valid(d') && d.rows.Keys == d'.rows.Keys && r'.item in d.rows
    requires d.rows[r'.item].active == Some(r'.id) && d'.rows[r'.item].active.None? && d'.rows[r'.item].status == status
    requires d.ReceiptOf(r'.id, r'.item) && d'.receipts == d.receipts[r'.id := r'] && r'.stage.Finished()
    ensures Closed(d', r', status)
  {
    BindingOf(d, r'.item);
    assert d.ReceiptOf(r'.id, r'.item);
    assert forall rid: nat :: d'.Unfinished(rid, r'.item) ==> d.Unfinished(rid, r'.item);
  }

  lemma ResolveVerifiedCloses(d: Db, s: Session, now: int, expected: OperationStage, mine: bool, r: Receipt)
    requires Valid(d)
    requires if mine then Holding(d, s, r) else !Applies(d, s, r.item)
    ensures
      var o := ResolveVerified(d, s, now, r.item, r.id, expected);
      && Valid(o.db)
      && (o.reply.Done? ==> mine && Closed(o.db, AsComplete(r), StatusAfter(r.direction)))
      && (!o.reply.Done? ==> o.reply.Refused? && o.db == d)
      && (mine && expected == r.stage ==>
            if expected.RollbackRequired? || expected.RolledBack? then o.reply == Refused(InvalidTransition)
            else o.reply.Done?)
  {
    ResolveKeepsValid(d, s, now, r.item, r.id, expected);
    if mine {
      BindingOf(d, r.item);
      if ResolveVerified(d, s, now, r.item, r.id, expected).reply.Done? {
        BoundCloses(d, ResolveVerified(d, s, now, r.item, r.id, expected).db, AsComplete(r), StatusAfter(r.direction));
      }
    }
  }

  lemma ParkKeeps(d: Db, s: Session, mine: bool, r: Receipt, code: ErrorCode)
    requires Valid(d)
    requires if mine then Holding(d, s, r) else !Applies(d, s, r.item)
    ensures
      var o := ParkForReview(d, s, r.item, r.id, code);
      && Valid(o.db)
      && (if mine then o.reply.Done? && ParkedWith(o.db, r, code) else o.reply.Refused? && o.db == d)
  {
    EpochCallKeepsValid(d, s, 0, DoParkForReview(r.item, r.id, code));
  }

  lemma ActiveIsRespected(d: Db, d': Db, s: Session, item: nat)
    requires Valid(d) && Valid(d') && Respected(d, d', s, item)
    ensures ActiveReceipt(d', item).Some? ==> ActiveReceipt(d', item).value.item == item
    ensures Applies(d, s, item) ==>
      && ActiveReceipt(d', item) == ActiveReceipt(d, item)
      && (ActiveReceipt(d, item).None? <==> d.rows[item].active.None?)
      && (s in d.sessions && ActiveReceipt(d, item).Some? ==> Holding(d', s, ActiveReceipt(d, item).value))
  {
    if item in d.rows { assert RowBound(d, item); }
  }

  lemma ResolveEmptyReleases(d0: Db, d: Db, s: Session, now: int, item: nat)
    requires Valid(d) && Respected(d0, d, s, item)
    ensures
      var o := ResolveEmpty(d, s, now, item);
      && Valid(o.db)
      && (o.reply.Done? ==> Emptied(d0, o.db, s, item))
      && (!o.reply.Done? ==> o.reply.Refused? && o.db == d)
      && (Empty(d0, s, item) ==> o.reply.Done?)
  {
    EpochCallKeepsValid(d, s, now, DoResolveEmpty(item));
    if item in d.rows { assert RowBound(d, item); }
  }
}
