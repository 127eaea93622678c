/** What a journalled move promises about the disk: for each kind and stage of
    the durable receipt, which of source, temporary and destination exist and
    what they hold; and when a file may be deleted. */
module MoveLaw {
  import opened Domain
  import opened QueueSpec
  import opened QueueInvariants

  datatype File = File(identity: nat, bytes: Bytes)

  type Files = map<Path, File>

  predicate Holds(files: Files, p: Path, digest: Digest) {
    p in files && Sha256(files[p].bytes) == digest
  }

  predicate HoldsNothing(files: Files, p: Option<Path>) {
    p.Some? ==> p.value !in files
  }

  predicate DistinctPaths(r: Receipt) {
    && r.source != r.destination
    && (r.temporary.Some? ==> r.temporary.value != r.source && r.temporary.value != r.destination)
    && (r.kind.Rename? <==> r.temporary.None?)
  }

  predicate SourceOnly(files: Files, r: Receipt) {
    Holds(files, r.source, r.pre) && r.destination !in files
  }

  predicate DestinationOnly(files: Files, r: Receipt) {
    r.source !in files && Holds(files, r.destination, r.pre)
  }

  /** The journal/disk table. */
  predicate Fits(files: Files, r: Receipt) {
    && DistinctPaths(r)
    && match r.kind
       case Rename => RenameFits(files, r)
       case VerifiedCopy => CopyFits(files, r)
  }

  predicate RenameFits(files: Files, r: Receipt) {
    match r.stage
    case Planned => (SourceOnly(files, r) || DestinationOnly(files, r)) && r.post.None?
    case RollbackRequired => SourceOnly(files, r) || DestinationOnly(files, r)
    case Published => DestinationOnly(files, r) && r.post.None?
    case Complete => DestinationOnly(files, r) && FlagsSayComplete(r)
    case RolledBack => SourceOnly(files, r) && FlagsSayRolledBack(r)
    case _ => false
  }

  predicate CopyFits(files: Files, r: Receipt)
    requires DistinctPaths(r) && r.kind.VerifiedCopy?
  {
    var temporary := r.temporary.value;
    match r.stage
    case Planned => SourceOnly(files, r) && r.post.None? && r.sourceExists && !r.destinationExists
    case Copied => SourceOnly(files, r) && r.post.None? && r.sourceExists && !r.destinationExists
    case Verified =>
      && r.sourceExists
      && Holds(files, r.source, r.pre)
      && (r.destination in files ==> Holds(files, r.destination, r.pre) && temporary !in files)
      && (temporary in files ==> Holds(files, temporary, r.pre))
      && r.post == Some(r.pre)
    case Published =>
      && r.sourceExists && r.destinationExists && !r.temporaryExists
      && Holds(files, r.destination, r.pre) && temporary !in files
      && (r.source in files ==> Holds(files, r.source, r.pre))
      && r.post.Some? && (r.post.value == r.pre || r.post.value.Garbled?)
    case Complete => DestinationOnly(files, r) && temporary !in files && FlagsSayComplete(r)
    case RolledBack => SourceOnly(files, r) && temporary !in files && FlagsSayRolledBack(r)
    case RollbackRequired => false
  }

  predicate FlagsSayComplete(r: Receipt) {
    !r.sourceExists && r.destinationExists && !r.temporaryExists && r.post == Some(r.pre)
  }

  predicate FlagsSayRolledBack(r: Receipt) {
    r.sourceExists && !r.destinationExists && !r.temporaryExists
  }

  /** Whatever the stage, the document is at one of its two names. */
  lemma DocumentNeverLost(files: Files, r: Receipt)
    requires Fits(files, r)
    ensures Holds(files, r.source, r.pre) || Holds(files, r.destination, r.pre)
    ensures r.source in files ==> Holds(files, r.source, r.pre)
    ensures r.destination in files ==> Holds(files, r.destination, r.pre)
  {
  }

  /** What the receipt says is there is there, and what it says is not is not; but a
      temporary may be gone of which it says that it is there, when its deletion was
      reported to have failed. */
  predicate FlagsTrue(files: Files, r: Receipt) {
    && (r.sourceExists <==> r.source in files)
    && (r.destinationExists <==> r.destination in files)
    && (r.temporary.Some? && r.temporary.value in files ==> r.temporaryExists)
  }

  // ---- two operations on one disk -------------------------------------------

  function PathsOf(r: Receipt): set<Path> {
    {r.source, r.destination} + (if r.temporary.Some? then {r.temporary.value} else {})
  }

  /** An operation that shares no path with another cannot unfit it, wherever it
      stops. */
  lemma ApartStaysFit(before: Files, after: Files, other: Receipt, r: Receipt)
    requires Fits(before, r) && SameElsewhere(before, after, other) && PathsOf(r) !! PathsOf(other)
    ensures Fits(after, r)
  {
    assert r.source in PathsOf(r) && r.destination in PathsOf(r);
    forall p | p in PathsOf(r) ensures (p in before <==> p in after) && (p in before ==> after[p] == before[p]) {
      assert p !in PathsOf(other);
    }
  }

  /** One that shares a path can: a document filed under the free name of a rename
      put back, and left to a person, takes the place that rename was to fill. */
  lemma SharedNameUnfits(source: Path, destination: Path, elsewhere: Path, bytes: Bytes, others: Bytes)
    requires source != destination && elsewhere != source && elsewhere != destination
    ensures
      var r := Receipt(1, 1, OperationDirection.Apply, source, destination, None, Sha256(bytes), None, Rename,
                       RollbackRequired, true, false, false);
      var other := Receipt(2, 2, OperationDirection.Apply, elsewhere, destination, None, Sha256(others),
                           Some(Sha256(others)), Rename, Complete, false, true, false);
      var before := map[source := File(0, bytes), elsewhere := File(1, others)];
      var after := map[source := File(0, bytes), destination := File(1, others)];
      && Fits(before, r) && other.destination !in before && Holds(before, other.source, other.pre)
      && Fits(after, other) && SameElsewhere(before, after, other)
      && !Fits(after, r)
  {
  }

  // ---- the record of what was done to the disk and the journal --------------

  datatype Action =
    | Journaled
    | Renewed
    | Renamed(source: Path, target: Path)
    | Written(path: Path)
    | Deleted(path: Path)

  /** One primitive step of a process: the disk and the durable receipt on both
      sides of it, and the files the process held open against others. */
  datatype Step = Step(
    action: Action,
    before: Files,
    entry: Receipt,
    after: Files,
    revised: Receipt,
    held: set<Path>)

  /** Every path that is not one of the operation's three is left alone. */
  ghost predicate SameElsewhere(before: Files, after: Files, r: Receipt) {
    forall p :: p != r.source && p != r.destination && Some(p) != r.temporary ==>
      (p in before <==> p in after) && (p in before ==> after[p] == before[p])
  }

  /** The source goes only once the journal says published, and while it and the
      destination, both held, have the document; a temporary goes only while the
      source, held, does. */
  predicate MayDelete(files: Files, entry: Receipt, path: Path, held: set<Path>) {
    && path in held
    && (path == entry.source ==>
          && entry.stage.Published? && entry.destination in held && entry.destination != path
          && Holds(files, entry.source, entry.pre) && Holds(files, entry.destination, entry.pre))
    && (path != entry.source ==>
          Some(path) == entry.temporary && entry.source in held && Holds(files, entry.source, entry.pre))
  }

  /** The columns of a receipt no update may touch. */
  predicate SameOperation(r: Receipt, r': Receipt) {
    && r'.id == r.id && r'.item == r.item && r'.direction == r.direction && r'.source == r.source
    && r'.destination == r.destination && r'.temporary == r.temporary && r'.pre == r.pre && r'.kind == r.kind
  }

  /** The step did to the disk what it says, no more. */
  ghost predicate Enacted(step: Step) {
    match step.action
    case Journaled => step.after == step.before
    case Renewed => step.after == step.before
    case Renamed(source, target) =>
      && source in step.before && target !in step.before
      && step.after == (step.before - {source})[target := step.before[source]]
    case Written(path) =>
      && path !in step.before && Some(path) == step.entry.temporary
      && path in step.after && step.after == step.before[path := step.after[path]]
    case Deleted(path) => step.after == step.before - {path}
  }

  /** One step of a lawful record. That the table holds on both sides, and that what is
      journalled of the three names is so, is promised of a disk that fitted its journal
      to begin with; the rest of every disk whatever. */
  ghost predicate LawfulStep(fitting: bool, step: Step) {
    && (fitting ==> Fits(step.before, step.entry) && Fits(step.after, step.revised))
    && (fitting && step.action.Journaled? ==> FlagsTrue(step.after, step.revised))
    && SameOperation(step.entry, step.revised)
    && SameElsewhere(step.before, step.after, step.entry)
    && Enacted(step)
    && (step.action.Deleted? ==> MayDelete(step.before, step.entry, step.action.path, step.held))
  }

  /** No file is deleted but directly after the lease was renewed under the
      stage the journal still shows. */
  ghost predicate LawfulAt(fitting: bool, log: seq<Step>, k: nat)
    requires k < |log|
  {
    && LawfulStep(fitting, log[k])
    && (log[k].action.Deleted? ==> k > 0 && log[k - 1].action.Renewed? && log[k - 1].revised == log[k].entry)
  }

  ghost predicate LawfulLog(fitting: bool, log: seq<Step>) {
    forall k :: 0 <= k < |log| ==> LawfulAt(fitting, log, k)
  }

  /** The disk after the first `k` steps. */
  ghost function FilesAfter(initial: Files, log: seq<Step>, k: nat): Files
    requires k <= |log|
  {
    if k == 0 then initial else log[k - 1].after
  }

  /** The log tells the whole story of the disk: it starts from the first files,
      each step goes on where the last one ended, and the disk is where it ends. */
  ghost predicate Chained(initial: Files, log: seq<Step>, files: Files) {
    && (forall k :: 0 <= k < |log| ==> log[k].before == FilesAfter(initial, log, k))
    && files == FilesAfter(initial, log, |log|)
  }

  /** Everything that ever happened to the disk is in the log, and all of it lawful. */
  ghost predicate Recorded(fitting: bool, initial: Files, log: seq<Step>, files: Files) {
    LawfulLog(fitting, log) && Chained(initial, log, files)
  }

  lemma Append(fitting: bool, initial: Files, log: seq<Step>, files: Files, step: Step)
    requires Recorded(fitting, initial, log, files) && LawfulStep(fitting, step) && step.before == files
    requires step.action.Deleted? ==> log != [] && log[|log| - 1].action.Renewed? && log[|log| - 1].revised == step.entry
    ensures Recorded(fitting, initial, log + [step], step.after)
  {
    hide LawfulStep;
    var longer := log + [step];
    forall k | 0 <= k < |longer| ensures LawfulAt(fitting, longer, k) {
      assert k < |log| ==> LawfulAt(fitting, log, k);
    }
    AppendLinks(initial, log, files, step);
  }

  lemma AppendLinks(initial: Files, log: seq<Step>, files: Files, step: Step)
    requires Chained(initial, log, files) && step.before == files
    ensures Chained(initial, log + [step], step.after)
  {
    var longer := log + [step];
    assert longer[..|log|] == log && longer[|log|] == step;
    forall k | 0 <= k < |longer| ensures longer[k].before == FilesAfter(initial, longer, k) {
      if k < |log| {
        assert longer[k] == log[k] && log[k].before == FilesAfter(initial, log, k);
        if k > 0 { assert longer[k - 1] == log[k - 1]; }
      } else if k > 0 {
        assert longer[k - 1] == log[k - 1];
      }
    }
  }

  /** On a disk that fitted its journal, each receipt ever journalled said what there was:
      of the source and the destination exactly, and of no temporary that it was gone
      while it was there. */
  lemma JournalSaysWhatIsThere(initial: Files, log: seq<Step>, files: Files, k: nat)
    requires Recorded(true, initial, log, files) && k < |log| && log[k].action.Journaled?
    ensures
      var r, there := log[k].revised, FilesAfter(initial, log, k);
      && log[k].after == there
      && (r.sourceExists <==> r.source in there) && (r.destinationExists <==> r.destination in there)
      && (r.temporary.Some? && !r.temporaryExists ==> r.temporary.value !in there)
  {
    assert LawfulAt(true, log, k);
    assert log[k].before == FilesAfter(initial, log, k);
  }

  /** On any disk, fitting or not, no step of a lawful record destroys a document: what
      is at any path but the operation's temporary name is somewhere afterwards. */
  lemma EveryStepKeeps(fitting: bool, initial: Files, log: seq<Step>, files: Files, k: nat, p: Path)
    requires Recorded(fitting, initial, log, files) && k < |log|
    requires p in log[k].before && Some(p) != log[k].entry.temporary
    ensures exists q :: q in log[k].after && log[k].after[q].bytes == log[k].before[p].bytes
  {
    assert LawfulAt(fitting, log, k);
    var step := log[k];
    var q := match step.action
      case Renamed(source, target) => if p == source then target else p
      case Deleted(path) => if p == path then step.entry.destination else p
      case _ => p;
    assert q in step.after && step.after[q].bytes == step.before[p].bytes;
  }

  /** All that reconciliation may do to a disk: delete what is left under the temporary
      name, or the source while the destination has the document too. */
  predicate Swept(before: Files, after: Files, r: Receipt) {
    || after == before
    || (r.temporary.Some? && r.temporary.value != r.source && after == before - {r.temporary.value})
    || (&& after == before - {r.source} && r.source != r.destination
        && Holds(before, r.source, r.pre) && Holds(before, r.destination, r.pre))
  }

  /** So on any disk, whether or not it fits, what any other path holds is not lost. */
  lemma SweepingKeeps(before: Files, after: Files, r: Receipt, p: Path)
    requires Swept(before, after, r) && p in before && Some(p) != r.temporary
    ensures exists q :: q in after && after[q].bytes == before[p].bytes
  {
    assert if p in after then after[p] == before[p]
           else p == r.source && r.destination in after && after[r.destination].bytes == before[p].bytes;
  }

  // ---- the journal's side ---------------------------------------------------

  /** Session `s`, alive, owns the applying row bound to durable receipt `r`. */
  ghost predicate Holding(d: Db, s: Session, r: Receipt) {
    && Valid(d) && s in d.sessions
    && d.OwnsBound(s, r.item, r.id)
    && r.id in d.receipts && d.receipts[r.id] == r
  }

  /** The row waits in review with `r`, unfinished business, kept beside it. */
  ghost predicate Kept(d: Db, r: Receipt) {
    && Valid(d) && r.item in d.rows && r.id in d.receipts && d.receipts[r.id] == r
    && d.rows[r.item].status.NeedsReview? && d.rows[r.item].reconciliation == Some(r.id)
    && d.rows[r.item].active.None?
    && (forall rid: nat :: d.Unfinished(rid, r.item) ==> rid == r.id)
  }

  /** The row left `applying` for `status` with `r` its finished receipt. */
  ghost predicate Closed(d: Db, r: Receipt, status: QueueStatus) {
    && Valid(d) && r.item in d.rows && r.id in d.receipts && d.receipts[r.id] == r
    && d.rows[r.item].status == status && d.rows[r.item].active.None?
    && !d.HasUnfinished(r.item)
  }

  /** What a move does to the contents of the disk, identities aside. */
  function Contents(files: Files): map<Path, Bytes> {
    map p | p in files :: files[p].bytes
  }

  function MovedContents(contents: map<Path, Bytes>, source: Path, destination: Path): map<Path, Bytes>
    requires source in contents
  {
    (contents - {source})[destination := contents[source]]
  }

  /** Moving a file away and back restores the disk exactly. */
  lemma MoveAndBack(contents: map<Path, Bytes>, source: Path, destination: Path)
    requires source in contents && destination !in contents
    ensures MovedContents(MovedContents(contents, source, destination), destination, source) == contents
  {
    var there := MovedContents(contents, source, destination);
    assert there.Keys == contents.Keys - {source} + {destination};
    var back := MovedContents(there, destination, source);
    assert back.Keys == contents.Keys;
  }

  /** A finished operation whose disk fits its receipt is a move. */
  lemma CompleteIsMove(before: Files, after: Files, r: Receipt)
    requires Fits(after, r) && r.stage.Complete?
    requires Holds(before, r.source, r.pre) && r.destination !in before && HoldsNothing(before, r.temporary)
    requires SameElsewhere(before, after, r)
    ensures Contents(after) == MovedContents(Contents(before), r.source, r.destination)
  {
    var moved := MovedContents(Contents(before), r.source, r.destination);
    forall p ensures p in Contents(after) <==> p in moved {
    }
  }
}
