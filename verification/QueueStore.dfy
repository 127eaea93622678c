/** The queue database as the program sees it: tables updated in place, one
    store handle per session. Every call is proved against QueueSpec. */
module QueueStore {
  import opened Domain
  import opened QueueFencing
  import opened QueueInvariants
  import opened QueueSpec

  /** Row `id` may differ; every other row and the whole journal are the same. */
  ghost predicate EditsOnly(before: Db, after: Db, id: nat) {
    && after.rows.Keys == before.rows.Keys && after.receipts == before.receipts
    && after.nextRow == before.nextRow && after.nextReceipt == before.nextReceipt
    && (forall other :: other in before.rows && other != id ==> after.rows[other] == before.rows[other])
  }

  /** The rows in these statuses are gone and with them their receipts; the rest is
      as it was, and `count` says how many rows went. */
  ghost predicate Prunes(before: Db, after: Db, statuses: set<QueueStatus>, count: nat) {
    && (forall id :: id in after.rows <==> id in before.rows && before.rows[id].status !in statuses)
    && (forall id :: id in after.rows ==> after.rows[id] == before.rows[id])
    && (forall rid :: rid in after.receipts <==>
          rid in before.receipts && (before.receipts[rid].item in before.rows ==> before.receipts[rid].item in after.rows))
    && (forall rid :: rid in after.receipts ==> after.receipts[rid] == before.receipts[rid])
    && |before.rows| == |after.rows| + count
  }

  /** The statuses of which no two rows are in at once. */
  ghost predicate InWork(status: QueueStatus) {
    status == Extracting || status == Analyzing || status == Applying
  }

  /** The row is nobody's, or of a session that is gone, or its lease has run out and
      its owner has not been heard of for a minute. */
  ghost predicate LeftBehind(row: Row, sessions: map<Session, int>, now: int) {
    || row.owner == None
    || row.owner.value !in sessions
    || (row.lease != None && row.lease.value <= now && sessions[row.owner.value] + 60 <= now)
  }

  /** The session is applying the row, bound to this receipt. */
  ghost predicate IsApplying(rows: map<nat, Row>, s: Session, id: nat, rid: nat) {
    id in rows && rows[id].status == Applying && rows[id].owner == Some(s) && rows[id].active == Some(rid)
  }

  /** The receipt is of the item, and of an apply that is published. */
  ghost predicate PublishedApply(receipts: map<nat, Receipt>, rid: nat, id: nat) {
    rid in receipts && receipts[rid].item == id && receipts[rid].direction.Apply? && receipts[rid].stage == Published
  }

  /** The moves a session may ask for by name. */
  ghost predicate Permitted(from: QueueStatus, to: QueueStatus) {
    (from, to) in {
      (Queued, Canceled), (Queued, NeedsReview),
      (Extracting, Analyzing), (Extracting, NeedsReview), (Extracting, Queued), (Extracting, Failed), (Extracting, Canceled),
      (Analyzing, Ready), (Analyzing, NeedsReview), (Analyzing, Queued), (Analyzing, Failed), (Analyzing, Canceled),
      (Ready, Canceled),
      (NeedsReview, Ready), (NeedsReview, Canceled)}
  }

  /** The steps of the journal, and staying where it is. */
  ghost predicate Advances(from: OperationStage, to: OperationStage) {
    || from == to
    || (from, to) in {
         (Planned, Copied), (Planned, Published), (Planned, RollbackRequired), (Planned, RolledBack),
         (Copied, Verified), (Copied, RollbackRequired),
         (Verified, Published), (Verified, RollbackRequired),
         (Published, Complete), (Published, RollbackRequired),
         (RollbackRequired, RolledBack)}
  }

  /** The row holds on to nothing but its document and its failures. */
  predicate Unbound(row: Row) {
    row.owner.None? && row.lease.None? && row.previous.None? && row.active.None? && row.reconciliation.None? && row.error.None?
  }

  class Database {
    var rows: map<nat, Row>
    var receipts: map<nat, Receipt>
    var sessions: map<Session, int>
    var nextRow: nat
    var nextReceipt: nat

    constructor ()
      ensures Value() == EMPTY
    {
      rows, receipts, sessions := map[], map[], map[];
      nextRow, nextReceipt := 1, 1;
    }

    function Value(): Db
      reads this
    {
      Db(rows, receipts, sessions, nextRow, nextReceipt)
    }

    /** One call made by any session, through a handle this process cannot see. */
    method Act(s: Session, now: int, call: Call) returns (reply: Reply)
      modifies this
      ensures Outcome(Value(), reply) == Perform(old(Value()), s, now, call)
    {
      var o := Perform(Value(), s, now, call);
      rows, receipts, sessions := o.db.rows, o.db.receipts, o.db.sessions;
      nextRow, nextReceipt := o.db.nextRow, o.db.nextReceipt;
      reply := o.reply;
    }
  }

  class Store {
    const database: Database
    const session: Session

    /** Opens a handle; the session row is inserted once. */
    constructor (database: Database, session: Session, now: int)
      requires session !in database.sessions
      modifies database
      ensures this.database == database && this.session == session
      ensures database.Value() == OpenSession(old(database.Value()), session, now).db
    {
      this.database := database;
      this.session := session;
      new;
      database.sessions := database.sessions[session := now];
    }

    /** Inserting the session row fails while there is one. */
    method Open(now: int) returns (reply: Reply)
      modifies database
      ensures Outcome(database.Value(), reply) == OpenSession(old(database.Value()), session, now)
      ensures reply == if session in old(database.sessions) then Refused(DatabaseUnavailable) else Done
      ensures reply.Done? ==>
        database.Value() == old(database.Value()).(sessions := old(database.sessions)[session := now])
      ensures !reply.Done? ==> database.Value() == old(database.Value())
    {
      if session in database.sessions { return Refused(DatabaseUnavailable); }
      database.sessions := database.sessions[session := now];
      reply := Done;
    }

    method Close() returns (reply: Reply)
      modifies database
      ensures Outcome(database.Value(), reply) == CloseSession(old(database.Value()), session)
      ensures reply.Done? && database.sessions == old(database.sessions) - {session}
      ensures database.rows.Keys == old(database.rows).Keys && database.receipts == old(database.receipts)
      ensures forall id :: id in database.rows ==>
        database.rows[id] == if old(database.rows)[id].owner == Some(session) then old(database.rows)[id].(owner := None)
                             else old(database.rows)[id]
    {
      database.sessions := database.sessions - {session};
      database.rows := map id | id in database.rows ::
        if database.rows[id].owner == Some(session) then database.rows[id].(owner := None) else database.rows[id];
      reply := Done;
    }

    method Enqueue(source: Path, hash: Digest) returns (reply: Reply)
      modifies database
      ensures Outcome(database.Value(), reply) == QueueSpec.Enqueue(old(database.Value()), source, hash)
      ensures exists id :: id in database.rows && database.rows[id].source == source && database.rows[id].hash == hash
      ensures (exists id :: id in old(database.rows) && old(database.rows)[id].source == source && old(database.rows)[id].hash == hash) ==>
                database.Value() == old(database.Value())
      ensures forall id :: id in database.rows && !(id in old(database.rows) && database.rows[id] == old(database.rows)[id]) ==>
                id == old(database.nextRow) && database.rows[id].source == source && database.rows[id].hash == hash && database.rows[id].status.Queued?
      ensures reply.Done? && database.sessions == old(database.sessions) && database.receipts == old(database.receipts)
      ensures forall id :: id in database.rows && id !in old(database.rows) ==>
        && database.rows[id] == Row(source, hash, Queued, 0, None, None, None, None, None, None, 0)
        && database.nextRow == old(database.nextRow) + 1
    {
      if !exists id :: id in database.rows && SameSource(database.Value(), id, source, hash) {
        var row := Row(source, hash, Queued, 0, None, None, None, None, None, None, 0);
        database.rows := database.rows[database.nextRow := row];
        database.nextRow := database.nextRow + 1;
        assert SameSource(database.Value(), database.nextRow - 1, source, hash);
      }
      reply := Done;
    }

    method ClaimNext(now: int) returns (reply: Reply)
      modifies database
      ensures Outcome(database.Value(), reply) == QueueSpec.ClaimNext(old(database.Value()), session, now)
      ensures reply.Refused? <==> session !in old(database.sessions)
      ensures reply.Refused? ==> reply == Refused(StateConflict) && database.Value() == old(database.Value())
      ensures reply.Idle? ==>
        && database.Value() == old(database.Value()).(sessions := old(database.sessions)[session := now])
        && (|| (exists id :: id in database.rows && InWork(database.rows[id].status))
            || (forall id :: id in database.rows && id < database.nextRow ==> !database.rows[id].status.Queued?))
      ensures reply.Found? ==>
        && reply.id in old(database.rows) && old(database.rows)[reply.id].status.Queued?
        && (forall id :: id in old(database.rows) ==> !InWork(old(database.rows)[id].status))
        && (forall id :: id in old(database.rows) && id < reply.id ==> !old(database.rows)[id].status.Queued?)
        && database.Value() == old(database.Value()).(
             sessions := old(database.sessions)[session := now],
             rows := old(database.rows)[reply.id := old(database.rows)[reply.id].(
               status := Extracting, error := None, owner := Some(session), lease := Some(now + 60))])
      ensures reply.Refused? || reply.Idle? || reply.Found?
    {
      if session !in database.sessions { return Refused(StateConflict); }
      var id := 0;
      while id < database.nextRow && !(id in database.rows && database.rows[id].status.Queued?)
        invariant id <= database.nextRow
        invariant NextQueued(database.rows, 0, database.nextRow) == NextQueued(database.rows, id, database.nextRow)
      {
        id := id + 1;
      }
      var busy := database.Value().Busy();
      database.sessions := database.sessions[session := now];
      if busy || id == database.nextRow { return Idle; }
      database.rows := database.rows[id := database.rows[id].(
        status := Extracting, error := None, owner := Some(session), lease := Some(now + LEASE_SECONDS))];
      reply := Found(id);
    }

    method RenewLease(now: int, id: nat) returns (reply: Reply)
      modifies database
      ensures Outcome(database.Value(), reply) == QueueSpec.RenewLease(old(database.Value()), session, now, id)
      ensures reply.Done? <==>
        && session in old(database.sessions) && id in old(database.rows)
        && old(database.rows)[id].owner == Some(session) && old(database.rows)[id].status.IsActive()
      ensures session in old(database.sessions) ==> database.sessions == old(database.sessions)[session := now]
      ensures EditsOnly(old(database.Value()), database.Value(), id)
      ensures reply.Done? ==> forall later :: later < now + LEASE_SECONDS ==>
                                !database.Value().Abandoned(database.rows[id], later)
      ensures !reply.Done? ==> database.rows == old(database.rows)
      ensures reply.Done? ==> database.rows == old(database.rows)[id := old(database.rows)[id].(lease := Some(now + 60))]
      ensures !reply.Done? ==> reply == Refused(StateConflict)
      ensures session !in old(database.sessions) ==> database.Value() == old(database.Value())
    {
      if session !in database.sessions { return Refused(StateConflict); }
      database.sessions := database.sessions[session := now];
      if id in database.rows && database.rows[id].owner == Some(session) && database.rows[id].status.IsActive() {
        database.rows := database.rows[id := database.rows[id].(lease := Some(now + LEASE_SECONDS))];
        return Done;
      }
      reply := Refused(StateConflict);
    }

    method Transition(now: int, id: nat, expected: QueueStatus, next: QueueStatus, error: Option<ErrorCode>)
      returns (reply: Reply)
      modifies database
      ensures Outcome(database.Value(), reply)
           == QueueSpec.Transition(old(database.Value()), session, now, id, expected, next, error)
      ensures reply.Done? <==>
        && Permitted(expected, next) && id in old(database.rows) && old(database.rows)[id].status == expected
        && (expected.IsActive() ==> old(database.rows)[id].owner == Some(session))
      ensures !reply.Done? ==> database.Value() == old(database.Value())
      ensures !reply.Done? ==> reply == Refused(if Permitted(expected, next) then StateConflict else InvalidTransition)
      ensures reply.Done? ==> database.Value() == old(database.Value()).(
        rows := old(database.rows)[id := old(database.rows)[id].(
          status := next, error := error, owner := if next == Analyzing then Some(session) else None,
          lease := if next == Analyzing then Some(now + 60) else None)])
    {
      if !expected.CanTransitionTo(next) { return Refused(InvalidTransition); }
      if id !in database.rows || database.rows[id].status != expected
         || (expected.IsActive() && database.rows[id].owner != Some(session)) {
        return Refused(StateConflict);
      }
      var row := database.rows[id].(status := next, error := error);
      if next.IsActive() {
        row := row.(owner := Some(session), lease := Some(now + LEASE_SECONDS));
      } else {
        row := row.(owner := None, lease := None);
      }
      database.rows := database.rows[id := row];
      reply := Done;
    }

    method RecordProcessingFailure(id: nat, error: ErrorCode) returns (reply: Reply)
      modifies database
      ensures Outcome(database.Value(), reply)
           == QueueSpec.RecordProcessingFailure(old(database.Value()), session, id, error)
      ensures reply.Done? <==>
        && id in old(database.rows) && old(database.rows)[id].owner == Some(session)
        && (old(database.rows)[id].status.Extracting? || old(database.rows)[id].status.Analyzing?)
      ensures !reply.Done? ==> database.Value() == old(database.Value())
      ensures EditsOnly(old(database.Value()), database.Value(), id)
      ensures reply.Done? ==>
        && database.rows[id].failures == old(database.rows)[id].failures + 1
        && (database.rows[id].status.Failed? <==> old(database.rows)[id].failures >= 1)
        && (database.rows[id].status.Queued? <==> old(database.rows)[id].failures == 0)
        && database.rows[id].owner.None? && database.rows[id].lease.None?
      ensures !reply.Done? ==> reply == Refused(StateConflict)
      ensures reply.Done? ==> database.Value() == old(database.Value()).(
        rows := old(database.rows)[id := old(database.rows)[id].(
          status := if old(database.rows)[id].failures == 0 then Queued else Failed,
          failures := old(database.rows)[id].failures + 1, error := Some(error), owner := None, lease := None)])
    {
      if id !in database.rows || (!database.rows[id].status.Extracting? && !database.rows[id].status.Analyzing?)
         || database.rows[id].owner != Some(session) {
        return Refused(StateConflict);
      }
      var failures := database.rows[id].failures + 1;
      var status := if failures >= 2 then Failed else Queued;
      database.rows := database.rows[id := database.rows[id].(
        status := status, failures := failures, error := Some(error), owner := None, lease := None)];
      reply := Done;
    }

    method RecoverInterrupted(now: int) returns (reply: Reply)
      modifies database
      ensures Outcome(database.Value(), reply) == QueueSpec.RecoverInterrupted(old(database.Value()), now)
      ensures database.rows.Keys == old(database.rows).Keys
      ensures forall id :: id in database.rows ==>
        if Interrupted(old(database.Value()), id, now) then database.rows[id].status.Queued? && database.rows[id].owner.None?
        else database.rows[id] == old(database.rows)[id]
      ensures forall id :: !Interrupted(database.Value(), id, now)
      ensures forall id :: id in database.rows ==>
        database.rows[id] ==
          if (old(database.rows)[id].status.Extracting? || old(database.rows)[id].status.Analyzing?)
             && LeftBehind(old(database.rows)[id], old(database.sessions), now)
          then old(database.rows)[id].(status := Queued, owner := None, lease := None)
          else old(database.rows)[id]
      ensures reply.Count? && database.sessions == old(database.sessions) && database.receipts == old(database.receipts)
    {
      var d := database.Value();
      var stale := set id | id in d.rows && Interrupted(d, id, now);
      database.rows := map id | id in d.rows ::
        if id in stale then d.rows[id].(status := Queued, owner := None, lease := None) else d.rows[id];
      reply := Count(|stale|);
    }

    method CasStatus(id: nat, expected: QueueStatus, next: QueueStatus, resetFailures: bool) returns (reply: Reply)
      modifies database
      ensures Outcome(database.Value(), reply)
           == QueueSpec.CasStatus(old(database.Value()), id, expected, next, resetFailures)
      ensures reply.Done? <==> id in old(database.rows) && old(database.rows)[id].status == expected
      ensures !reply.Done? ==> database.Value() == old(database.Value())
      ensures EditsOnly(old(database.Value()), database.Value(), id)
      ensures reply.Done? ==>
        && database.rows[id].status == next && Unbound(database.rows[id])
        && (database.rows[id].failures == if resetFailures then 0 else old(database.rows)[id].failures)
      ensures !reply.Done? ==> reply == Refused(StateConflict)
      ensures reply.Done? ==> database.Value() == old(database.Value()).(
        rows := old(database.rows)[id := old(database.rows)[id].(
          status := next, failures := if resetFailures then 0 else old(database.rows)[id].failures, error := None,
          owner := None, lease := None, previous := None, active := None, reconciliation := None)])
    {
      hide EditsOnly;
      if id !in database.rows || database.rows[id].status != expected {
        NothingEdited(database.Value(), id);
        return Refused(StateConflict);
      }
      ghost var before := database.Value();
      var row := Release(database.rows[id], next);
      if resetFailures { row := row.(failures := 0); }
      database.rows := database.rows[id := row];
      RowEdited(before, database.Value(), id, row);
      reply := Done;
    }

    method ManualRetry(id: nat) returns (reply: Reply)
      modifies database
      ensures Outcome(database.Value(), reply) == QueueSpec.ManualRetry(old(database.Value()), id)
      ensures reply.Done? <==> id in old(database.rows) && old(database.rows)[id].status.Failed?
      ensures reply.Done? ==> database.rows[id].status.Queued? && database.rows[id].failures == 0
      ensures !reply.Done? ==> reply == Refused(StateConflict) && database.Value() == old(database.Value())
      ensures reply.Done? ==> database.Value() == old(database.Value()).(
        rows := old(database.rows)[id := old(database.rows)[id].(
          status := Queued, failures := 0, error := None, owner := None, lease := None, previous := None,
          active := None, reconciliation := None)])
    {
      reply := CasStatus(id, Failed, Queued, true);
    }

    method CompleteKeepOriginal(id: nat, expected: QueueStatus) returns (reply: Reply)
      modifies database
      ensures Outcome(database.Value(), reply) == QueueSpec.CompleteKeepOriginal(old(database.Value()), id, expected)
      ensures reply.Done? <==>
        (expected.Ready? || expected.NeedsReview?) && id in old(database.rows) && old(database.rows)[id].status == expected
      ensures !reply.Done? ==> database.Value() == old(database.Value())
      ensures EditsOnly(old(database.Value()), database.Value(), id)
      ensures reply.Done? ==> database.rows[id].status.Completed? && Unbound(database.rows[id])
      ensures !reply.Done? ==>
        reply == Refused(if expected.Ready? || expected.NeedsReview? then StateConflict else InvalidTransition)
      ensures reply.Done? ==> database.Value() == old(database.Value()).(
        rows := old(database.rows)[id := old(database.rows)[id].(
          status := Completed, error := None, owner := None, lease := None, previous := None, active := None,
          reconciliation := None)])
    {
      if !expected.Ready? && !expected.NeedsReview? { return Refused(InvalidTransition); }
      reply := CasStatus(id, expected, Completed, false);
    }

    method RetryDuplicate(id: nat) returns (reply: Reply)
      modifies database
      ensures Outcome(database.Value(), reply) == QueueSpec.RetryDuplicate(old(database.Value()), id)
      ensures reply.Done? <==>
        && id in old(database.rows) && old(database.rows)[id].status.NeedsReview?
        && old(database.rows)[id].error == Some(Duplicate)
      ensures !reply.Done? ==> database.Value() == old(database.Value())
      ensures EditsOnly(old(database.Value()), database.Value(), id)
      ensures reply.Done? ==>
        database.rows[id].status.Queued? && database.rows[id].failures == 0 && Unbound(database.rows[id])
      ensures !reply.Done? ==> reply == Refused(StateConflict)
      ensures reply.Done? ==> database.Value() == old(database.Value()).(
        rows := old(database.rows)[id := old(database.rows)[id].(
          status := Queued, failures := 0, error := None, owner := None, lease := None, previous := None,
          active := None, reconciliation := None)])
    {
      if id !in database.rows || !database.rows[id].status.NeedsReview? || database.rows[id].error != Some(Duplicate) {
        return Refused(StateConflict);
      }
      database.rows := database.rows[id := Release(database.rows[id], Queued).(failures := 0)];
      reply := Done;
    }

    method DeleteRows(gone: set<nat>) returns (reply: Reply)
      modifies database
      ensures Outcome(database.Value(), reply) == QueueSpec.DeleteRows(old(database.Value()), gone)
      ensures reply == Count(|gone|) && database.rows == old(database.rows) - gone
      ensures forall rid :: rid in database.receipts <==>
        rid in old(database.receipts) && old(database.receipts)[rid].item !in gone
      ensures forall rid :: rid in database.receipts ==> database.receipts[rid] == old(database.receipts)[rid]
    {
      database.rows := database.rows - gone;
      database.receipts := map rid | rid in database.receipts && database.receipts[rid].item !in gone :: database.receipts[rid];
      reply := Count(|gone|);
    }

    method ClearTerminal() returns (reply: Reply)
      modifies database
      ensures Outcome(database.Value(), reply) == QueueSpec.ClearTerminal(old(database.Value()))
      ensures reply.Count?
      ensures Prunes(old(database.Value()), database.Value(), {Failed, Canceled, Completed}, reply.count)
    {
      PruningCounts(database.Value(), set id | id in database.rows && Terminal(database.rows[id].status));
      reply := DeleteRows(set id | id in database.rows && Terminal(database.rows[id].status));
    }

    method DiscardQueued() returns (reply: Reply)
      modifies database
      ensures Outcome(database.Value(), reply) == QueueSpec.DiscardQueued(old(database.Value()))
      ensures reply.Count?
      ensures Prunes(old(database.Value()), database.Value(), {Queued}, reply.count)
    {
      PruningCounts(database.Value(), set id | id in database.rows && database.rows[id].status.Queued?);
      reply := DeleteRows(set id | id in database.rows && database.rows[id].status.Queued?);
    }

    method BeginApplying(now: int, id: nat, expected: QueueStatus) returns (reply: Reply)
      modifies database
      ensures Outcome(database.Value(), reply)
           == QueueSpec.BeginApplying(old(database.Value()), session, now, id, expected)
      ensures reply.Done? <==>
        && (expected.Ready? || expected.Completed?) && session in old(database.sessions)
        && id in old(database.rows) && old(database.rows)[id].status == expected && old(database.rows)[id].active.None?
        && (forall other :: other in old(database.rows) && other != id ==> !InWork(old(database.rows)[other].status))
      ensures !reply.Done? ==>
        && reply == Refused(if expected.Ready? || expected.Completed? then StateConflict else InvalidTransition)
        && database.Value() == old(database.Value())
      ensures reply.Done? ==> database.Value() == old(database.Value()).(
        sessions := old(database.sessions)[session := now],
        rows := old(database.rows)[id := old(database.rows)[id].(
          status := Applying, previous := Some(expected), owner := Some(session), lease := Some(now + 60),
          active := None, reconciliation := None, epoch := old(database.rows)[id].epoch + 1, error := None)])
    {
      if !expected.Ready? && !expected.Completed? { return Refused(InvalidTransition); }
      if session !in database.sessions || id !in database.rows || database.rows[id].status != expected
         || database.rows[id].active.Some? || database.Value().BusyBesides(id) {
        return Refused(StateConflict);
      }
      database.sessions := database.sessions[session := now];
      database.rows := database.rows[id := database.rows[id].(
        status := Applying, previous := Some(expected), owner := Some(session), lease := Some(now + LEASE_SECONDS),
        active := None, reconciliation := None, epoch := database.rows[id].epoch + 1, error := None)];
      reply := Done;
    }

    method ClaimApplying(now: int, id: nat) returns (reply: Reply)
      modifies database
      ensures Outcome(database.Value(), reply) == QueueSpec.ClaimApplying(old(database.Value()), session, now, id)
      ensures reply.Done? <==>
        && session in old(database.sessions) && id in old(database.rows) && old(database.rows)[id].status.Applying?
        && LeftBehind(old(database.rows)[id], old(database.sessions)[session := now], now)
      ensures !reply.Done? ==> reply == Refused(StateConflict) && database.Value() == old(database.Value())
      ensures reply.Done? ==> database.Value() == old(database.Value()).(
        sessions := old(database.sessions)[session := now],
        rows := old(database.rows)[id := old(database.rows)[id].(owner := Some(session), lease := Some(now + 60))])
    {
      if session !in database.sessions || id !in database.rows || !database.rows[id].status.Applying?
         || !database.Value().Touch(session, now).Abandoned(database.rows[id], now) {
        return Refused(StateConflict);
      }
      database.sessions := database.sessions[session := now];
      database.rows := database.rows[id := database.rows[id].(owner := Some(session), lease := Some(now + LEASE_SECONDS))];
      reply := Done;
    }

    method ClaimDeferred(now: int, id: nat) returns (reply: Reply)
      modifies database
      ensures Outcome(database.Value(), reply) == QueueSpec.ClaimDeferred(old(database.Value()), session, now, id)
      ensures reply.Done? <==>
        && session in old(database.sessions) && id in old(database.rows) && old(database.rows)[id].status.NeedsReview?
        && old(database.rows)[id].error == Some(SourceDeleteFailed) && old(database.rows)[id].active.None?
        && old(database.rows)[id].reconciliation.Some?
        && PublishedApply(old(database.receipts), old(database.rows)[id].reconciliation.value, id)
        && (forall other :: other in old(database.rows) && other != id ==> !InWork(old(database.rows)[other].status))
      ensures !reply.Done? ==> reply == Refused(StateConflict) && database.Value() == old(database.Value())
      ensures reply.Done? ==> database.Value() == old(database.Value()).(
        sessions := old(database.sessions)[session := now],
        rows := old(database.rows)[id := old(database.rows)[id].(
          status := Applying, previous := Some(Ready), owner := Some(session), lease := Some(now + 60),
          active := old(database.rows)[id].reconciliation)])
    {
      if session !in database.sessions || id !in database.rows { return Refused(StateConflict); }
      var row := database.rows[id];
      if !row.status.NeedsReview? || row.error != Some(SourceDeleteFailed) || row.active.Some? || row.reconciliation.None? {
        return Refused(StateConflict);
      }
      var rid := row.reconciliation.value;
      if !database.Value().ReceiptOf(rid, id) || !database.receipts[rid].direction.Apply?
         || !database.receipts[rid].stage.Published? || database.Value().BusyBesides(id) {
        return Refused(StateConflict);
      }
      database.sessions := database.sessions[session := now];
      database.rows := database.rows[id := row.(
        status := Applying, previous := Some(Ready), owner := Some(session), lease := Some(now + LEASE_SECONDS),
        active := Some(rid))];
      reply := Done;
    }

    method FinishApplying(now: int, id: nat, rid: nat, direction: OperationDirection) returns (reply: Reply)
      modifies database
      ensures Outcome(database.Value(), reply)
           == QueueSpec.FinishApplying(old(database.Value()), session, now, id, rid, direction)
      ensures reply.Done? <==>
        && session in old(database.sessions) && IsApplying(old(database.rows), session, id, rid)
        && old(database.rows)[id].previous == Some(if direction.Apply? then Ready else Completed)
        && rid in old(database.receipts) && old(database.receipts)[rid].item == id
        && old(database.receipts)[rid].direction == direction && old(database.receipts)[rid].stage.Complete?
      ensures !reply.Done? ==> reply == Refused(StateConflict) && database.Value() == old(database.Value())
      ensures reply.Done? ==> database.Value() == old(database.Value()).(
        sessions := old(database.sessions)[session := now],
        rows := old(database.rows)[id := old(database.rows)[id].(
          status := if direction.Apply? then Completed else Ready, owner := None, lease := None, previous := None,
          active := None, reconciliation := None, error := None)])
    {
      if session !in database.sessions || !database.Value().OwnsBound(session, id, rid)
         || database.rows[id].previous != Some(StatusBefore(direction)) || !database.Value().ReceiptOf(rid, id)
         || database.receipts[rid].direction != direction || !database.receipts[rid].stage.Complete? {
        return Refused(StateConflict);
      }
      database.sessions := database.sessions[session := now];
      database.rows := database.rows[id := Release(database.rows[id], StatusAfter(direction))];
      reply := Done;
    }

    method CreateReceipt(now: int, id: nat, receipt: Receipt) returns (reply: Reply)
      modifies database
      ensures Outcome(database.Value(), reply)
           == QueueSpec.CreateReceipt(old(database.Value()), session, now, id, receipt)
      ensures reply.Created? <==>
        && session in old(database.sessions) && id in old(database.rows) && old(database.rows)[id].status.Applying?
        && old(database.rows)[id].owner == Some(session) && old(database.rows)[id].active.None?
        && (forall rid :: rid in old(database.receipts) && old(database.receipts)[rid].item == id ==>
              old(database.receipts)[rid].stage.RolledBack? || old(database.receipts)[rid].stage.Complete?)
        && old(database.rows)[id].previous == Some(if receipt.direction.Apply? then Ready else Completed)
        && receipt.stage.Planned?
      ensures !reply.Created? ==> reply == Refused(StateConflict) && database.Value() == old(database.Value())
      ensures reply.Created? ==>
        && reply.receipt == receipt.(id := old(database.nextReceipt), item := id)
        && database.Value() == old(database.Value()).(
             sessions := old(database.sessions)[session := now],
             receipts := old(database.receipts)[old(database.nextReceipt) := reply.receipt],
             nextReceipt := old(database.nextReceipt) + 1,
             rows := old(database.rows)[id := old(database.rows)[id].(
               active := Some(old(database.nextReceipt)), lease := Some(now + 60))])
    {
      if session !in database.sessions || id !in database.rows || !database.rows[id].status.Applying?
         || database.rows[id].owner != Some(session) || database.rows[id].active.Some?
         || database.Value().HasUnfinished(id)
         || database.rows[id].previous != Some(StatusBefore(receipt.direction)) || !receipt.stage.Planned? {
        return Refused(StateConflict);
      }
      var r := receipt.(id := database.nextReceipt, item := id);
      database.sessions := database.sessions[session := now];
      database.receipts := database.receipts[r.id := r];
      database.nextReceipt := database.nextReceipt + 1;
      database.rows := database.rows[id := database.rows[id].(active := Some(r.id), lease := Some(now + LEASE_SECONDS))];
      reply := Created(r);
    }

    method LoadReceipt(item: nat) returns (newest: Option<Receipt>)
      ensures newest == NewestReceipt(database.Value(), item)
      ensures newest.None? ==>
        forall rid: nat :: rid in database.receipts && rid < database.nextReceipt ==> database.receipts[rid].item != item
      ensures newest.Some? ==> exists rid: nat ::
        && rid in database.receipts && rid < database.nextReceipt && database.receipts[rid] == newest.value
        && newest.value.item == item
        && (forall k: nat :: rid < k < database.nextReceipt && k in database.receipts ==> database.receipts[k].item != item)
    {
      var below: nat := database.nextReceipt;
      while below > 0 && !(below - 1 in database.receipts && database.receipts[below - 1].item == item)
        invariant below <= database.nextReceipt
        invariant NewestReceipt(database.Value(), item) == NewestBelow(database.Value(), item, below)
        invariant forall k: nat :: below <= k < database.nextReceipt && k in database.receipts ==>
                    database.receipts[k].item != item
      {
        below := below - 1;
      }
      if below == 0 { return None; }
      newest := Some(database.receipts[below - 1]);
    }

    method LoadActiveReceipt(item: nat) returns (active: Option<Receipt>)
      ensures active == ActiveReceipt(database.Value(), item)
      ensures active.Some? <==>
        && item in database.rows && database.rows[item].active.Some?
        && database.rows[item].active.value in database.receipts
        && database.receipts[database.rows[item].active.value].item == item
      ensures active.Some? ==> active.value == database.receipts[database.rows[item].active.value]
    {
      if item !in database.rows || database.rows[item].active.None? { return None; }
      var rid := database.rows[item].active.value;
      if rid !in database.receipts || database.receipts[rid].item != item { return None; }
      active := Some(database.receipts[rid]);
    }

    method UpdateReceipt(now: int, expected: OperationStage, r: Receipt) returns (reply: Reply)
      modifies database
      ensures Outcome(database.Value(), reply)
           == QueueSpec.UpdateReceipt(old(database.Value()), session, now, expected, r)
      ensures reply.Created? <==>
        && Advances(expected, r.stage)
        && session in old(database.sessions) && IsApplying(old(database.rows), session, r.item, r.id)
        && r.id in old(database.receipts) && old(database.receipts)[r.id].item == r.item
        && old(database.receipts)[r.id].stage == expected
      ensures !reply.Created? ==>
        && reply == Refused(if Advances(expected, r.stage) then StateConflict else InvalidTransition)
        && database.Value() == old(database.Value())
      ensures reply.Created? ==>
        && reply.receipt == old(database.receipts)[r.id].(
             temporary := r.temporary, post := r.post, stage := r.stage, sourceExists := r.sourceExists,
             destinationExists := r.destinationExists, temporaryExists := r.temporaryExists)
        && database.Value() == old(database.Value()).(
             sessions := old(database.sessions)[session := now],
             receipts := old(database.receipts)[r.id := reply.receipt],
             rows := old(database.rows)[r.item := old(database.rows)[r.item].(lease := Some(now + 60))])
    {
      if !expected.CanAdvanceTo(r.stage) { return Refused(InvalidTransition); }
      if session !in database.sessions || !database.Value().OwnsBound(session, r.item, r.id)
         || !database.Value().ReceiptOf(r.id, r.item) || database.receipts[r.id].stage != expected {
        return Refused(StateConflict);
      }
      database.sessions := database.sessions[session := now];
      database.rows := database.rows[r.item := database.rows[r.item].(lease := Some(now + LEASE_SECONDS))];
      database.receipts := database.receipts[r.id := Revised(database.receipts[r.id], r)];
      reply := Created(database.receipts[r.id]);
    }

    method RenewOperationLease(now: int, id: nat, rid: nat, expected: OperationStage) returns (reply: Reply)
      modifies database
      ensures Outcome(database.Value(), reply)
           == QueueSpec.RenewOperationLease(old(database.Value()), session, now, id, rid, expected)
      ensures reply.Done? <==>
        && session in old(database.sessions) && IsApplying(old(database.rows), session, id, rid)
        && rid in old(database.receipts) && old(database.receipts)[rid].item == id
        && old(database.receipts)[rid].stage == expected
      ensures !reply.Done? ==> reply == Refused(StateConflict) && database.Value() == old(database.Value())
      ensures reply.Done? ==> database.Value() == old(database.Value()).(
        sessions := old(database.sessions)[session := now],
        rows := old(database.rows)[id := old(database.rows)[id].(lease := Some(now + 60))])
    {
      if session !in database.sessions || !database.Value().OwnsBound(session, id, rid)
         || !database.Value().ReceiptOf(rid, id) || database.receipts[rid].stage != expected {
        return Refused(StateConflict);
      }
      database.sessions := database.sessions[session := now];
      database.rows := database.rows[id := database.rows[id].(lease := Some(now + LEASE_SECONDS))];
      reply := Done;
    }

    method RecordApplyingRollback(now: int, id: nat, rid: nat, error: ErrorCode) returns (reply: Reply)
      modifies database
      ensures Outcome(database.Value(), reply)
           == QueueSpec.RecordApplyingRollback(old(database.Value()), session, now, id, rid, error)
      ensures reply.Done? <==> session in old(database.sessions) && IsApplying(old(database.rows), session, id, rid)
      ensures !reply.Done? ==> reply == Refused(StateConflict) && database.Value() == old(database.Value())
      ensures reply.Done? ==> database.Value() == old(database.Value()).(
        sessions := old(database.sessions)[session := now],
        rows := old(database.rows)[id := old(database.rows)[id].(
          reconciliation := Some(rid), error := Some(error), lease := Some(now + 60))])
    {
      if session !in database.sessions || !database.Value().OwnsBound(session, id, rid) { return Refused(StateConflict); }
      database.sessions := database.sessions[session := now];
      database.rows := database.rows[id := database.rows[id].(
        reconciliation := Some(rid), error := Some(error), lease := Some(now + LEASE_SECONDS))];
      reply := Done;
    }

    method DeferPublished(id: nat, rid: nat, error: ErrorCode) returns (reply: Reply)
      modifies database
      ensures Outcome(database.Value(), reply)
           == QueueSpec.DeferPublished(old(database.Value()), session, id, rid, error)
      ensures reply.Done? <==>
        && error.SourceDeleteFailed? && IsApplying(old(database.rows), session, id, rid)
        && PublishedApply(old(database.receipts), rid, id)
      ensures !reply.Done? ==>
        && reply == Refused(if error.SourceDeleteFailed? then StateConflict else InvalidData)
        && database.Value() == old(database.Value())
      ensures reply.Done? ==> database.Value() == old(database.Value()).(
        rows := old(database.rows)[id := old(database.rows)[id].(
          status := NeedsReview, reconciliation := Some(rid), error := Some(error), active := None, previous := None,
          owner := None, lease := None)])
    {
      if !error.SourceDeleteFailed? { return Refused(InvalidData); }
      if !database.Value().OwnsBound(session, id, rid) || !database.Value().ReceiptOf(rid, id)
         || !database.receipts[rid].direction.Apply? || !database.receipts[rid].stage.Published? {
        return Refused(StateConflict);
      }
      database.rows := database.rows[id := Park(database.rows[id], rid, error)];
      reply := Done;
    }

    method ParkForReview(id: nat, rid: nat, error: ErrorCode) returns (reply: Reply)
      modifies database
      ensures Outcome(database.Value(), reply)
           == QueueSpec.ParkForReview(old(database.Value()), session, id, rid, error)
      ensures reply.Done? <==> IsApplying(old(database.rows), session, id, rid)
      ensures !reply.Done? ==> reply == Refused(StateConflict) && database.Value() == old(database.Value())
      ensures reply.Done? ==> database.Value() == old(database.Value()).(
        rows := old(database.rows)[id := old(database.rows)[id].(
          status := NeedsReview, reconciliation := Some(rid), error := Some(error), active := None, previous := None,
          owner := None, lease := None)])
    {
      if !database.Value().OwnsBound(session, id, rid) { return Refused(StateConflict); }
      database.rows := database.rows[id := Park(database.rows[id], rid, error)];
      reply := Done;
    }

    method ResolveEmpty(now: int, id: nat) returns (reply: Reply)
      modifies database
      ensures Outcome(database.Value(), reply) == QueueSpec.ResolveEmpty(old(database.Value()), session, now, id)
      ensures reply.Done? <==>
        && session in old(database.sessions) && id in old(database.rows) && old(database.rows)[id].status.Applying?
        && old(database.rows)[id].owner == Some(session) && old(database.rows)[id].active.None?
        && old(database.rows)[id].epoch > 0
        && (old(database.rows)[id].previous == Some(Ready) || old(database.rows)[id].previous == Some(Completed))
      ensures !reply.Done? ==> reply == Refused(StateConflict) && database.Value() == old(database.Value())
      ensures reply.Done? ==> database.Value() == old(database.Value()).(
        sessions := old(database.sessions)[session := now],
        rows := old(database.rows)[id := old(database.rows)[id].(
          status := old(database.rows)[id].previous.value, owner := None, lease := None, previous := None,
          reconciliation := None, error := None)])
    {
      if session !in database.sessions || id !in database.rows { return Refused(StateConflict); }
      var row := database.rows[id];
      if !row.status.Applying? || row.owner != Some(session) || row.active.Some? || row.epoch == 0
         || (row.previous != Some(Ready) && row.previous != Some(Completed)) {
        return Refused(StateConflict);
      }
      database.sessions := database.sessions[session := now];
      database.rows := database.rows[id := Release(row, row.previous.value)];
      reply := Done;
    }

    method ResolveRollback(now: int, id: nat, rid: nat, expected: OperationStage) returns (reply: Reply)
      modifies database
      ensures Outcome(database.Value(), reply)
           == QueueSpec.ResolveRollback(old(database.Value()), session, now, id, rid, expected)
      ensures reply.Done? <==>
        && !expected.Published? && !expected.Complete?
        && session in old(database.sessions) && IsApplying(old(database.rows), session, id, rid)
        && rid in old(database.receipts) && old(database.receipts)[rid].item == id
        && old(database.receipts)[rid].stage == expected
        && old(database.rows)[id].previous
             == Some(if old(database.receipts)[rid].direction.Apply? then Ready else Completed)
      ensures !reply.Done? ==>
        && reply == Refused(if expected.Published? || expected.Complete? then InvalidTransition else StateConflict)
        && database.Value() == old(database.Value())
      ensures reply.Done? ==>
        var r := old(database.receipts)[rid];
        database.Value() == old(database.Value()).(
          sessions := old(database.sessions)[session := now],
          receipts := old(database.receipts)[rid :=
            if expected.RolledBack? then r.(temporaryExists := false)
            else r.(stage := RolledBack, sourceExists := true, destinationExists := false, temporaryExists := false)],
          rows := old(database.rows)[id := old(database.rows)[id].(
            status := old(database.rows)[id].previous.value, owner := None, lease := None, previous := None,
            active := None, reconciliation := None, error := None)])
    {
      if expected.Published? || expected.Complete? { return Refused(InvalidTransition); }
      if session !in database.sessions || !database.Value().ReceiptOf(rid, id) || database.receipts[rid].stage != expected
         || !database.Value().OwnsBound(session, id, rid)
         || database.rows[id].previous != Some(StatusBefore(database.receipts[rid].direction)) {
        return Refused(StateConflict);
      }
      database.sessions := database.sessions[session := now];
      database.receipts := database.receipts[rid := AsRolledBack(database.receipts[rid])];
      database.rows := database.rows[id := Release(database.rows[id], database.rows[id].previous.value)];
      reply := Done;
    }

    method ResolveVerified(now: int, id: nat, rid: nat, expected: OperationStage) returns (reply: Reply)
      modifies database
      ensures Outcome(database.Value(), reply)
           == QueueSpec.ResolveVerified(old(database.Value()), session, now, id, rid, expected)
      ensures reply.Done? <==>
        && !expected.RollbackRequired? && !expected.RolledBack?
        && session in old(database.sessions) && IsApplying(old(database.rows), session, id, rid)
        && rid in old(database.receipts) && old(database.receipts)[rid].item == id
        && old(database.receipts)[rid].stage == expected
        && old(database.rows)[id].previous
             == Some(if old(database.receipts)[rid].direction.Apply? then Ready else Completed)
      ensures !reply.Done? ==>
        && reply == Refused(if expected.RollbackRequired? || expected.RolledBack? then InvalidTransition else StateConflict)
        && database.Value() == old(database.Value())
      ensures reply.Done? ==>
        var r := old(database.receipts)[rid];
        database.Value() == old(database.Value()).(
          sessions := old(database.sessions)[session := now],
          receipts := old(database.receipts)[rid :=
            if expected.Complete? then r
            else r.(stage := Complete, sourceExists := false, destinationExists := true, temporaryExists := false,
                    post := Some(r.pre))],
          rows := old(database.rows)[id := old(database.rows)[id].(
            status := if r.direction.Apply? then Completed else Ready, owner := None, lease := None, previous := None,
            active := None, reconciliation := None, error := None)])
    {
      if expected.RollbackRequired? || expected.RolledBack? { return Refused(InvalidTransition); }
      if session !in database.sessions || !database.Value().ReceiptOf(rid, id) || database.receipts[rid].stage != expected
         || !database.Value().OwnsBound(session, id, rid)
         || database.rows[id].previous != Some(StatusBefore(database.receipts[rid].direction)) {
        return Refused(StateConflict);
      }
      database.sessions := database.sessions[session := now];
      database.rows := database.rows[id := Release(database.rows[id], StatusAfter(database.receipts[rid].direction))];
      database.receipts := database.receipts[rid := AsComplete(database.receipts[rid])];
      reply := Done;
    }

    method ServeBulk(now: int, call: Call) returns (reply: Reply)
      requires BulkCall(call)
      modifies database
      ensures Outcome(database.Value(), reply) == Perform(old(database.Value()), session, now, call)
    {
      hide InWork, LeftBehind, IsApplying, PublishedApply, Permitted, Advances, EditsOnly, Prunes;
      if call.DoOpenSession? {
        reply := Open(now);
      } else if call.DoCloseSession? {
        reply := Close();
      } else if call.DoEnqueue? {
        reply := Enqueue(call.source, call.hash);
      } else if call.DoClaimNext? {
        reply := ClaimNext(now);
      } else if call.DoRecoverInterrupted? {
        reply := RecoverInterrupted(now);
      } else if call.DoClearTerminal? {
        reply := ClearTerminal();
      } else {
        reply := DiscardQueued();
      }
    }

    method ServeDecision(now: int, call: Call) returns (reply: Reply)
      requires DecisionCall(call)
      modifies database
      ensures Outcome(database.Value(), reply) == Perform(old(database.Value()), session, now, call)
    {
      hide InWork, LeftBehind, IsApplying, PublishedApply, Permitted, Advances, EditsOnly, Prunes;
      if call.DoTransition? {
        reply := Transition(now, call.id, call.expected, call.next, call.problem);
      } else if call.DoManualRetry? {
        reply := ManualRetry(call.id);
      } else if call.DoCompleteKeepOriginal? {
        reply := CompleteKeepOriginal(call.id, call.expected);
      } else if call.DoRetryDuplicate? {
        reply := RetryDuplicate(call.id);
      } else if call.DoBeginApplying? {
        reply := BeginApplying(now, call.id, call.expected);
      } else if call.DoClaimApplying? {
        reply := ClaimApplying(now, call.id);
      } else {
        reply := ClaimDeferred(now, call.id);
      }
    }

    method ServeLease(now: int, call: Call) returns (reply: Reply)
      requires LeaseCall(call)
      modifies database
      ensures Outcome(database.Value(), reply) == Perform(old(database.Value()), session, now, call)
    {
      hide InWork, LeftBehind, IsApplying, PublishedApply, Permitted, Advances, EditsOnly, Prunes;
      if call.DoRenewLease? {
        reply := RenewLease(now, call.id);
      } else if call.DoRecordProcessingFailure? {
        reply := RecordProcessingFailure(call.id, call.code);
      } else if call.DoFinishApplying? {
        reply := FinishApplying(now, call.id, call.rid, call.direction);
      } else if call.DoRenewOperationLease? {
        reply := RenewOperationLease(now, call.id, call.rid, call.stage);
      } else if call.DoRecordApplyingRollback? {
        reply := RecordApplyingRollback(now, call.id, call.rid, call.code);
      } else if call.DoDeferPublished? {
        reply := DeferPublished(call.id, call.rid, call.code);
      } else if call.DoParkForReview? {
        reply := ParkForReview(call.id, call.rid, call.code);
      } else {
        reply := ResolveEmpty(now, call.id);
      }
    }

    method ServeJournal(now: int, call: Call) returns (reply: Reply)
      requires JournalCall(call)
      modifies database
      ensures Outcome(database.Value(), reply) == Perform(old(database.Value()), session, now, call)
    {
      hide InWork, LeftBehind, IsApplying, PublishedApply, Permitted, Advances, EditsOnly, Prunes;
      if call.DoCreateReceipt? {
        reply := CreateReceipt(now, call.id, call.receipt);
      } else if call.DoUpdateReceipt? {
        reply := UpdateReceipt(now, call.from, call.receipt);
      } else if call.DoResolveRollback? {
        reply := ResolveRollback(now, call.id, call.rid, call.stage);
      } else {
        reply := ResolveVerified(now, call.id, call.rid, call.stage);
      }
    }

    /** Any one call of the store through this handle. */
    method Serve(now: int, call: Call) returns (reply: Reply)
      requires !PipelineCall(call)
      modifies database
      ensures Outcome(database.Value(), reply) == Perform(old(database.Value()), session, now, call)
    {
      hide Perform;
      if BulkCall(call) {
        reply := ServeBulk(now, call);
      } else if DecisionCall(call) {
        reply := ServeDecision(now, call);
      } else if LeaseCall(call) {
        reply := ServeLease(now, call);
      } else {
        reply := ServeJournal(now, call);
      }
    }
  }

  lemma NothingEdited(d: Db, id: nat)
    ensures EditsOnly(d, d, id)
  {
  }

  lemma RowEdited(before: Db, after: Db, id: nat, row: Row)
    requires id in before.rows && after == before.(rows := before.rows[id := row], sessions := after.sessions)
    ensures EditsOnly(before, after, id) && after.rows[id] == row
  {
  }

  lemma PruningCounts(d: Db, gone: set<nat>)
    requires gone <= d.rows.Keys
    ensures |d.rows| == |d.rows - gone| + |gone|
  {
    assert |d.rows| == |d.rows.Keys| && |d.rows - gone| == |(d.rows - gone).Keys|;
    assert d.rows.Keys == (d.rows - gone).Keys + gone;
  }
}
