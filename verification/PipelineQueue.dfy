/** The pipeline beside the store: the statements it makes on the queue's table
    through a connection of its own, and the start of its recovery. */
module PipelineQueue {
  import opened Domain
  import opened QueueSpec
  import opened QueueInvariants
  import opened QueueFencing
  import opened QueueStore
  import opened QueueTries

  class Repository {
    const database: Database

    constructor (database: Database)
      ensures this.database == database
    {
      this.database := database;
    }

    method SaveProposal(session: Session, id: nat, review: bool) returns (reply: Reply)
      modifies database
      ensures Outcome(database.Value(), reply) == QueueSpec.SaveProposal(old(database.Value()), session, id, review)
      ensures reply.Done? <==>
        && id in old(database.rows) && old(database.rows)[id].status.Analyzing?
        && old(database.rows)[id].owner == Some(session)
      ensures !reply.Done? ==> database.Value() == old(database.Value())
      ensures EditsOnly(old(database.Value()), database.Value(), id)
      ensures reply.Done? ==>
        && (if review then database.rows[id].status.NeedsReview? else database.rows[id].status.Ready?)
        && database.rows[id].owner.None? && database.rows[id].lease.None? && database.rows[id].error.None?
        && database.rows[id].failures == old(database.rows)[id].failures
      ensures !reply.Done? ==> reply == Refused(StateConflict)
      ensures reply.Done? ==> database.Value() == old(database.Value()).(
        rows := old(database.rows)[id := old(database.rows)[id].(
          status := if review then NeedsReview else Ready, owner := None, lease := None, error := None)])
    {
      if id !in database.rows || !database.rows[id].status.Analyzing? || database.rows[id].owner != Some(session) {
        return Refused(StateConflict);
      }
      var status := if review then NeedsReview else Ready;
      database.rows := database.rows[id := database.rows[id].(
        status := status, owner := None, lease := None, error := None)];
      reply := Done;
    }

    method MarkNeedsReview(id: nat) returns (reply: Reply)
      modifies database
      ensures Outcome(database.Value(), reply) == QueueSpec.MarkNeedsReview(old(database.Value()), id)
      ensures reply.Done? <==> id in old(database.rows) && old(database.rows)[id].status.Ready?
      ensures !reply.Done? ==> database.Value() == old(database.Value())
      ensures EditsOnly(old(database.Value()), database.Value(), id)
      ensures reply.Done? ==> database.rows[id] == old(database.rows)[id].(status := NeedsReview)
      ensures !reply.Done? ==> reply == Refused(StateConflict)
    {
      if id !in database.rows || !database.rows[id].status.Ready? { return Refused(StateConflict); }
      database.rows := database.rows[id := database.rows[id].(status := NeedsReview)];
      reply := Done;
    }

    method RetryUnverified(id: nat) returns (reply: Reply)
      modifies database
      ensures Outcome(database.Value(), reply) == QueueSpec.RetryUnverified(old(database.Value()), id)
      ensures reply.Done? <==>
        && id in old(database.rows) && old(database.rows)[id].status.NeedsReview?
        && old(database.rows)[id].error == Some(UploaderUnverified)
      ensures !reply.Done? ==> database.Value() == old(database.Value())
      ensures EditsOnly(old(database.Value()), database.Value(), id)
      ensures reply.Done? ==> Fresh(database.rows[id])
      ensures !reply.Done? ==> reply == Refused(StateConflict)
      ensures reply.Done? ==> database.Value() == old(database.Value()).(
        rows := old(database.rows)[id := old(database.rows)[id].(
          status := Queued, failures := 0, error := None, owner := None, lease := None)])
    {
      if id !in database.rows || !database.rows[id].status.NeedsReview?
         || database.rows[id].error != Some(UploaderUnverified) {
        return Refused(StateConflict);
      }
      database.rows := database.rows[id := Requeued(database.rows[id])];
      reply := Done;
    }

    method RetryCanceled(id: nat) returns (reply: Reply)
      modifies database
      ensures Outcome(database.Value(), reply) == QueueSpec.RetryCanceled(old(database.Value()), id)
      ensures reply.Done? <==> id in old(database.rows) && old(database.rows)[id].status.Canceled?
      ensures !reply.Done? ==> database.Value() == old(database.Value())
      ensures EditsOnly(old(database.Value()), database.Value(), id)
      ensures reply.Done? ==> Fresh(database.rows[id])
      ensures !reply.Done? ==> reply == Refused(StateConflict)
      ensures reply.Done? ==> database.Value() == old(database.Value()).(
        rows := old(database.rows)[id := old(database.rows)[id].(
          status := Queued, failures := 0, error := None, owner := None, lease := None)])
    {
      if id !in database.rows || !database.rows[id].status.Canceled? { return Refused(StateConflict); }
      database.rows := database.rows[id := Requeued(database.rows[id])];
      reply := Done;
    }

    method RecordRecoveredFailure(id: nat) returns (reply: Reply)
      modifies database
      ensures Outcome(database.Value(), reply) == QueueSpec.RecordRecoveredFailure(old(database.Value()), id)
      ensures reply.Done? <==>
        id in old(database.rows) && old(database.rows)[id].status.Queued? && old(database.rows)[id].owner.None?
      ensures !reply.Done? ==> database.Value() == old(database.Value())
      ensures EditsOnly(old(database.Value()), database.Value(), id)
      ensures reply.Done? ==>
        && database.rows[id].failures == old(database.rows)[id].failures + 1
        && (database.rows[id].status.Failed? <==> old(database.rows)[id].failures >= 1)
        && (database.rows[id].status.Queued? <==> old(database.rows)[id].failures == 0)
      ensures !reply.Done? ==> reply == Refused(StateConflict)
      ensures reply.Done? ==> database.Value() == old(database.Value()).(
        rows := old(database.rows)[id := old(database.rows)[id].(
          status := if old(database.rows)[id].failures == 0 then Queued else Failed,
          failures := old(database.rows)[id].failures + 1, error := Some(IoError))])
    {
      if id !in database.rows || !database.rows[id].status.Queued? || database.rows[id].owner.Some? {
        return Refused(StateConflict);
      }
      var failures := database.rows[id].failures + 1;
      var status := if failures >= 2 then Failed else Queued;
      database.rows := database.rows[id := database.rows[id].(
        status := status, failures := failures, error := Some(IoError))];
      reply := Done;
    }

    method RemoveItem(id: nat) returns (reply: Reply)
      modifies database
      ensures Outcome(database.Value(), reply) == QueueSpec.RemoveItem(old(database.Value()), id)
      ensures reply.Done? <==> id in old(database.rows) && !InWork(old(database.rows)[id].status)
      ensures !reply.Done? ==> database.Value() == old(database.Value())
      ensures reply.Done? ==>
        && database.rows == old(database.rows) - {id}
        && (forall rid :: rid in database.receipts <==>
              rid in old(database.receipts) && old(database.receipts)[rid].item != id)
        && (forall rid :: rid in database.receipts ==> database.receipts[rid] == old(database.receipts)[rid])
      ensures !reply.Done? ==> reply == Refused(StateConflict)
    {
      if id !in database.rows || database.rows[id].status.IsActive() { return Refused(StateConflict); }
      database.rows := database.rows - {id};
      database.receipts := map rid | rid in database.receipts && database.receipts[rid].item !in {id} :: database.receipts[rid];
      reply := Done;
    }

    method ApproveEdit(id: nat, expected: QueueStatus) returns (reply: Reply)
      modifies database
      ensures Outcome(database.Value(), reply) == QueueSpec.ApproveEdit(old(database.Value()), id, expected)
      ensures reply.Done? <==>
        (expected.Ready? || expected.NeedsReview?) && id in old(database.rows) && old(database.rows)[id].status == expected
      ensures !reply.Done? ==> database.Value() == old(database.Value())
      ensures EditsOnly(old(database.Value()), database.Value(), id)
      ensures reply.Done? ==> database.rows[id] == old(database.rows)[id].(status := Ready, error := None)
      ensures !reply.Done? ==>
        reply == Refused(if expected.Ready? || expected.NeedsReview? then StateConflict else InvalidTransition)
    {
      if !expected.NeedsReview? && !expected.Ready? { return Refused(InvalidTransition); }
      if id !in database.rows || database.rows[id].status != expected { return Refused(StateConflict); }
      database.rows := database.rows[id := database.rows[id].(status := Ready, error := None)];
      reply := Done;
    }

    /** Any one of these statements. */
    method Serve(session: Session, now: int, call: Call) returns (reply: Reply)
      requires PipelineCall(call)
      modifies database
      ensures Outcome(database.Value(), reply) == Perform(old(database.Value()), session, now, call)
    {
      if call.DoSaveProposal? {
        reply := SaveProposal(session, call.id, call.review);
      } else if call.DoMarkNeedsReview? {
        reply := MarkNeedsReview(call.id);
      } else if call.DoRetryUnverified? {
        reply := RetryUnverified(call.id);
      } else if call.DoRetryCanceled? {
        reply := RetryCanceled(call.id);
      } else if call.DoRecordRecoveredFailure? {
        reply := RecordRecoveredFailure(call.id);
      } else if call.DoRemoveItem? {
        reply := RemoveItem(call.id);
      } else {
        reply := ApproveEdit(call.id, call.expected);
      }
    }
  }

  /** The row is in the queue, with no failures held against it and nobody's. */
  predicate Fresh(row: Row) {
    row.status.Queued? && row.failures == 0 && row.error.None? && row.owner.None? && row.lease.None?
  }

  // ---- recovery --------------------------------------------------------------

  /** The rows when interrupted work is back in the queue and, except for the ids
      in `todo`, counted. */
  function RecoveredRows(d: Db, now: int, todo: set<nat>): map<nat, Row> {
    map id | id in d.rows ::
      if !Interrupted(d, id, now) then d.rows[id]
      else if id in todo then d.rows[id].(status := Queued, owner := None, lease := None)
      else d.rows[id].(
        status := if d.rows[id].failures >= 1 then Failed else Queued, failures := d.rows[id].failures + 1,
        error := Some(IoError), owner := None, lease := None)
  }

  lemma CountsOneRow(d: Db, now: int, todo: set<nat>, id: nat)
    requires Interrupted(d, id, now) && id in todo
    ensures RecordRecoveredFailure(d.(rows := RecoveredRows(d, now, todo)), id)
         == Outcome(d.(rows := RecoveredRows(d, now, todo - {id})), Done)
  {
    var d' := RecordRecoveredFailure(d.(rows := RecoveredRows(d, now, todo)), id).db;
    assert d'.rows == RecoveredRows(d, now, todo - {id});
  }

  lemma NothingToCount(d: Db, now: int, todo: set<nat>, id: nat)
    requires !Interrupted(d, id, now)
    ensures RecoveredRows(d, now, todo) == RecoveredRows(d, now, todo - {id})
  {
  }

  /** The account of a recovery that has still to look at `todo`. */
  ghost predicate InHand(d: Db, events: seq<Event>, now: int, todo: set<nat>) {
    && Run(d, events) == d.(rows := RecoveredRows(d, now, todo))
    && (forall id: nat :: PutBacks(d, events, id) == One(Interrupted(d, id, now)))
    && (forall id: nat :: Counts(d, events, id) == One(Interrupted(d, id, now) && id !in todo))
  }

  lemma RecoverEvent(d: Db, e: Event, todo: set<nat>, id: nat)
    requires e.call == DoRecoverInterrupted
    requires forall other :: Interrupted(d, other, e.now) ==> other in todo
    ensures After(d, e) == d.(rows := RecoveredRows(d, e.now, todo))
    ensures PutBack(d, e, id) <==> Interrupted(d, id, e.now)
  {
    assert After(d, e).rows == RecoveredRows(d, e.now, todo);
  }

  lemma RecoveryBegins(d: Db, s: Session, now: int, todo: set<nat>)
    requires forall id :: Interrupted(d, id, now) ==> id in todo
    ensures InHand(d, [Event(s, now, DoRecoverInterrupted)], now, todo)
  {
    hide Perform, After, PutBack, RecoveredRows, Interrupted;
    var e := Event(s, now, DoRecoverInterrupted);
    assert [] + [e] == [e];
    forall id: nat ensures
      && PutBacks(d, [e], id) == One(Interrupted(d, id, now)) && Counts(d, [e], id) == 0
      && Run(d, [e]) == d.(rows := RecoveredRows(d, now, todo))
    {
      RecoverEvent(d, e, todo, id);
      OneMoreEvent(d, [], e, id);
    }
    assert Run(d, [e]) == d.(rows := RecoveredRows(d, now, todo)) by {
      RecoverEvent(d, e, todo, 0);
      OneMoreEvent(d, [], e, 0);
    }
  }

  lemma CountEvent(d: Db, s: Session, now: int, todo: set<nat>, id: nat, other: nat)
    requires Interrupted(d, id, now) && id in todo
    ensures
      var e, d1 := Event(s, now, DoRecordRecoveredFailure(id)), d.(rows := RecoveredRows(d, now, todo));
      && After(d1, e) == d.(rows := RecoveredRows(d, now, todo - {id}))
      && !PutBack(d1, e, other) && (Counted(d1, e, other) <==> other == id)
  {
    CountsOneRow(d, now, todo, id);
  }

  lemma RecoveryGoesOn(d: Db, events: seq<Event>, s: Session, now: int, todo: set<nat>, id: nat)
    requires InHand(d, events, now, todo) && Interrupted(d, id, now) && id in todo
    ensures InHand(d, events + [Event(s, now, DoRecordRecoveredFailure(id))], now, todo - {id})
  {
    hide Perform, After, PutBack, Counted, RecoveredRows, Interrupted;
    var e := Event(s, now, DoRecordRecoveredFailure(id));
    forall other: nat ensures
      && PutBacks(d, events + [e], other) == One(Interrupted(d, other, now))
      && Counts(d, events + [e], other) == One(Interrupted(d, other, now) && other !in todo - {id})
    {
      CountEvent(d, s, now, todo, id, other);
      OneMoreEvent(d, events, e, other);
    }
    CountEvent(d, s, now, todo, id, id);
    OneMoreEvent(d, events, e, id);
  }

  lemma NothingLeft(d: Db, events: seq<Event>, now: int)
    requires InHand(d, events, now, {})
    ensures Run(d, events) == d.(rows := RecoveredRows(d, now, {}))
    ensures forall id: nat :: PutBacks(d, events, id) == Counts(d, events, id)
  {
  }

  /** One that is not interrupted changes nothing of the account. */
  lemma PassedOver(d: Db, events: seq<Event>, now: int, todo: set<nat>, id: nat)
    requires InHand(d, events, now, todo) && !Interrupted(d, id, now)
    ensures InHand(d, events, now, todo - {id})
  {
    NothingToCount(d, now, todo, id);
  }

  /** Recovery of interrupted work, with no other session at the queue: what is being
      processed is noted, what nobody works on any more is put back, and each of
      those noted that is then in the queue is counted. So everything put back is
      counted, once. */
  method Recover(store: Store, repository: Repository, now: int) returns (reply: Reply, ghost events: seq<Event>)
    requires repository.database == store.database
    modifies store.database
    ensures reply.Done?
    ensures store.database.Value() == Run(old(store.database.Value()), events)
    ensures forall id: nat ::
      PutBacks(old(store.database.Value()), events, id) == Counts(old(store.database.Value()), events, id)
    ensures store.database.rows.Keys == old(store.database.rows).Keys && store.database.receipts == old(store.database.receipts)
    ensures forall id :: id in store.database.rows ==>
      var before, after := old(store.database.rows)[id], store.database.rows[id];
      if Interrupted(old(store.database.Value()), id, now) then
        && after.failures == before.failures + 1 && after.owner.None?
        && (if before.failures >= 1 then after.status.Failed? else after.status.Queued?)
      else after == before
  {
    hide InHand;
    ghost var d := store.database.Value();
    var todo := set id | id in store.database.rows && Processing(store.database.rows[id].status);
    RecoveryBegins(d, store.session, now, todo);
    reply := store.RecoverInterrupted(now);
    events := [Event(store.session, now, DoRecoverInterrupted)];
    while todo != {}
      invariant store.database.Value() == d.(rows := RecoveredRows(d, now, todo))
      invariant InHand(d, events, now, todo)
      invariant forall id :: id in todo ==> id in d.rows && Processing(d.rows[id].status)
      decreases todo
    {
      var id :| id in todo;
      if id in store.database.rows && store.database.rows[id].status.Queued? {
        CountsOneRow(d, now, todo, id);
        RecoveryGoesOn(d, events, store.session, now, todo, id);
        reply := repository.RecordRecoveredFailure(id);
        events := events + [Event(store.session, now, DoRecordRecoveredFailure(id))];
      } else {
        NothingToCount(d, now, todo, id);
        PassedOver(d, events, now, todo, id);
      }
      todo := todo - {id};
    }
    NothingLeft(d, events, now);
    reply := Done;
  }

  /** A run of calls through the handles of any sessions changes the tables as the
      run of their meanings does: what is proved of every run holds of the store and
      of the pipeline's own statements. */
  method ServeAll(database: Database, handles: map<Session, Store>, repository: Repository, events: seq<Event>)
    requires forall s :: s in handles ==> handles[s].database == database && handles[s].session == s
    requires repository.database == database
    requires forall i :: 0 <= i < |events| ==> events[i].session in handles
    modifies database
    ensures database.Value() == Run(old(database.Value()), events)
  {
    hide Perform;
    for i := 0 to |events|
      invariant Run(database.Value(), events[i..]) == Run(old(database.Value()), events)
    {
      assert events[i..][1..] == events[i + 1..];
      var e := events[i];
      if PipelineCall(e.call) {
        var _ := repository.Serve(e.session, e.now, e.call);
      } else {
        var _ := handles[e.session].Serve(e.now, e.call);
      }
    }
  }
}
