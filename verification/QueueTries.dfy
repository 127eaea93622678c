/** How often a document is tried. The queue counts failures, not tries: a row that
    a pause or a recovery puts back has been tried and counts nothing, and the
    pipeline counts a recovered row by a statement of its own. This is the account
    that holds on every run, and what it leaves open. */
module QueueTries {
  import opened Domain
  import opened QueueSpec
  import opened QueueInvariants
  import opened QueueFencing
  import opened QueueRows

  /** The queue hands the row to a session. */
  predicate Tried(d: Db, e: Event, id: nat) {
    e.call.DoClaimNext? && Perform(d, e.session, e.now, e.call).reply == Found(id)
  }

  /** A failure is counted against a row that is back in the queue. */
  predicate Counted(d: Db, e: Event, id: nat) {
    e.call == DoRecordRecoveredFailure(id) && Perform(d, e.session, e.now, e.call).reply.Done?
  }

  predicate Processing(status: QueueStatus) {
    status.Extracting? || status.Analyzing?
  }

  /** The row goes from being processed back into the queue, and nothing is counted. */
  predicate PutBack(d: Db, e: Event, id: nat) {
    var d' := Perform(d, e.session, e.now, e.call).db;
    && id in d.rows && id in d'.rows && Processing(d.rows[id].status) && d'.rows[id].status.Queued?
    && d'.rows[id].failures == d.rows[id].failures
  }

  /** A person asks for the row to be tried again. */
  predicate Pardons(call: Call, id: nat) {
    || call == DoManualRetry(id) || call == DoRetryDuplicate(id)
    || call == DoRetryUnverified(id) || call == DoRetryCanceled(id)
  }

  function One(b: bool): nat {
    if b then 1 else 0
  }

  function After(d: Db, e: Event): Db {
    Perform(d, e.session, e.now, e.call).db
  }

  function Tries(d: Db, events: seq<Event>, id: nat): nat
    decreases |events|
  {
    if events == [] then 0 else One(Tried(d, events[0], id)) + Tries(After(d, events[0]), events[1..], id)
  }

  function Counts(d: Db, events: seq<Event>, id: nat): nat
    decreases |events|
  {
    if events == [] then 0 else One(Counted(d, events[0], id)) + Counts(After(d, events[0]), events[1..], id)
  }

  function PutBacks(d: Db, events: seq<Event>, id: nat): nat
    decreases |events|
  {
    if events == [] then 0 else One(PutBack(d, events[0], id)) + PutBacks(After(d, events[0]), events[1..], id)
  }

  /** How many of its two tries a row has used up. */
  function Spent(row: Row): nat {
    match row.status
    case Queued => row.failures
    case Failed => 2
    case _ => row.failures + 1
  }

  function SpentOf(d: Db, id: nat): nat {
    if id in d.rows then Spent(d.rows[id]) else if id < d.nextRow then 2 else 0
  }

  ghost predicate Accounted(d: Db, e: Event, id: nat) {
    One(Tried(d, e, id)) + One(Counted(d, e, id)) + SpentOf(d, id) <= SpentOf(After(d, e), id) + One(PutBack(d, e, id))
  }

  lemma BulkCallAccounts(d: Db, e: Event, id: nat)
    requires Numbered(d) && AllTidy(d) && BulkCall(e.call)
    ensures Accounted(d, e, id)
  {
  }

  lemma DecisionCallAccounts(d: Db, e: Event, id: nat)
    requires AllTidy(d) && DecisionCall(e.call) && !Pardons(e.call, id)
    ensures Accounted(d, e, id)
  {
  }

  lemma LeaseCallAccounts(d: Db, e: Event, id: nat)
    requires AllTidy(d) && LeaseCall(e.call)
    ensures Accounted(d, e, id)
  {
  }

  lemma PipelineCallAccounts(d: Db, e: Event, id: nat)
    requires Numbered(d) && AllTidy(d) && PipelineCall(e.call) && !Pardons(e.call, id)
    ensures Accounted(d, e, id)
  {
  }

  lemma JournalCallAccounts(d: Db, e: Event, id: nat)
    requires Bound(d) && AllTidy(d) && JournalCall(e.call)
    ensures Accounted(d, e, id)
  {
    assert id in d.rows ==> RowBound(d, id);
  }

  lemma CallAccounts(d: Db, e: Event, id: nat)
    requires Valid(d) && AllTidy(d) && !Pardons(e.call, id)
    ensures Accounted(d, e, id)
  {
    assert Numbered(d) && Bound(d);
    hide Perform, AllTidy, Accounted, Pardons, Bound;
    if BulkCall(e.call) {
      BulkCallAccounts(d, e, id);
    } else if DecisionCall(e.call) {
      DecisionCallAccounts(d, e, id);
    } else if LeaseCall(e.call) {
      LeaseCallAccounts(d, e, id);
    } else if PipelineCall(e.call) {
      PipelineCallAccounts(d, e, id);
    } else {
      JournalCallAccounts(d, e, id);
    }
  }

  lemma {:induction false} RunAccounts(d: Db, events: seq<Event>, id: nat)
    requires Valid(d) && AllTidy(d)
    requires forall k :: 0 <= k < |events| ==> !Pardons(events[k].call, id)
    ensures Tries(d, events, id) + Counts(d, events, id) + SpentOf(d, id) <= 2 + PutBacks(d, events, id)
    decreases |events|
  {
    hide Perform, Valid, Tried, Counted, PutBack;
    if events == [] {
      assert id in d.rows ==> Tidy(d.rows[id]);
    } else {
      var e := events[0];
      CallAccounts(d, e, id);
      CallKeepsValid(d, e.session, e.now, e.call);
      CallKeepsTidy(d, e.session, e.now, e.call);
      RunAccounts(After(d, e), events[1..], id);
    }
  }

  /** From an empty database, whatever all sessions do, as long as no person asks for
      the document again: it is tried twice at most, once more for each time it was
      put back, and once less for each of those that was counted after all. */
  lemma TriesAreAccounted(events: seq<Event>, id: nat)
    requires forall k :: 0 <= k < |events| ==> !Pardons(events[k].call, id)
    ensures Tries(EMPTY, events, id) + Counts(EMPTY, events, id) <= 2 + PutBacks(EMPTY, events, id)
    ensures PutBacks(EMPTY, events, id) <= Counts(EMPTY, events, id) ==> Tries(EMPTY, events, id) <= 2
  {
    RunAccounts(EMPTY, events, id);
  }

  lemma {:induction false} OneMoreEvent(d: Db, events: seq<Event>, e: Event, id: nat)
    ensures Run(d, events + [e]) == After(Run(d, events), e)
    ensures PutBacks(d, events + [e], id) == PutBacks(d, events, id) + One(PutBack(Run(d, events), e, id))
    ensures Counts(d, events + [e], id) == Counts(d, events, id) + One(Counted(Run(d, events), e, id))
    decreases |events|
  {
    hide Perform, PutBack, Counted;
    if events == [] {
      assert [e][1..] == [];
      assert PutBacks(After(d, e), [], id) == 0 && Counts(After(d, e), [], id) == 0;
    } else {
      assert (events + [e])[1..] == events[1..] + [e];
      OneMoreEvent(After(d, events[0]), events[1..], e, id);
    }
  }

  // ---- what the account leaves open ------------------------------------------

  /** A queued document, claimed and put back by a pause, any number of times. */
  function Pauses(s: Session, id: nat, times: nat): seq<Event> {
    if times == 0 then []
    else [Event(s, 0, DoClaimNext), Event(s, 0, DoTransition(id, Extracting, Queued, None))] + Pauses(s, id, times - 1)
  }

  /** So the number of tries has no bound: pauses count nothing. */
  lemma {:induction false} PausesCountNothing(d: Db, s: Session, id: nat, times: nat)
    requires s in d.sessions && !d.Busy() && id < d.nextRow && NextQueued(d.rows, 0, d.nextRow) == id
    ensures Tries(d, Pauses(s, id, times), id) == times
    ensures id in Run(d, Pauses(s, id, times)).rows
    ensures Run(d, Pauses(s, id, times)).rows[id].failures == d.rows[id].failures
    decreases times
  {
    if times > 0 {
      var claim, pause := Event(s, 0, DoClaimNext), Event(s, 0, DoTransition(id, Extracting, Queued, None));
      var rest := Pauses(s, id, times - 1);
      var events := Pauses(s, id, times);
      assert events[0] == claim && events[1..] == [pause] + rest && events[1..][1..] == rest;
      var d2 := After(After(d, claim), pause);
      PausedIsNext(d, s, id);
      PausesCountNothing(d2, s, id, times - 1);
      assert Tries(After(d, claim), events[1..], id) == Tries(d2, rest, id);
      assert Run(After(d, claim), events[1..]) == Run(d2, rest);
    }
  }

  lemma PausedIsNext(d: Db, s: Session, id: nat)
    requires s in d.sessions && !d.Busy() && id < d.nextRow && NextQueued(d.rows, 0, d.nextRow) == id
    ensures
      var claim, pause := Event(s, 0, DoClaimNext), Event(s, 0, DoTransition(id, Extracting, Queued, None));
      var d2 := After(After(d, claim), pause);
      && Tried(d, claim, id) && s in d2.sessions && !d2.Busy() && id < d2.nextRow
      && NextQueued(d2.rows, 0, d2.nextRow) == id && id in d2.rows && d2.rows[id].failures == d.rows[id].failures
  {
    var claim, pause := Event(s, 0, DoClaimNext), Event(s, 0, DoTransition(id, Extracting, Queued, None));
    var d1 := After(d, claim);
    assert d1.rows == d.rows[id := d1.rows[id]];
    var d2 := After(d1, pause);
    assert d2.rows == d.rows[id := d2.rows[id]];
    var next := NextQueued(d2.rows, 0, d2.nextRow);
    assert next <= id;
  }

  /** A document can also fail after a single try: two sessions that both listed it
      as interrupted before either recovered it both count that one interruption. */
  lemma RecoveryCanCountTwice(d: Db, s: Session, t: Session, now: int, id: nat)
    requires Interrupted(d, id, now) && d.rows[id].failures == 0
    ensures
      var once := Run(d, [Event(s, now, DoRecoverInterrupted), Event(t, now, DoRecoverInterrupted),
                          Event(s, now, DoRecordRecoveredFailure(id))]);
      var twice := Perform(once, t, now, DoRecordRecoveredFailure(id)).db;
      && id in once.rows && once.rows[id].status.Queued? && once.rows[id].failures == 1
      && id in twice.rows && twice.rows[id].status.Failed?
  {
    var first, second := Event(s, now, DoRecoverInterrupted), Event(t, now, DoRecoverInterrupted);
    var count := Event(s, now, DoRecordRecoveredFailure(id));
    RunOneMore(d, [first, second], count);
    RunOneMore(d, [first], second);
    RunOneMore(d, [], first);
    assert [first, second, count] == [first, second] + [count] && [first, second] == [first] + [second];
    assert [first] == [] + [first];
    RecoveryIsComplete(d, now);
  }
}
