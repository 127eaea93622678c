/** Nothing stays in the hands of a session that has fallen silent. A session speaks
    of itself in leases and heartbeats, all of them no later than a minute after its
    last call; so a minute after that call its rows are anyone's. */
module QueueLiveness {
  import opened Domain
  import opened QueueSpec
  import opened QueueInvariants
  import opened QueueFencing
  import opened QueueRows

  /** The session's heartbeat is no younger than a call made at `last`. */
  ghost predicate BeatHeard(d: Db, s: Session, last: int) {
    s in d.sessions ==> d.sessions[s] <= last
  }

  /** Nor is its lease on this row, if it has one. */
  ghost predicate RowHeard(d: Db, s: Session, last: int, id: nat) {
    id in d.rows && d.rows[id].owner == Some(s) ==> d.rows[id].lease.Some? && d.rows[id].lease.value <= last + 60
  }

  ghost predicate HeardUntil(d: Db, s: Session, last: int) {
    BeatHeard(d, s, last) && forall id: nat :: RowHeard(d, s, last, id)
  }

  lemma BulkCallLeasesAreHeard(d: Db, e: Event, s: Session, last: int, id: nat)
    requires Numbered(d) && RowHeard(d, s, last, id) && (e.session == s ==> e.now <= last) && BulkCall(e.call)
    ensures RowHeard(Perform(d, e.session, e.now, e.call).db, s, last, id)
  {
  }

  lemma BulkCallHeartbeatsAreHeard(d: Db, e: Event, s: Session, last: int)
    requires BeatHeard(d, s, last) && (e.session == s ==> e.now <= last) && BulkCall(e.call)
    ensures BeatHeard(Perform(d, e.session, e.now, e.call).db, s, last)
  {
  }

  lemma DecisionCallLeasesAreHeard(d: Db, e: Event, s: Session, last: int, id: nat)
    requires RowHeard(d, s, last, id) && (e.session == s ==> e.now <= last) && DecisionCall(e.call)
    ensures RowHeard(Perform(d, e.session, e.now, e.call).db, s, last, id)
  {
  }

  lemma DecisionCallHeartbeatsAreHeard(d: Db, e: Event, s: Session, last: int)
    requires BeatHeard(d, s, last) && (e.session == s ==> e.now <= last) && DecisionCall(e.call)
    ensures BeatHeard(Perform(d, e.session, e.now, e.call).db, s, last)
  {
  }

  lemma LeaseCallLeasesAreHeard(d: Db, e: Event, s: Session, last: int, id: nat)
    requires RowHeard(d, s, last, id) && (e.session == s ==> e.now <= last) && LeaseCall(e.call)
    ensures RowHeard(Perform(d, e.session, e.now, e.call).db, s, last, id)
  {
  }

  lemma LeaseCallHeartbeatsAreHeard(d: Db, e: Event, s: Session, last: int)
    requires BeatHeard(d, s, last) && (e.session == s ==> e.now <= last) && LeaseCall(e.call)
    ensures BeatHeard(Perform(d, e.session, e.now, e.call).db, s, last)
  {
  }

  lemma PipelineCallLeasesAreHeard(d: Db, e: Event, s: Session, last: int, id: nat)
    requires RowHeard(d, s, last, id) && (e.session == s ==> e.now <= last) && PipelineCall(e.call)
    ensures RowHeard(Perform(d, e.session, e.now, e.call).db, s, last, id)
  {
  }

  lemma PipelineCallHeartbeatsAreHeard(d: Db, e: Event, s: Session, last: int)
    requires BeatHeard(d, s, last) && (e.session == s ==> e.now <= last) && PipelineCall(e.call)
    ensures BeatHeard(Perform(d, e.session, e.now, e.call).db, s, last)
  {
  }

  lemma JournalCallLeasesAreHeard(d: Db, e: Event, s: Session, last: int, id: nat)
    requires RowHeard(d, s, last, id) && (e.session == s ==> e.now <= last) && JournalCall(e.call)
    ensures RowHeard(Perform(d, e.session, e.now, e.call).db, s, last, id)
  {
  }

  lemma JournalCallHeartbeatsAreHeard(d: Db, e: Event, s: Session, last: int)
    requires BeatHeard(d, s, last) && (e.session == s ==> e.now <= last) && JournalCall(e.call)
    ensures BeatHeard(Perform(d, e.session, e.now, e.call).db, s, last)
  {
  }

  lemma CallIsHeard(d: Db, e: Event, s: Session, last: int)
    requires Valid(d) && HeardUntil(d, s, last) && (e.session == s ==> e.now <= last)
    ensures HeardUntil(Perform(d, e.session, e.now, e.call).db, s, last)
  {
    assert Numbered(d);
    hide Perform, BeatHeard, RowHeard, Numbered;
    var d' := Perform(d, e.session, e.now, e.call).db;
    if BulkCall(e.call) {
      BulkCallHeartbeatsAreHeard(d, e, s, last);
      forall id: nat ensures RowHeard(d', s, last, id) { BulkCallLeasesAreHeard(d, e, s, last, id); }
    } else if DecisionCall(e.call) {
      DecisionCallHeartbeatsAreHeard(d, e, s, last);
      forall id: nat ensures RowHeard(d', s, last, id) { DecisionCallLeasesAreHeard(d, e, s, last, id); }
    } else if LeaseCall(e.call) {
      LeaseCallHeartbeatsAreHeard(d, e, s, last);
      forall id: nat ensures RowHeard(d', s, last, id) { LeaseCallLeasesAreHeard(d, e, s, last, id); }
    } else if PipelineCall(e.call) {
      PipelineCallHeartbeatsAreHeard(d, e, s, last);
      forall id: nat ensures RowHeard(d', s, last, id) { PipelineCallLeasesAreHeard(d, e, s, last, id); }
    } else {
      JournalCallHeartbeatsAreHeard(d, e, s, last);
      forall id: nat ensures RowHeard(d', s, last, id) { JournalCallLeasesAreHeard(d, e, s, last, id); }
    }
  }

  lemma {:induction false} RunIsHeard(d: Db, events: seq<Event>, s: Session, last: int)
    requires Valid(d) && HeardUntil(d, s, last)
    requires forall k :: 0 <= k < |events| && events[k].session == s ==> events[k].now <= last
    ensures Valid(Run(d, events)) && HeardUntil(Run(d, events), s, last)
    decreases |events|
  {
    hide Perform, Valid, HeardUntil;
    if events != [] {
      var e := events[0];
      CallKeepsValid(d, e.session, e.now, e.call);
      CallIsHeard(d, e, s, last);
      RunIsHeard(Perform(d, e.session, e.now, e.call).db, events[1..], s, last);
    }
  }

  /** A row being processed whose lease has run out, and whose owner's heartbeat is a
      minute old, is put back by any recovery. */
  lemma StaleProcessingIsRecovered(d: Db, id: nat, now: int)
    requires id in d.rows && (d.rows[id].status == Extracting || d.rows[id].status == Analyzing)
    requires d.rows[id].owner.Some? && d.rows[id].lease.Some? && d.rows[id].lease.value <= now
    requires d.rows[id].owner.value in d.sessions ==> d.sessions[d.rows[id].owner.value] + 60 <= now
    ensures
      && id in RecoverInterrupted(d, now).db.rows
      && var row := RecoverInterrupted(d, now).db.rows[id];
      row.status == Queued && row.owner == None && row.failures == d.rows[id].failures
  {
  }

  /** A row being applied in that state is granted to any other open session. */
  lemma StaleApplyingIsTaken(d: Db, id: nat, other: Session, now: int)
    requires id in d.rows && d.rows[id].status == Applying && other in d.sessions
    requires d.rows[id].owner.Some? && d.rows[id].owner.value != other
    requires d.rows[id].lease.Some? && d.rows[id].lease.value <= now
    requires d.rows[id].owner.value in d.sessions ==> d.sessions[d.rows[id].owner.value] + 60 <= now
    ensures
      var o := ClaimApplying(d, other, now, id);
      && o.reply.Done? && o.db.rows[id].owner == Some(other) && o.db.rows[id].status == Applying
      && o.db.rows[id].active == d.rows[id].active
  {
  }

  /** Once a session makes no more calls, whatever the others do, and a minute after its
      last one: what it was processing goes back into the queue at the next recovery,
      and what it was applying goes to the next session that asks. */
  lemma SilentSessionLosesItsRows(events: seq<Event>, s: Session, last: int, id: nat, other: Session, now: int)
    requires forall k :: 0 <= k < |events| && events[k].session == s ==> events[k].now <= last
    requires last + 60 <= now
    requires id in Run(EMPTY, events).rows && Run(EMPTY, events).rows[id].owner == Some(s)
    requires other != s && other in Run(EMPTY, events).sessions
    ensures
      var d := Run(EMPTY, events);
      if d.rows[id].status == Applying then
        ClaimApplying(d, other, now, id).reply.Done? && ClaimApplying(d, other, now, id).db.rows[id].owner == Some(other)
      else
        && id in RecoverInterrupted(d, now).db.rows
        && RecoverInterrupted(d, now).db.rows[id].status == Queued && RecoverInterrupted(d, now).db.rows[id].owner == None
  {
    assert Valid(EMPTY) && AllTidy(EMPTY) && OneRowEach(EMPTY) && HeardUntil(EMPTY, s, last);
    hide Valid, AllTidy, OneRowEach, RecoverInterrupted, ClaimApplying, HeardUntil;
    var d := Run(EMPTY, events);
    RunIsHeard(EMPTY, events, s, last);
    HeardMeans(d, s, last, id);
    RunKeepsRows(EMPTY, events);
    OwnerIsBusy(d, id);
    if d.rows[id].status == Applying {
      StaleApplyingIsTaken(d, id, other, now);
    } else {
      StaleProcessingIsRecovered(d, id, now);
    }
  }

  lemma HeardMeans(d: Db, s: Session, last: int, id: nat)
    requires HeardUntil(d, s, last) && id in d.rows && d.rows[id].owner == Some(s)
    ensures d.rows[id].lease.Some? && d.rows[id].lease.value <= last + 60
    ensures s in d.sessions ==> d.sessions[s] <= last
  {
    assert RowHeard(d, s, last, id);
  }

  lemma OwnerIsBusy(d: Db, id: nat)
    requires AllTidy(d) && id in d.rows && d.rows[id].owner.Some?
    ensures d.rows[id].status == Extracting || d.rows[id].status == Analyzing || d.rows[id].status == Applying
  {
    assert Tidy(d.rows[id]);
  }

  /** So the queue never freezes: a minute after the last call of every session that
      owns anything, one recovery leaves no row being processed, and a row still being
      applied is granted to whoever else asks. */
  lemma QueueNeverFreezes(events: seq<Event>, last: int, now: int, id: nat, other: Session)
    requires forall k :: 0 <= k < |events| ==> events[k].now <= last
    requires last + 60 <= now && id in Run(EMPTY, events).rows
    ensures
      var d := RecoverInterrupted(Run(EMPTY, events), now).db;
      && id in d.rows && d.rows[id].status != Extracting && d.rows[id].status != Analyzing
      && (d.rows[id].status == Applying && other in d.sessions && d.rows[id].owner != Some(other) ==>
            ClaimApplying(d, other, now, id).reply.Done?)
  {
    var d := Run(EMPTY, events);
    var row := d.rows[id];
    if row.owner.Some? {
      hide Valid, Run;
      RunIsHeard(EMPTY, events, row.owner.value, last);
      HeardMeans(d, row.owner.value, last, id);
      if row.status == Extracting || row.status == Analyzing {
        StaleProcessingIsRecovered(d, id, now);
      }
    }
  }
}
