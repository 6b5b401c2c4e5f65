/** Seeks, and the round trip from a snapshot back to it. */
module Snapshots {
  import opened Types
  import opened DeliveryUtils
  import opened Actions
  import opened Effects
  import opened StepEffects
  import opened Runs
  import Ordering

  // ---- One seek ----

  /** Rows that differ between two states with the same deliveries. */
  function Changed(db: DB, db': DB): set<Id> {
    set i | i in db.deliveries && i in db'.deliveries && db.deliveries[i] != db'.deliveries[i]
  }

  /** Completing open rows and reopening completed ones changes exactly those rows. */
  lemma ChangesCounted(db: DB, acked: set<Id>, reopened: set<Id>, ttl: Duration)
    requires forall i :: i in acked ==> i in db.deliveries && !db.deliveries[i].Completed()
    requires forall i :: i in reopened ==> i in db.deliveries && db.deliveries[i].Completed()
    ensures Changed(db, ReopenRows(CompleteRows(db, acked), reopened, ttl)) == acked + reopened
    ensures |acked + reopened| == |acked| + |reopened|
  {
    var db' := ReopenRows(CompleteRows(db, acked), reopened, ttl);
    forall i | i in acked + reopened ensures db'.deliveries[i] != db.deliveries[i] {
      assert i in acked ==> db'.deliveries[i].completedAt != db.deliveries[i].completedAt;
      assert i in reopened ==> db'.deliveries[i].completedAt != db.deliveries[i].completedAt;
    }
    assert acked !! reopened;
  }

  /** After a seek to a time, an unexpired row of the subscription is completed exactly when it was
      published by then. Other rows, and all other tables, stay as they are. */
  lemma SeekToTimeSpec(db: DB, subId: Id, time: Time, i: Id)
    requires subId in db.subs && i in db.deliveries
    ensures var seek := SeekToTime(db, subId, time);
      && seek.db == db.(deliveries := seek.db.deliveries) && seek.db.deliveries.Keys == db.deliveries.Keys
      && if Ordering.Of(db, subId, i) && db.clock <= db.deliveries[i].expiresAt
         then seek.db.deliveries[i].Completed() <==> db.deliveries[i].publishedAt <= time
         else seek.db.deliveries[i] == db.deliveries[i]
  {
  }

  /** The two counts of a seek to a time add up to the number of rows it changed. */
  lemma SeekToTimeCounts(db: DB, subId: Id, time: Time)
    requires subId in db.subs
    ensures var seek := SeekToTime(db, subId, time);
      seek.numAcked + seek.numDeAcked == |Changed(db, seek.db)|
  {
    SeekToTimeSets(db, subId, time);
    ChangesCounted(db, TimeAcked(db, subId, time), TimeReopened(db, subId, time), db.subs[subId].messageTTL);
  }

  /** Repeating a seek to a time at the same instant changes nothing and counts nothing. */
  lemma SeekToTimeAgain(db: DB, subId: Id, time: Time)
    requires subId in db.subs
    ensures var once := SeekToTime(db, subId, time).db;
      SeekToTime(once, subId, time) == Seek(once, 0, 0)
  {
    SeekToTimeSets(db, subId, time);
    var once := SeekToTime(db, subId, time).db;
    assert TimeAcked(once, subId, time) == {};
    SeekToTimeSets(once, subId, time);
    assert TimeReopened(once, subId, time) == {};
    NothingToDo(once, db.subs[subId].messageTTL);
  }

  lemma NothingToDo(db: DB, ttl: Duration)
    ensures CompleteRows(db, {}) == db && ReopenRows(db, {}, ttl) == db
  {
    assert CompleteRows(db, {}).deliveries == db.deliveries;
    assert ReopenRows(db, {}, ttl).deliveries == db.deliveries;
  }

  /** A snapshot seek never acks and reopens the same row; its counts add up to the number of rows
      changed. */
  lemma SeekToSnapshotCounts(db: DB, subId: Id, snap: Snapshot)
    requires subId in db.subs
    ensures var seek := SeekToSnapshot(db, subId, snap);
      && SnapAckedBefore(db, subId, snap) + SnapAckedListed(db, subId, snap) !! SnapReopened(db, subId, snap)
      && Changed(db, seek.db) ==
         SnapAckedBefore(db, subId, snap) + SnapAckedListed(db, subId, snap) + SnapReopened(db, subId, snap)
      && seek.numAcked + seek.numDeAcked == |Changed(db, seek.db)|
  {
    hide SnapAckedBefore, SnapAckedListed, SnapReopened, CompleteRows, ReopenRows, Changed;
    var before, listed := SnapAckedBefore(db, subId, snap), SnapAckedListed(db, subId, snap);
    var reopened := SnapReopened(db, subId, snap);
    SeekToSnapshotSets(db, subId, snap);
    SeekIsAtOnce(db, subId, snap);
    SnapRows(db, subId, snap);
    ChangesCounted(db, before + listed, reopened, db.subs[subId].messageTTL);
    assert before + (listed - before) == before + listed;
    assert |before + listed| == |before| + |listed - before|;
    assert |before + listed + reopened| == |before + listed| + |reopened|;
  }

  lemma SnapRows(db: DB, subId: Id, snap: Snapshot)
    ensures var acked, reopened := SnapAckedBefore(db, subId, snap) + SnapAckedListed(db, subId, snap), SnapReopened(db, subId, snap);
      && (forall i :: i in acked ==> i in db.deliveries && !db.deliveries[i].Completed())
      && (forall i :: i in reopened ==> i in db.deliveries && db.deliveries[i].Completed())
      && acked !! reopened
  {
  }

  /** Repeating a snapshot seek at the same instant changes nothing and counts nothing. */
  lemma SeekToSnapshotAgain(db: DB, subId: Id, snap: Snapshot)
    requires subId in db.subs
    ensures var once := SeekToSnapshot(db, subId, snap).db;
      SeekToSnapshot(once, subId, snap) == Seek(once, 0, 0)
  {
    hide SnapAckedBefore, SnapAckedListed, SnapReopened, CompleteRows, ReopenRows;
    SeekIsAtOnce(db, subId, snap);
    AckedAlready(db, subId, snap);
    ReopenedAlready(db, subId, snap);
    SeekKeepsSubs(db, subId, snap);
    NothingToDo(SeekAtOnce(db, subId, snap), db.subs[subId].messageTTL);
  }

  lemma AckedAlready(db: DB, subId: Id, snap: Snapshot)
    requires subId in db.subs
    ensures var once := SeekAtOnce(db, subId, snap);
      SnapAckedBefore(once, subId, snap) == {} && SnapAckedListed(once, subId, snap) == {}
  {
  }

  lemma ReopenedAlready(db: DB, subId: Id, snap: Snapshot)
    requires subId in db.subs
    ensures SnapReopened(SeekAtOnce(db, subId, snap), subId, snap) == {}
  {
  }

  lemma SeekKeepsSubs(db: DB, subId: Id, snap: Snapshot)
    requires subId in db.subs
    ensures SeekAtOnce(db, subId, snap).subs == db.subs
  {
  }

  // ---- The round trip ----

  /** Deliveries of the subscription come from publishes on its topic: one per message, published
      with it. */
  ghost predicate Direct(db: DB, subId: Id, topicId: Id) {
    && subId < db.nextId
    && Ordering.NoDeadLettersTo(db, topicId)
    && (subId in db.subs ==> db.subs[subId].topicId == topicId)
    && (forall i :: Ordering.Of(db, subId, i) ==> DirectRow(db, topicId, db.deliveries[i]))
    && (forall i, j :: Ordering.Of(db, subId, i) && Ordering.Of(db, subId, j) && i != j ==>
          db.deliveries[i].messageId != db.deliveries[j].messageId)
  }

  predicate DirectRow(db: DB, topicId: Id, d: Delivery) {
    && d.messageId in db.messages
    && db.messages[d.messageId].topicId == topicId
    && db.messages[d.messageId].publishedAt == d.publishedAt <= db.clock
  }

  predicate NoNewDeadLetters(step: Step, topicId: Id) {
    step.CreateSubscriptionStep? ==> step.sub.deadLetterTopicId != Some(topicId)
  }

  /** A new row of the subscription belongs to a message published by this step, and there is only one. */
  lemma NewDirectRow(env: Env, db: DB, step: Step, db': DB, subId: Id, topicId: Id, j: Id)
    requires Valid(db) && Effect(env, db, step, db') && Direct(db, subId, topicId)
    requires Ordering.Of(db', subId, j) && j !in db.deliveries
    ensures step.PublishStep? && step.topicId == topicId && db'.deliveries[j].messageId == db.nextId
    ensures j >= db.nextId && db'.deliveries[j].publishedAt == db.clock
    ensures DirectRow(db', topicId, db'.deliveries[j])
  {
    assert FreshRow(env, db, db', j) && Origin(db, step, db'.deliveries[j]);
    if step.PublishStep? {
      assert db.nextId !in db.messages;
    }
  }

  lemma OldDirectRow(env: Env, db: DB, step: Step, db': DB, subId: Id, topicId: Id, i: Id)
    requires Valid(db) && Valid(db') && Effect(env, db, step, db') && Direct(db, subId, topicId)
    requires Ordering.Of(db', subId, i) && i in db.deliveries
    ensures Ordering.Of(db, subId, i) && db'.deliveries[i].messageId == db.deliveries[i].messageId
    ensures db'.deliveries[i].messageId < db.nextId
    ensures DirectRow(db', topicId, db'.deliveries[i])
  {
    hide RowChange, SubsEffect, TopicsEffect, SnapshotsEffect, FreshRow;
    RowKeeps(env, db, step, db', i);
    assert DirectRow(db, topicId, db.deliveries[i]);
  }

  lemma StepKeepsDirect(env: Env, db: DB, e: Event, db': DB, subId: Id, topicId: Id)
    requires Valid(db) && Next(env, db, e, db') && Direct(db, subId, topicId) && NoNewDeadLetters(e.step, topicId)
    ensures Valid(db') && Direct(db', subId, topicId)
  {
    hide Valid, Enabled, Apply, RowsEffect, FreshRow, DirectRow, SubsEffect, MessagesEffect, TopicsEffect, SnapshotsEffect, NewSubsDiffer;
    var pre := At(db, e.now);
    ClockKeepsValid(db, e.now);
    StepKeepsValid(env, db, e, db');
    assert Direct(pre, subId, topicId) by { DirectAt(db, e.now, subId, topicId); }
    DirectSubs(pre, e.step, db', subId, topicId);
    if e.step.PublishStep? {
      PublishOnce(env, pre, e.step);
      PublishApplies(env, pre, e.step);
    }
    forall i | Ordering.Of(db', subId, i) ensures DirectRow(db', topicId, db'.deliveries[i]) {
      if i in pre.deliveries {
        OldDirectRow(env, pre, e.step, db', subId, topicId, i);
      } else {
        NewDirectRow(env, pre, e.step, db', subId, topicId, i);
      }
    }
    forall i, j | Ordering.Of(db', subId, i) && Ordering.Of(db', subId, j) && i != j
      ensures db'.deliveries[i].messageId != db'.deliveries[j].messageId
    {
      DirectPair(env, pre, e.step, db', subId, topicId, i, j);
    }
  }

  lemma PublishApplies(env: Env, db: DB, step: Step)
    requires Rooted(db) && step.PublishStep? && Enabled(db, step)
    ensures Apply(env, db, step) == Publish(env, db, step.topicId, step.payload, step.attributes, step.orderKey)
  {
  }

  lemma DirectSubs(db: DB, step: Step, db': DB, subId: Id, topicId: Id)
    requires Ordering.NoDeadLettersTo(db, topicId) && TablesEffect(db, step, db') && NoNewDeadLetters(step, topicId)
    requires subId < db.nextId && (subId in db.subs ==> db.subs[subId].topicId == topicId)
    ensures Ordering.NoDeadLettersTo(db', topicId) && subId < db'.nextId
    ensures subId in db'.subs ==> db'.subs[subId].topicId == topicId
  {
    hide MessagesEffect, TopicsEffect, SnapshotsEffect;
    if subId in db'.subs && subId in db.subs {
      assert SubKept(db, db.subs[subId], db'.subs[subId], db');
    }
  }

  lemma DirectAt(db: DB, now: Time, subId: Id, topicId: Id)
    requires Direct(db, subId, topicId) && db.clock <= now
    ensures Direct(At(db, now), subId, topicId)
  {
    forall i | Ordering.Of(At(db, now), subId, i) ensures DirectRow(At(db, now), topicId, At(db, now).deliveries[i]) {
      assert Ordering.Of(db, subId, i);
    }
    forall i, j | Ordering.Of(At(db, now), subId, i) && Ordering.Of(At(db, now), subId, j) && i != j
      ensures db.deliveries[i].messageId != db.deliveries[j].messageId
    {
      assert Ordering.Of(db, subId, i) && Ordering.Of(db, subId, j);
    }
  }

  lemma DirectPair(env: Env, db: DB, step: Step, db': DB, subId: Id, topicId: Id, i: Id, j: Id)
    requires Valid(db) && Valid(db') && Effect(env, db, step, db') && Direct(db, subId, topicId)
    requires step.PublishStep? ==> NewSubsDiffer(db, db')
    requires Ordering.Of(db', subId, i) && Ordering.Of(db', subId, j) && i != j
    ensures db'.deliveries[i].messageId != db'.deliveries[j].messageId
  {
    hide RowsEffect, TablesEffect, Valid;
    if i in db.deliveries {
      OldDirectRow(env, db, step, db', subId, topicId, i);
    } else {
      NewDirectRow(env, db, step, db', subId, topicId, i);
    }
    if j in db.deliveries {
      OldDirectRow(env, db, step, db', subId, topicId, j);
    } else {
      NewDirectRow(env, db, step, db', subId, topicId, j);
    }
  }

  /** What stays true after a snapshot was taken in `db1`: rows and snapshots keep what the seek reads,
      and new rows of the subscription belong to new messages. */
  ghost predicate Since(db1: DB, db2: DB, subId: Id) {
    && db1.clock <= db2.clock && db1.nextId <= db2.nextId
    && (forall i: Id :: Ordering.Of(db2, subId, i) && i < db1.nextId ==> SinceRow(db1, db2.deliveries[i], i, subId))
    && (forall i: Id :: Ordering.Of(db2, subId, i) && i >= db1.nextId ==>
          db1.clock <= db2.deliveries[i].publishedAt && db1.nextId <= db2.deliveries[i].messageId)
    && (forall p :: p in db2.snapshots && p < db1.nextId ==> p in db1.snapshots && db2.snapshots[p] == db1.snapshots[p])
  }

  predicate SinceRow(db1: DB, d: Delivery, i: Id, subId: Id) {
    && i in db1.deliveries && db1.deliveries[i].subId == subId
    && d.messageId == db1.deliveries[i].messageId && d.publishedAt == db1.deliveries[i].publishedAt
  }

  lemma StepKeepsSince(env: Env, db1: DB, db: DB, e: Event, db': DB, subId: Id, topicId: Id)
    requires Valid(db) && Next(env, db, e, db') && Direct(db, subId, topicId) && Since(db1, db, subId)
    ensures Since(db1, db', subId)
  {
    hide Valid, Enabled, RowStep, FreshRow, DirectRow, MessagesEffect, SinceRow, Direct;
    var pre := At(db, e.now);
    ClockKeepsValid(db, e.now);
    StepKeepsValid(env, db, e, db');
    DirectAt(db, e.now, subId, topicId);
    forall i: Id | Ordering.Of(db', subId, i)
      ensures i < db1.nextId ==> SinceRow(db1, db'.deliveries[i], i, subId)
      ensures i >= db1.nextId ==> db1.clock <= db'.deliveries[i].publishedAt && db1.nextId <= db'.deliveries[i].messageId
    {
      if i in db.deliveries {
        RowKeeps(env, pre, e.step, db', i);
        assert Ordering.Of(db, subId, i);
        if i < db1.nextId {
          SinceRowKept(db1, db.deliveries[i], db'.deliveries[i], i, subId);
        }
      } else {
        NewDirectRow(env, pre, e.step, db', subId, topicId, i);
      }
    }
  }

  lemma SinceRowKept(db1: DB, d: Delivery, d': Delivery, i: Id, subId: Id)
    requires SinceRow(db1, d, i, subId) && d'.messageId == d.messageId && d'.publishedAt == d.publishedAt
    ensures SinceRow(db1, d', i, subId)
  {
  }

  ghost predicate NoNewDeadLettersIn(events: seq<Event>, topicId: Id) {
    forall k :: 0 <= k < |events| ==> NoNewDeadLetters(events[k].step, topicId)
  }

  lemma {:induction false} RunSince(env: Env, dbs: seq<DB>, events: seq<Event>, subId: Id, topicId: Id)
    requires Run(env, dbs, events) && Valid(dbs[0]) && Direct(dbs[0], subId, topicId)
    requires NoNewDeadLettersIn(events, topicId)
    requires Numbered(dbs[0]) && Since(dbs[0], dbs[0], subId)
    ensures var last := dbs[|dbs| - 1];
      Valid(last) && Direct(last, subId, topicId) && Since(dbs[0], last, subId)
  {
    hide Valid, Direct, Since, Next;
    if events != [] {
      var n := |events| - 1;
      RunFront(env, dbs, events);
      RunSince(env, dbs[..|dbs| - 1], events[..n], subId, topicId);
      assert dbs[..|dbs| - 1][n] == dbs[n];
      StepKeepsSince(env, dbs[0], dbs[n], events[n], dbs[n + 1], subId, topicId);
      StepKeepsDirect(env, dbs[n], events[n], dbs[n + 1], subId, topicId);
    }
  }

  /** What a snapshot says about an unexpired row of its subscription: it is on the acked side exactly
      when it is completed. */
  predicate AckedIn(snap: Snapshot, d: Delivery) {
    d.publishedAt < snap.ackedMessagesBefore || d.messageId in snap.ackedMessageIds
  }

  /** The compression into a threshold and a list tells a completed row from an open one, except when
      nothing is open and the row was published at the very instant of the snapshot. */
  ghost predicate Resolved(db: DB, subId: Id, d: Delivery) {
    UnackedRows(db, subId) != {} || d.publishedAt < db.clock
  }

  lemma SnapshotIsExact(db: DB, subId: Id, topicId: Id, name: string, i: Id)
    requires subId in db.subs && Direct(db, subId, topicId)
    requires Ordering.Of(db, subId, i) && db.clock < db.deliveries[i].expiresAt
    ensures (AckedIn(TakeSnapshot(db, name, subId), db.deliveries[i]) <==> db.deliveries[i].Completed())
       <==> Resolved(db, subId, db.deliveries[i])
  {
    var unacked, d := UnackedRows(db, subId), db.deliveries[i];
    assert DirectRow(db, topicId, d);
    if unacked == {} {
      assert i !in unacked;
    } else {
      var oldest := OldestPublished(db, unacked);
      var listed := AckedMessages(db, subId, topicId, oldest);
      if d.Completed() && oldest <= d.publishedAt {
        assert d.messageId in listed;
      }
      if !d.Completed() {
        assert i in unacked;
        if d.messageId in listed {
          var k :| k in db.deliveries && db.deliveries[k].subId == subId && db.deliveries[k].Completed()
            && db.deliveries[k].messageId == d.messageId;
          assert Ordering.Of(db, subId, k) && k != i;
        }
      }
    }
  }

  /** A snapshot never lists messages that do not exist yet, nor puts its threshold in the future. */
  lemma SnapshotIsPast(db: DB, subId: Id, topicId: Id, name: string)
    requires Valid(db) && subId in db.subs && Direct(db, subId, topicId)
    ensures TakeSnapshot(db, name, subId).ackedMessagesBefore <= db.clock
    ensures forall m :: m in TakeSnapshot(db, name, subId).ackedMessageIds ==> m < db.nextId
  {
    var unacked := UnackedRows(db, subId);
    if unacked != {} {
      var oldest := OldestPublished(db, unacked);
      var o :| o in unacked && db.deliveries[o].publishedAt == oldest;
      assert DirectRow(db, topicId, db.deliveries[o]) by { assert Ordering.Of(db, subId, o); }
    }
  }

  /** A snapshot seek settles a row by the snapshot alone, unless the row has expired unacked. */
  lemma SeekFollowsSnapshot(db: DB, subId: Id, snap: Snapshot, i: Id)
    requires subId in db.subs && Ordering.Of(db, subId, i)
    ensures var d, d' := db.deliveries[i], SeekToSnapshot(db, subId, snap).db.deliveries[i];
      && (!AckedIn(snap, d) ==> !d'.Completed())
      && (AckedIn(snap, d) && db.clock <= d.expiresAt ==> d'.Completed())
      && (AckedIn(snap, d) && d.expiresAt < db.clock ==> d' == d)
  {
    SeekIsAtOnce(db, subId, snap);
  }

  /** Round trip: take a snapshot of a subscription, run anything, and seek back to it. A row that is
      still there, and was unexpired at both times, is then completed exactly when it was completed
      when the snapshot was taken, if and only if something was open then or the row had been published
      before that instant. Every row published since is un-acked. */
  lemma SnapshotRoundTrip(env: Env, db0: DB, dbs: seq<DB>, events: seq<Event>, now: Time, seekAt: Time,
                          name: string, subId: Id, topicId: Id, i: Id)
    requires Valid(db0) && Direct(db0, subId, topicId)
    requires Run(env, dbs, events) && NoNewDeadLettersIn(events, topicId)
    requires Next(env, db0, Event(now, CreateSnapshotStep(name, subId)), dbs[0])
    requires var last := dbs[|dbs| - 1];
      && last.clock <= seekAt && LiveSub(last, subId) && db0.nextId in last.snapshots
      && Ordering.Of(last, subId, i)
    ensures var last := At(dbs[|dbs| - 1], seekAt);
      var after := SeekToSnapshot(last, subId, last.snapshots[db0.nextId]).db;
      && i in after.deliveries
      && (i in db0.deliveries && now < db0.deliveries[i].expiresAt && seekAt <= last.deliveries[i].expiresAt ==>
            ((after.deliveries[i].Completed() <==> db0.deliveries[i].Completed())
             <==> Resolved(At(db0, now), subId, db0.deliveries[i])))
      && (i !in db0.deliveries ==> !after.deliveries[i].Completed())
  {
    var db1, last := dbs[0], At(dbs[|dbs| - 1], seekAt);
    RoundTripFacts(env, db0, dbs, events, now, name, subId, topicId, i);
    SeekFollowsSnapshot(last, subId, last.snapshots[db0.nextId], i);
  }

  lemma RoundTripFacts(env: Env, db0: DB, dbs: seq<DB>, events: seq<Event>, now: Time,
                       name: string, subId: Id, topicId: Id, i: Id)
    requires Valid(db0) && Direct(db0, subId, topicId)
    requires Run(env, dbs, events) && NoNewDeadLettersIn(events, topicId)
    requires Next(env, db0, Event(now, CreateSnapshotStep(name, subId)), dbs[0])
    requires db0.nextId in dbs[|dbs| - 1].snapshots && Ordering.Of(dbs[|dbs| - 1], subId, i)
    ensures var snap := dbs[|dbs| - 1].snapshots[db0.nextId];
      var d := dbs[|dbs| - 1].deliveries[i];
      && (i in db0.deliveries && now < db0.deliveries[i].expiresAt ==>
            ((AckedIn(snap, d) <==> db0.deliveries[i].Completed()) <==> Resolved(At(db0, now), subId, db0.deliveries[i])))
      && (i !in db0.deliveries ==> !AckedIn(snap, d))
  {
    hide TakeSnapshot, Resolved, Direct, Rooted, Linked, Referenced, Enabled, Apply;
    var pre, db1, last := At(db0, now), dbs[0], dbs[|dbs| - 1];
    SnapshotTaken(env, db0, db1, now, name, subId, topicId);
    RunSince(env, dbs, events, subId, topicId);
    var snap := TakeSnapshot(pre, name, subId);
    SnapshotIsPast(pre, subId, topicId, name);
    if i < db1.nextId {
      assert SinceRow(db1, last.deliveries[i], i, subId);
      if now < db0.deliveries[i].expiresAt {
        SnapshotIsExact(pre, subId, topicId, name, i);
      }
    }
  }

  lemma SnapshotTaken(env: Env, db0: DB, db1: DB, now: Time, name: string, subId: Id, topicId: Id)
    requires Valid(db0) && Direct(db0, subId, topicId)
    requires Next(env, db0, Event(now, CreateSnapshotStep(name, subId)), db1)
    ensures var pre := At(db0, now);
      && Valid(pre) && Direct(pre, subId, topicId) && subId in pre.subs
      && db1.deliveries == db0.deliveries && db1.nextId == db0.nextId + 1 && db1.clock == now
      && db0.nextId in db1.snapshots && db1.snapshots[db0.nextId] == TakeSnapshot(pre, name, subId)
      && Valid(db1) && Direct(db1, subId, topicId) && Since(db1, db1, subId)
  {
    hide DirectRow, Linked, Referenced, TakeSnapshot, Effect;
    var e := Event(now, CreateSnapshotStep(name, subId));
    ClockKeepsValid(db0, now);
    DirectAt(db0, now, subId, topicId);
    StepKeepsValid(env, db0, e, db1);
    StepKeepsDirect(env, db0, e, db1, subId, topicId);
  }
}
