/** Every action has the effects of module Effects. */
module StepEffects {
  import opened Types
  import opened DeliveryUtils
  import opened Packing
  import opened Backoff
  import opened Actions
  import opened Effects

  // ---- Steps that change few tables ----

  /** A step that leaves the deliveries table alone has no effect on its rows. */
  lemma SameRows(env: Env, db: DB, step: Step, db': DB)
    requires Valid(db) && db'.deliveries == db.deliveries
    ensures RowsEffect(env, db, step, db')
  {
  }

  /** A step that touches nothing but deliveries keeps the other tables. */
  lemma SameTables(db: DB, step: Step, db': DB)
    requires Valid(db) && db.nextId <= db'.nextId
    requires db' == db.(deliveries := db'.deliveries, nextId := db'.nextId)
    ensures TablesEffect(db, step, db')
  {
  }

  // ---- Publish ----

  lemma PublishRows(env: Env, db: DB, step: Step, db1: DB, db': DB)
    requires Valid(db) && step.PublishStep?
    requires db1 == PublishMessage(db, step.topicId, step.payload, step.attributes, step.orderKey)
    requires FannedOut(env, db1, db', step.topicId, db.nextId)
    ensures RowsEffect(env, db, step, db')
  {
    hide Targets, NewRow, Referenced;
    forall j | j in db'.deliveries && j !in db.deliveries
      ensures FreshRow(env, db, db', j) && Origin(db, step, db'.deliveries[j])
    {
      PublishedFresh(env, db, step, db1, db', j);
    }
  }

  lemma PublishedFresh(env: Env, db: DB, step: Step, db1: DB, db': DB, j: Id)
    requires Valid(db) && step.PublishStep?
    requires db1 == PublishMessage(db, step.topicId, step.payload, step.attributes, step.orderKey)
    requires FannedOut(env, db1, db', step.topicId, db.nextId) && j in db'.deliveries && j !in db.deliveries
    ensures FreshRow(env, db, db', j) && Origin(db, step, db'.deliveries[j])
  {
    var d := db'.deliveries[j];
    assert d.subId in Targets(env, db1, step.topicId, db.nextId);
    assert d == NewRow(env, db1, d.subId, db.nextId);
    PredecessorIsNewest(env, db1, d.subId, step.topicId);
  }

  lemma PublishEffect(env: Env, db: DB, step: Step)
    requires Valid(db) && step.PublishStep? && LiveTopic(db, step.topicId)
    ensures Effect(env, db, step, Publish(env, db, step.topicId, step.payload, step.attributes, step.orderKey))
  {
    var db1 := PublishMessage(db, step.topicId, step.payload, step.attributes, step.orderKey);
    var db' := Publish(env, db, step.topicId, step.payload, step.attributes, step.orderKey);
    FanOutEffect(env, db1, step.topicId, db.nextId);
    PublishRows(env, db, step, db1, db');
  }

  /** New rows are for different subscriptions. */
  predicate NewSubsDiffer(db: DB, db': DB) {
    forall j, k :: j in db'.deliveries && k in db'.deliveries && j !in db.deliveries && k !in db.deliveries && j != k ==>
      db'.deliveries[j].subId != db'.deliveries[k].subId
  }

  /** A publish gives each subscription at most one row. */
  lemma PublishOnce(env: Env, db: DB, step: Step)
    requires Valid(db) && step.PublishStep?
    ensures NewSubsDiffer(db, Publish(env, db, step.topicId, step.payload, step.attributes, step.orderKey))
  {
    hide NewRow, Targets, LiveSubs;
    FanOutEffect(env, PublishMessage(db, step.topicId, step.payload, step.attributes, step.orderKey), step.topicId, db.nextId);
  }

  // ---- Nack and the background dead-letter job ----

  /** A batch whose acts the step allows has the effects of that step. */
  lemma BatchTargets(env: Env, db: DB, step: Step, acts: seq<Act>, db': DB)
    requires Valid(db) && AllReady(db, acts) && BatchEffect(env, db, acts, db')
    requires step.NackStep? || step.DeadLetterStep?
    requires forall a :: a in acts ==>
      if a.Dead? then MayComplete(db, step, a.id) else MayMove(env, db, step, a.id, a.at)
    ensures RowsEffect(env, db, step, db')
  {
    forall i | i in db.deliveries ensures RowStep(env, db, step, db', i) {
      if ActsOn(acts, i) {
        var a :| a in acts && a.id == i;
        assert ActDone(db, a, db'.deliveries[i]);
      }
    }
    forall j | j in db'.deliveries && j !in db.deliveries
      ensures FreshRow(env, db, db', j) && Origin(db, step, db'.deliveries[j])
    {
      assert BatchSends(env, db, acts, db', j);
      var a :| a in acts && SentBy(db, a, db'.deliveries[j]);
      assert DeadLettered(db, step, a.id, db'.deliveries[j]);
    }
  }

  lemma NackEffect(env: Env, db: DB, step: Step)
    requires Valid(db) && step.NackStep? && Distinct(step.rows) && Elements(step.rows) == NackRows(db, step.ids)
    ensures forall i :: i in step.rows ==> i in NackRows(db, step.ids)
    ensures Effect(env, db, step, Nack(env, db, step.rows))
  {
    assert forall i :: i in step.rows ==> i in Elements(step.rows);
    var acts := NackActs(env, db, step.rows);
    forall a | a in acts
      ensures Ready(db, a) && if a.Dead? then MayComplete(db, step, a.id) else MayMove(env, db, step, a.id, a.at)
    {
      var k :| 0 <= k < |acts| && acts[k] == a;
      assert step.rows[k] in step.rows;
    }
    NackBatch(env, db, step, acts);
  }

  lemma NackBatch(env: Env, db: DB, step: Step, acts: seq<Act>)
    requires Valid(db) && step.NackStep? && DistinctActs(acts)
    requires forall a :: a in acts ==>
      Ready(db, a) && if a.Dead? then MayComplete(db, step, a.id) else MayMove(env, db, step, a.id, a.at)
    ensures Effect(env, db, step, Batch(env, db, acts))
  {
    hide MayComplete, MayMove, RowsEffect, TablesEffect, FreshIds;
    BatchDoes(env, db, acts) by { assert Valid(db); }
    BatchTargets(env, db, step, acts, Batch(env, db, acts));
    SameTables(db, step, Batch(env, db, acts));
  }

  lemma DeadLetterStepEffect(env: Env, db: DB, step: Step)
    requires Valid(db) && step.DeadLetterStep? && Distinct(step.rows) && Elements(step.rows) <= DeadLetterRows(db)
    ensures Effect(env, db, step, Batch(env, db, Deads(step.rows)))
  {
    var acts := Deads(step.rows);
    forall a | a in acts ensures a.Dead? && Ready(db, a) && MayComplete(db, step, a.id) {
      var k :| 0 <= k < |acts| && acts[k] == a;
      assert step.rows[k] in Elements(step.rows);
    }
    BatchDoes(env, db, acts);
    BatchTargets(env, db, step, acts, Batch(env, db, acts));
    SameTables(db, step, Batch(env, db, acts));
  }

  // ---- Pull ----

  /** What a pull's transaction starts from. */
  predicate Pulls(db: DB, step: Step) {
    step.PullStep? && QueryRows(db, step.subId, step.limits, step.rows)
  }

  /** What a pull's query may return. */
  predicate QueryRows(db: DB, subId: Id, limits: PullLimits, rows: seq<Id>) {
    LiveSub(db, subId) && FirstRows(db, rows, DueRows(db, subId), limits.maxMessages)
  }

  function Choice(db: DB, step: Step): Packed
    requires Rooted(db) && Pulls(db, step)
  {
    Pack(db, db.subs[step.subId], step.rows, |step.rows|, step.limits)
  }

  /** Rows a pull takes and rows it dead-letters are due rows of its subscription, on either side of
      the attempt limit. */
  lemma PullChoice(db: DB, step: Step)
    requires Rooted(db) && Pulls(db, step)
    ensures forall i :: i in Choice(db, step).taken ==> i in db.deliveries && MayHandOut(db, step, i)
    ensures forall i :: i in Choice(db, step).dead ==>
      i in db.deliveries && Ready(db, Dead(i)) && MayComplete(db, step, i) && i !in Choice(db, step).taken
    ensures Distinct(Choice(db, step).taken) && Distinct(Choice(db, step).dead)
  {
    PackChooses(db, db.subs[step.subId], step.rows, |step.rows|, step.limits);
    assert step.rows[..|step.rows|] == step.rows;
  }

  /** The state between the dead letters and the hand-outs of a pull. */
  ghost predicate PullMiddle(env: Env, db: DB, step: Step, acts: seq<Act>, db2: DB)
    requires Rooted(db) && step.PullStep? && step.subId in db.subs
  {
    var db1 := RefreshSub(db, step.subId);
    && AllReady(db1, acts)
    && (forall a :: a in acts ==> a.Dead? && MayComplete(db, step, a.id))
    && BatchEffect(env, db1, acts, db2)
  }

  lemma PullDead(env: Env, db: DB, step: Step)
    requires Valid(db) && Pulls(db, step)
    ensures var dead := Choice(db, step).dead;
      PullMiddle(env, db, step, Deads(dead), Batch(env, RefreshSub(db, step.subId), Deads(dead)))
  {
    PullChoice(db, step);
    var db1 := RefreshSub(db, step.subId);
    var acts := Deads(Choice(db, step).dead);
    forall a | a in acts ensures a.Dead? && a.id in Choice(db, step).dead && Ready(db1, a) {
      var k :| 0 <= k < |acts| && acts[k] == a;
    }
    BatchDoes(env, db1, acts);
  }

  lemma MiddleGrown(env: Env, db: DB, step: Step, acts: seq<Act>, db2: DB)
    requires Rooted(db) && Pulls(db, step) && PullMiddle(env, db, step, acts, db2)
    ensures Grown(RefreshSub(db, step.subId), db2)
  {
  }

  lemma PullRow(env: Env, db: DB, step: Step, acts: seq<Act>, db2: DB, taken: set<Id>, i: Id)
    requires Valid(db) && Pulls(db, step) && PullMiddle(env, db, step, acts, db2)
    requires i in db.deliveries
    requires i in taken ==> MayHandOut(db, step, i) && !ActsOn(acts, i)
    ensures i in db2.deliveries
    ensures var db' := HandOut(env, db2, db.subs[step.subId], taken);
      && RowStep(env, db, step, db', i)
      && db'.deliveries[i] == (if i in taken then HandedOut(env, db, db.subs[step.subId], db.deliveries[i])
                               else if ActsOn(acts, i) then db.deliveries[i].(completedAt := Some(db.clock))
                               else db.deliveries[i])
  {
    if ActsOn(acts, i) {
      var a :| a in acts && a.id == i;
      assert ActDone(RefreshSub(db, step.subId), a, db2.deliveries[i]);
    } else {
      assert db2.deliveries[i] == db.deliveries[i];
    }
  }

  lemma PullAdds(env: Env, db: DB, step: Step, acts: seq<Act>, db2: DB, taken: set<Id>, j: Id)
    requires Valid(db) && Pulls(db, step) && PullMiddle(env, db, step, acts, db2)
    requires taken <= db.deliveries.Keys && j in db2.deliveries && j !in db.deliveries
    ensures var db' := HandOut(env, db2, db.subs[step.subId], taken);
      FreshRow(env, db, db', j) && Origin(db, step, db'.deliveries[j])
  {
    hide MayComplete, Lease, NextDelayFor, Linked, Referenced;
    var db1, db' := RefreshSub(db, step.subId), HandOut(env, db2, db.subs[step.subId], taken);
    assert BatchSends(env, db1, acts, db2, j);
    var d := db'.deliveries[j];
    assert d == db2.deliveries[j];
    var a :| a in acts && SentBy(db1, a, d);
    assert DeadLettered(db, step, a.id, d);
  }

  lemma PullRows(env: Env, db: DB, step: Step, acts: seq<Act>, db2: DB, taken: set<Id>)
    requires Valid(db) && Pulls(db, step) && PullMiddle(env, db, step, acts, db2)
    requires forall i :: i in taken ==> i in db.deliveries && MayHandOut(db, step, i) && !ActsOn(acts, i)
    ensures var db' := HandOut(env, db2, db.subs[step.subId], taken);
      && RowsEffect(env, db, step, db')
      && db.deliveries.Keys <= db'.deliveries.Keys
      && forall i :: i in db.deliveries ==>
           db'.deliveries[i] == (if i in taken then HandedOut(env, db, db.subs[step.subId], db.deliveries[i])
                                 else if ActsOn(acts, i) then db.deliveries[i].(completedAt := Some(db.clock))
                                 else db.deliveries[i])
  {
    var sub := db.subs[step.subId];
    var db' := HandOut(env, db2, sub, taken);
    forall i | i in db.deliveries
      ensures i in db'.deliveries && RowStep(env, db, step, db', i)
      ensures db'.deliveries[i] == (if i in taken then HandedOut(env, db, sub, db.deliveries[i])
                                    else if ActsOn(acts, i) then db.deliveries[i].(completedAt := Some(db.clock))
                                    else db.deliveries[i])
    {
      PullRow(env, db, step, acts, db2, taken, i);
    }
    forall j | j in db'.deliveries && j !in db.deliveries
      ensures FreshRow(env, db, db', j) && Origin(db, step, db'.deliveries[j])
    {
      PullAdds(env, db, step, acts, db2, taken, j);
    }
  }

  /** A pull's only effect on the other tables is the new expiry of its subscription. */
  lemma PullTables(db: DB, step: Step, db': DB)
    requires Valid(db) && step.PullStep? && step.subId in db.subs && db.nextId <= db'.nextId
    requires db' == RefreshSub(db, step.subId).(deliveries := db'.deliveries, nextId := db'.nextId)
    ensures TablesEffect(db, step, db')
  {
  }

  lemma DeadsActOn(ids: seq<Id>, i: Id)
    ensures ActsOn(Deads(ids), i) <==> i in ids
  {
    var acts := Deads(ids);
    if i in ids {
      var k :| 0 <= k < |ids| && ids[k] == i;
      assert acts[k] in acts;
    }
    if ActsOn(acts, i) {
      var a :| a in acts && a.id == i;
      var k :| 0 <= k < |acts| && acts[k] == a;
    }
  }

  /** A pull hands out exactly the rows it takes, each once; it completes exactly the rows it calls dead;
      and it leaves every other row as it is. */
  lemma PullEffect(env: Env, db: DB, step: Step)
    requires Valid(db) && Pulls(db, step)
    ensures var db' := Pull(env, db, step.subId, step.limits, step.rows);
      && Effect(env, db, step, db')
      && db.deliveries.Keys <= db'.deliveries.Keys
      && (forall i :: i in Choice(db, step).taken ==> i in db.deliveries)
      && (forall i :: i in db.deliveries ==>
            db'.deliveries[i] == (if i in Choice(db, step).taken then HandedOut(env, db, db.subs[step.subId], db.deliveries[i])
                                  else if i in Choice(db, step).dead then db.deliveries[i].(completedAt := Some(db.clock))
                                  else db.deliveries[i]))
  {
    hide RowsEffect, TablesEffect, MayHandOut, MayComplete, BatchEffect, Pack, Batch, HandedOut, ActsOn;
    PullChoice(db, step);
    PullDead(env, db, step);
    var p := Choice(db, step);
    var acts, taken := Deads(p.dead), Elements(p.taken);
    var db2 := Batch(env, RefreshSub(db, step.subId), acts);
    forall i ensures ActsOn(acts, i) <==> i in p.dead {
      DeadsActOn(p.dead, i);
    }
    PullRows(env, db, step, acts, db2, taken);
    MiddleGrown(env, db, step, acts, db2);
    PullTables(db, step, Pull(env, db, step.subId, step.limits, step.rows));
  }

  // ---- Bulk updates ----

  /** The rows of a set are changed in a way the step allows, the others are kept. */
  lemma RowsChanged(env: Env, db: DB, step: Step, rows: set<Id>, db': DB)
    requires Valid(db) && db'.deliveries.Keys == db.deliveries.Keys
    requires forall i :: i in db.deliveries && i !in rows ==> db'.deliveries[i] == db.deliveries[i]
    requires forall i :: i in db.deliveries && i in rows ==>
      RowChange(env, db, step, i, db'.deliveries[i]) && db'.deliveries[i].notBefore == db.deliveries[i].notBefore
    ensures RowsEffect(env, db, step, db')
  {
    forall i | i in db.deliveries ensures RowStep(env, db, step, db', i) {
      assert db'.deliveries[i].(notBefore := db.deliveries[i].notBefore) == db'.deliveries[i];
    }
  }

  lemma AckEffect(env: Env, db: DB, step: Step)
    requires Valid(db) && step.AckStep?
    ensures Effect(env, db, step, CompleteRows(db, AckRows(db, step.ids)))
  {
    var db' := CompleteRows(db, AckRows(db, step.ids));
    RowsChanged(env, db, step, AckRows(db, step.ids), db');
    SameTables(db, step, db');
  }

  lemma DelayEffect(env: Env, db: DB, step: Step)
    requires Valid(db) && step.DelayStep?
    ensures Effect(env, db, step, DelayDeliveries(db, step.ids, step.delay))
  {
    var db' := DelayDeliveries(db, step.ids, step.delay);
    RowsChanged(env, db, step, DelayRows(db, step.ids, step.delay), db');
    SameTables(db, step, db');
  }

  predicate SeekStep(step: Step) {
    step.SeekToTimeStep? || step.SeekToSnapshotStep?
  }

  /** A row that a seek completed, reopened or left alone. */
  lemma SeekRow(env: Env, db: DB, step: Step, i: Id, d': Delivery)
    requires Rooted(db) && SeekStep(step) && i in db.deliveries
    requires
      || d' == db.deliveries[i]
      || (db.deliveries[i].subId == step.subId
          && d' == if db.deliveries[i].Completed()
                   then Reopened(db.deliveries[i], db.clock, db.subs[step.subId].messageTTL)
                   else db.deliveries[i].(completedAt := Some(db.clock)))
    ensures RowChange(env, db, step, i, d') && d'.notBefore == db.deliveries[i].notBefore
  {
    if d' != db.deliveries[i] {
      assert MayReopen(db, step, i) || MayComplete(db, step, i);
    }
  }

  /** A seek that completes some rows of its subscription and reopens others. */
  lemma SeekRows(env: Env, db: DB, step: Step, acked: set<Id>, reopened: set<Id>, db': DB)
    requires Valid(db) && SeekStep(step) && step.subId in db.subs
    requires forall i :: i in acked + reopened ==> i in db.deliveries && db.deliveries[i].subId == step.subId
    requires forall i :: i in acked ==> !db.deliveries[i].Completed()
    requires forall i :: i in reopened ==> db.deliveries[i].Completed()
    requires db'.deliveries == ReopenRows(CompleteRows(db, acked), reopened, db.subs[step.subId].messageTTL).deliveries
    ensures RowsEffect(env, db, step, db')
  {
    forall i | i in db.deliveries
      ensures i in db'.deliveries && RowChange(env, db, step, i, db'.deliveries[i])
      ensures db'.deliveries[i].notBefore == db.deliveries[i].notBefore
    {
      SeekRow(env, db, step, i, db'.deliveries[i]);
    }
    RowsChanged(env, db, step, db.deliveries.Keys, db');
  }

  /** The ack of a seek to a time does not change which rows it reopens. */
  lemma SeekToTimeSets(db: DB, subId: Id, time: Time)
    ensures TimeReopened(CompleteRows(db, TimeAcked(db, subId, time)), subId, time) == TimeReopened(db, subId, time)
  {
  }

  /** The two acks of a snapshot seek amount to one, and reopen nothing they completed. */
  lemma SeekToSnapshotSets(db: DB, subId: Id, snap: Snapshot)
    ensures var before, listed := SnapAckedBefore(db, subId, snap), SnapAckedListed(db, subId, snap);
      && SnapAckedListed(CompleteRows(db, before), subId, snap) == listed - before
      && CompleteRows(CompleteRows(db, before), listed - before) == CompleteRows(db, before + listed)
      && SnapReopened(CompleteRows(db, before + listed), subId, snap) == SnapReopened(db, subId, snap)
  {
  }

  lemma SeekToTimeEffect(env: Env, db: DB, step: Step)
    requires Valid(db) && step.SeekToTimeStep? && step.subId in db.subs
    ensures Effect(env, db, step, SeekToTime(db, step.subId, step.time).db)
  {
    var db' := SeekToTime(db, step.subId, step.time).db;
    SeekToTimeSets(db, step.subId, step.time);
    SeekRows(env, db, step, TimeAcked(db, step.subId, step.time), TimeReopened(db, step.subId, step.time), db');
    SameTables(db, step, db');
  }

  /** A snapshot seek written as one ack and one reopening. */
  function SeekAtOnce(db: DB, subId: Id, snap: Snapshot): DB
    requires subId in db.subs
  {
    ReopenRows(CompleteRows(db, SnapAckedBefore(db, subId, snap) + SnapAckedListed(db, subId, snap)),
               SnapReopened(db, subId, snap), db.subs[subId].messageTTL)
  }

  lemma SeekIsAtOnce(db: DB, subId: Id, snap: Snapshot)
    requires subId in db.subs
    ensures SeekToSnapshot(db, subId, snap).db == SeekAtOnce(db, subId, snap)
  {
    SeekToSnapshotSets(db, subId, snap);
  }

  lemma SeekAtOnceRows(env: Env, db: DB, step: Step, snap: Snapshot)
    requires Valid(db) && step.SeekToSnapshotStep? && step.subId in db.subs
    ensures RowsEffect(env, db, step, SeekAtOnce(db, step.subId, snap))
  {
    var acked := SnapAckedBefore(db, step.subId, snap) + SnapAckedListed(db, step.subId, snap);
    var reopened := SnapReopened(db, step.subId, snap);
    assert forall i :: i in acked ==> i in db.deliveries && db.deliveries[i].subId == step.subId && !db.deliveries[i].Completed();
    assert forall i :: i in reopened ==> i in db.deliveries && db.deliveries[i].subId == step.subId && db.deliveries[i].Completed();
    SeekRows(env, db, step, acked, reopened, ReopenRows(CompleteRows(db, acked), reopened, db.subs[step.subId].messageTTL));
  }

  lemma SeekToSnapshotEffect(env: Env, db: DB, step: Step, snap: Snapshot)
    requires Valid(db) && step.SeekToSnapshotStep? && step.subId in db.subs
    ensures Effect(env, db, step, SeekToSnapshot(db, step.subId, snap).db)
  {
    SeekIsAtOnce(db, step.subId, snap);
    SeekAtOnceRows(env, db, step, snap);
    SameTables(db, step, SeekAtOnce(db, step.subId, snap));
  }

  // ---- Prunes and administration ----

  lemma Unlinked(env: Env, db: DB, step: Step, rows: set<Id>, i: Id)
    requires Valid(db) && i in db.deliveries && i !in rows
    ensures RowStep(env, db, step, RemoveDeliveries(db, rows), i)
  {
    assert Unlink(db.deliveries[i], rows).(notBefore := db.deliveries[i].notBefore) == db.deliveries[i];
  }

  lemma RemoveDeliveriesEffect(env: Env, db: DB, step: Step, rows: set<Id>)
    requires Valid(db)
    requires forall i :: i in rows ==> i in db.deliveries && MayVanish(db, step, i)
    ensures Effect(env, db, step, RemoveDeliveries(db, rows))
  {
    var db' := RemoveDeliveries(db, rows);
    SameTables(db, step, db');
    forall i | i in db'.deliveries ensures i in db.deliveries && RowStep(env, db, step, db', i) {
      Unlinked(env, db, step, rows, i);
    }
    assert forall i :: i in db.deliveries && i !in db'.deliveries ==> i in rows;
  }

  lemma RemovedMessages(db: DB, step: Step, minAge: Duration, rows: set<Id>)
    requires Valid(db) && rows <= UnusedMessages(db, minAge)
    ensures var db' := RemoveMessages(db, rows);
      SubsEffect(db, step, db') && MessagesEffect(db, step, db') && TopicsEffect(db, step, db') && SnapshotsEffect(db, step, db')
  {
  }

  lemma PruneRowsEffect(env: Env, db: DB, step: Step)
    requires Valid(db) && Enabled(db, step)
    requires step.PruneCompletedDeliveriesStep? || step.PruneExpiredDeliveriesStep? || step.PruneDeletedSubscriptionDeliveriesStep?
    ensures Effect(env, db, step, RemoveDeliveries(db, step.prune.rows))
  {
    hide Effect, Linked, Referenced, Numbered;
    RemoveDeliveriesEffect(env, db, step, step.prune.rows);
  }

  lemma RemoveMessagesEffect(env: Env, db: DB, step: Step, minAge: Duration, rows: set<Id>)
    requires Valid(db) && rows <= UnusedMessages(db, minAge)
    ensures Effect(env, db, step, RemoveMessages(db, rows))
  {
    hide RowsEffect, SubsEffect, TopicsEffect, SnapshotsEffect, MessagesEffect;
    SameRows(env, db, step, RemoveMessages(db, rows));
    RemovedMessages(db, step, minAge, rows);
  }

  /** A step that touches nothing but subscriptions and topics. */
  lemma OtherTables(env: Env, db: DB, step: Step, db': DB)
    requires Valid(db)
    requires db' == db.(subs := db'.subs, topics := db'.topics, snapshots := db'.snapshots, nextId := db'.nextId)
    requires db.nextId <= db'.nextId
    requires SubsEffect(db, step, db') && TopicsEffect(db, step, db') && SnapshotsEffect(db, step, db')
    ensures Effect(env, db, step, db')
  {
    SameRows(env, db, step, db');
  }

  lemma RemoveSubsEffect(env: Env, db: DB, step: Step, minAge: Duration, rows: set<Id>)
    requires Valid(db) && rows <= DrainedSubs(db, minAge)
    ensures Effect(env, db, step, RemoveSubs(db, rows))
  {
    hide SubsEffect, DrainedSubs;
    RemovedSubs(db, step, minAge, rows);
    OtherTables(env, db, step, RemoveSubs(db, rows));
  }

  lemma RemovedSubs(db: DB, step: Step, minAge: Duration, rows: set<Id>)
    requires Valid(db) && rows <= DrainedSubs(db, minAge)
    ensures SubsEffect(db, step, RemoveSubs(db, rows))
  {
  }

  lemma RemovedTopics(db: DB, step: Step, minAge: Duration, rows: set<Id>)
    requires rows <= DrainedTopics(db, minAge) && Unreferenced(db, rows)
    ensures TopicsEffect(db, step, RemoveTopics(db, rows))
  {
  }

  lemma UnreferencedSubs(db: DB, step: Step, rows: set<Id>)
    requires Valid(db)
    ensures SubsEffect(db, step, RemoveTopics(db, rows))
  {
  }

  lemma RemoveTopicsEffect(env: Env, db: DB, step: Step, minAge: Duration, rows: set<Id>)
    requires Valid(db) && rows <= DrainedTopics(db, minAge) && Unreferenced(db, rows)
    ensures Effect(env, db, step, RemoveTopics(db, rows))
  {
    hide TopicsEffect, SubsEffect, DrainedTopics, Unreferenced;
    RemovedTopics(db, step, minAge, rows);
    UnreferencedSubs(db, step, rows);
    OtherTables(env, db, step, RemoveTopics(db, rows));
  }

  lemma DeleteSubsEffect(env: Env, db: DB, step: Step, rows: set<Id>)
    requires Valid(db) && forall s :: s in rows ==> s in db.subs && db.subs[s].Live() && DeletesSub(db, step, s)
    ensures Effect(env, db, step, DeleteSubs(db, rows))
  {
    OtherTables(env, db, step, DeleteSubs(db, rows));
  }

  lemma DeletedTopics(db: DB, step: Step, rows: set<Id>)
    requires Valid(db) && forall t :: t in rows ==> t in db.topics && db.topics[t].Live()
    ensures var db' := DeleteTopics(db, rows);
      SubsEffect(db, step, db') && TopicsEffect(db, step, db') && SnapshotsEffect(db, step, db')
  {
  }

  lemma DeleteTopicsEffect(env: Env, db: DB, step: Step, rows: set<Id>)
    requires Valid(db) && forall t :: t in rows ==> t in db.topics && db.topics[t].Live()
    ensures Effect(env, db, step, DeleteTopics(db, rows))
  {
    hide SubsEffect, TopicsEffect, SnapshotsEffect;
    DeletedTopics(db, step, rows);
    OtherTables(env, db, step, DeleteTopics(db, rows));
  }

  lemma TouchEffect(env: Env, db: DB, step: Step, subId: Id)
    requires Valid(db) && subId in db.subs
    ensures Effect(env, db, step, RefreshSub(db, subId))
  {
    OtherTables(env, db, step, RefreshSub(db, subId));
  }

  lemma CreateTopicEffect(env: Env, db: DB, step: Step)
    requires Valid(db) && step.CreateTopicStep?
    ensures Effect(env, db, step, CreateTopic(db, step.topicName))
  {
    OtherTables(env, db, step, CreateTopic(db, step.topicName));
  }

  lemma CreateSubscriptionEffect(env: Env, db: DB, step: Step)
    requires Valid(db) && step.CreateSubscriptionStep? && NewSub(db, step.sub)
    ensures Effect(env, db, step, CreateSubscription(db, step.sub))
  {
    OtherTables(env, db, step, CreateSubscription(db, step.sub));
  }

  lemma CreateSnapshotEffect(env: Env, db: DB, step: Step)
    requires Valid(db) && step.CreateSnapshotStep? && step.subId in db.subs
    ensures Effect(env, db, step, CreateSnapshot(db, step.snapName, step.subId))
  {
    OtherTables(env, db, step, CreateSnapshot(db, step.snapName, step.subId));
  }

  /** Every step has the stated effects. */
  lemma StepEffect(env: Env, db: DB, step: Step)
    requires Valid(db) && Enabled(db, step)
    ensures Effect(env, db, step, Apply(env, db, step))
  {
    hide Effect, Valid, FirstRows, Pull, Publish, Nack, Batch, RemoveTopics, RemoveDeliveries, RemoveMessages, RemoveSubs,
      DeleteSubs, DeleteTopics, CompleteRows, DelayDeliveries, RefreshSub, CreateTopic, CreateSubscription, CreateSnapshot,
      SeekToSnapshot, SeekToTime, CompletedRows, ExpiredRows, OrphanRows, UnusedMessages, DrainedSubs, DrainedTopics;
    match step
    case CreateTopicStep(_) => CreateTopicEffect(env, db, step);
    case CreateSubscriptionStep(_) => CreateSubscriptionEffect(env, db, step);
    case DeleteTopicStep(name) => DeleteTopicsEffect(env, db, step, LiveTopicsNamed(db, name));
    case DeleteSubscriptionStep(name) => DeleteSubsEffect(env, db, step, LiveSubsNamed(db, name));
    case DeleteExpiredSubscriptionsStep(p) => DeleteSubsEffect(env, db, step, p.rows);
    case PublishStep(_, _, _, _) => PublishEffect(env, db, step);
    case TouchStep(s) => TouchEffect(env, db, step, s);
    case PullStep(_, _, _) => PullEffect(env, db, step);
    case AckStep(_) => AckEffect(env, db, step);
    case NackStep(_, _) => NackEffect(env, db, step);
    case DelayStep(_, _) => DelayEffect(env, db, step);
    case DeadLetterStep(_, _) => DeadLetterStepEffect(env, db, step);
    case CreateSnapshotStep(_, _) => CreateSnapshotEffect(env, db, step);
    case SeekToSnapshotStep(_, p) => SeekToSnapshotEffect(env, db, step, db.snapshots[p]);
    case SeekToTimeStep(_, _) => SeekToTimeEffect(env, db, step);
    case PruneCompletedDeliveriesStep(_) => PruneRowsEffect(env, db, step);
    case PruneExpiredDeliveriesStep(_) => PruneRowsEffect(env, db, step);
    case PruneDeletedSubscriptionDeliveriesStep(_) => PruneRowsEffect(env, db, step);
    case PruneCompletedMessagesStep(p) => RemoveMessagesEffect(env, db, step, p.minAge, p.rows);
    case PruneDeletedSubscriptionsStep(p) => RemoveSubsEffect(env, db, step, p.minAge, p.rows);
    case PruneDeletedTopicsStep(p) => RemoveTopicsEffect(env, db, step, p.minAge, p.rows);
  }
}
