/** Nothing is lost silently, and deleted subscriptions drain away. */
module Retention {
  import opened Types
  import opened DeliveryUtils
  import opened Actions
  import opened Effects
  import opened StepEffects
  import opened Runs

  // ---- No silent loss ----

  /** A publish makes exactly one pending row for every live subscription of the topic whose filter
      matches, and none for any other. */
  lemma PublishReachesAll(env: Env, db: DB, step: Step)
    requires Valid(db) && step.PublishStep? && LiveTopic(db, step.topicId)
    ensures var msg, db' := db.nextId, Publish(env, db, step.topicId, step.payload, step.attributes, step.orderKey);
      && msg in db'.messages && msg !in db.messages
      && (forall s :: s in Targets(env, db', step.topicId, msg) ==>
            exists j :: Announced(db, db', s, msg, j))
      && (forall j :: j in db'.deliveries && j !in db.deliveries ==>
            db'.deliveries[j].subId in Targets(env, db', step.topicId, msg))
      && NewSubsDiffer(db, db')
  {
    var msg := db.nextId;
    var db1 := PublishMessage(db, step.topicId, step.payload, step.attributes, step.orderKey);
    var db' := Publish(env, db, step.topicId, step.payload, step.attributes, step.orderKey);
    FanOutEffect(env, db1, step.topicId, msg);
    PublishOnce(env, db, step);
    assert Targets(env, db', step.topicId, msg) == Targets(env, db1, step.topicId, msg);
    forall s | s in Targets(env, db', step.topicId, msg) ensures exists j :: Announced(db, db', s, msg, j) {
      var j :| db1.nextId <= j < db'.nextId && db'.deliveries[j].subId == s;
      assert db'.deliveries[j] == NewRow(env, db1, s, msg);
      assert Announced(db, db', s, msg, j);
    }
  }

  /** Row `j` is new, open, and carries the message to the subscription. */
  predicate Announced(db: DB, db': DB, s: Id, msg: Id, j: Id) {
    && j in db'.deliveries && j !in db.deliveries
    && db'.deliveries[j].subId == s && db'.deliveries[j].messageId == msg
    && !db'.deliveries[j].Completed() && db'.deliveries[j].attempts == 0
  }

  /** The row was completed, or has expired, or its subscription is deleted. */
  predicate Settled(db: DB, now: Time, i: Id) {
    i in db.deliveries && (db.deliveries[i].Done(now) || !LiveSub(db, db.deliveries[i].subId))
  }

  /** The row is still there, with its message and its subscription. */
  predicate Kept(db: DB, i: Id) {
    i in db.deliveries && db.deliveries[i].messageId in db.messages && db.deliveries[i].subId in db.subs
  }

  ghost predicate SettledInRun(dbs: seq<DB>, events: seq<Event>, i: Id)
    requires |dbs| == |events| + 1
  {
    exists k :: 0 <= k < |events| && Settled(dbs[k], events[k].now, i)
  }

  lemma StepKeepsUnsettled(env: Env, db: DB, e: Event, db': DB, i: Id)
    requires Valid(db) && Next(env, db, e, db') && i in db.deliveries
    ensures i in db'.deliveries || Settled(db, e.now, i)
  {
    hide Valid, Enabled, FreshRow, TablesEffect;
    ClockKeepsValid(db, e.now);
    StepKeepsValid(env, db, e, db');
    assert Rooted(At(db, e.now));
  }

  /** In every run, a delivery either is still there at the end with its message and subscription, or
      was completed, expired, or orphaned by the deletion of its subscription at some time before. */
  lemma {:induction false} NoSilentLoss(env: Env, dbs: seq<DB>, events: seq<Event>, i: Id)
    requires Run(env, dbs, events) && Valid(dbs[0]) && i in dbs[0].deliveries
    ensures Kept(dbs[|dbs| - 1], i) || SettledInRun(dbs, events, i)
  {
    hide Valid, Next, Settled;
    RunValid(env, dbs, events);
    var n := |events| - 1;
    if events == [] {
      assert Kept(dbs[0], i) by { KeptIfThere(dbs[0], i); }
    } else {
      RunFront(env, dbs, events);
      NoSilentLoss(env, dbs[..|dbs| - 1], events[..n], i);
      assert dbs[..|dbs| - 1][n] == dbs[n];
      if SettledInRun(dbs[..|dbs| - 1], events[..n], i) {
        var k :| 0 <= k < n && Settled(dbs[..|dbs| - 1][k], events[..n][k].now, i);
        assert Settled(dbs[k], events[k].now, i);
      } else {
        StepKeepsUnsettled(env, dbs[n], events[n], dbs[n + 1], i);
        if i in dbs[n + 1].deliveries {
          KeptIfThere(dbs[n + 1], i);
        } else {
          assert Settled(dbs[n], events[n].now, i);
        }
      }
    }
  }

  lemma KeptIfThere(db: DB, i: Id)
    requires Valid(db) && i in db.deliveries
    ensures Kept(db, i)
  {
  }

  // ---- Deleted subscriptions drain ----

  function RowsOf(db: DB, subId: Id): set<Id> {
    set i | i in db.deliveries && db.deliveries[i].subId == subId
  }

  /** The subscription is deleted, or gone for good. */
  predicate Dead(db: DB, subId: Id) {
    subId < db.nextId && !LiveSub(db, subId)
  }

  lemma NewRowsAreLive(env: Env, db: DB, step: Step, db': DB)
    requires Rooted(db) && RowsEffect(env, db, step, db')
    ensures forall j :: j in db'.deliveries && j !in db.deliveries ==> LiveSub(db, db'.deliveries[j].subId)
  {
  }

  /** A deleted subscription stays deleted and never gains a delivery. */
  lemma DeletedGainsNothing(env: Env, db: DB, e: Event, db': DB, subId: Id)
    requires Valid(db) && Next(env, db, e, db') && Dead(db, subId)
    ensures Valid(db') && Dead(db', subId) && RowsOf(db', subId) <= RowsOf(db, subId)
  {
    hide Valid, Enabled, RowStep;
    var pre := At(db, e.now);
    ClockKeepsValid(db, e.now);
    StepKeepsValid(env, db, e, db');
    if subId in db'.subs && subId in pre.subs {
      assert SubKept(pre, pre.subs[subId], db'.subs[subId], db');
    }
    NewRowsAreLive(env, pre, e.step, db');
    forall i | i in RowsOf(db', subId) ensures i in RowsOf(db, subId) {
      assert i in pre.deliveries;
      RowKeeps(env, pre, e.step, db', i);
    }
  }

  lemma {:induction false} RunGainsNothing(env: Env, dbs: seq<DB>, events: seq<Event>, subId: Id)
    requires Run(env, dbs, events) && Valid(dbs[0]) && Dead(dbs[0], subId)
    ensures var last := dbs[|dbs| - 1];
      Valid(last) && Dead(last, subId) && RowsOf(last, subId) <= RowsOf(dbs[0], subId)
  {
    hide Valid, Next, Dead, RowsOf;
    if events != [] {
      var n := |events| - 1;
      RunFront(env, dbs, events);
      RunGainsNothing(env, dbs[..|dbs| - 1], events[..n], subId);
      assert dbs[..|dbs| - 1][n] == dbs[n];
      DeletedGainsNothing(env, dbs[n], events[n], dbs[n + 1], subId);
    }
  }

  /** The subscription has been deleted for at least the age the prunes wait for, or is gone. */
  predicate Aged(db: DB, subId: Id, minAge: Duration, now: Time) {
    subId < db.nextId && (subId in db.subs ==> DeletedFor(db.subs[subId], minAge, now))
  }

  /** A delivery prune that waits no longer than `minAge` and may delete something. */
  predicate PrunesRows(step: Step, minAge: Duration) {
    step.PruneDeletedSubscriptionDeliveriesStep? && step.prune.minAge <= minAge && step.prune.maxDelete >= 1
  }

  predicate PrunesSubs(step: Step, minAge: Duration) {
    step.PruneDeletedSubscriptionsStep? && step.prune.minAge <= minAge && step.prune.maxDelete >= 1
  }

  function RowPrunes(events: seq<Event>, minAge: Duration): nat {
    if events == [] then 0
    else RowPrunes(events[..|events| - 1], minAge) + if PrunesRows(events[|events| - 1].step, minAge) then 1 else 0
  }

  function SubPrunes(events: seq<Event>, minAge: Duration): nat {
    if events == [] then 0
    else SubPrunes(events[..|events| - 1], minAge) + if PrunesSubs(events[|events| - 1].step, minAge) then 1 else 0
  }

  /** Deliveries of deleted subscriptions, and deleted subscriptions: what the prunes have yet to remove. */
  function DeadRows(db: DB): set<Id> {
    set i | i in db.deliveries && !LiveSub(db, db.deliveries[i].subId)
  }

  function DeadSubs(db: DB): set<Id> {
    set s | s in db.subs && !db.subs[s].Live()
  }

  /** The run deletes no subscription. Anything else may happen in it. */
  ghost predicate NothingDeleted(dbs: seq<DB>, events: seq<Event>)
    requires |dbs| == |events| + 1
  {
    forall k :: 0 <= k < |events| ==> DeletesNone(At(dbs[k], events[k].now), events[k].step)
  }

  ghost predicate DeletesNone(db: DB, step: Step) {
    forall s :: s in db.subs ==> !DeletesSub(db, step, s)
  }

  lemma SmallerSet(s: set<Id>, t: set<Id>)
    requires s <= t
    ensures |s| <= |t|
    ensures forall x :: x in t && x !in s ==> |s| < |t|
  {
    assert |t| == |s| + |t - s|;
  }

  /** A query that could return a row returns at least one. */
  lemma LimitedProgress(rows: set<Id>, matching: set<Id>, max: nat) returns (x: Id)
    requires Limited(rows, matching, max) && max >= 1 && matching != {}
    ensures x in rows && x in matching
  {
    if rows == {} {
      assert |rows| == 0;
    }
    x :| x in rows;
  }

  /** Without deletions, no step adds to what is left to prune. */
  lemma DeadOnlyShrink(env: Env, db: DB, e: Event, db': DB)
    requires Valid(db) && Next(env, db, e, db') && DeletesNone(At(db, e.now), e.step)
    ensures Valid(db') && DeadRows(db') <= DeadRows(db) && DeadSubs(db') <= DeadSubs(db)
  {
    hide Valid, Enabled, Apply, RowStep, MessagesEffect, TopicsEffect, SnapshotsEffect;
    var pre := At(db, e.now);
    ClockKeepsValid(db, e.now);
    StepKeepsValid(env, db, e, db');
    LiveStays(pre, e.step, db');
    if e.step.CreateSubscriptionStep? {
      CreatedLive(pre, e.step);
    }
    NewRowsAreLive(env, pre, e.step, db');
    forall i | i in DeadRows(db') ensures i in DeadRows(db) {
      if i in pre.deliveries {
        RowKeeps(env, pre, e.step, db', i);
      }
    }
  }

  lemma CreatedLive(db: DB, step: Step)
    requires Enabled(db, step) && step.CreateSubscriptionStep?
    ensures step.sub.Live()
  {
  }

  lemma LiveStays(db: DB, step: Step, db': DB)
    requires SubsEffect(db, step, db') && DeletesNone(db, step)
    ensures forall s :: LiveSub(db, s) ==> LiveSub(db', s)
    ensures DeadSubs(db') <= DeadSubs(db) || step.CreateSubscriptionStep?
    ensures step.CreateSubscriptionStep? && step.sub.Live() ==> DeadSubs(db') <= DeadSubs(db)
  {
  }

  lemma StaysAged(env: Env, db: DB, e: Event, db': DB, subId: Id, minAge: Duration)
    requires Valid(db) && Next(env, db, e, db') && Aged(db, subId, minAge, db.clock)
    ensures Valid(db') && Aged(db', subId, minAge, db'.clock) && Aged(At(db, e.now), subId, minAge, e.now)
    ensures RowsOf(db', subId) <= RowsOf(db, subId)
  {
    hide Valid, Enabled, Apply, RowsEffect, RowsOf;
    var pre := At(db, e.now);
    StepKeepsValid(env, db, e, db');
    AgedIsDead(db, subId, minAge);
    DeletedGainsNothing(env, db, e, db', subId);
    if subId in db'.subs && subId in pre.subs {
      assert SubKept(pre, pre.subs[subId], db'.subs[subId], db');
    }
  }

  lemma AgedIsDead(db: DB, subId: Id, minAge: Duration)
    requires Aged(db, subId, minAge, db.clock)
    ensures Dead(db, subId)
  {
  }

  /** While a deleted subscription has rows, each delivery prune leaves less to prune. */
  lemma RowPruneProgress(env: Env, db: DB, e: Event, db': DB, subId: Id, minAge: Duration)
    requires Valid(db) && Next(env, db, e, db') && PrunesRows(e.step, minAge) && Aged(db, subId, minAge, db.clock)
    requires RowsOf(db, subId) != {}
    ensures exists x :: x in DeadRows(db) && x !in DeadRows(db')
  {
    hide Valid, Unlink;
    var pre, p := At(db, e.now), e.step.prune;
    assert db' == RemoveDeliveries(pre, p.rows) && Limited(p.rows, OrphanRows(pre, p.minAge), p.maxDelete);
    var i :| i in RowsOf(db, subId);
    RootedRow(db, i);
    assert i in OrphanRows(pre, p.minAge);
    var x := LimitedProgress(p.rows, OrphanRows(pre, p.minAge), p.maxDelete);
    assert x in DeadRows(db) && x !in DeadRows(db');
  }

  lemma RootedRow(db: DB, i: Id)
    requires Valid(db) && i in db.deliveries
    ensures db.deliveries[i].subId in db.subs
  {
  }

  /** While a deleted subscription without rows is there, each subscription prune leaves less to prune. */
  lemma SubPruneProgress(env: Env, db: DB, e: Event, db': DB, subId: Id, minAge: Duration)
    requires Valid(db) && Next(env, db, e, db') && PrunesSubs(e.step, minAge) && Aged(db, subId, minAge, db.clock)
    requires RowsOf(db, subId) == {} && subId in db.subs
    ensures exists x :: x in DeadSubs(db) && x !in DeadSubs(db')
  {
    hide Valid;
    var pre, p := At(db, e.now), e.step.prune;
    assert db' == RemoveSubs(pre, p.rows) && Limited(p.rows, DrainedSubs(pre, p.minAge), p.maxDelete);
    forall i | i in pre.deliveries ensures pre.deliveries[i].subId != subId {
      assert i !in RowsOf(db, subId);
    }
    assert subId in DrainedSubs(pre, p.minAge);
    var x := LimitedProgress(p.rows, DrainedSubs(pre, p.minAge), p.maxDelete);
    assert x in DeadSubs(db) && x !in DeadSubs(db');
  }

  /** In any run that deletes no further subscription, each delivery prune brings the deleted one closer to
      having no deliveries, and nothing else moves it away. */
  lemma {:induction false} RowsDrain(env: Env, dbs: seq<DB>, events: seq<Event>, subId: Id, minAge: Duration)
    requires Run(env, dbs, events) && Valid(dbs[0]) && Aged(dbs[0], subId, minAge, dbs[0].clock)
    requires NothingDeleted(dbs, events)
    ensures var last := dbs[|events|];
      && Valid(last) && Aged(last, subId, minAge, last.clock)
      && RowsOf(last, subId) <= RowsOf(dbs[0], subId)
      && (RowsOf(last, subId) == {} || |DeadRows(last)| + RowPrunes(events, minAge) <= |DeadRows(dbs[0])|)
  {
    hide Valid, Aged, RowsOf, DeadRows, DeadSubs, Next, PrunesRows, DeletesNone;
    if events != [] {
      var n := |events| - 1;
      RunFront(env, dbs, events);
      RowsDrain(env, dbs[..|dbs| - 1], events[..n], subId, minAge);
      assert dbs[..|dbs| - 1][n] == dbs[n];
      StaysAged(env, dbs[n], events[n], dbs[n + 1], subId, minAge);
      DeadOnlyShrink(env, dbs[n], events[n], dbs[n + 1]);
      SmallerSet(DeadRows(dbs[n + 1]), DeadRows(dbs[n]));
      if PrunesRows(events[n].step, minAge) && RowsOf(dbs[n], subId) != {} {
        RowPruneProgress(env, dbs[n], events[n], dbs[n + 1], subId, minAge);
      }
    }
  }

  /** And once it has none, each subscription prune brings its own removal closer. */
  lemma {:induction false} SubDrains(env: Env, dbs: seq<DB>, events: seq<Event>, subId: Id, minAge: Duration)
    requires Run(env, dbs, events) && Valid(dbs[0]) && Aged(dbs[0], subId, minAge, dbs[0].clock)
    requires NothingDeleted(dbs, events) && RowsOf(dbs[0], subId) == {}
    ensures var last := dbs[|events|];
      && Valid(last) && Aged(last, subId, minAge, last.clock) && RowsOf(last, subId) == {}
      && (subId !in last.subs || |DeadSubs(last)| + SubPrunes(events, minAge) <= |DeadSubs(dbs[0])|)
  {
    hide Valid, Aged, RowsOf, DeadRows, DeadSubs, Next, PrunesSubs, DeletesNone;
    if events != [] {
      var n := |events| - 1;
      RunFront(env, dbs, events);
      SubDrains(env, dbs[..|dbs| - 1], events[..n], subId, minAge);
      assert dbs[..|dbs| - 1][n] == dbs[n];
      StaysAged(env, dbs[n], events[n], dbs[n + 1], subId, minAge);
      DeadOnlyShrink(env, dbs[n], events[n], dbs[n + 1]);
      SmallerSet(DeadSubs(dbs[n + 1]), DeadSubs(dbs[n]));
      NotSubAgain(env, dbs[n], events[n], dbs[n + 1], subId, minAge);
      if PrunesSubs(events[n].step, minAge) && subId in dbs[n].subs {
        SubPruneProgress(env, dbs[n], events[n], dbs[n + 1], subId, minAge);
      }
    }
  }

  lemma NotSubAgain(env: Env, db: DB, e: Event, db': DB, subId: Id, minAge: Duration)
    requires Valid(db) && Next(env, db, e, db') && Aged(db, subId, minAge, db.clock)
    ensures subId in db'.subs ==> subId in db.subs
  {
    hide Valid, Enabled, Apply, RowsEffect;
    StepKeepsValid(env, db, e, db');
  }

  /** A subscription that still has the row is still there, so it counts. */
  lemma StillCounts(db: DB, subId: Id, minAge: Duration)
    requires Valid(db) && Aged(db, subId, minAge, db.clock)
    ensures RowsOf(db, subId) != {} ==> |DeadRows(db)| >= 1
    ensures subId in db.subs ==> |DeadSubs(db)| >= 1
  {
    if RowsOf(db, subId) != {} {
      var i :| i in RowsOf(db, subId);
      assert i in DeadRows(db);
    }
    if subId in db.subs {
      assert subId in DeadSubs(db);
    }
  }

  lemma RunSplits(env: Env, dbs: seq<DB>, events: seq<Event>, m: nat)
    requires Run(env, dbs, events) && NothingDeleted(dbs, events) && m <= |events|
    ensures Run(env, dbs[..m + 1], events[..m]) && NothingDeleted(dbs[..m + 1], events[..m])
    ensures Run(env, dbs[m..], events[m..]) && NothingDeleted(dbs[m..], events[m..])
  {
    hide Next, DeletesNone;
  }

  /** A subscription deleted long enough ago drains away in any run that deletes no further one, whatever
      else it does: it is gone, with all its deliveries, once the run has had as many delivery prunes as there
      were deliveries of deleted subscriptions, and after them as many subscription prunes as there were
      deleted subscriptions. */
  lemma DeletedSubscriptionDrains(env: Env, dbs: seq<DB>, events: seq<Event>, m: nat, subId: Id, minAge: Duration)
    requires Run(env, dbs, events) && Valid(dbs[0]) && Aged(dbs[0], subId, minAge, dbs[0].clock)
    requires NothingDeleted(dbs, events) && m <= |events|
    requires RowPrunes(events[..m], minAge) >= |DeadRows(dbs[0])|
    requires SubPrunes(events[m..], minAge) >= |DeadSubs(dbs[m])|
    ensures subId !in dbs[|events|].subs && RowsOf(dbs[|events|], subId) == {}
  {
    hide Valid, Aged, RowsOf, DeadRows, DeadSubs, Next, NothingDeleted;
    RunSplits(env, dbs, events, m);
    RowsDrain(env, dbs[..m + 1], events[..m], subId, minAge);
    StillCounts(dbs[m], subId, minAge);
    SubDrains(env, dbs[m..], events[m..], subId, minAge);
    StillCounts(dbs[|events|], subId, minAge);
  }
}
