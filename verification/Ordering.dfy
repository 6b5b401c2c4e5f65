/** Ordered delivery over whole runs, and why ordering never gets stuck. */
module Ordering {
  import opened Types
  import opened DeliveryUtils
  import opened Packing
  import opened Actions
  import opened Effects
  import opened StepEffects
  import opened Runs

  ghost predicate Of(db: DB, subId: Id, i: Id) {
    i in db.deliveries && db.deliveries[i].subId == subId
  }

  /** Row `i` was handed out or completed at some time. */
  ghost predicate Started(d: Delivery) {
    d.attempts > 0 || d.Completed()
  }

  /** What ordered delivery asks of the run: publishes to the subscription's topic carry an order key
      and come at increasing times, the topic is nobody's dead-letter topic, the subscription is not
      seeked, and clients ack only what they were handed. */
  ghost predicate Disciplined(db: DB, step: Step, subId: Id, topicId: Id) {
    && (step.PublishStep? && step.topicId == topicId ==>
          step.orderKey != "" && forall i :: Of(db, subId, i) ==> db.deliveries[i].publishedAt < db.clock)
    && (step.CreateSubscriptionStep? ==> step.sub.deadLetterTopicId != Some(topicId))
    && (step.SeekToTimeStep? || step.SeekToSnapshotStep? ==> step.subId != subId)
    && (step.AckStep? ==> forall i :: i in step.ids && Of(db, subId, i) ==> db.deliveries[i].attempts > 0)
  }

  ghost predicate NoDeadLettersTo(db: DB, topicId: Id) {
    forall s :: s in db.subs ==> db.subs[s].deadLetterTopicId != Some(topicId)
  }

  // The invariant, row by row, for a live subscription.

  /** Id order is publish order, and rows live equally long. */
  ghost predicate InOrder(db: DB, subId: Id)
    requires subId in db.subs
  {
    && (forall i :: Of(db, subId, i) ==>
          db.deliveries[i].expiresAt == db.deliveries[i].publishedAt + db.subs[subId].messageTTL)
    && (forall e, j :: Of(db, subId, e) && Of(db, subId, j) && e < j ==>
          db.deliveries[e].publishedAt < db.deliveries[j].publishedAt)
  }

  ghost predicate FromTopic(db: DB, subId: Id, topicId: Id) {
    forall i :: Of(db, subId, i) && db.deliveries[i].messageId in db.messages ==>
      db.messages[db.deliveries[i].messageId].topicId == topicId
  }

  /** An earlier row is done, unless it is covered by the link of the later one. */
  ghost predicate Covered(db: DB, e: Id, j: Id)
    requires e in db.deliveries && j in db.deliveries
  {
    db.deliveries[e].Done(db.clock) || (db.deliveries[j].notBefore.Some? && e <= db.deliveries[j].notBefore.value)
  }

  /** Rows before a started one are done. */
  ghost predicate Cleared(db: DB, e: Id, j: Id)
    requires e in db.deliveries && j in db.deliveries
  {
    Started(db.deliveries[j]) ==> db.deliveries[e].Done(db.clock)
  }

  ghost predicate Chained(db: DB, subId: Id) {
    forall e, j :: Of(db, subId, e) && Of(db, subId, j) && e < j ==> Covered(db, e, j) && Cleared(db, e, j)
  }

  ghost predicate LiveOrdered(db: DB, subId: Id, topicId: Id) {
    LiveSub(db, subId) && db.subs[subId].ordered && db.subs[subId].topicId == topicId
  }

  ghost predicate OrderInv(db: DB, subId: Id, topicId: Id) {
    && subId < db.nextId
    && NoDeadLettersTo(db, topicId)
    && (LiveSub(db, subId) ==>
          LiveOrdered(db, subId, topicId) && InOrder(db, subId) && FromTopic(db, subId, topicId) && Chained(db, subId))
  }

  // ---- Steps keep the invariant ----

  lemma ClockMoves(db: DB, now: Time, subId: Id, topicId: Id)
    requires OrderInv(db, subId, topicId) && db.clock <= now
    ensures OrderInv(At(db, now), subId, topicId)
  {
    var pre := At(db, now);
    if LiveSub(db, subId) {
      forall e, j | Of(pre, subId, e) && Of(pre, subId, j) && e < j
        ensures Covered(pre, e, j) && Cleared(pre, e, j)
      {
        assert Of(db, subId, e) && Of(db, subId, j);
        assert Covered(db, e, j) && Cleared(db, e, j);
      }
    }
  }

  /** In an ordered chain, everything before a done row is done: before a completed one because it
      was started, before an expired one because rows live equally long. */
  lemma DoneClears(db: DB, subId: Id, topicId: Id, e: Id, p: Id)
    requires OrderInv(db, subId, topicId) && LiveSub(db, subId)
    requires Of(db, subId, e) && Of(db, subId, p) && e <= p && db.deliveries[p].Done(db.clock)
    ensures db.deliveries[e].Done(db.clock)
  {
    if e < p {
      assert Cleared(db, e, p);
    }
  }

  /** When the query lets a row through, every earlier row of the subscription is done. */
  lemma EligibleClears(db: DB, subId: Id, topicId: Id, e: Id, j: Id)
    requires Valid(db) && OrderInv(db, subId, topicId) && LiveSub(db, subId)
    requires Of(db, subId, e) && e < j && j in EligibleRows(db, subId)
    ensures db.deliveries[e].Done(db.clock)
  {
    assert Covered(db, e, j);
    var d := db.deliveries[j];
    if d.notBefore.Some? && e <= d.notBefore.value {
      DoneClears(db, subId, topicId, e, d.notBefore.value);
    }
  }

  /** Without seeks, done rows stay done and rows keep their lifetime. */
  lemma RowStaysDone(env: Env, db: DB, step: Step, db': DB, subId: Id, topicId: Id, i: Id)
    requires Rooted(db) && Of(db, subId, i) && i in db'.deliveries
    requires RowStep(env, db, step, db', i) && db'.clock == db.clock && Disciplined(db, step, subId, topicId)
    ensures db'.deliveries[i].expiresAt == db.deliveries[i].expiresAt
    ensures db.deliveries[i].Done(db.clock) ==> db'.deliveries[i].Done(db'.clock)
  {
  }

  /** A row starts only by being handed out when it is eligible: what is acked, or dead-lettered after
      more than zero attempts, was handed out before. */
  lemma RowStarts(env: Env, db: DB, step: Step, db': DB, subId: Id, topicId: Id, i: Id)
    requires Rooted(db) && Of(db, subId, i) && i in db'.deliveries
    requires RowStep(env, db, step, db', i) && Disciplined(db, step, subId, topicId)
    requires Started(db'.deliveries[i]) && !Started(db.deliveries[i])
    ensures i in EligibleRows(db, subId)
  {
    hide EligibleRows;
    assert !MayReopen(db, step, i);
    assert !MayComplete(db, step, i);
    assert MayHandOut(db, step, i);
  }

  /** A row that vanishes from a live subscription was done. */
  lemma VanishedDone(db: DB, step: Step, subId: Id, i: Id)
    requires Valid(db) && LiveSub(db, subId) && Of(db, subId, i) && MayVanish(db, step, i)
    ensures db.deliveries[i].Done(db.clock)
  {
  }

  lemma OldRowsChained(env: Env, db: DB, step: Step, db': DB, subId: Id, topicId: Id, e: Id, j: Id)
    requires Valid(db) && RowsEffect(env, db, step, db') && db'.clock == db.clock
    requires OrderInv(db, subId, topicId) && LiveSub(db, subId) && Disciplined(db, step, subId, topicId)
    requires Of(db, subId, e) && Of(db, subId, j) && e < j && e in db'.deliveries && j in db'.deliveries
    ensures Covered(db', e, j) && Cleared(db', e, j)
  {
    RowKeeps(env, db, step, db', j);
    RowStaysDone(env, db, step, db', subId, topicId, e);
    assert Covered(db, e, j) && Cleared(db, e, j);
    var d := db.deliveries[j];
    if d.notBefore.Some? && d.notBefore.value !in db'.deliveries && e <= d.notBefore.value {
      VanishedDone(db, step, subId, d.notBefore.value);
      DoneClears(db, subId, topicId, e, d.notBefore.value);
    }
    if Started(db'.deliveries[j]) && !Started(d) {
      RowStarts(env, db, step, db', subId, topicId, j);
      EligibleClears(db, subId, topicId, e, j);
    }
  }

  /** Only a publish to its topic gives the subscription a new row. */
  lemma NewRowsPublished(env: Env, db: DB, step: Step, db': DB, subId: Id, topicId: Id, j: Id)
    requires Valid(db) && RowsEffect(env, db, step, db') && OrderInv(db, subId, topicId)
    requires LiveOrdered(db, subId, topicId)
    requires j in db'.deliveries && j !in db.deliveries && db'.deliveries[j].subId == subId
    ensures step.PublishStep? && step.topicId == topicId
  {
    assert Origin(db, step, db'.deliveries[j]);
  }

  lemma EarlierByTime(db: DB, subId: Id, e: Id, p: Id)
    requires subId in db.subs && InOrder(db, subId) && Of(db, subId, e) && Of(db, subId, p)
    requires db.deliveries[e].publishedAt <= db.deliveries[p].publishedAt
    ensures e <= p
  {
  }

  /** The row a publish adds: the latest of the subscription, linked to the newest unexpired one. */
  lemma PublishedRow(env: Env, db: DB, step: Step, db': DB, subId: Id, topicId: Id, j: Id, e: Id)
    requires Valid(db) && OrderInv(db, subId, topicId) && LiveOrdered(db, subId, topicId)
    requires step.PublishStep? && step.topicId == topicId && Disciplined(db, step, subId, topicId)
    requires db' == Publish(env, db, topicId, step.payload, step.attributes, step.orderKey)
    requires j in db'.deliveries && j !in db.deliveries && db'.deliveries[j].subId == subId
    requires e in db'.deliveries && e != j && db'.deliveries[e].subId == subId
    ensures e in db.deliveries && db'.deliveries[e] == db.deliveries[e] && e < j
    ensures db'.deliveries[e].publishedAt < db'.deliveries[j].publishedAt
    ensures Covered(db', e, j) && Cleared(db', e, j)
  {
    hide FanOut, Targets, NewRow, Matches, OrderInv, Linked, Referenced;
    var db1 := PublishMessage(db, topicId, step.payload, step.attributes, step.orderKey);
    FanOutEffect(env, db1, topicId, db.nextId);
    assert Of(db, subId, e);
    assert db'.deliveries[j] == NewRow(env, db1, subId, db.nextId);
    PublishedLink(env, db, step, subId, topicId, e);
  }

  /** The new row is linked to no row before an earlier one that is still open. */
  lemma PublishedLink(env: Env, db: DB, step: Step, subId: Id, topicId: Id, e: Id)
    requires Valid(db) && OrderInv(db, subId, topicId) && LiveOrdered(db, subId, topicId)
    requires step.PublishStep? && step.topicId == topicId && Disciplined(db, step, subId, topicId) && Of(db, subId, e)
    ensures var d := NewRow(env, PublishMessage(db, topicId, step.payload, step.attributes, step.orderKey), subId, db.nextId);
      && d.attempts == 0 && !d.Completed() && d.publishedAt == db.clock > db.deliveries[e].publishedAt
      && (db.deliveries[e].Done(db.clock) || (d.notBefore.Some? && e <= d.notBefore.value))
  {
    var db1 := PublishMessage(db, topicId, step.payload, step.attributes, step.orderKey);
    PredecessorIsNewest(env, db1, subId, topicId);
    var c := Candidates(db1, subId, topicId);
    if !db.deliveries[e].Done(db.clock) {
      assert e in c;
      EarlierByTime(db, subId, e, Predecessor(env, db1, subId, topicId).value);
    }
  }

  lemma StepKeepsChain(env: Env, db: DB, step: Step, db': DB, subId: Id, topicId: Id, e: Id, j: Id)
    requires Valid(db) && Effect(env, db, step, db') && OrderInv(db, subId, topicId)
    requires LiveSub(db, subId) && Disciplined(db, step, subId, topicId)
    requires step.PublishStep? && step.topicId == topicId ==>
      db' == Publish(env, db, topicId, step.payload, step.attributes, step.orderKey)
    requires Of(db', subId, e) && Of(db', subId, j) && e < j
    ensures db'.deliveries[e].publishedAt < db'.deliveries[j].publishedAt
    ensures Covered(db', e, j) && Cleared(db', e, j)
  {
    hide Covered, Cleared, Chained, Publish, Linked, Referenced, FromTopic;
    if j !in db.deliveries {
      NewRowsPublished(env, db, step, db', subId, topicId, j);
      PublishedRow(env, db, step, db', subId, topicId, j, e);
    } else if e !in db.deliveries {
      NewRowsPublished(env, db, step, db', subId, topicId, e);
      PublishedRow(env, db, step, db', subId, topicId, e, j);
    } else {
      RowKeeps(env, db, step, db', e);
      RowKeeps(env, db, step, db', j);
      OldRowsChained(env, db, step, db', subId, topicId, e, j);
    }
  }

  lemma StepKeepsRow(env: Env, db: DB, step: Step, db': DB, subId: Id, topicId: Id, i: Id)
    requires Valid(db) && Effect(env, db, step, db') && OrderInv(db, subId, topicId)
    requires LiveSub(db, subId) && LiveSub(db', subId) && Disciplined(db, step, subId, topicId)
    requires Of(db', subId, i)
    ensures db'.deliveries[i].expiresAt == db'.deliveries[i].publishedAt + db'.subs[subId].messageTTL
    ensures db'.deliveries[i].messageId in db'.messages ==> db'.messages[db'.deliveries[i].messageId].topicId == topicId
  {
    assert SubKept(db, db.subs[subId], db'.subs[subId], db');
    if i in db.deliveries {
      RowKeeps(env, db, step, db', i);
      RowStaysDone(env, db, step, db', subId, topicId, i);
    } else {
      NewRowsPublished(env, db, step, db', subId, topicId, i);
      assert FreshRow(env, db, db', i) && Origin(db, step, db'.deliveries[i]);
    }
  }

  lemma StepKeepsNoDeadLetters(db: DB, step: Step, db': DB, subId: Id, topicId: Id)
    requires SubsEffect(db, step, db') && NoDeadLettersTo(db, topicId) && Disciplined(db, step, subId, topicId)
    ensures NoDeadLettersTo(db', topicId)
  {
  }

  /** Rows of a live subscription after a step. */
  lemma StepKeepsRows(env: Env, db: DB, step: Step, db': DB, subId: Id, topicId: Id)
    requires Valid(db) && Effect(env, db, step, db') && OrderInv(db, subId, topicId)
    requires LiveOrdered(db, subId, topicId) && LiveOrdered(db', subId, topicId) && Disciplined(db, step, subId, topicId)
    ensures FromTopic(db', subId, topicId)
    ensures forall i :: Of(db', subId, i) ==>
      db'.deliveries[i].expiresAt == db'.deliveries[i].publishedAt + db'.subs[subId].messageTTL
  {
    forall i | Of(db', subId, i)
      ensures db'.deliveries[i].expiresAt == db'.deliveries[i].publishedAt + db'.subs[subId].messageTTL
      ensures db'.deliveries[i].messageId in db'.messages ==> db'.messages[db'.deliveries[i].messageId].topicId == topicId
    {
      StepKeepsRow(env, db, step, db', subId, topicId, i);
    }
  }

  lemma StepKeepsPairs(env: Env, db: DB, step: Step, db': DB, subId: Id, topicId: Id)
    requires Valid(db) && Effect(env, db, step, db') && OrderInv(db, subId, topicId)
    requires LiveOrdered(db, subId, topicId) && Disciplined(db, step, subId, topicId)
    requires step.PublishStep? && step.topicId == topicId ==>
      db' == Publish(env, db, topicId, step.payload, step.attributes, step.orderKey)
    ensures Chained(db', subId)
    ensures forall x, j :: Of(db', subId, x) && Of(db', subId, j) && x < j ==>
      db'.deliveries[x].publishedAt < db'.deliveries[j].publishedAt
  {
    hide Effect, Valid, OrderInv, Disciplined, Publish, Covered, Cleared, InOrder;
    forall x, j | Of(db', subId, x) && Of(db', subId, j) && x < j
      ensures db'.deliveries[x].publishedAt < db'.deliveries[j].publishedAt
      ensures Covered(db', x, j) && Cleared(db', x, j)
    {
      StepKeepsChain(env, db, step, db', subId, topicId, x, j);
    }
  }

  /** A subscription that is live after a step and existed before was live before. */
  lemma LiveBefore(db: DB, step: Step, db': DB, subId: Id)
    requires SubsEffect(db, step, db') && subId < db.nextId && LiveSub(db', subId)
    ensures LiveSub(db, subId)
    ensures db'.subs[subId].ordered == db.subs[subId].ordered && db'.subs[subId].topicId == db.subs[subId].topicId
  {
    if subId in db.subs {
      assert SubKept(db, db.subs[subId], db'.subs[subId], db');
    }
  }

  lemma StepKeepsOrder(env: Env, db: DB, e: Event, db': DB, subId: Id, topicId: Id)
    requires Valid(db) && Next(env, db, e, db') && OrderInv(db, subId, topicId)
    requires Disciplined(At(db, e.now), e.step, subId, topicId)
    ensures Valid(db') && OrderInv(db', subId, topicId)
  {
    hide Valid, Disciplined, RowsEffect, Chained, FromTopic, Enabled, NoDeadLettersTo, Publish;
    var pre, step := At(db, e.now), e.step;
    ClockKeepsValid(db, e.now);
    StepKeepsValid(env, db, e, db');
    ClockMoves(db, e.now, subId, topicId);
    StepKeepsNoDeadLetters(pre, step, db', subId, topicId);
    if LiveSub(db', subId) {
      LiveBefore(pre, step, db', subId);
      StepKeepsRows(env, pre, step, db', subId, topicId);
      StepKeepsPairs(env, pre, step, db', subId, topicId);
    }
  }

  ghost predicate DisciplinedRun(dbs: seq<DB>, events: seq<Event>, subId: Id, topicId: Id)
    requires |dbs| == |events| + 1
  {
    forall k :: 0 <= k < |events| ==> Disciplined(At(dbs[k], events[k].now), events[k].step, subId, topicId)
  }

  /** A newly created ordered subscription: no deliveries yet. */
  ghost predicate NewlyOrdered(db: DB, subId: Id, topicId: Id) {
    && Valid(db) && LiveOrdered(db, subId, topicId) && NoDeadLettersTo(db, topicId)
    && forall i :: i in db.deliveries ==> db.deliveries[i].subId != subId
  }

  lemma {:induction false} RunKeepsOrder(env: Env, dbs: seq<DB>, events: seq<Event>, subId: Id, topicId: Id)
    requires Run(env, dbs, events) && NewlyOrdered(dbs[0], subId, topicId)
    requires DisciplinedRun(dbs, events, subId, topicId)
    ensures forall k :: 0 <= k < |dbs| ==> Valid(dbs[k]) && OrderInv(dbs[k], subId, topicId)
  {
    if events != [] {
      var n := |events| - 1;
      RunFront(env, dbs, events);
      RunKeepsOrder(env, dbs[..|dbs| - 1], events[..n], subId, topicId);
      assert Valid(dbs[..|dbs| - 1][n]) && OrderInv(dbs[..|dbs| - 1][n], subId, topicId);
      StepKeepsOrder(env, dbs[n], events[n], dbs[n + 1], subId, topicId);
      forall k | 0 <= k < |dbs| ensures Valid(dbs[k]) && OrderInv(dbs[k], subId, topicId) {
        if k < |dbs| - 1 {
          assert dbs[..|dbs| - 1][k] == dbs[k];
        }
      }
    }
  }

  /** A step hands a delivery out when it counts one more attempt for it. */
  ghost predicate HandsOut(db: DB, db': DB, j: Id) {
    j in db.deliveries && j in db'.deliveries && db'.deliveries[j].attempts > db.deliveries[j].attempts
  }

  lemma HandOutIsDue(env: Env, db: DB, step: Step, db': DB, j: Id)
    requires Valid(db) && RowsEffect(env, db, step, db') && HandsOut(db, db', j)
    ensures MayHandOut(db, step, j)
    ensures db'.deliveries[j].(notBefore := db.deliveries[j].notBefore)
         == HandedOut(env, db, db.subs[db.deliveries[j].subId], db.deliveries[j])
  {
    assert RowStep(env, db, step, db', j);
  }

  /** Ordered delivery: in every disciplined run, a delivery is handed out only when every delivery of
      the subscription that was published before it and is still in the table is completed or expired. */
  lemma OrderedDelivery(env: Env, dbs: seq<DB>, events: seq<Event>, subId: Id, topicId: Id, k: nat, j: Id, e: Id)
    requires Run(env, dbs, events) && NewlyOrdered(dbs[0], subId, topicId)
    requires DisciplinedRun(dbs, events, subId, topicId)
    requires k < |events| && HandsOut(dbs[k], dbs[k + 1], j)
    requires Of(dbs[k], subId, j) && Of(dbs[k], subId, e)
    requires dbs[k].deliveries[e].publishedAt < dbs[k].deliveries[j].publishedAt
    ensures dbs[k].deliveries[e].Done(events[k].now)
  {
    RunKeepsOrder(env, dbs, events, subId, topicId);
    var pre := At(dbs[k], events[k].now);
    ClockKeepsValid(dbs[k], events[k].now);
    assert Next(env, dbs[k], events[k], dbs[k + 1]);
    StepKeepsValid(env, dbs[k], events[k], dbs[k + 1]);
    ClockMoves(dbs[k], events[k].now, subId, topicId);
    HandOutIsDue(env, pre, events[k].step, dbs[k + 1], j);
    assert Of(pre, subId, e) && Of(pre, subId, j);
    EarlierByTime(pre, subId, e, j);
    EligibleClears(pre, subId, topicId, e, j);
  }

  // ---- Ordering never gets stuck ----

  lemma LeastExists(s: set<Id>) returns (m: Id)
    requires s != {}
    ensures m in s && forall x :: x in s ==> m <= x
  {
    m :| m in s;
    if s != {m} {
      var m' := LeastExists(s - {m});
      assert forall x :: x in s ==> x == m || x in s - {m};
      m := if m < m' then m else m';
    }
  }

  /** In every valid state, at any time, a subscription with pending deliveries has one that its
      ordering does not block: the one with the least id. Links never form a cycle. */
  lemma OrderingNeverStuck(db: DB, subId: Id)
    requires Valid(db) && subId in db.subs && UnackedRows(db, subId) != {}
    ensures EligibleRows(db, subId) != {}
  {
    var i := LeastExists(UnackedRows(db, subId));
    var d := db.deliveries[i];
    if d.notBefore.Some? {
      assert d.notBefore.value !in UnackedRows(db, subId);
    }
    assert i in EligibleRows(db, subId);
  }

  /** The same in every state of every run, seeks included. */
  lemma RunNeverStuck(env: Env, dbs: seq<DB>, events: seq<Event>, k: nat, now: Time, subId: Id)
    requires Run(env, dbs, events) && Valid(dbs[0]) && k < |dbs|
    requires subId in dbs[k].subs && UnackedRows(At(dbs[k], now), subId) != {}
    ensures EligibleRows(At(dbs[k], now), subId) != {}
  {
    RunValid(env, dbs, events);
    assert Valid(At(dbs[k], now));
    OrderingNeverStuck(At(dbs[k], now), subId);
  }
}
