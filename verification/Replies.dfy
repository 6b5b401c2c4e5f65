/** What an action reports to its caller and to those who wait for changes, told from the tables before and
    after it. */
module Replies {
  import opened Types
  import opened Backoff
  import opened DeliveryUtils
  import opened Packing
  import opened Actions
  import opened Effects
  import opened StepEffects
  import opened Runs
  import opened Wakeups
  import opened Commits
  import opened Laws
  import Notify

  /** What a pull returns for each delivery it hands out. */
  datatype Handed = Handed(
    id: Id, messageId: Id, publishedAt: Time, numAttempts: nat, nextAttemptAt: Time, fuzzDelay: Duration,
    orderKey: Option<string>, payload: seq<Byte>, attributes: Attributes)

  /** A pull either hands something out, or learns how long to wait. */
  datatype PullOutcome =
    | Pulled(deliveries: seq<Handed>, numDeadLettered: nat)
    | Waits(next: Option<Time>)

  function HandedOf(env: Env, db: DB, sub: Subscription, i: Id): Handed
    requires i in db.deliveries && db.deliveries[i].messageId in db.messages
  {
    HandedRow(env, db.clock, sub, i, db.deliveries[i], db.messages[db.deliveries[i].messageId])
  }

  function HandedRow(env: Env, now: Time, sub: Subscription, i: Id, d: Delivery, m: Message): Handed {
    var delay := NextDelayFor(env, d.subId, sub, d.attempts + 1);
    Handed(i, d.messageId, m.publishedAt, d.attempts + 1, now + delay.nominal, delay.fuzzed - delay.nominal,
           m.orderKey, m.payload, m.attributes)
  }

  /** How many rows of a batch are dead-lettered. */
  function NumDead(acts: seq<Act>): nat {
    if acts == [] then 0 else NumDead(acts[..|acts| - 1]) + if acts[|acts| - 1].Dead? then 1 else 0
  }

  /** The results of a packing: each row it takes, as it was before the pull. */
  ghost predicate Results(env: Env, pre: DB, subId: Id, limits: PullLimits, rows: seq<Id>, results: seq<Handed>, numDead: nat) {
    && subId in pre.subs && Loaded(pre, rows)
    && var p := Pack(pre, pre.subs[subId], rows, |rows|, limits);
    && numDead == |p.dead|
    && |results| == |p.taken|
    && forall k :: 0 <= k < |p.taken| ==>
         p.taken[k] in pre.deliveries && pre.deliveries[p.taken[k]].messageId in pre.messages
         && results[k] == HandedOf(env, pre, pre.subs[subId], p.taken[k])
  }

  // ---- The tables tell ----

  /** Rows that were open and are completed now. */
  function NowCompleted(before: DB, after: DB): set<Id> {
    set i | i in before.deliveries && i in after.deliveries
      && before.deliveries[i].completedAt == None && after.deliveries[i].completedAt != None
  }

  /** Rows that were completed and are open now. */
  function NowOpen(before: DB, after: DB): set<Id> {
    set i | i in before.deliveries && i in after.deliveries
      && before.deliveries[i].completedAt != None && after.deliveries[i].completedAt == None
  }

  /** Rows that were attempted once more. */
  function NowAttempted(before: DB, after: DB): set<Id> {
    set i | i in before.deliveries && i in after.deliveries
      && after.deliveries[i].attempts == before.deliveries[i].attempts + 1
  }

  /** The open rows among those named. */
  function OpenAmong(db: DB, ids: set<Id>): set<Id> {
    set i | i in ids && i in db.deliveries && db.deliveries[i].completedAt == None
  }

  function PendingAmong(db: DB, ids: set<Id>, now: Time): set<Id> {
    set i | i in OpenAmong(db, ids) && now < db.deliveries[i].expiresAt
  }

  /** The open rows whose next attempt the delay would change: a positive one only postpones. */
  function MovableAmong(db: DB, ids: set<Id>, delay: Duration, now: Time): set<Id> {
    set i | i in OpenAmong(db, ids) && (delay <= 0 || db.deliveries[i].attemptAt < now + delay)
  }

  /** The live subscriptions of a topic that want a message with these attributes. */
  function Receivers(env: Env, db: DB, topicId: Id, attributes: Attributes): set<Id> {
    set s | s in db.subs && db.subs[s].topicId == topicId && db.subs[s].deletedAt == None
      && (db.subs[s].filter == None || db.subs[s].filter == Some("")
          || env.evaluate(db.subs[s].filter.value, attributes) == Match)
  }

  function SubsCalled(db: DB, name: string): set<Id> {
    set s | s in db.subs && db.subs[s].deletedAt == None && db.subs[s].name == name
  }

  function TopicsCalled(db: DB, name: string): set<Id> {
    set t | t in db.topics && db.topics[t].deletedAt == None && db.topics[t].name == name
  }

  /** The entry tells of a delivery of the subscription, with its message as it was published, with the number of
      attempts it has had now, and with its next attempt split into the nominal time and a fuzz below a second. */
  ghost predicate Tells(before: DB, after: DB, subId: Id, h: Handed) {
    && h.id in before.deliveries && h.id in after.deliveries && before.deliveries[h.id].messageId in before.messages
    && var d, m := after.deliveries[h.id], before.messages[before.deliveries[h.id].messageId];
    && d.subId == subId && h.messageId == d.messageId
    && h.payload == m.payload && h.attributes == m.attributes && h.orderKey == m.orderKey && h.publishedAt == m.publishedAt
    && h.numAttempts == d.attempts
    && h.nextAttemptAt + h.fuzzDelay == d.attemptAt && 0 <= h.fuzzDelay < 1_000_000_000
  }

  /** The client is told of exactly the rows that were attempted once more, of each once, and of how many were
      dead-lettered. */
  ghost predicate Told(before: DB, after: DB, subId: Id, results: seq<Handed>, numDead: nat) {
    && (forall h :: h in results ==> Tells(before, after, subId, h))
    && (forall i :: i in NowAttempted(before, after) <==> exists k :: 0 <= k < |results| && results[k].id == i)
    && (forall k, l :: 0 <= k < l < |results| ==> results[k].id != results[l].id)
    && numDead == |NowCompleted(before, after)|
  }

  lemma IsNext(env: Env, before: DB, e: Event, after: DB, hooks: seq<Notify.Op>)
    requires Committed(env, before, e, after, hooks)
    ensures Next(env, before, e, after)
  {
  }

  // ---- Pull ----

  lemma PullReply(env: Env, db: DB, now: Time, s: Id, limits: PullLimits, rows: seq<Id>, db': DB,
                  results: seq<Handed>, numDead: nat)
    requires Valid(db) && Next(env, db, Event(now, PullStep(s, limits, rows)), db')
    requires Results(env, At(db, now), s, limits, rows, results, numDead)
    ensures Told(db, db', s, results, numDead)
  {
    hide Valid, Next, Pack, Tells, NextDelayFor, NowAttempted, NowCompleted, HandedOf;
    var pre := At(db, now);
    var p := Pack(pre, db.subs[s], rows, |rows|, limits);
    PullTaken(env, db, now, s, limits, rows, db');
    PullCounts(env, db, now, s, limits, rows, db');
    forall k | 0 <= k < |results| ensures results[k].id == p.taken[k] && Tells(db, db', s, results[k]) {
      assert p.taken[k] in p.taken && p.taken[k] in p.taken + p.dead;
      HandedIs(env, pre, db.subs[s], p.taken[k]);
      TakenIsTold(env, db, now, s, limits, rows, db', p.taken[k]);
    }
  }

  lemma HandedIs(env: Env, db: DB, sub: Subscription, i: Id)
    requires i in db.deliveries && db.deliveries[i].messageId in db.messages
    ensures HandedOf(env, db, sub, i).id == i
  {
  }

  /** Rows taken are those attempted once more, and dead ones those completed. */
  lemma PullCounts(env: Env, db: DB, now: Time, s: Id, limits: PullLimits, rows: seq<Id>, db': DB)
    requires Valid(db) && Next(env, db, Event(now, PullStep(s, limits, rows)), db')
    requires s in db.subs && Loaded(db, rows)
    ensures var p := Pack(At(db, now), db.subs[s], rows, |rows|, limits);
      && Distinct(p.taken) && NowAttempted(db, db') == Elements(p.taken)
      && |p.dead| == |NowCompleted(db, db')|
  {
    hide Valid, Next, Pack, NextDelayFor;
    var pre := At(db, now);
    var p := Pack(pre, db.subs[s], rows, |rows|, limits);
    PullTaken(env, db, now, s, limits, rows, db');
    PackChooses(pre, db.subs[s], rows, |rows|, limits);
    forall i | i in p.taken + p.dead ensures i in db.deliveries && db.deliveries[i].completedAt == None {
      var k :| 0 <= k < |rows| && rows[k] == i;
      RowIsOpen(env, db, now, s, limits, rows, db', k);
    }
    assert forall i :: i in p.taken || i in p.dead ==> i in p.taken + p.dead;
    DeadsCounted(db, db', p.dead);
  }

  lemma RowIsOpen(env: Env, db: DB, now: Time, s: Id, limits: PullLimits, rows: seq<Id>, db': DB, k: nat)
    requires Valid(db) && Next(env, db, Event(now, PullStep(s, limits, rows)), db') && k < |rows|
    ensures rows[k] in db.deliveries && db.deliveries[rows[k]].completedAt == None
  {
    assert rows[k] in rows && rows[k] in DueRows(At(db, now), s);
  }

  lemma TakenIsTold(env: Env, db: DB, now: Time, s: Id, limits: PullLimits, rows: seq<Id>, db': DB, i: Id)
    requires Valid(db) && Next(env, db, Event(now, PullStep(s, limits, rows)), db')
    requires s in db.subs && i in rows && i in db.deliveries && db.deliveries[i].messageId in db.messages && i in db'.deliveries
    requires db'.deliveries[i] == HandedOut(env, At(db, now), db.subs[s], db.deliveries[i])
    ensures Tells(db, db', s, HandedOf(env, At(db, now), db.subs[s], i))
  {
    hide Valid, Next, NextDelayFor;
    var k :| 0 <= k < |rows| && rows[k] == i;
    RowsOfSub(env, db, now, s, limits, rows, db', k);
    DelayBounds(env, s, db.subs[s], db.deliveries[i].attempts + 1);
  }

  // ---- The counts ----

  lemma DeadsCounted(db: DB, db': DB, dead: seq<Id>)
    requires Distinct(dead) && db.deliveries.Keys <= db'.deliveries.Keys
    requires forall i :: i in db.deliveries ==>
      (i in dead <==> db.deliveries[i].completedAt == None && db'.deliveries[i].completedAt != None)
    requires forall i :: i in dead ==> i in db.deliveries
    ensures |dead| == |NowCompleted(db, db')|
  {
    ListsEmpty(dead, NowCompleted(db, db'));
  }

  lemma NackReply(env: Env, db: DB, now: Time, ids: set<Id>, rows: seq<Id>, db': DB)
    requires Valid(db) && Next(env, db, Event(now, NackStep(ids, rows)), db')
    ensures forall i :: i in rows ==> i in db.deliveries && db.deliveries[i].subId in db.subs
    ensures |rows| == |PendingAmong(db, ids, now)|
    ensures NumDead(NackActs(env, At(db, now), rows)) == |NowCompleted(db, db')|
  {
    hide Valid, Next, NumDead, NextDelayFor;
    NackIsReady(env, db, now, ids, rows, db');
    var pre := At(db, now);
    forall i | i in db.deliveries
      ensures i in rows <==> i in ids && db.deliveries[i].completedAt == None && now < db.deliveries[i].expiresAt
      ensures i in NowCompleted(db, db') <==> i in rows && NackAct(env, pre, i).Dead?
    {
      NackLaw(env, db, now, ids, rows, db', i);
    }
    RowsAreDistinct(env, pre, rows);
    NumDeadCounts(env, pre, rows);
    ListsEmpty(rows, Elements(rows));
    assert Elements(rows) == PendingAmong(db, ids, now);
    assert NowCompleted(db, db') == set i | i in rows && NackAct(env, pre, i).Dead?;
  }

  lemma RowsAreDistinct(env: Env, db: DB, rows: seq<Id>)
    requires forall i :: i in rows ==> i in db.deliveries && db.deliveries[i].subId in db.subs
    requires DistinctActs(NackActs(env, db, rows))
    ensures Distinct(rows)
  {
  }

  lemma {:induction false} NumDeadCounts(env: Env, db: DB, rows: seq<Id>)
    requires Distinct(rows) && forall i :: i in rows ==> i in db.deliveries && db.deliveries[i].subId in db.subs
    ensures NumDead(NackActs(env, db, rows)) == |set i | i in rows && NackAct(env, db, i).Dead?|
  {
    hide NackAct;
    if rows != [] {
      var front, x, acts := rows[..|rows| - 1], rows[|rows| - 1], NackActs(env, db, rows);
      NumDeadCounts(env, db, front);
      assert acts[..|acts| - 1] == NackActs(env, db, front);
      var some := set i | i in front && NackAct(env, db, i).Dead?;
      assert forall i :: i in rows <==> i in front || i == x;
      assert (set i | i in rows && NackAct(env, db, i).Dead?) == if NackAct(env, db, x).Dead? then some + {x} else some;
    }
  }

  lemma BackgroundReply(env: Env, db: DB, now: Time, max: nat, rows: seq<Id>, db': DB)
    requires Valid(db) && Next(env, db, Event(now, DeadLetterStep(max, rows)), db')
    ensures |rows| == |NowCompleted(db, db')|
  {
    hide Valid;
    forall i | i in db.deliveries
      ensures i in rows <==> i in NowCompleted(db, db')
    {
      BackgroundLaw(env, db, now, max, rows, db', i);
    }
    assert forall i :: i in rows ==> i in Elements(rows);
    ListsEmpty(rows, NowCompleted(db, db'));
  }

  /** The rows that acks, delays and deletions select and count. */
  lemma AckReply(db: DB, now: Time, ids: set<Id>)
    ensures AckRows(At(db, now), ids) == OpenAmong(db, ids)
  {
  }

  lemma DelayReply(db: DB, now: Time, ids: set<Id>, delay: Duration)
    ensures DelayRows(At(db, now), ids, delay) == MovableAmong(db, ids, delay, now)
  {
  }

  lemma DeleteReply(db: DB, name: string)
    ensures LiveSubsNamed(db, name) == SubsCalled(db, name) && LiveTopicsNamed(db, name) == TopicsCalled(db, name)
  {
  }

  /** The counts of the seeks. */
  lemma SeekToTimeReply(env: Env, db: DB, now: Time, s: Id, time: Time, db': DB)
    requires Next(env, db, Event(now, SeekToTimeStep(s, time)), db')
    ensures s in db.subs
    ensures var seek := SeekToTime(At(db, now), s, time);
      seek.numAcked == |NowCompleted(db, db')| && seek.numDeAcked == |NowOpen(db, db')|
  {
    var pre := At(db, now);
    SeekToTimeSets(pre, s, time);
    assert NowCompleted(db, db') == TimeAcked(pre, s, time);
    assert NowOpen(db, db') == TimeReopened(pre, s, time);
  }

  lemma SeekToSnapshotReply(env: Env, db: DB, now: Time, s: Id, p: Id, db': DB)
    requires Next(env, db, Event(now, SeekToSnapshotStep(s, p)), db')
    ensures s in db.subs && p in db.snapshots
    ensures var seek := SeekToSnapshot(At(db, now), s, db.snapshots[p]);
      seek.numAcked == |NowCompleted(db, db')| && seek.numDeAcked == |NowOpen(db, db')|
  {
    hide Next, SeekToSnapshot, SnapAckedBefore, SnapAckedListed, SnapReopened;
    SeekToSnapshotLaw(env, db, now, s, p, db', 0);
    var pre, snap := At(db, now), db.snapshots[p];
    var before, listed := SnapAckedBefore(pre, s, snap), SnapAckedListed(pre, s, snap);
    SnapshotCounts(pre, s, snap);
    SnapRowsExist(pre, s, snap);
    forall i | i in db.deliveries
      ensures i in NowCompleted(db, db') <==> i in before || i in listed
      ensures i in NowOpen(db, db') <==> i in SnapReopened(pre, s, snap)
    {
      SnapshotReplyRow(env, db, now, s, p, db', i);
    }
    assert NowCompleted(db, db') == before + (listed - before);
    assert NowOpen(db, db') == SnapReopened(pre, s, snap);
  }

  lemma SnapRowsExist(db: DB, s: Id, snap: Snapshot)
    ensures SnapAckedBefore(db, s, snap) + SnapAckedListed(db, s, snap) + SnapReopened(db, s, snap) <= db.deliveries.Keys
  {
  }

  lemma SnapshotReplyRow(env: Env, db: DB, now: Time, s: Id, p: Id, db': DB, i: Id)
    requires Next(env, db, Event(now, SeekToSnapshotStep(s, p)), db') && i in db.deliveries
    ensures s in db.subs && p in db.snapshots
    ensures var pre, snap := At(db, now), db.snapshots[p];
      && (i in NowCompleted(db, db') <==> i in SnapAckedBefore(pre, s, snap) || i in SnapAckedListed(pre, s, snap))
      && (i in NowOpen(db, db') <==> i in SnapReopened(pre, s, snap))
  {
    hide Next;
    SeekToSnapshotLaw(env, db, now, s, p, db', i);
  }

  lemma SnapshotCounts(db: DB, s: Id, snap: Snapshot)
    requires s in db.subs
    ensures var seek, before, listed := SeekToSnapshot(db, s, snap), SnapAckedBefore(db, s, snap), SnapAckedListed(db, s, snap);
      seek.numAcked == |before + (listed - before)| && seek.numDeAcked == |SnapReopened(db, s, snap)|
  {
    hide SnapAckedBefore, SnapAckedListed, SnapReopened, CompleteRows, ReopenRows;
    SeekToSnapshotSets(db, s, snap);
  }

  /** The targets of the fan-out are the receivers there were before the message. */
  lemma PublishReply(env: Env, db: DB, now: Time, t: Id, payload: seq<Byte>, attributes: Attributes, key: string)
    ensures var posted := PublishMessage(At(db, now), t, payload, attributes, key);
      db.nextId in posted.messages && Targets(env, posted, t, db.nextId) == Receivers(env, db, t, attributes)
  {
  }

  // ---- Who is notified ----

  /** What waits for changes of a subscription or topic is called when one is created or deleted, with its id and
      name; and what waits inside the process for publishes to a subscription is called as well. */
  lemma ModifiedAreCalled(env: Env, db: DB, e: Event, db': DB, calls: seq<Notify.Op>, x: Id)
    requires Next(env, db, e, db') && CallsFor(At(db, e.now), e.step, db', calls) && !EachIsAlone(e.step)
    ensures x in db'.subs && (x in db.subs ==> db.subs[x].deletedAt != db'.subs[x].deletedAt) ==>
      && Notify.WakeModifyOp(Notify.OfSubs, false, x, db'.subs[x].name) in calls
      && Notify.WakePublishOp(true, [x]) in calls
    ensures x in db'.topics && (x in db.topics ==> db.topics[x].deletedAt != db'.topics[x].deletedAt) ==>
      Notify.WakeModifyOp(Notify.OfTopics, false, x, db'.topics[x].name) in calls
  {
    hide CallsForSubs, CallsForTopics, Next;
    var pre, step := At(db, e.now), e.step;
    if OnSubs(step) {
      SubsModifiedOnly(env, db, e, db', x);
      if x in db'.subs && (x in db.subs ==> db.subs[x].deletedAt != db'.subs[x].deletedAt) {
        if step.CreateSubscriptionStep? {
          SubIsCalled(db', {db.nextId}, calls, x);
        } else {
          SubIsCalled(pre, if step.DeleteSubscriptionStep? then LiveSubsNamed(pre, step.subName) else step.prune.rows, calls, x);
        }
      }
    } else {
      TopicsModifiedOnly(env, db, e, db', x);
      if x in db'.topics && (x in db.topics ==> db.topics[x].deletedAt != db'.topics[x].deletedAt) {
        if step.CreateTopicStep? {
          TopicIsCalled(db', {db.nextId}, calls, x);
        } else {
          TopicIsCalled(pre, LiveTopicsNamed(pre, step.topicName), calls, x);
        }
      }
    }
  }

  predicate OnSubs(step: Step) {
    step.CreateSubscriptionStep? || step.DeleteSubscriptionStep? || step.DeleteExpiredSubscriptionsStep?
  }

  lemma SubsModifiedOnly(env: Env, db: DB, e: Event, db': DB, x: Id)
    requires Next(env, db, e, db')
    requires e.step.CreateSubscriptionStep? || e.step.DeleteSubscriptionStep? || e.step.DeleteExpiredSubscriptionsStep?
    ensures db'.topics == db.topics
    ensures x in db'.subs && (x in db.subs ==> db.subs[x].deletedAt != db'.subs[x].deletedAt) ==>
      if e.step.CreateSubscriptionStep? then x == db.nextId else
        && x in db.subs && db.subs[x].deletedAt == None && db'.subs[x].name == db.subs[x].name
        && if e.step.DeleteSubscriptionStep? then db.subs[x].name == e.step.subName else x in e.step.prune.rows
  {
    hide *;
    assert e == Event(e.now, e.step);
    match e.step
    case CreateSubscriptionStep(sub) => CreateSubscriptionLaw(env, db, e.now, sub, db');
    case DeleteSubscriptionStep(name) => DeleteSubscriptionLaw(env, db, e.now, name, db');
    case DeleteExpiredSubscriptionsStep(p) => DeleteExpiredLaw(env, db, e.now, p, db');
  }

  lemma TopicsModifiedOnly(env: Env, db: DB, e: Event, db': DB, x: Id)
    requires Next(env, db, e, db') && (e.step.CreateTopicStep? || e.step.DeleteTopicStep? || e.step.DelayStep?)
    ensures db'.subs == db.subs
    ensures x in db'.topics && (x in db.topics ==> db.topics[x].deletedAt != db'.topics[x].deletedAt) ==>
      && !e.step.DelayStep?
      && if e.step.CreateTopicStep? then x == db.nextId else
           && x in db.topics && db.topics[x].deletedAt == None && db.topics[x].name == e.step.topicName
           && db'.topics[x].name == db.topics[x].name
  {
    hide *;
    assert e == Event(e.now, e.step);
    match e.step
    case CreateTopicStep(name) => CreateTopicLaw(env, db, e.now, name, db');
    case DeleteTopicStep(name) => DeleteTopicLaw(env, db, e.now, name, db');
    case DelayStep(ids, delay) => DelayLaw(env, db, e.now, ids, delay, db');
  }
}
