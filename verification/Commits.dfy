/** The calls that the commit hooks of a transaction make, as its loops add to them, and what it means for
    a transaction to have committed. */
module Commits {
  import opened Types
  import opened DeliveryUtils
  import opened Packing
  import opened Backoff
  import opened Actions
  import opened Effects
  import opened StepEffects
  import opened Runs
  import opened Snapshots
  import opened Wakeups
  import Notify

  // ---- The calls of commit hooks ----

  /** `notifyPublish` for one subscription. */
  function WakeOne(s: Id): Notify.Op {
    Notify.WakePublishOp(false, [s])
  }

  function WakeEach(ids: seq<Id>): (calls: seq<Notify.Op>)
    ensures |calls| == |ids| && forall k :: 0 <= k < |ids| ==> calls[k] == WakeOne(ids[k])
  {
    seq(|ids|, k requires 0 <= k < |ids| => WakeOne(ids[k]))
  }

  /** `NotifyModifySubscription` for each of them: its modify listeners, then its own publish listeners. */
  function SubsModified(subs: map<Id, Subscription>, order: seq<Id>): seq<Notify.Op>
    requires forall s :: s in order ==> s in subs
  {
    if order == [] then [] else
      var front, s := order[..|order| - 1], order[|order| - 1];
      SubsModified(subs, front)
        + [Notify.WakeModifyOp(Notify.OfSubs, false, s, subs[s].name), Notify.WakePublishOp(true, [s])]
  }

  /** `NotifyModifyTopic` for each of them. */
  function TopicsModified(topics: map<Id, Topic>, order: seq<Id>): seq<Notify.Op>
    requires forall t :: t in order ==> t in topics
  {
    if order == [] then [] else
      var front, t := order[..|order| - 1], order[|order| - 1];
      TopicsModified(topics, front) + [Notify.WakeModifyOp(Notify.OfTopics, false, t, topics[t].name)]
  }

  /** One call for each of these subscriptions, or several, and none for any other. */
  ghost predicate EachAlone(calls: seq<Notify.Op>, wakes: set<Id>) {
    && (forall c :: c in calls ==> exists s :: s in wakes && c == WakeOne(s))
    && (forall s :: s in wakes ==> WakeOne(s) in calls)
  }

  /** The calls that the hooks of a step make when it has committed: one for each subscription to wake, but
      a single one for all the subscriptions of released deliveries; and for what is created or deleted, its
      modify listeners too. */
  ghost predicate CallsFor(db: DB, step: Step, db': DB, calls: seq<Notify.Op>) {
    match step
    case DelayStep(_, _) => CallsForDelay(Wakes(db, step, db'), calls)
    case DeleteSubscriptionStep(name) => CallsForSubs(db, LiveSubsNamed(db, name), calls)
    case DeleteExpiredSubscriptionsStep(p) => CallsForSubs(db, p.rows, calls)
    case CreateSubscriptionStep(_) => CallsForSubs(db', {db.nextId}, calls)
    case DeleteTopicStep(name) => CallsForTopics(db, LiveTopicsNamed(db, name), calls)
    case CreateTopicStep(_) => CallsForTopics(db', {db.nextId}, calls)
    case _ => EachAlone(calls, Wakes(db, step, db'))
  }

  ghost predicate CallsForDelay(wakes: set<Id>, calls: seq<Notify.Op>) {
    if wakes == {} then calls == [] else exists order :: Lists(order, wakes) && calls == [Notify.WakePublishOp(false, order)]
  }

  ghost predicate CallsForSubs(db: DB, rows: set<Id>, calls: seq<Notify.Op>) {
    rows <= db.subs.Keys && exists order :: Lists(order, rows) && calls == SubsModified(db.subs, order)
  }

  ghost predicate CallsForTopics(db: DB, rows: set<Id>, calls: seq<Notify.Op>) {
    rows <= db.topics.Keys && exists order :: Lists(order, rows) && calls == TopicsModified(db.topics, order)
  }

  /** The hooks registered later wake these subscriptions. */
  ghost predicate Extends(before: seq<Notify.Op>, after: seq<Notify.Op>, more: set<Id>) {
    before <= after && EachAlone(after[|before|..], more)
  }

  lemma ExtendAlone(before: seq<Notify.Op>, after: seq<Notify.Op>, wakes: set<Id>, more: set<Id>)
    requires EachAlone(before, wakes) && Extends(before, after, more)
    ensures EachAlone(after, wakes + more)
  {
    assert after == before + after[|before|..];
  }

  lemma WakeEachAlone(ids: seq<Id>)
    ensures EachAlone(WakeEach(ids), Elements(ids))
  {
    var calls := WakeEach(ids);
    forall c | c in calls ensures exists s :: s in Elements(ids) && c == WakeOne(s) {
      var k :| 0 <= k < |calls| && calls[k] == c;
      assert ids[k] in Elements(ids);
    }
    forall s | s in Elements(ids) ensures WakeOne(s) in calls {
      var k :| 0 <= k < |ids| && ids[k] == s;
      assert calls[k] == WakeOne(s);
    }
  }

  predicate Quiet(step: Step) {
    || step.TouchStep? || step.CreateSnapshotStep? || step.PruneCompletedDeliveriesStep?
    || step.PruneDeletedSubscriptionDeliveriesStep? || step.PruneCompletedMessagesStep?
    || step.PruneDeletedSubscriptionsStep? || step.PruneDeletedTopicsStep?
  }

  /** These steps have no hooks. */
  lemma NobodyCalled(db: DB, step: Step, db': DB)
    requires Quiet(step) && db'.deliveries.Keys <= db.deliveries.Keys
    ensures CallsFor(db, step, db', [])
  {
    NothingAnnounced(db, db');
    assert Wakes(db, step, db') == {};
  }

  lemma NobodyAlone()
    ensures EachAlone([], {})
  {
  }

  /** A subscription that is to be woken is, by a call of its own unless it is one of several whose
      deliveries are released together. */
  lemma CallsCover(env: Env, db: DB, step: Step, db': DB, calls: seq<Notify.Op>, s: Id)
    requires Rooted(db) && Enabled(db, step) && db' == Apply(env, db, step)
    requires CallsFor(db, step, db', calls) && s in Wakes(db, step, db')
    ensures exists c :: (
      && c in calls && c.WakePublishOp? && s in c.subIds
      && (step.DelayStep? || c.subIds == [s])
      && (c.onlyInternal <==> step.CreateSubscriptionStep? || step.DeleteSubscriptionStep? || step.DeleteExpiredSubscriptionsStep?))
  {
    hide Apply, Enabled, Announces, Completes, EachAlone, CallsForSubs, CallsForDelay, CallsForTopics;
    if !EachIsAlone(step) && !step.DelayStep? {
      AnnouncesNothing(env, db, step, db');
    }
    match step
    case DelayStep(_, _) => ReleasedIsCalled(Wakes(db, step, db'), calls, s);
    case DeleteSubscriptionStep(name) => SubIsCalled(db, LiveSubsNamed(db, name), calls, s);
    case DeleteExpiredSubscriptionsStep(p) => SubIsCalled(db, p.rows, calls, s);
    case CreateSubscriptionStep(_) => SubIsCalled(db', {db.nextId}, calls, s);
    case _ => AloneIsCalled(Wakes(db, step, db'), calls, s);
  }

  predicate EachIsAlone(step: Step) {
    !step.DelayStep? && !step.DeleteSubscriptionStep? && !step.DeleteExpiredSubscriptionsStep?
    && !step.CreateSubscriptionStep? && !step.DeleteTopicStep? && !step.CreateTopicStep?
  }

  lemma AnnouncesNothing(env: Env, db: DB, step: Step, db': DB)
    requires Rooted(db) && Enabled(db, step) && db' == Apply(env, db, step) && !EachIsAlone(step)
    ensures Announces(db, db') == {}
  {
    hide Enabled, Pull, Publish, Nack, Batch;
  }

  lemma ReleasedIsCalled(wakes: set<Id>, calls: seq<Notify.Op>, s: Id)
    requires CallsForDelay(wakes, calls) && s in wakes
    ensures exists c :: c in calls && c.WakePublishOp? && s in c.subIds && !c.onlyInternal
  {
    var order :| Lists(order, wakes) && calls == [Notify.WakePublishOp(false, order)];
    assert Notify.WakePublishOp(false, order) in calls;
  }

  lemma AloneIsCalled(wakes: set<Id>, calls: seq<Notify.Op>, s: Id)
    requires EachAlone(calls, wakes) && s in wakes
    ensures WakeOne(s) in calls
  {
  }

  lemma SubIsCalled(db: DB, rows: set<Id>, calls: seq<Notify.Op>, s: Id)
    requires CallsForSubs(db, rows, calls) && s in rows
    ensures s in db.subs && Notify.WakeModifyOp(Notify.OfSubs, false, s, db.subs[s].name) in calls
    ensures Notify.WakePublishOp(true, [s]) in calls
  {
    var order :| Lists(order, rows) && calls == SubsModified(db.subs, order);
    SubsModifiedCall(db.subs, order, s);
  }

  lemma {:induction false} SubsModifiedCall(subs: map<Id, Subscription>, order: seq<Id>, s: Id)
    requires (forall x :: x in order ==> x in subs) && s in order
    ensures Notify.WakeModifyOp(Notify.OfSubs, false, s, subs[s].name) in SubsModified(subs, order)
    ensures Notify.WakePublishOp(true, [s]) in SubsModified(subs, order)
  {
    if order[|order| - 1] != s {
      SubsModifiedCall(subs, order[..|order| - 1], s);
    }
  }

  lemma TopicIsCalled(db: DB, rows: set<Id>, calls: seq<Notify.Op>, t: Id)
    requires CallsForTopics(db, rows, calls) && t in rows
    ensures t in db.topics && Notify.WakeModifyOp(Notify.OfTopics, false, t, db.topics[t].name) in calls
  {
    var order :| Lists(order, rows) && calls == TopicsModified(db.topics, order);
    TopicsModifiedCall(db.topics, order, t);
  }

  lemma {:induction false} TopicsModifiedCall(topics: map<Id, Topic>, order: seq<Id>, t: Id)
    requires (forall x :: x in order ==> x in topics) && t in order
    ensures Notify.WakeModifyOp(Notify.OfTopics, false, t, topics[t].name) in TopicsModified(topics, order)
  {
    if order[|order| - 1] != t {
      TopicsModifiedCall(topics, order[..|order| - 1], t);
    }
  }

  /** What a commit hook may call: listeners of one thing that was modified, or for publishes to
      subscriptions of which none is listed twice, and more than one only when deliveries are released. */
  predicate CallOk(c: Notify.Op, release: bool) {
    c.WakeModifyOp? || (c.WakePublishOp? && Distinct(c.subIds) && (release || |c.subIds| == 1))
  }

  lemma CallsShape(db: DB, step: Step, db': DB, calls: seq<Notify.Op>)
    requires CallsFor(db, step, db', calls)
    ensures forall c :: c in calls ==> CallOk(c, step.DelayStep?)
  {
    hide Wakes;
    match step
    case DeleteSubscriptionStep(name) => SubsShape(db, LiveSubsNamed(db, name), calls);
    case DeleteExpiredSubscriptionsStep(p) => SubsShape(db, p.rows, calls);
    case CreateSubscriptionStep(_) => SubsShape(db', {db.nextId}, calls);
    case DeleteTopicStep(name) => TopicsShape(db, LiveTopicsNamed(db, name), calls);
    case CreateTopicStep(_) => TopicsShape(db', {db.nextId}, calls);
    case _ =>
  }

  lemma SubsShape(db: DB, rows: set<Id>, calls: seq<Notify.Op>)
    requires CallsForSubs(db, rows, calls)
    ensures forall c :: c in calls ==> CallOk(c, false)
  {
    var order :| Lists(order, rows) && calls == SubsModified(db.subs, order);
    SubsModifiedShape(db.subs, order);
  }

  lemma {:induction false} SubsModifiedShape(subs: map<Id, Subscription>, order: seq<Id>)
    requires forall s :: s in order ==> s in subs
    ensures forall c :: c in SubsModified(subs, order) ==> CallOk(c, false)
  {
    if order != [] {
      SubsModifiedShape(subs, order[..|order| - 1]);
    }
  }

  lemma TopicsShape(db: DB, rows: set<Id>, calls: seq<Notify.Op>)
    requires CallsForTopics(db, rows, calls)
    ensures forall c :: c in calls ==> CallOk(c, false)
  {
    var order :| Lists(order, rows) && calls == TopicsModified(db.topics, order);
    TopicsModifiedShape(db.topics, order);
  }

  lemma {:induction false} TopicsModifiedShape(topics: map<Id, Topic>, order: seq<Id>)
    requires forall t :: t in order ==> t in topics
    ensures forall c :: c in TopicsModified(topics, order) ==> CallOk(c, false)
  {
    if order != [] {
      TopicsModifiedShape(topics, order[..|order| - 1]);
    }
  }

  // ---- What a loop has announced ----

  function SubsOf(rows: seq<Delivery>): set<Id> {
    set k | 0 <= k < |rows| :: rows[k].subId
  }

  function RowCalls(rows: seq<Delivery>): (calls: seq<Notify.Op>)
    ensures |calls| == |rows| && forall k :: 0 <= k < |rows| ==> calls[k] == WakeOne(rows[k].subId)
  {
    seq(|rows|, k requires 0 <= k < |rows| => WakeOne(rows[k].subId))
  }

  lemma RowCallsAppend(rows: seq<Delivery>, d: Delivery)
    ensures RowCalls(rows + [d]) == RowCalls(rows) + [WakeOne(d.subId)]
  {
  }

  lemma RowCallsAlone(rows: seq<Delivery>)
    ensures EachAlone(RowCalls(rows), SubsOf(rows))
  {
    var calls := RowCalls(rows);
    forall c | c in calls ensures exists s :: s in SubsOf(rows) && c == WakeOne(s) {
      var k :| 0 <= k < |calls| && calls[k] == c;
      assert rows[k].subId in SubsOf(rows);
    }
    forall s | s in SubsOf(rows) ensures WakeOne(s) in calls {
      var k :| 0 <= k < |rows| && rows[k].subId == s;
      assert calls[k] == WakeOne(s);
    }
  }

  lemma SubsOfAppend(rows: seq<Delivery>, d: Delivery)
    ensures SubsOf(rows + [d]) == SubsOf(rows) + {d.subId}
  {
    var more := rows + [d];
    assert more[|rows|] == d && forall k :: 0 <= k < |rows| ==> more[k] == rows[k];
  }

  /** Announced are the subscriptions of the rows inserted. */
  lemma InsertAnnounces(db: DB, rows: seq<Delivery>)
    requires FreshIds(db)
    ensures Announces(db, Insert(db, rows)) == SubsOf(rows)
  {
    InsertSpec(db, rows);
    var db' := Insert(db, rows);
    forall k | 0 <= k < |rows| ensures rows[k].subId in Announces(db, db') {
      assert db'.deliveries[db.nextId + k] == rows[k];
    }
  }

  function Woken(db: DB, db': DB): set<Id> {
    Announces(db, db') + Completes(db, db')
  }

  function ActWakes(db: DB, act: Act, db': DB): set<Id>
    requires act.id in db.deliveries
  {
    if act.Dead? then Announces(db, db') + {db.deliveries[act.id].subId} else {}
  }

  /** In the middle of a loop over distinct rows, the row whose turn it is has not been touched. */
  lemma NextAct(env: Env, db: DB, acts: seq<Act>, k: nat)
    requires FreshIds(db) && DistinctActs(acts) && AllReady(db, acts) && k < |acts|
    ensures var mid, next := Batch(env, db, acts[..k]), Batch(env, db, acts[..k + 1]);
      && FreshIds(mid)
      && mid == db.(deliveries := mid.deliveries, nextId := mid.nextId)
      && Ready(db, acts[k])
      && acts[k].id in mid.deliveries && mid.deliveries[acts[k].id] == db.deliveries[acts[k].id]
      && Ready(mid, acts[k])
      && next == ApplyAct(env, mid, acts[k])
  {
    var front, mid := acts[..k], Batch(env, db, acts[..k]);
    assert acts[..k + 1][..k] == front;
    assert acts[k] in acts;
    BatchDoes(env, db, front);
    assert !ActsOn(front, acts[k].id);
  }

  /** And the loop has so far woken what its rows call for. */
  lemma NextActWakes(env: Env, db: DB, acts: seq<Act>, k: nat)
    requires FreshIds(db) && DistinctActs(acts) && AllReady(db, acts) && k < |acts|
    requires Ready(db, acts[k]) && (acts[k].Dead? ==> !db.deliveries[acts[k].id].Completed())
    requires acts[k].id in Batch(env, db, acts[..k]).deliveries
    ensures var mid, next := Batch(env, db, acts[..k]), Batch(env, db, acts[..k + 1]);
      Woken(db, next) == Woken(db, mid) + ActWakes(mid, acts[k], next)
  {
    hide BatchEffect, FreshRow, SentBy;
    var front, mid, next := acts[..k], Batch(env, db, acts[..k]), Batch(env, db, acts[..k + 1]);
    NextAct(env, db, acts, k);
    BatchDoes(env, db, front);
    assert !ActsOn(front, acts[k].id);
    BatchGrown(env, db, front, mid);
    BatchStep(env, db, front, acts[k], mid, next);
    StepWakes(db, acts[k], mid, next);
  }

  lemma BatchGrown(env: Env, db: DB, acts: seq<Act>, db': DB)
    requires AllReady(db, acts) && BatchEffect(env, db, acts, db')
    ensures Grown(db, db')
    ensures forall i :: i in db.deliveries ==> db'.deliveries[i].subId == db.deliveries[i].subId
  {
    forall i | i in db.deliveries ensures db'.deliveries[i].subId == db.deliveries[i].subId {
      if ActsOn(acts, i) {
        var act :| act in acts && act.id == i;
        assert ActDone(db, act, db'.deliveries[i]);
      }
    }
  }

  lemma AnnouncesSplit(db: DB, mid: DB, next: DB)
    requires db.deliveries.Keys <= mid.deliveries.Keys <= next.deliveries.Keys
    requires forall i :: i in mid.deliveries ==> next.deliveries[i].subId == mid.deliveries[i].subId
    ensures Announces(db, next) == Announces(db, mid) + Announces(mid, next)
  {
    forall j | j in mid.deliveries && j !in db.deliveries
      ensures mid.deliveries[j].subId in Announces(db, next)
    {
      assert next.deliveries[j].subId == mid.deliveries[j].subId;
    }
  }

  lemma StepWakes(db: DB, act: Act, mid: DB, next: DB)
    requires FreshIds(db) && Grown(db, mid) && Grown(mid, next)
    requires act.id in db.deliveries && mid.deliveries[act.id] == db.deliveries[act.id]
    requires act.Dead? ==> !db.deliveries[act.id].Completed()
    requires ActDone(db, act, next.deliveries[act.id])
    requires !act.Dead? ==> next.nextId == mid.nextId
    requires forall i :: i in mid.deliveries && i != act.id ==> next.deliveries[i] == mid.deliveries[i]
    ensures Woken(db, next) == Woken(db, mid) + ActWakes(mid, act, next)
  {
    AnnouncesSplit(db, mid, next);
    assert Completes(db, next) == Completes(db, mid) + (if act.Dead? then {db.deliveries[act.id].subId} else {});
    assert !act.Dead? ==> Announces(mid, next) == {};
  }

  // ---- Committed transactions ----

  /** The transaction made this step of a run, and its hooks make the calls the step must make. */
  ghost predicate Committed(env: Env, before: DB, e: Event, after: DB, hooks: seq<Notify.Op>) {
    && Valid(after)
    && Next(env, before, e, after)
    && CallsFor(At(before, e.now), e.step, after, hooks)
  }

  lemma Commit(env: Env, before: DB, e: Event, after: DB, hooks: seq<Notify.Op>)
    requires Valid(before) && before.clock <= e.now && Enabled(At(before, e.now), e.step)
    requires after == Apply(env, At(before, e.now), e.step)
    requires CallsFor(At(before, e.now), e.step, after, hooks)
    ensures Committed(env, before, e, after, hooks)
  {
    hide CallsFor, Enabled, Apply, Effect;
    StepKeepsValid(env, before, e, after);
  }

  /** A fan-out makes one row for each target. */
  lemma CreatesCount(env: Env, db: DB, topicId: Id, msgId: Id)
    requires msgId in db.messages
    ensures var rows := Creates(env, db, Rows(env, db, LiveSubs(db, topicId)), msgId);
      SubsOf(rows) == Targets(env, db, topicId, msgId) && |rows| == |Targets(env, db, topicId, msgId)|
  {
    var subs := Rows(env, db, LiveSubs(db, topicId));
    var rows := Creates(env, db, subs, msgId);
    CreatesSpec(env, db, subs, msgId);
    forall s | s in Targets(env, db, topicId, msgId) ensures s in SubsOf(rows) {
      assert s in subs;
    }
    assert SubsOf(rows) == Targets(env, db, topicId, msgId);
    SubsOfCount(rows);
  }

  lemma {:induction false} SubsOfCount(rows: seq<Delivery>)
    requires forall k, l :: 0 <= k < l < |rows| ==> rows[k].subId != rows[l].subId
    ensures |SubsOf(rows)| == |rows|
  {
    if rows != [] {
      var front, d := rows[..|rows| - 1], rows[|rows| - 1];
      SubsOfCount(front);
      SubsOfAppend(front, d);
      assert rows == front + [d];
    }
  }

  lemma NewIds(db: DB)
    requires Valid(db)
    ensures FreshIds(db) && FreshIds(db.(nextId := db.nextId + 1)) && db.nextId !in db.messages
  {
  }

  lemma PublishCalls(db: DB, step: Step, db': DB, calls: seq<Notify.Op>)
    requires step.PublishStep? && EachAlone(calls, Announces(db, db'))
    ensures CallsFor(db, step, db', calls)
  {
    hide EachAlone;
    assert Wakes(db, step, db') == Announces(db, db');
  }

  lemma PublishCommits(env: Env, db: DB, e: Event)
    requires Valid(db) && db.clock <= e.now && e.step.PublishStep? && LiveTopic(db, e.step.topicId)
    ensures var pre, topicId := At(db, e.now), e.step.topicId;
      var posted := PublishMessage(pre, topicId, e.step.payload, e.step.attributes, e.step.orderKey);
      var rows := Creates(env, posted, Rows(env, posted, LiveSubs(posted, topicId)), pre.nextId);
      var after := Insert(posted, rows);
      && Committed(env, db, e, after, RowCalls(rows))
      && |rows| == |Targets(env, posted, topicId, pre.nextId)|
      && pre.nextId !in db.messages
      && pre.nextId in after.messages
      && Targets(env, posted, topicId, pre.nextId) == Targets(env, after, topicId, pre.nextId)
  {
    hide Valid, Committed, Creates, NewRow, CallsFor, Wakes, EachAlone;
    var pre, topicId := At(db, e.now), e.step.topicId;
    var posted := PublishMessage(pre, topicId, e.step.payload, e.step.attributes, e.step.orderKey);
    var rows := Creates(env, posted, Rows(env, posted, LiveSubs(posted, topicId)), pre.nextId);
    NewIds(db);
    InsertSpec(posted, rows);
    InsertAnnounces(posted, rows);
    CreatesCount(env, posted, topicId, pre.nextId);
    assert Announces(pre, Insert(posted, rows)) == Announces(posted, Insert(posted, rows));
    RowCallsAlone(rows);
    PublishCalls(pre, e.step, Insert(posted, rows), RowCalls(rows));
    Commit(env, db, e, Insert(posted, rows), RowCalls(rows));
  }

  // ---- The loops ----

  predicate OpenActs(db: DB, acts: seq<Act>) {
    forall k :: 0 <= k < |acts| ==> Ready(db, acts[k]) && (acts[k].Dead? ==> !db.deliveries[acts[k].id].Completed())
  }

  /** One round of a loop over distinct open rows: the row is as the query found it, and the round
      moves the state and the hooks from one prefix of the batch to the next. */
  lemma Round(env: Env, db: DB, acts: seq<Act>, k: nat)
    requires FreshIds(db) && DistinctActs(acts) && OpenActs(db, acts) && k < |acts|
    ensures var mid, next := Batch(env, db, acts[..k]), Batch(env, db, acts[..k + 1]);
      && FreshIds(mid)
      && mid == db.(deliveries := mid.deliveries, nextId := mid.nextId)
      && Ready(db, acts[k]) && Ready(mid, acts[k]) && mid.deliveries[acts[k].id] == db.deliveries[acts[k].id]
      && next == ApplyAct(env, mid, acts[k])
      && Woken(db, next) == Woken(db, mid) + ActWakes(mid, acts[k], next)
  {
    hide Batch, Woken, ActWakes, ApplyAct;
    NextAct(env, db, acts, k);
    NextActWakes(env, db, acts, k);
  }

  lemma LoopStarts(env: Env, db: DB, acts: seq<Act>)
    ensures Batch(env, db, acts[..0]) == db && Woken(db, db) == {}
  {
  }

  lemma NackIsOpen(env: Env, db: DB, ids: set<Id>, rows: seq<Id>)
    requires Valid(db) && Distinct(rows) && Elements(rows) == NackRows(db, ids)
    ensures forall i :: i in rows ==> i in db.deliveries && db.deliveries[i].subId in db.subs
    ensures var acts := NackActs(env, db, rows);
      FreshIds(db) && DistinctActs(acts) && OpenActs(db, acts)
  {
    assert forall i :: i in rows ==> i in Elements(rows);
    assert forall k :: 0 <= k < |rows| ==> rows[k] in rows;
  }

  lemma NackCommits(env: Env, db: DB, now: Time, ids: set<Id>, rows: seq<Id>, calls: seq<Notify.Op>)
    requires Valid(db) && db.clock <= now && Distinct(rows) && Elements(rows) == NackRows(At(db, now), ids)
    requires forall i :: i in rows ==> i in db.deliveries && db.deliveries[i].subId in db.subs
    requires EachAlone(calls, Woken(At(db, now), Nack(env, At(db, now), rows)))
    ensures Committed(env, db, Event(now, NackStep(ids, rows)), Nack(env, At(db, now), rows), calls)
  {
    hide Valid, Committed, Nack, EachAlone;
    Commit(env, db, Event(now, NackStep(ids, rows)), Nack(env, At(db, now), rows), calls);
  }

  lemma DeadsAreOpen(db: DB, rows: seq<Id>)
    requires Valid(db) && Distinct(rows)
    requires forall i :: i in rows ==>
      i in db.deliveries && !db.deliveries[i].Completed() && db.subs[db.deliveries[i].subId].HasFullDeadLetterConfig()
    ensures FreshIds(db) && DistinctActs(Deads(rows)) && OpenActs(db, Deads(rows))
  {
    assert forall k :: 0 <= k < |rows| ==> rows[k] in rows;
  }

  lemma DeadLettersCommit(env: Env, db: DB, now: Time, max: nat, rows: seq<Id>, calls: seq<Notify.Op>)
    requires Valid(db) && db.clock <= now && Distinct(rows) && Limited(Elements(rows), DeadLetterRows(At(db, now)), max)
    requires EachAlone(calls, Woken(At(db, now), Batch(env, At(db, now), Deads(rows))))
    ensures Committed(env, db, Event(now, DeadLetterStep(max, rows)), Batch(env, At(db, now), Deads(rows)), calls)
  {
    hide Valid, Committed, Batch, EachAlone;
    Commit(env, db, Event(now, DeadLetterStep(max, rows)), Batch(env, At(db, now), Deads(rows)), calls);
  }

  // ---- The pull ----

  lemma NothingDue(db: DB, subId: Id, max: nat)
    requires subId in db.subs && FirstRows(db, [], DueRows(db, subId), max) && max > 0
    ensures DueRows(db, subId) == {}
  {
    hide DueRows;
    assert forall i :: i in DueRows(db, subId) ==> i !in [];
  }

  lemma RowsLoaded(db: DB, subId: Id, limits: PullLimits, rows: seq<Id>)
    requires Valid(db) && QueryRows(db, subId, limits, rows)
    ensures Loaded(db, rows) && Distinct(rows) && |rows| <= limits.maxMessages
    ensures forall i :: i in rows ==> i in db.deliveries && db.deliveries[i].subId == subId && !db.deliveries[i].Completed()
  {
    assert forall i :: i in rows ==> i in DueRows(db, subId);
  }

  lemma ChoiceIsOpen(db: DB, subId: Id, limits: PullLimits, rows: seq<Id>, n: nat)
    requires Valid(db) && QueryRows(db, subId, limits, rows) && n <= |rows| && Loaded(db, rows)
    ensures var acts := Deads(Pack(db, db.subs[subId], rows, n, limits).dead);
      FreshIds(db) && DistinctActs(acts) && OpenActs(RefreshSub(db, subId), acts)
  {
    hide FirstRows, Linked, Referenced;
    RowsLoaded(db, subId, limits, rows);
    PackChooses(db, db.subs[subId], rows, n, limits);
    var dead := Pack(db, db.subs[subId], rows, n, limits).dead;
    assert forall k :: 0 <= k < |dead| ==> dead[k] in dead && dead[k] in rows;
  }

  /** A round of the packing loop that dead-letters its row. */
  lemma DeadRound(env: Env, db: DB, subId: Id, limits: PullLimits, rows: seq<Id>, k: nat)
    requires Valid(db) && QueryRows(db, subId, limits, rows) && k < |rows| && Loaded(db, rows)
    requires var sub := db.subs[subId];
      Pack(db, sub, rows, k + 1, limits).dead == Pack(db, sub, rows, k, limits).dead + [rows[k]]
    ensures var sub, pre, act := db.subs[subId], RefreshSub(db, subId), Dead(rows[k]);
      var mid := Batch(env, pre, Deads(Pack(db, sub, rows, k, limits).dead));
      var next := Batch(env, pre, Deads(Pack(db, sub, rows, k + 1, limits).dead));
      && FreshIds(mid)
      && mid == pre.(deliveries := mid.deliveries, nextId := mid.nextId)
      && Ready(pre, act) && Ready(mid, act) && mid.deliveries[act.id] == db.deliveries[act.id]
      && db.deliveries[act.id].subId == subId
      && next == ApplyAct(env, mid, act)
      && Woken(pre, next) == Woken(pre, mid) + ActWakes(mid, act, next)
  {
    hide Batch, Woken, ActWakes, ApplyAct, Pack, OpenActs, DistinctActs, FirstRows, Valid, DueRows;
    var sub, pre := db.subs[subId], RefreshSub(db, subId);
    var dead, more := Pack(db, sub, rows, k, limits).dead, Pack(db, sub, rows, k + 1, limits).dead;
    ChoiceIsOpen(db, subId, limits, rows, k + 1);
    RowsLoaded(db, subId, limits, rows);
    assert rows[k] in rows;
    var acts := Deads(more);
    assert acts[..|dead|] == Deads(dead) && acts[..|dead| + 1] == acts && acts[|dead|] == Dead(rows[k]);
    Round(env, pre, acts, |dead|);
  }

  /** Dead letters leave the rows that are handed out alone. */
  lemma TakenUntouched(env: Env, db: DB, subId: Id, limits: PullLimits, rows: seq<Id>)
    requires Valid(db) && QueryRows(db, subId, limits, rows) && Loaded(db, rows)
    ensures var p := Pack(db, db.subs[subId], rows, |rows|, limits);
      var mid := Batch(env, RefreshSub(db, subId), Deads(p.dead));
      && Distinct(p.taken)
      && forall i :: i in p.taken ==> i in db.deliveries && i in mid.deliveries && mid.deliveries[i] == db.deliveries[i]
  {
    hide Pack, Batch, MayHandOut, MayComplete, FirstRows, FreshRow, SentBy;
    var step := PullStep(subId, limits, rows);
    PullChoice(db, step);
    PullDead(env, db, step);
    var p := Choice(db, step);
    var acts := Deads(p.dead);
    forall i | i in p.taken ensures !ActsOn(acts, i) {
      forall a | a in acts ensures a.id != i {
        var k :| 0 <= k < |acts| && acts[k] == a;
        assert p.dead[k] in p.dead;
      }
    }
  }

  lemma HandOutNext(env: Env, db: DB, sub: Subscription, ids: set<Id>, i: Id)
    requires i in db.deliveries && i !in ids
    ensures i in HandOut(env, db, sub, ids).deliveries && HandOut(env, db, sub, ids).deliveries[i] == db.deliveries[i]
    ensures var before := HandOut(env, db, sub, ids);
      HandOut(env, db, sub, ids + {i}) ==
        before.(deliveries := before.deliveries[i := HandedOut(env, db, sub, db.deliveries[i])])
  {
    hide Lease, NextDelayFor;
    var before := HandOut(env, db, sub, ids);
    assert HandOut(env, db, sub, ids + {i}).deliveries ==
      before.deliveries[i := HandedOut(env, db, sub, db.deliveries[i])];
  }

  lemma HandOutNone(env: Env, db: DB, sub: Subscription)
    ensures HandOut(env, db, sub, Elements([])) == db
  {
    assert HandOut(env, db, sub, {}).deliveries == db.deliveries;
  }

  /** Handing out wakes nobody. */
  lemma HandOutWakes(env: Env, db: DB, subId: Id, mid: DB, sub: Subscription, taken: set<Id>)
    requires subId in db.subs
    ensures Woken(db, HandOut(env, mid, sub, taken)) == Woken(RefreshSub(db, subId), mid)
  {
    hide Lease, NextDelayFor;
    var pre, after := RefreshSub(db, subId), HandOut(env, mid, sub, taken);
    assert Announces(db, after) == Announces(pre, mid);
    assert Completes(db, after) == Completes(pre, mid);
  }

  lemma PullCommits(env: Env, db: DB, now: Time, subId: Id, limits: PullLimits, rows: seq<Id>, calls: seq<Notify.Op>)
    requires Valid(db) && db.clock <= now && limits.maxMessages > 0 && limits.maxBytes > 0
    requires QueryRows(At(db, now), subId, limits, rows) && Loaded(At(db, now), rows)
    requires EachAlone(calls, Woken(At(db, now), Pull(env, At(db, now), subId, limits, rows)))
    ensures Committed(env, db, Event(now, PullStep(subId, limits, rows)), Pull(env, At(db, now), subId, limits, rows), calls)
  {
    hide Valid, Committed, Pull, FirstRows, Pack, EachAlone;
    Commit(env, db, Event(now, PullStep(subId, limits, rows)), Pull(env, At(db, now), subId, limits, rows), calls);
  }

  // ---- Bulk updates ----

  lemma NothingAnnounced(db: DB, db': DB)
    requires db'.deliveries.Keys <= db.deliveries.Keys
    ensures Announces(db, db') == {}
  {
  }

  function SubIdsOf(db: DB, rows: set<Id>): set<Id> {
    set i | i in rows && i in db.deliveries :: db.deliveries[i].subId
  }

  lemma AckWakes(db: DB, ids: set<Id>)
    ensures Woken(db, CompleteRows(db, AckRows(db, ids))) == SubIdsOf(db, AckRows(db, ids))
  {
    var db' := CompleteRows(db, AckRows(db, ids));
    NothingAnnounced(db, db');
    assert Completes(db, db') == SubIdsOf(db, AckRows(db, ids));
  }

  /** A seek whose counts are zero has changed nothing, and the other way around. */
  lemma NoChange(db: DB, db': DB)
    requires db'.deliveries.Keys == db.deliveries.Keys
    ensures |Changed(db, db')| == 0 <==> db'.deliveries == db.deliveries
  {
    if |Changed(db, db')| == 0 {
      forall i | i in db.deliveries ensures db'.deliveries[i] == db.deliveries[i] {
        assert i !in Changed(db, db');
      }
    } else {
      var i :| i in Changed(db, db');
    }
  }

  lemma SeekWakes(db: DB, step: Step, db': DB)
    requires SeekStep(step) && db'.deliveries.Keys <= db.deliveries.Keys
    ensures Wakes(db, step, db') == if db'.deliveries != db.deliveries then {step.subId} else {}
  {
    NothingAnnounced(db, db');
  }

  lemma AckCommits(env: Env, db: DB, now: Time, ids: set<Id>, calls: seq<Notify.Op>)
    requires Valid(db) && db.clock <= now && EachAlone(calls, SubIdsOf(At(db, now), AckRows(At(db, now), ids)))
    ensures Committed(env, db, Event(now, AckStep(ids)), CompleteRows(At(db, now), AckRows(At(db, now), ids)), calls)
  {
    hide Valid, Committed, Woken, AckRows, CompleteRows, EachAlone;
    var pre := At(db, now);
    AckWakes(pre, ids);
    WokenByAck(pre, ids, CompleteRows(pre, AckRows(pre, ids)));
    Commit(env, db, Event(now, AckStep(ids)), CompleteRows(pre, AckRows(pre, ids)), calls);
  }

  lemma WokenByAck(db: DB, ids: set<Id>, db': DB)
    ensures Wakes(db, AckStep(ids), db') == Woken(db, db')
  {
  }

  function Released(db: DB, ids: set<Id>, delay: Duration): set<Id> {
    if delay <= 0 then SubIdsOf(db, DelayRows(db, ids, delay)) else {}
  }

  lemma DelayCommits(env: Env, db: DB, now: Time, ids: set<Id>, delay: Duration, calls: seq<Notify.Op>)
    requires Valid(db) && db.clock <= now && CallsForDelay(Released(At(db, now), ids, delay), calls)
    ensures Committed(env, db, Event(now, DelayStep(ids, delay)), DelayDeliveries(At(db, now), ids, delay), calls)
  {
    hide Valid, Committed, CallsForDelay;
    var pre := At(db, now);
    NothingAnnounced(pre, DelayDeliveries(pre, ids, delay));
    assert Wakes(pre, DelayStep(ids, delay), DelayDeliveries(pre, ids, delay)) == Released(pre, ids, delay);
    Commit(env, db, Event(now, DelayStep(ids, delay)), DelayDeliveries(pre, ids, delay), calls);
  }

  lemma UnackedExist(db: DB, subId: Id)
    ensures UnackedRows(db, subId) <= db.deliveries.Keys
  {
  }

  lemma SnapshotCommits(env: Env, db: DB, now: Time, name: string, subId: Id)
    requires Valid(db) && db.clock <= now && LiveSub(db, subId)
    requires forall p :: p in db.snapshots ==> db.snapshots[p].name != name
    ensures db.nextId !in db.snapshots
    ensures Committed(env, db, Event(now, CreateSnapshotStep(name, subId)), CreateSnapshot(At(db, now), name, subId), [])
  {
    hide Committed, TakeSnapshot, CallsFor;
    var pre := At(db, now);
    NobodyCalled(pre, CreateSnapshotStep(name, subId), CreateSnapshot(pre, name, subId));
    Commit(env, db, Event(now, CreateSnapshotStep(name, subId)), CreateSnapshot(pre, name, subId), []);
  }

  /** A snapshot that lists no messages has nothing to ack from its list. */
  lemma NoneListed(db: DB, subId: Id, snap: Snapshot)
    requires |snap.ackedMessageIds| == 0
    ensures SnapAckedListed(db, subId, snap) == {} && CompleteRows(db, {}) == db
  {
    NothingToDo(db, 0);
  }

  lemma SeekHooks(db: DB, step: Step, seek: Seek)
    requires SeekStep(step) && seek.db.deliveries.Keys == db.deliveries.Keys
    requires seek.numAcked + seek.numDeAcked == |Changed(db, seek.db)|
    ensures Wakes(db, step, seek.db) == if seek.numAcked != 0 || seek.numDeAcked != 0 then {step.subId} else {}
  {
    hide Wakes;
    NoChange(db, seek.db);
    SeekWakes(db, step, seek.db);
  }

  lemma SeekCalled(subId: Id)
    ensures EachAlone([WakeOne(subId)], {subId}) && EachAlone([], {})
  {
    assert subId in {subId};
    assert WakeOne(subId) in [WakeOne(subId)];
  }

  lemma SeekKeys(db: DB, subId: Id, snap: Snapshot)
    requires subId in db.subs
    ensures SeekToSnapshot(db, subId, snap).db.deliveries.Keys == db.deliveries.Keys
  {
  }

  lemma SeekToTimeCommits(env: Env, db: DB, now: Time, subId: Id, time: Time)
    requires Valid(db) && db.clock <= now && LiveSub(db, subId)
    ensures var seek := SeekToTime(At(db, now), subId, time);
      Committed(env, db, Event(now, SeekToTimeStep(subId, time)), seek.db,
                if seek.numAcked != 0 || seek.numDeAcked != 0 then [WakeOne(subId)] else [])
  {
    hide Valid, Committed, TimeAcked, TimeReopened, Wakes, EachAlone;
    var pre, step := At(db, now), SeekToTimeStep(subId, time);
    var seek := SeekToTime(pre, subId, time);
    SeekToTimeCounts(pre, subId, time);
    SeekHooks(pre, step, seek);
    SeekCalled(subId);
    Commit(env, db, Event(now, step), seek.db, if seek.numAcked != 0 || seek.numDeAcked != 0 then [WakeOne(subId)] else []);
  }

  lemma SeekToSnapshotCommits(env: Env, db: DB, now: Time, subId: Id, snapId: Id)
    requires Valid(db) && db.clock <= now && LiveSub(db, subId) && snapId in db.snapshots
    ensures var seek := SeekToSnapshot(At(db, now), subId, db.snapshots[snapId]);
      Committed(env, db, Event(now, SeekToSnapshotStep(subId, snapId)), seek.db,
                if seek.numAcked != 0 || seek.numDeAcked != 0 then [WakeOne(subId)] else [])
  {
    hide Valid, Committed, SnapAckedBefore, SnapAckedListed, SnapReopened, SeekToSnapshot, Wakes, Changed, EachAlone;
    var pre, step, snap := At(db, now), SeekToSnapshotStep(subId, snapId), db.snapshots[snapId];
    var seek := SeekToSnapshot(pre, subId, snap);
    SeekKeys(pre, subId, snap);
    SeekToSnapshotCounts(pre, subId, snap);
    SeekHooks(pre, step, seek);
    SeekCalled(subId);
    Commit(env, db, Event(now, step), seek.db, if seek.numAcked != 0 || seek.numDeAcked != 0 then [WakeOne(subId)] else []);
  }

  // ---- Deleting and pruning ----

  lemma {:induction false} ListsEmpty(q: seq<Id>, s: set<Id>)
    requires Lists(q, s)
    ensures |q| == |s| && Elements(q) == s
  {
    if q == [] {
      assert s == {};
    } else {
      var front, x := q[..|q| - 1], q[|q| - 1];
      assert forall y :: y in q <==> y in front || y == x;
      ListsEmpty(front, s - {x});
    }
  }

  lemma DeleteSubCommits(env: Env, db: DB, now: Time, name: string, calls: seq<Notify.Op>)
    requires Valid(db) && db.clock <= now && LiveSubsNamed(db, name) != {}
    requires CallsForSubs(At(db, now), LiveSubsNamed(db, name), calls)
    ensures Committed(env, db, Event(now, DeleteSubscriptionStep(name)),
                      DeleteSubs(At(db, now), LiveSubsNamed(db, name)), calls)
  {
    hide Valid, Committed, CallsForSubs;
    var pre := At(db, now);
    assert LiveSubsNamed(pre, name) == LiveSubsNamed(db, name);
    Commit(env, db, Event(now, DeleteSubscriptionStep(name)), DeleteSubs(pre, LiveSubsNamed(pre, name)), calls);
  }

  lemma NamedExist(db: DB, name: string)
    ensures LiveSubsNamed(db, name) <= db.subs.Keys && LiveTopicsNamed(db, name) <= db.topics.Keys
  {
  }

  lemma ExpiredExist(db: DB, rows: set<Id>)
    requires rows <= ExpiredSubs(db)
    ensures rows <= db.subs.Keys
  {
  }

  lemma DeleteExpiredCommits(env: Env, db: DB, now: Time, p: Prune, calls: seq<Notify.Op>)
    requires Valid(db) && db.clock <= now && Limited(p.rows, ExpiredSubs(At(db, now)), p.maxDelete)
    requires CallsForSubs(At(db, now), p.rows, calls)
    ensures Committed(env, db, Event(now, DeleteExpiredSubscriptionsStep(p)), DeleteSubs(At(db, now), p.rows), calls)
  {
    hide Valid, Committed, ExpiredSubs, Limited, CallsForSubs;
    Commit(env, db, Event(now, DeleteExpiredSubscriptionsStep(p)), DeleteSubs(At(db, now), p.rows), calls);
  }

  lemma DeleteTopicCommits(env: Env, db: DB, now: Time, name: string, calls: seq<Notify.Op>)
    requires Valid(db) && db.clock <= now && LiveTopicsNamed(db, name) != {}
    requires CallsForTopics(At(db, now), LiveTopicsNamed(db, name), calls)
    ensures Committed(env, db, Event(now, DeleteTopicStep(name)), DeleteTopics(At(db, now), LiveTopicsNamed(db, name)), calls)
  {
    hide Valid, Committed, CallsForTopics;
    var pre := At(db, now);
    assert LiveTopicsNamed(pre, name) == LiveTopicsNamed(db, name);
    Commit(env, db, Event(now, DeleteTopicStep(name)), DeleteTopics(pre, LiveTopicsNamed(pre, name)), calls);
  }

  /** The two prunes of deliveries that wake nobody. */
  lemma PruneCommits(env: Env, db: DB, e: Event, rows: set<Id>)
    requires Valid(db) && db.clock <= e.now && Enabled(At(db, e.now), e.step)
    requires e.step.PruneCompletedDeliveriesStep? || e.step.PruneDeletedSubscriptionDeliveriesStep?
    requires rows == e.step.prune.rows
    ensures Committed(env, db, e, RemoveDeliveries(At(db, e.now), rows), [])
  {
    hide CallsFor, Valid, Committed, Enabled;
    NobodyCalled(At(db, e.now), e.step, RemoveDeliveries(At(db, e.now), rows));
    Commit(env, db, e, RemoveDeliveries(At(db, e.now), rows), []);
  }

  /** Ordered subscriptions of the rows. */
  function OrderedSubs(db: DB, rows: set<Id>): set<Id> {
    set i | i in rows && i in db.deliveries && db.deliveries[i].subId in db.subs
      && db.subs[db.deliveries[i].subId].ordered :: db.deliveries[i].subId
  }

  lemma PruneExpiredCommits(env: Env, db: DB, now: Time, p: Prune, calls: seq<Notify.Op>)
    requires Valid(db) && db.clock <= now && Limited(p.rows, ExpiredRows(At(db, now)), p.maxDelete)
    requires EachAlone(calls, OrderedSubs(At(db, now), p.rows))
    ensures Committed(env, db, Event(now, PruneExpiredDeliveriesStep(p)), RemoveDeliveries(At(db, now), p.rows), calls)
  {
    hide Valid, Committed, ExpiredRows, Limited, EachAlone;
    NothingAnnounced(At(db, now), RemoveDeliveries(At(db, now), p.rows));
    assert Wakes(At(db, now), PruneExpiredDeliveriesStep(p), RemoveDeliveries(At(db, now), p.rows)) == OrderedSubs(At(db, now), p.rows);
    Commit(env, db, Event(now, PruneExpiredDeliveriesStep(p)), RemoveDeliveries(At(db, now), p.rows), calls);
  }

  lemma PruneMessagesCommits(env: Env, db: DB, now: Time, p: Prune)
    requires Valid(db) && db.clock <= now && Limited(p.rows, UnusedMessages(At(db, now), p.minAge), p.maxDelete)
    ensures Committed(env, db, Event(now, PruneCompletedMessagesStep(p)), RemoveMessages(At(db, now), p.rows), [])
  {
    hide CallsFor, Valid, Committed, UnusedMessages, Limited;
    NobodyCalled(At(db, now), PruneCompletedMessagesStep(p), RemoveMessages(At(db, now), p.rows));
    Commit(env, db, Event(now, PruneCompletedMessagesStep(p)), RemoveMessages(At(db, now), p.rows), []);
  }

  lemma PruneSubsCommits(env: Env, db: DB, now: Time, p: Prune)
    requires Valid(db) && db.clock <= now && Limited(p.rows, DrainedSubs(At(db, now), p.minAge), p.maxDelete)
    ensures Committed(env, db, Event(now, PruneDeletedSubscriptionsStep(p)), RemoveSubs(At(db, now), p.rows), [])
  {
    hide CallsFor, Valid, Committed, DrainedSubs, Limited;
    NobodyCalled(At(db, now), PruneDeletedSubscriptionsStep(p), RemoveSubs(At(db, now), p.rows));
    Commit(env, db, Event(now, PruneDeletedSubscriptionsStep(p)), RemoveSubs(At(db, now), p.rows), []);
  }

  lemma PruneTopicsCommits(env: Env, db: DB, now: Time, p: Prune)
    requires Valid(db) && db.clock <= now && Limited(p.rows, DrainedTopics(At(db, now), p.minAge), p.maxDelete)
    requires Unreferenced(At(db, now), p.rows)
    ensures Committed(env, db, Event(now, PruneDeletedTopicsStep(p)), RemoveTopics(At(db, now), p.rows), [])
  {
    hide CallsFor, Valid, Committed, DrainedTopics, Limited;
    NobodyCalled(At(db, now), PruneDeletedTopicsStep(p), RemoveTopics(At(db, now), p.rows));
    Commit(env, db, Event(now, PruneDeletedTopicsStep(p)), RemoveTopics(At(db, now), p.rows), []);
  }
}
