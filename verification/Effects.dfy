/** What one step can do to each row, proved once per action; the invariants over runs are
    proved from these effects. */
module Effects {
  import opened Types
  import opened DeliveryUtils
  import opened Packing
  import opened Backoff
  import opened Actions

  // ---- The state invariant: references and ids ----

  /** `notBefore` stays within the subscription and points to an earlier row. */
  predicate Linked(db: DB) {
    forall i :: i in db.deliveries && db.deliveries[i].notBefore.Some? ==>
      var p := db.deliveries[i].notBefore.value;
      p < i && p in db.deliveries && db.deliveries[p].subId == db.deliveries[i].subId
  }

  predicate Referenced(db: DB) {
    && (forall s :: s in db.subs ==> db.subs[s].topicId in db.topics)
    && (forall s :: s in db.subs && db.subs[s].deadLetterTopicId.Some? ==> db.subs[s].deadLetterTopicId.value in db.topics)
    && (forall m :: m in db.messages ==> db.messages[m].topicId in db.topics)
    && (forall p :: p in db.snapshots ==> db.snapshots[p].topicId in db.topics)
  }

  predicate Numbered(db: DB) {
    && FreshIds(db)
    && (forall m :: m in db.messages ==> m < db.nextId)
    && (forall s :: s in db.subs ==> s < db.nextId)
    && (forall t :: t in db.topics ==> t < db.nextId)
    && (forall p :: p in db.snapshots ==> p < db.nextId)
  }

  predicate Valid(db: DB) {
    Rooted(db) && Linked(db) && Referenced(db) && Numbered(db)
  }

  // ---- Rows of the deliveries table ----

  /** Steps that complete row `i`. */
  predicate MayComplete(db: DB, step: Step, i: Id)
    requires i in db.deliveries && db.deliveries[i].subId in db.subs
  {
    var d := db.deliveries[i];
    var exhausted := db.subs[d.subId].Exhausted(d.attempts);
    && !d.Completed()
    && (|| (step.AckStep? && i in step.ids)
        || (step.NackStep? && i in step.ids && d.Pending(db.clock) && exhausted)
        || (step.PullStep? && step.subId == d.subId && i in DueRows(db, d.subId) && exhausted)
        || (step.DeadLetterStep? && i in DeadLetterRows(db))
        || ((step.SeekToTimeStep? || step.SeekToSnapshotStep?) && step.subId == d.subId))
  }

  /** Steps that move the next attempt of row `i` to `at`. */
  predicate MayMove(env: Env, db: DB, step: Step, i: Id, at: Time)
    requires i in db.deliveries && db.deliveries[i].subId in db.subs
  {
    var d := db.deliveries[i];
    && !d.Completed()
    && (|| (step.NackStep? && i in step.ids && d.Pending(db.clock) && !db.subs[d.subId].Exhausted(d.attempts)
            && at == db.clock + Lease(env, d.subId, db.subs[d.subId], d.attempts))
        || (step.DelayStep? && i in step.ids && at == db.clock + step.delay && (step.delay > 0 ==> d.attemptAt < at)))
  }

  predicate MayHandOut(db: DB, step: Step, i: Id)
    requires i in db.deliveries && db.deliveries[i].subId in db.subs
  {
    var d := db.deliveries[i];
    && step.PullStep?
    && step.subId == d.subId
    && i in step.rows
    && i in DueRows(db, d.subId)
    && db.subs[d.subId].Live()
    && !db.subs[d.subId].Exhausted(d.attempts)
  }

  predicate MayReopen(db: DB, step: Step, i: Id)
    requires i in db.deliveries
  {
    && db.deliveries[i].Completed()
    && (step.SeekToTimeStep? || step.SeekToSnapshotStep?)
    && step.subId == db.deliveries[i].subId
  }

  /** What became of a row, leaving aside its link. */
  predicate RowChange(env: Env, db: DB, step: Step, i: Id, d': Delivery)
    requires i in db.deliveries && db.deliveries[i].subId in db.subs
  {
    var d := db.deliveries[i];
    var sub := db.subs[d.subId];
    || d' == d
    || (MayComplete(db, step, i) && d' == d.(completedAt := Some(db.clock)))
    || (MayMove(env, db, step, i, d'.attemptAt) && d' == d.(attemptAt := d'.attemptAt))
    || (MayHandOut(db, step, i) && d' == HandedOut(env, db, sub, d))
    || (MayReopen(db, step, i) && d' == Reopened(d, db.clock, sub.messageTTL))
  }

  /** A link is cut exactly when the row it points to is deleted. */
  predicate LinkKept(d: Delivery, d': Delivery, db': DB) {
    d'.notBefore == if d.notBefore.Some? && d.notBefore.value !in db'.deliveries then None else d.notBefore
  }

  predicate RowStep(env: Env, db: DB, step: Step, db': DB, i: Id)
    requires i in db.deliveries && db.deliveries[i].subId in db.subs && i in db'.deliveries
  {
    && LinkKept(db.deliveries[i], db'.deliveries[i], db')
    && RowChange(env, db, step, i, db'.deliveries[i].(notBefore := db.deliveries[i].notBefore))
  }

  /** A row never changes its message, its subscription or its publish time. */
  lemma RowKeeps(env: Env, db: DB, step: Step, db': DB, i: Id)
    requires i in db.deliveries && db.deliveries[i].subId in db.subs && i in db'.deliveries
    requires RowStep(env, db, step, db', i)
    ensures db'.deliveries[i].messageId == db.deliveries[i].messageId
    ensures db'.deliveries[i].subId == db.deliveries[i].subId
    ensures db'.deliveries[i].publishedAt == db.deliveries[i].publishedAt
    ensures db'.deliveries[i].notBefore ==
      if db.deliveries[i].notBefore.Some? && db.deliveries[i].notBefore.value !in db'.deliveries then None
      else db.deliveries[i].notBefore
  {
  }

  /** A row that a step has added: made at this time for a live subscription whose filter lets the
      message through, and linked, if at all, to an earlier row of that subscription. */
  predicate FreshRow(env: Env, db: DB, db': DB, j: Id)
    requires j in db'.deliveries
  {
    var d := db'.deliveries[j];
    && db.nextId <= j < db'.nextId
    && d.subId in db.subs && db.subs[d.subId].Live()
    && d.messageId in db'.messages
    && Matches(env, db.subs[d.subId], db'.messages[d.messageId])
    && d == Delivery(d.messageId, d.subId, db.clock, db.clock + db.subs[d.subId].deliveryDelay, None, 0, None,
                     db.clock + db.subs[d.subId].messageTTL, d.notBefore)
    && (d.notBefore.Some? ==>
          d.notBefore.value < j && d.notBefore.value in db'.deliveries
          && db'.deliveries[d.notBefore.value].subId == d.subId)
  }

  /** Where a new row came from: the message just published to its subscription's topic, or a row
      dead-lettered to that topic by this step. */
  ghost predicate Origin(db: DB, step: Step, d: Delivery)
    requires d.subId in db.subs && Rooted(db)
  {
    || (step.PublishStep? && d.messageId == db.nextId && db.subs[d.subId].topicId == step.topicId)
    || (exists i :: i in db.deliveries && DeadLettered(db, step, i, d))
  }

  predicate DeadLettered(db: DB, step: Step, i: Id, d: Delivery)
    requires i in db.deliveries && d.subId in db.subs && db.deliveries[i].subId in db.subs
  {
    && !step.AckStep? && !step.SeekToTimeStep? && !step.SeekToSnapshotStep?
    && MayComplete(db, step, i)
    && d.messageId == db.deliveries[i].messageId
    && db.subs[db.deliveries[i].subId].deadLetterTopicId == Some(db.subs[d.subId].topicId)
  }

  /** Only prunes remove rows, and only these. */
  predicate MayVanish(db: DB, step: Step, i: Id)
    requires i in db.deliveries && db.deliveries[i].subId in db.subs
  {
    || (step.PruneCompletedDeliveriesStep? && db.deliveries[i].Completed())
    || (step.PruneExpiredDeliveriesStep? && db.deliveries[i].expiresAt < db.clock)
    || (step.PruneDeletedSubscriptionDeliveriesStep? && !db.subs[db.deliveries[i].subId].Live())
  }

  ghost predicate RowsEffect(env: Env, db: DB, step: Step, db': DB)
    requires Rooted(db)
  {
    && (forall i :: i in db.deliveries && i in db'.deliveries ==> RowStep(env, db, step, db', i))
    && (forall i :: i in db.deliveries && i !in db'.deliveries ==> MayVanish(db, step, i))
    && (forall j :: j in db'.deliveries && j !in db.deliveries ==>
          FreshRow(env, db, db', j) && Origin(db, step, db'.deliveries[j]))
  }

  /** Ids are not used again. */
  lemma NotReborn(env: Env, db: DB, step: Step, db': DB, i: Id)
    requires Rooted(db) && RowsEffect(env, db, step, db') && i < db.nextId
    ensures i in db'.deliveries ==> i in db.deliveries
  {
  }

  // ---- The other tables ----

  /** Only expiry, deletion and the loss of a dead-letter topic change a subscription. */
  predicate SubKept(db: DB, s: Subscription, s': Subscription, db': DB) {
    && s' == s.(expiresAt := s'.expiresAt, deletedAt := s'.deletedAt, deadLetterTopicId := s'.deadLetterTopicId)
    && (s'.deletedAt == s.deletedAt || (s.Live() && s'.deletedAt == Some(db.clock)))
    && s'.deadLetterTopicId ==
       if s.deadLetterTopicId.Some? && s.deadLetterTopicId.value !in db'.topics then None else s.deadLetterTopicId
  }

  /** The steps that delete a subscription. */
  predicate DeletesSub(db: DB, step: Step, s: Id) {
    || (step.DeleteSubscriptionStep? && s in LiveSubsNamed(db, step.subName))
    || (step.DeleteExpiredSubscriptionsStep? && s in step.prune.rows)
  }

  predicate SubsEffect(db: DB, step: Step, db': DB) {
    && (forall s :: s in db.subs && s in db'.subs ==> SubKept(db, db.subs[s], db'.subs[s], db'))
    && (forall s :: s in db.subs && s in db'.subs ==> db'.subs[s].deletedAt == db.subs[s].deletedAt || DeletesSub(db, step, s))
    && (forall s :: s in db.subs && s !in db'.subs ==>
          !db.subs[s].Live() && forall i :: i in db.deliveries ==> db.deliveries[i].subId != s)
    && (forall s :: s in db'.subs && s !in db.subs ==>
          && step.CreateSubscriptionStep? && db'.subs[s] == step.sub && s == db.nextId < db'.nextId
          && step.sub.topicId in db'.topics
          && (step.sub.deadLetterTopicId.Some? ==> step.sub.deadLetterTopicId.value in db'.topics))
  }

  predicate MessagesEffect(db: DB, step: Step, db': DB) {
    && (forall m :: m in db.messages && m in db'.messages ==> db'.messages[m] == db.messages[m])
    && (forall m :: m in db.messages && m !in db'.messages ==>
          forall i :: i in db.deliveries ==> db.deliveries[i].messageId != m)
    && (forall m :: m in db'.messages && m !in db.messages ==>
          && step.PublishStep? && m == db.nextId < db'.nextId
          && db'.messages[m].topicId == step.topicId && step.topicId in db'.topics
          && db'.messages[m].publishedAt == db.clock)
  }

  predicate TopicsEffect(db: DB, step: Step, db': DB) {
    && (forall t :: t in db.topics && t in db'.topics ==>
          && db'.topics[t].name == db.topics[t].name
          && (db'.topics[t].deletedAt == db.topics[t].deletedAt
              || (db.topics[t].Live() && db'.topics[t].deletedAt == Some(db.clock))))
    && (forall t :: t in db.topics && t !in db'.topics ==>
          && !db.topics[t].Live()
          && (forall s :: s in db.subs ==> db.subs[s].topicId != t)
          && (forall m :: m in db.messages ==> db.messages[m].topicId != t)
          && (forall p :: p in db.snapshots ==> db.snapshots[p].topicId != t))
    && (forall t :: t in db'.topics && t !in db.topics ==> t == db.nextId < db'.nextId)
  }

  predicate SnapshotsEffect(db: DB, step: Step, db': DB) {
    && (forall p :: p in db.snapshots && p in db'.snapshots ==> db'.snapshots[p] == db.snapshots[p])
    && (forall p :: p in db'.snapshots && p !in db.snapshots ==> 
          step.CreateSnapshotStep? && p == db.nextId < db'.nextId && db'.snapshots[p].topicId in db'.topics)
  }

  predicate TablesEffect(db: DB, step: Step, db': DB) {
    && db'.clock == db.clock
    && db.nextId <= db'.nextId
    && SubsEffect(db, step, db')
    && MessagesEffect(db, step, db')
    && TopicsEffect(db, step, db')
    && SnapshotsEffect(db, step, db')
  }

  ghost predicate Effect(env: Env, db: DB, step: Step, db': DB)
    requires Rooted(db)
  {
    RowsEffect(env, db, step, db') && TablesEffect(db, step, db')
  }

  // ---- Batches ----

  /** The other tables are as they were, no row has gone, and the new ones carry new ids. */
  ghost predicate Grown(db: DB, db': DB) {
    && db' == db.(deliveries := db'.deliveries, nextId := db'.nextId)
    && db.nextId <= db'.nextId
    && (forall i :: i in db'.deliveries <==> i in db.deliveries || db.nextId <= i < db'.nextId)
  }

  predicate ActsOn(acts: seq<Act>, i: Id) {
    exists act :: act in acts && act.id == i
  }

  predicate AllReady(db: DB, acts: seq<Act>) {
    forall act :: act in acts ==> Ready(db, act)
  }

  /** The row an act names, changed as the act says. */
  predicate ActDone(db: DB, act: Act, d': Delivery)
    requires act.id in db.deliveries
  {
    match act
    case Dead(i) => d' == db.deliveries[i].(completedAt := Some(db.clock))
    case Retry(i, at) => d' == db.deliveries[i].(attemptAt := at)
  }

  /** The new row carries the message of the row the act dead-letters, to a subscription of that
      row's dead-letter topic. */
  predicate SentBy(db: DB, act: Act, d: Delivery)
    requires Ready(db, act) && d.subId in db.subs
  {
    && act.Dead?
    && d.messageId == db.deliveries[act.id].messageId
    && db.subs[db.deliveries[act.id].subId].deadLetterTopicId == Some(db.subs[d.subId].topicId)
  }

  ghost predicate BatchRows(db: DB, acts: seq<Act>, db': DB)
    requires AllReady(db, acts)
  {
    && (forall act :: act in acts ==> act.id in db'.deliveries && ActDone(db, act, db'.deliveries[act.id]))
    && (forall i :: i in db.deliveries && !ActsOn(acts, i) ==> i in db'.deliveries && db'.deliveries[i] == db.deliveries[i])
  }

  ghost predicate BatchSends(env: Env, db: DB, acts: seq<Act>, db': DB, j: Id)
    requires AllReady(db, acts)
  {
    && j in db'.deliveries
    && FreshRow(env, db, db', j)
    && exists act :: act in acts && SentBy(db, act, db'.deliveries[j])
  }

  ghost predicate BatchEffect(env: Env, db: DB, acts: seq<Act>, db': DB)
    requires AllReady(db, acts)
  {
    && Grown(db, db')
    && BatchRows(db, acts, db')
    && (forall j :: db.nextId <= j < db'.nextId ==> BatchSends(env, db, acts, db', j))
  }

  predicate DistinctActs(acts: seq<Act>) {
    forall k, l :: 0 <= k < l < |acts| ==> acts[k].id != acts[l].id
  }

  /** One dead letter: the fan-out to the dead-letter topic, if it is live, and the completion. */
  lemma DeadLetterEffect(env: Env, db: DB, i: Id, topicId: Id)
    requires FreshIds(db) && i in db.deliveries && db.deliveries[i].messageId in db.messages
    ensures var db' := DeadLetterOne(env, db, i, topicId);
      && Grown(db, db')
      && db'.deliveries[i] == db.deliveries[i].(completedAt := Some(db.clock))
      && (forall k :: k in db.deliveries && k != i ==> db'.deliveries[k] == db.deliveries[k])
      && (forall j :: db.nextId <= j < db'.nextId ==>
            && LiveTopic(db, topicId)
            && db'.deliveries[j].subId in Targets(env, db, topicId, db.deliveries[i].messageId)
            && db'.deliveries[j] == NewRow(env, db, db'.deliveries[j].subId, db.deliveries[i].messageId))
      && (forall j, k :: db.nextId <= j < k < db'.nextId ==> db'.deliveries[j].subId != db'.deliveries[k].subId)
      && (LiveTopic(db, topicId) ==>
            forall s :: s in Targets(env, db, topicId, db.deliveries[i].messageId) ==>
              exists j :: db.nextId <= j < db'.nextId && db'.deliveries[j].subId == s)
  {
    hide NewRow, Targets, FanOut, Complete, FannedOut;
    var msg := db.deliveries[i].messageId;
    if LiveTopic(db, topicId) {
      var sent := FanOut(env, db, topicId, msg);
      FanOutEffect(env, db, topicId, msg);
      FannedOutKeeps(env, db, sent, topicId, msg);
      CompleteKeeps(sent, i);
      SentRows(env, db, sent, i, topicId, msg);
      SentReach(env, db, sent, i, topicId, msg);
    } else {
      CompleteKeeps(db, i);
    }
  }

  lemma FannedOutKeeps(env: Env, db: DB, sent: DB, topicId: Id, msg: Id)
    requires msg in db.messages && FannedOut(env, db, sent, topicId, msg)
    ensures Grown(db, sent)
    ensures forall i :: i in db.deliveries ==> sent.deliveries[i] == db.deliveries[i]
  {
  }

  /** Completing an old row leaves the rows of a fan-out as they are. */
  lemma SentRows(env: Env, db: DB, sent: DB, i: Id, topicId: Id, msg: Id)
    requires msg in db.messages && FannedOut(env, db, sent, topicId, msg) && FreshIds(db) && i in db.deliveries && i in sent.deliveries
    ensures var db' := Complete(sent, i);
      && (forall j :: db.nextId <= j < db'.nextId ==>
            && j in db'.deliveries
            && db'.deliveries[j].subId in Targets(env, db, topicId, msg)
            && db'.deliveries[j] == NewRow(env, db, db'.deliveries[j].subId, msg))
      && (forall j, k :: db.nextId <= j < k < db'.nextId ==> db'.deliveries[j].subId != db'.deliveries[k].subId)
  {
    hide NewRow, Targets;
  }

  lemma SentReach(env: Env, db: DB, sent: DB, i: Id, topicId: Id, msg: Id)
    requires msg in db.messages && FannedOut(env, db, sent, topicId, msg) && i in sent.deliveries
    ensures var db' := Complete(sent, i);
      && (forall j :: db.nextId <= j < db'.nextId ==> j in db'.deliveries)
      && (forall s :: s in Targets(env, db, topicId, msg) ==>
            exists j :: db.nextId <= j < db'.nextId && db'.deliveries[j].subId == s)
  {
    hide NewRow, Targets;
    forall s | s in Targets(env, db, topicId, msg)
      ensures exists j :: db.nextId <= j < sent.nextId && Complete(sent, i).deliveries[j].subId == s
    {
      var j :| db.nextId <= j < sent.nextId && sent.deliveries[j].subId == s;
      assert Complete(sent, i).deliveries[j].subId == s;
    }
  }

  lemma CompleteKeeps(db: DB, i: Id)
    requires i in db.deliveries
    ensures var db' := Complete(db, i);
      && db' == db.(deliveries := db'.deliveries)
      && db'.deliveries.Keys == db.deliveries.Keys
      && db'.deliveries[i] == db.deliveries[i].(completedAt := Some(db.clock))
      && forall k :: k in db.deliveries && k != i ==> db'.deliveries[k] == db.deliveries[k]
  {
  }

  /** A row sent by a dead letter in the middle of a batch is fresh for the batch as a whole. */
  lemma NewRowIsFresh(env: Env, db: DB, mid: DB, db': DB, j: Id, topicId: Id, msg: Id)
    requires FreshIds(mid) && Grown(db, mid) && Grown(mid, db') && mid.nextId <= j < db'.nextId
    requires msg in db.messages && db'.deliveries[j].subId in Targets(env, mid, topicId, msg)
    requires db'.deliveries[j] == NewRow(env, mid, db'.deliveries[j].subId, msg)
    requires forall k :: k in mid.deliveries ==> db'.deliveries[k].subId == mid.deliveries[k].subId
    ensures FreshRow(env, db, db', j)
  {
    var d := db'.deliveries[j];
    PredecessorIsNewest(env, mid, d.subId, mid.messages[msg].topicId);
  }

  lemma BatchStep(env: Env, db: DB, front: seq<Act>, act: Act, mid: DB, db': DB)
    requires FreshIds(db) && AllReady(db, front) && Ready(db, act) && !ActsOn(front, act.id)
    requires BatchEffect(env, db, front, mid) && db' == ApplyAct(env, mid, act)
    ensures Grown(db, db') && Grown(mid, db')
    ensures act.id in db'.deliveries && ActDone(db, act, db'.deliveries[act.id])
    ensures forall i :: i in mid.deliveries && i != act.id ==> db'.deliveries[i] == mid.deliveries[i]
    ensures forall i :: i in mid.deliveries ==> db'.deliveries[i].subId == mid.deliveries[i].subId
    ensures forall j :: mid.nextId <= j < db'.nextId ==>
      FreshRow(env, db, db', j) && SentBy(db, act, db'.deliveries[j])
  {
    assert mid.deliveries[act.id] == db.deliveries[act.id];
    if act.Dead? {
      var topicId := db.subs[db.deliveries[act.id].subId].deadLetterTopicId.value;
      DeadLetterEffect(env, mid, act.id, topicId);
      forall j | mid.nextId <= j < db'.nextId
        ensures FreshRow(env, db, db', j) && SentBy(db, act, db'.deliveries[j])
      {
        NewRowIsFresh(env, db, mid, db', j, topicId, db.deliveries[act.id].messageId);
      }
    }
  }

  lemma SentStays(env: Env, db: DB, front: seq<Act>, act: Act, mid: DB, db': DB, j: Id)
    requires AllReady(db, front) && Ready(db, act) && Grown(mid, db') && BatchSends(env, db, front, mid, j)
    requires db'.deliveries[j] == mid.deliveries[j]
    requires forall i :: i in mid.deliveries ==> db'.deliveries[i].subId == mid.deliveries[i].subId
    ensures BatchSends(env, db, front + [act], db', j)
  {
  }

  lemma {:induction false} BatchDoes(env: Env, db: DB, acts: seq<Act>)
    requires FreshIds(db) && DistinctActs(acts) && AllReady(db, acts)
    ensures BatchEffect(env, db, acts, Batch(env, db, acts))
  {
    if acts != [] {
      var front, act := acts[..|acts| - 1], acts[|acts| - 1];
      assert acts == front + [act];
      BatchDoes(env, db, front);
      var mid, db' := Batch(env, db, front), Batch(env, db, acts);
      assert !ActsOn(front, act.id);
      BatchStep(env, db, front, act, mid, db');
      BatchJoins(env, db, front, act, mid, db');
    }
  }

  lemma BatchJoins(env: Env, db: DB, front: seq<Act>, act: Act, mid: DB, db': DB)
    requires FreshIds(db) && AllReady(db, front) && Ready(db, act) && !ActsOn(front, act.id)
    requires BatchEffect(env, db, front, mid) && Grown(db, db') && Grown(mid, db')
    requires act.id in db'.deliveries && ActDone(db, act, db'.deliveries[act.id])
    requires forall i :: i in mid.deliveries && i != act.id ==> db'.deliveries[i] == mid.deliveries[i]
    requires forall i :: i in mid.deliveries ==> db'.deliveries[i].subId == mid.deliveries[i].subId
    requires forall j :: mid.nextId <= j < db'.nextId ==>
      FreshRow(env, db, db', j) && SentBy(db, act, db'.deliveries[j])
    ensures BatchEffect(env, db, front + [act], db')
  {
    hide FreshRow, SentBy, ActDone;
    var acts := front + [act];
    forall i | i in db.deliveries && !ActsOn(acts, i)
      ensures db'.deliveries[i] == db.deliveries[i]
    {
      assert act in acts && !ActsOn(front, i);
    }
    forall j | db.nextId <= j < db'.nextId
      ensures BatchSends(env, db, acts, db', j)
    {
      if j < mid.nextId {
        SentStays(env, db, front, act, mid, db', j);
      } else {
        assert act in acts;
      }
    }
  }
}
