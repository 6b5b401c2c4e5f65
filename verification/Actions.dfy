/** Every action as one transaction: a function of the database state whose clock reads the time of
    the transaction. `Apply` and `Enabled` put them together; a run is a sequence of such steps. */
module Actions {
  import opened Types
  import opened DeliveryUtils
  import opened Packing
  import opened Backoff

  // ---- Pull ----

  /** The predecessor is neither completed nor expired. A link to a row that is gone blocks too:
      the left join then yields nulls. */
  predicate OrderBlocked(db: DB, sub: Subscription, d: Delivery) {
    && sub.ordered
    && d.notBefore.Some?
    && !(d.notBefore.value in db.deliveries && db.deliveries[d.notBefore.value].Done(db.clock))
  }

  function EligibleRows(db: DB, subId: Id): set<Id>
    requires subId in db.subs
  {
    set i | i in db.deliveries
      && db.deliveries[i].subId == subId
      && db.deliveries[i].Pending(db.clock)
      && !OrderBlocked(db, db.subs[subId], db.deliveries[i])
  }

  function DueRows(db: DB, subId: Id): set<Id>
    requires subId in db.subs
  {
    set i | i in EligibleRows(db, subId) && db.deliveries[i].attemptAt <= db.clock
  }

  /** A result of `ORDER BY attempt_at LIMIT max` over the matching rows. */
  predicate FirstRows(db: DB, rows: seq<Id>, matching: set<Id>, max: nat)
    requires matching <= db.deliveries.Keys
  {
    && Distinct(rows)
    && (forall i :: i in rows ==> i in matching)
    && |rows| <= max
    && (forall k, l :: 0 <= k < l < |rows| ==> db.deliveries[rows[k]].attemptAt <= db.deliveries[rows[l]].attemptAt)
    && (forall i :: i in matching && i !in rows ==>
          |rows| == max && forall k :: k in rows ==> db.deliveries[k].attemptAt <= db.deliveries[i].attemptAt)
  }

  /** Using a subscription postpones its expiry. */
  function RefreshSub(db: DB, subId: Id): DB
    requires subId in db.subs
  {
    db.(subs := db.subs[subId := db.subs[subId].(expiresAt := db.clock + db.subs[subId].ttl)])
  }

  function HandedOut(env: Env, db: DB, sub: Subscription, d: Delivery): Delivery {
    d.(lastAttemptedAt := Some(db.clock), attempts := d.attempts + 1,
       attemptAt := db.clock + Lease(env, d.subId, sub, d.attempts + 1))
  }

  function HandOut(env: Env, db: DB, sub: Subscription, taken: set<Id>): DB {
    db.(deliveries := map i | i in db.deliveries ::
          if i in taken then HandedOut(env, db, sub, db.deliveries[i]) else db.deliveries[i])
  }

  function Pull(env: Env, db: DB, subId: Id, limits: PullLimits, rows: seq<Id>): DB
    requires subId in db.subs && Loaded(db, rows)
  {
    var sub := db.subs[subId];
    var packed := Pack(db, sub, rows, |rows|, limits);
    HandOut(env, Batch(env, RefreshSub(db, subId), Deads(packed.dead)), sub, Elements(packed.taken))
  }

  // ---- Row by row: dead letters and retries ----

  /** One update in a loop over selected rows. */
  datatype Act = Dead(id: Id) | Retry(id: Id, at: Time)

  predicate Ready(db: DB, act: Act) {
    && act.id in db.deliveries
    && db.deliveries[act.id].messageId in db.messages
    && db.deliveries[act.id].subId in db.subs
    && (act.Dead? ==> db.subs[db.deliveries[act.id].subId].deadLetterTopicId.Some?)
  }

  function ApplyAct(env: Env, db: DB, act: Act): DB {
    if !Ready(db, act) then db else
      match act
      case Dead(i) => DeadLetterOne(env, db, i, db.subs[db.deliveries[i].subId].deadLetterTopicId.value)
      case Retry(i, at) => db.(deliveries := db.deliveries[i := db.deliveries[i].(attemptAt := at)])
  }

  function Batch(env: Env, db: DB, acts: seq<Act>): DB {
    if acts == [] then db else ApplyAct(env, Batch(env, db, acts[..|acts| - 1]), acts[|acts| - 1])
  }

  function Deads(ids: seq<Id>): (acts: seq<Act>)
    ensures |acts| == |ids| && forall k :: 0 <= k < |ids| ==> acts[k] == Dead(ids[k])
  {
    seq(|ids|, k requires 0 <= k < |ids| => Dead(ids[k]))
  }

  // ---- Nack, delay, ack, background dead-lettering ----

  function NackRows(db: DB, ids: set<Id>): set<Id> {
    set i | i in ids && i in db.deliveries && db.deliveries[i].Pending(db.clock)
  }

  function NackAct(env: Env, db: DB, i: Id): Act
    requires i in db.deliveries && db.deliveries[i].subId in db.subs
  {
    var d := db.deliveries[i];
    var sub := db.subs[d.subId];
    if sub.Exhausted(d.attempts) then Dead(i) else Retry(i, db.clock + Lease(env, d.subId, sub, d.attempts))
  }

  function NackActs(env: Env, db: DB, rows: seq<Id>): (acts: seq<Act>)
    requires forall i :: i in rows ==> i in db.deliveries && db.deliveries[i].subId in db.subs
    ensures |acts| == |rows| && forall k :: 0 <= k < |rows| ==> acts[k] == NackAct(env, db, rows[k])
  {
    seq(|rows|, k requires 0 <= k < |rows| => NackAct(env, db, rows[k]))
  }

  function Nack(env: Env, db: DB, rows: seq<Id>): DB
    requires forall i :: i in rows ==> i in db.deliveries && db.deliveries[i].subId in db.subs
  {
    Batch(env, db, NackActs(env, db, rows))
  }

  /** A positive delay only moves rows later; any other releases them at once. */
  function DelayRows(db: DB, ids: set<Id>, delay: Duration): set<Id> {
    set i | i in ids && i in db.deliveries && !db.deliveries[i].Completed()
      && (delay > 0 ==> db.deliveries[i].attemptAt < db.clock + delay)
  }

  function DelayDeliveries(db: DB, ids: set<Id>, delay: Duration): DB {
    db.(deliveries := map i | i in db.deliveries ::
          if i in DelayRows(db, ids, delay) then db.deliveries[i].(attemptAt := db.clock + delay) else db.deliveries[i])
  }

  function CompleteRows(db: DB, rows: set<Id>): DB {
    db.(deliveries := map i | i in db.deliveries ::
          if i in rows then db.deliveries[i].(completedAt := Some(db.clock)) else db.deliveries[i])
  }

  function AckRows(db: DB, ids: set<Id>): set<Id> {
    set i | i in ids && i in db.deliveries && !db.deliveries[i].Completed()
  }

  function DeadLetterRows(db: DB): set<Id> {
    set i | i in db.deliveries
      && db.deliveries[i].subId in db.subs
      && db.subs[db.deliveries[i].subId].Live()
      && db.subs[db.deliveries[i].subId].Exhausted(db.deliveries[i].attempts)
      && db.deliveries[i].Pending(db.clock)
      && db.deliveries[i].attemptAt <= db.clock
  }

  // ---- Publish ----

  function PublishMessage(db: DB, topicId: Id, payload: seq<Byte>, attributes: Attributes, orderKey: string): DB {
    var m := Message(topicId, payload, attributes, db.clock, if orderKey == "" then None else Some(orderKey));
    db.(messages := db.messages[db.nextId := m], nextId := db.nextId + 1)
  }

  function Publish(env: Env, db: DB, topicId: Id, payload: seq<Byte>, attributes: Attributes, orderKey: string): DB {
    FanOut(env, PublishMessage(db, topicId, payload, attributes, orderKey), topicId, db.nextId)
  }

  // ---- Snapshots and seeks ----

  const SNAPSHOT_TTL: Duration := 7 * 24 * 3600 * SECOND

  function UnackedRows(db: DB, subId: Id): set<Id> {
    set i | i in db.deliveries && db.deliveries[i].subId == subId && db.deliveries[i].Pending(db.clock)
  }

  /** The earliest publish time among the rows. */
  ghost function OldestPublished(db: DB, rows: set<Id>): (t: Time)
    requires rows <= db.deliveries.Keys && rows != {}
    ensures (exists i :: i in rows && db.deliveries[i].publishedAt == t)
    ensures forall i :: i in rows ==> t <= db.deliveries[i].publishedAt
  {
    OldestExists(db, rows);
    var o :| o in rows && forall i :: i in rows ==> db.deliveries[o].publishedAt <= db.deliveries[i].publishedAt;
    db.deliveries[o].publishedAt
  }

  lemma OldestExists(db: DB, rows: set<Id>)
    requires rows <= db.deliveries.Keys && rows != {}
    ensures exists o :: o in rows && forall i :: i in rows ==> db.deliveries[o].publishedAt <= db.deliveries[i].publishedAt
  {
    var x :| x in rows;
    if rows == {x} {
      assert forall i :: i in rows ==> db.deliveries[x].publishedAt <= db.deliveries[i].publishedAt;
    } else {
      OldestExists(db, rows - {x});
      var y :| y in rows - {x} && forall i :: i in rows - {x} ==> db.deliveries[y].publishedAt <= db.deliveries[i].publishedAt;
      var best := if db.deliveries[x].publishedAt <= db.deliveries[y].publishedAt then x else y;
      assert forall i :: i in rows ==> i == x || i in rows - {x};
      assert best in rows && forall i :: i in rows ==> db.deliveries[best].publishedAt <= db.deliveries[i].publishedAt;
    }
  }

  /** Messages of the topic published at or after `from` that have a completed delivery on the
      subscription. Messages without a delivery are not found: the join condition drops them. */
  function AckedMessages(db: DB, subId: Id, topicId: Id, from: Time): set<Id> {
    set i | i in db.deliveries
      && db.deliveries[i].subId == subId
      && db.deliveries[i].Completed()
      && db.deliveries[i].messageId in db.messages
      && db.messages[db.deliveries[i].messageId].topicId == topicId
      && from <= db.messages[db.deliveries[i].messageId].publishedAt
      :: db.deliveries[i].messageId
  }

  ghost function TakeSnapshot(db: DB, name: string, subId: Id): Snapshot
    requires subId in db.subs
  {
    var sub, unacked := db.subs[subId], UnackedRows(db, subId);
    if unacked == {} then Snapshot(sub.topicId, name, db.clock, db.clock + SNAPSHOT_TTL, db.clock, {})
    else
      var oldest := OldestPublished(db, unacked);
      Snapshot(sub.topicId, name, db.clock, db.clock + SNAPSHOT_TTL, oldest,
               AckedMessages(db, subId, sub.topicId, oldest))
  }

  ghost function CreateSnapshot(db: DB, name: string, subId: Id): DB
    requires subId in db.subs
  {
    db.(snapshots := db.snapshots[db.nextId := TakeSnapshot(db, name, subId)], nextId := db.nextId + 1)
  }

  /** Un-acking a row also renews its lifetime and makes it due. */
  function Reopened(d: Delivery, now: Time, ttl: Duration): Delivery {
    d.(completedAt := None, expiresAt := now + ttl, attemptAt := now)
  }

  function ReopenRows(db: DB, rows: set<Id>, ttl: Duration): DB {
    db.(deliveries := map i | i in db.deliveries ::
          if i in rows then Reopened(db.deliveries[i], db.clock, ttl) else db.deliveries[i])
  }

  function SnapAckedBefore(db: DB, subId: Id, snap: Snapshot): set<Id> {
    set i | i in db.deliveries
      && db.deliveries[i].subId == subId
      && db.clock <= db.deliveries[i].expiresAt
      && db.deliveries[i].publishedAt < snap.ackedMessagesBefore
      && !db.deliveries[i].Completed()
  }

  function SnapAckedListed(db: DB, subId: Id, snap: Snapshot): set<Id> {
    set i | i in db.deliveries
      && db.deliveries[i].subId == subId
      && db.clock <= db.deliveries[i].expiresAt
      && db.deliveries[i].messageId in snap.ackedMessageIds
      && !db.deliveries[i].Completed()
  }

  function SnapReopened(db: DB, subId: Id, snap: Snapshot): set<Id> {
    set i | i in db.deliveries
      && db.deliveries[i].subId == subId
      && snap.ackedMessagesBefore <= db.deliveries[i].publishedAt
      && db.deliveries[i].messageId !in snap.ackedMessageIds
      && db.deliveries[i].Completed()
  }

  datatype Seek = Seek(db: DB, numAcked: nat, numDeAcked: nat)

  function SeekToSnapshot(db: DB, subId: Id, snap: Snapshot): Seek
    requires subId in db.subs
  {
    var before := SnapAckedBefore(db, subId, snap);
    var db1 := CompleteRows(db, before);
    var listed := SnapAckedListed(db1, subId, snap);
    var db2 := CompleteRows(db1, listed);
    var reopened := SnapReopened(db2, subId, snap);
    Seek(ReopenRows(db2, reopened, db.subs[subId].messageTTL), |before| + |listed|, |reopened|)
  }

  function TimeAcked(db: DB, subId: Id, time: Time): set<Id> {
    set i | i in db.deliveries
      && db.deliveries[i].subId == subId
      && db.clock <= db.deliveries[i].expiresAt
      && db.deliveries[i].publishedAt <= time
      && !db.deliveries[i].Completed()
  }

  function TimeReopened(db: DB, subId: Id, time: Time): set<Id> {
    set i | i in db.deliveries
      && db.deliveries[i].subId == subId
      && db.clock <= db.deliveries[i].expiresAt
      && time < db.deliveries[i].publishedAt
      && db.deliveries[i].Completed()
  }

  function SeekToTime(db: DB, subId: Id, time: Time): Seek
    requires subId in db.subs
  {
    var acked := TimeAcked(db, subId, time);
    var db1 := CompleteRows(db, acked);
    var reopened := TimeReopened(db1, subId, time);
    Seek(ReopenRows(db1, reopened, db.subs[subId].messageTTL), |acked|, |reopened|)
  }

  // ---- Creating, deleting, pruning ----

  predicate LiveSub(db: DB, subId: Id) {
    subId in db.subs && db.subs[subId].Live()
  }

  function LiveSubsNamed(db: DB, name: string): set<Id> {
    set s | s in db.subs && db.subs[s].Live() && db.subs[s].name == name
  }

  function LiveTopicsNamed(db: DB, name: string): set<Id> {
    set t | t in db.topics && db.topics[t].Live() && db.topics[t].name == name
  }

  function ExpiredSubs(db: DB): set<Id> {
    set s | s in db.subs && db.subs[s].Live() && db.subs[s].expiresAt < db.clock
  }

  function DeleteSubs(db: DB, rows: set<Id>): DB {
    db.(subs := map s | s in db.subs ::
          if s in rows then db.subs[s].(deletedAt := Some(db.clock)) else db.subs[s])
  }

  /** Topics are only marked; their snapshots go at once. */
  function DeleteTopics(db: DB, rows: set<Id>): DB {
    db.(topics := map t | t in db.topics ::
          if t in rows then db.topics[t].(deletedAt := Some(db.clock)) else db.topics[t],
        snapshots := map p | p in db.snapshots && db.snapshots[p].topicId !in rows :: db.snapshots[p])
  }

  datatype Prune = Prune(minAge: Duration, maxDelete: nat, rows: set<Id>)

  /** `ON DELETE SET NULL` on the link. */
  function Unlink(d: Delivery, gone: set<Id>): Delivery {
    if d.notBefore.Some? && d.notBefore.value in gone then d.(notBefore := None) else d
  }

  function RemoveDeliveries(db: DB, rows: set<Id>): DB {
    db.(deliveries := map i | i in db.deliveries && i !in rows :: Unlink(db.deliveries[i], rows))
  }

  function CompletedRows(db: DB, minAge: Duration): set<Id> {
    set i | i in db.deliveries && db.deliveries[i].completedAt.Some?
      && db.deliveries[i].completedAt.value <= db.clock - minAge
  }

  function ExpiredRows(db: DB): set<Id> {
    set i | i in db.deliveries && db.deliveries[i].expiresAt < db.clock
  }

  predicate DeletedFor(sub: Subscription, age: Duration, now: Time) {
    sub.deletedAt.Some? && sub.deletedAt.value <= now - age
  }

  function OrphanRows(db: DB, minAge: Duration): set<Id> {
    set i | i in db.deliveries && db.deliveries[i].subId in db.subs
      && DeletedFor(db.subs[db.deliveries[i].subId], minAge, db.clock)
  }

  function UnusedMessages(db: DB, minAge: Duration): set<Id> {
    set m | m in db.messages && db.messages[m].publishedAt <= db.clock - minAge
      && forall i :: i in db.deliveries ==> db.deliveries[i].messageId != m
  }

  function DrainedSubs(db: DB, minAge: Duration): set<Id> {
    set s | s in db.subs && DeletedFor(db.subs[s], minAge, db.clock)
      && forall i :: i in db.deliveries ==> db.deliveries[i].subId != s
  }

  function DrainedTopics(db: DB, minAge: Duration): set<Id> {
    set t | t in db.topics && db.topics[t].deletedAt.Some? && db.topics[t].deletedAt.value <= db.clock - minAge
      && forall s :: s in db.subs ==> db.subs[s].topicId != t
  }

  /** The foreign keys of messages and snapshots do not stop the deletion of these topics. */
  predicate Unreferenced(db: DB, topics: set<Id>) {
    && (forall m :: m in db.messages ==> db.messages[m].topicId !in topics)
    && (forall p :: p in db.snapshots ==> db.snapshots[p].topicId !in topics)
  }

  function RemoveMessages(db: DB, rows: set<Id>): DB {
    db.(messages := map m | m in db.messages && m !in rows :: db.messages[m])
  }

  function RemoveSubs(db: DB, rows: set<Id>): DB {
    db.(subs := map s | s in db.subs && s !in rows :: db.subs[s])
  }

  /** `ON DELETE SET NULL` on the dead-letter topic. */
  function RemoveTopics(db: DB, rows: set<Id>): DB {
    db.(topics := map t | t in db.topics && t !in rows :: db.topics[t],
        subs := map s | s in db.subs ::
          if db.subs[s].deadLetterTopicId.Some? && db.subs[s].deadLetterTopicId.value in rows
          then db.subs[s].(deadLetterTopicId := None) else db.subs[s])
  }

  function CreateTopic(db: DB, name: string): DB {
    db.(topics := db.topics[db.nextId := Topic(name, None)], nextId := db.nextId + 1)
  }

  function CreateSubscription(db: DB, sub: Subscription): DB {
    db.(subs := db.subs[db.nextId := sub], nextId := db.nextId + 1)
  }

  predicate NewSub(db: DB, sub: Subscription) {
    && sub.ttl > 0 && sub.messageTTL > 0
    && sub.expiresAt == db.clock + sub.ttl
    && sub.Live()
    && LiveTopic(db, sub.topicId)
    && (sub.deadLetterTopicId.Some? <==> sub.maxDeliveryAttempts.Some?)
    && (sub.deadLetterTopicId.Some? ==> LiveTopic(db, sub.deadLetterTopicId.value) && sub.maxDeliveryAttempts.value > 0)
    && LiveSubsNamed(db, sub.name) == {}
  }

  // ---- Steps ----

  datatype Step =
    | CreateTopicStep(topicName: string)
    | CreateSubscriptionStep(sub: Subscription)
    | DeleteTopicStep(topicName: string)
    | DeleteSubscriptionStep(subName: string)
    | DeleteExpiredSubscriptionsStep(prune: Prune)
    | PublishStep(topicId: Id, payload: seq<Byte>, attributes: Attributes, orderKey: string)
    | TouchStep(subId: Id)
    | PullStep(subId: Id, limits: PullLimits, rows: seq<Id>)
    | AckStep(ids: set<Id>)
    | NackStep(ids: set<Id>, rows: seq<Id>)
    | DelayStep(ids: set<Id>, delay: Duration)
    | DeadLetterStep(maxDeliveries: nat, rows: seq<Id>)
    | CreateSnapshotStep(snapName: string, subId: Id)
    | SeekToSnapshotStep(subId: Id, snapId: Id)
    | SeekToTimeStep(subId: Id, time: Time)
    | PruneCompletedDeliveriesStep(prune: Prune)
    | PruneExpiredDeliveriesStep(prune: Prune)
    | PruneDeletedSubscriptionDeliveriesStep(prune: Prune)
    | PruneCompletedMessagesStep(prune: Prune)
    | PruneDeletedSubscriptionsStep(prune: Prune)
    | PruneDeletedTopicsStep(prune: Prune)

  /** The step can commit in this state, and the rows it names are a possible result of its query. */
  predicate Enabled(db: DB, step: Step) {
    match step
    case CreateTopicStep(name) => LiveTopicsNamed(db, name) == {}
    case CreateSubscriptionStep(sub) => NewSub(db, sub)
    case DeleteTopicStep(name) => LiveTopicsNamed(db, name) != {}
    case DeleteSubscriptionStep(name) => LiveSubsNamed(db, name) != {}
    case DeleteExpiredSubscriptionsStep(p) => Limited(p.rows, ExpiredSubs(db), p.maxDelete)
    case PublishStep(t, _, _, _) => LiveTopic(db, t)
    case TouchStep(s) => s in db.subs
    case PullStep(s, limits, rows) =>
      && LiveSub(db, s) && limits.maxMessages > 0 && limits.maxBytes > 0
      && FirstRows(db, rows, DueRows(db, s), limits.maxMessages)
    case AckStep(_) => true
    case NackStep(ids, rows) => Distinct(rows) && Elements(rows) == NackRows(db, ids)
    case DelayStep(_, _) => true
    case DeadLetterStep(max, rows) => Distinct(rows) && Limited(Elements(rows), DeadLetterRows(db), max)
    case CreateSnapshotStep(name, s) =>
      LiveSub(db, s) && forall p :: p in db.snapshots ==> db.snapshots[p].name != name
    case SeekToSnapshotStep(s, p) => LiveSub(db, s) && p in db.snapshots
    case SeekToTimeStep(s, _) => LiveSub(db, s)
    case PruneCompletedDeliveriesStep(p) => Limited(p.rows, CompletedRows(db, p.minAge), p.maxDelete) && p.minAge >= 0
    case PruneExpiredDeliveriesStep(p) => Limited(p.rows, ExpiredRows(db), p.maxDelete)
    case PruneDeletedSubscriptionDeliveriesStep(p) => Limited(p.rows, OrphanRows(db, p.minAge), p.maxDelete)
    case PruneCompletedMessagesStep(p) => Limited(p.rows, UnusedMessages(db, p.minAge), p.maxDelete)
    case PruneDeletedSubscriptionsStep(p) => Limited(p.rows, DrainedSubs(db, p.minAge), p.maxDelete)
    case PruneDeletedTopicsStep(p) => Limited(p.rows, DrainedTopics(db, p.minAge), p.maxDelete) && Unreferenced(db, p.rows)
  }

  /** Foreign keys: every delivery has its message and its subscription. */
  predicate Rooted(db: DB) {
    forall i :: i in db.deliveries ==> db.deliveries[i].messageId in db.messages && db.deliveries[i].subId in db.subs
  }

  ghost function Apply(env: Env, db: DB, step: Step): DB
    requires Rooted(db) && Enabled(db, step)
  {
    match step
    case CreateTopicStep(name) => CreateTopic(db, name)
    case CreateSubscriptionStep(sub) => CreateSubscription(db, sub)
    case DeleteTopicStep(name) => DeleteTopics(db, LiveTopicsNamed(db, name))
    case DeleteSubscriptionStep(name) => DeleteSubs(db, LiveSubsNamed(db, name))
    case DeleteExpiredSubscriptionsStep(p) => DeleteSubs(db, p.rows)
    case PublishStep(t, payload, attributes, key) => Publish(env, db, t, payload, attributes, key)
    case TouchStep(s) => RefreshSub(db, s)
    case PullStep(s, limits, rows) => Pull(env, db, s, limits, rows)
    case AckStep(ids) => CompleteRows(db, AckRows(db, ids))
    case NackStep(ids, rows) => Nack(env, db, rows)
    case DelayStep(ids, delay) => DelayDeliveries(db, ids, delay)
    case DeadLetterStep(_, rows) => Batch(env, db, Deads(rows))
    case CreateSnapshotStep(name, s) => CreateSnapshot(db, name, s)
    case SeekToSnapshotStep(s, p) => SeekToSnapshot(db, s, db.snapshots[p]).db
    case SeekToTimeStep(s, time) => SeekToTime(db, s, time).db
    case PruneCompletedDeliveriesStep(p) => RemoveDeliveries(db, p.rows)
    case PruneExpiredDeliveriesStep(p) => RemoveDeliveries(db, p.rows)
    case PruneDeletedSubscriptionDeliveriesStep(p) => RemoveDeliveries(db, p.rows)
    case PruneCompletedMessagesStep(p) => RemoveMessages(db, p.rows)
    case PruneDeletedSubscriptionsStep(p) => RemoveSubs(db, p.rows)
    case PruneDeletedTopicsStep(p) => RemoveTopics(db, p.rows)
  }
}
