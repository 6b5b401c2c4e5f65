/** Making deliveries: the fan-out of a message over subscriptions, the `notBefore` link of an
    ordered subscription, and dead-lettering. The time is always the clock of the given state. */
module DeliveryUtils {
  import opened Types

  /** A missing or empty filter matches everything; a broken one matches nothing. */
  predicate Matches(env: Env, s: Subscription, m: Message) {
    s.filter.None? || s.filter.value == "" || env.evaluate(s.filter.value, m.attributes) == Match
  }

  function LiveSubs(db: DB, topicId: Id): set<Id> {
    set s | s in db.subs && db.subs[s].topicId == topicId && db.subs[s].Live()
  }

  predicate LiveTopic(db: DB, topicId: Id) {
    topicId in db.topics && db.topics[topicId].Live()
  }

  /** Rows the predecessor lookup reads: unexpired ones of the subscription whose message came from
      the given topic. The order key is not looked at. */
  function Candidates(db: DB, subId: Id, topicId: Id): set<Id> {
    set i | i in db.deliveries
      && db.deliveries[i].subId == subId
      && db.clock < db.deliveries[i].expiresAt
      && db.deliveries[i].messageId in db.messages
      && db.messages[db.deliveries[i].messageId].topicId == topicId
  }

  /** The most recently published among them; several when publish times tie. */
  function Newest(db: DB, rows: set<Id>): set<Id>
    requires rows <= db.deliveries.Keys
  {
    set i | i in rows && forall j :: j in rows ==> db.deliveries[j].publishedAt <= db.deliveries[i].publishedAt
  }

  function Predecessor(env: Env, db: DB, subId: Id, topicId: Id): Option<Id> {
    var newest := Newest(db, Candidates(db, subId, topicId));
    var listed := Rows(env, db, newest);
    if |listed| == 0 then None else Some(listed[0])
  }

  /** The row `deliverToSubscription` makes when the filter lets the message through. */
  function NewRow(env: Env, db: DB, subId: Id, msgId: Id): Delivery
    requires subId in db.subs && msgId in db.messages
  {
    var s, m := db.subs[subId], db.messages[msgId];
    Delivery(msgId, subId, db.clock, db.clock + s.deliveryDelay, None, 0, None, db.clock + s.messageTTL,
      if s.ordered && m.Keyed() then Predecessor(env, db, subId, m.topicId) else None)
  }

  /** The rows made for the listed subscriptions, before any of them is inserted. */
  function Creates(env: Env, db: DB, subs: seq<Id>, msgId: Id): seq<Delivery>
    requires msgId in db.messages && forall s :: s in subs ==> s in db.subs
  {
    if subs == [] then [] else
      var front, s := subs[..|subs| - 1], subs[|subs| - 1];
      Creates(env, db, front, msgId) +
      if Matches(env, db.subs[s], db.messages[msgId]) then [NewRow(env, db, s, msgId)] else []
  }

  function Insert(db: DB, rows: seq<Delivery>): DB {
    if rows == [] then db else
      var front := Insert(db, rows[..|rows| - 1]);
      front.(deliveries := front.deliveries[front.nextId := rows[|rows| - 1]], nextId := front.nextId + 1)
  }

  function FanOut(env: Env, db: DB, topicId: Id, msgId: Id): DB
    requires msgId in db.messages
  {
    Insert(db, Creates(env, db, Rows(env, db, LiveSubs(db, topicId)), msgId))
  }

  function Complete(db: DB, i: Id): DB
    requires i in db.deliveries
  {
    db.(deliveries := db.deliveries[i := db.deliveries[i].(completedAt := Some(db.clock))])
  }

  /** A new delivery of the same message for every live subscription of the live dead-letter topic,
      then the row itself is completed. */
  function DeadLetterOne(env: Env, db: DB, i: Id, topicId: Id): DB
    requires i in db.deliveries && db.deliveries[i].messageId in db.messages
  {
    var sent := if LiveTopic(db, topicId) then FanOut(env, db, topicId, db.deliveries[i].messageId) else db;
    if i in sent.deliveries then Complete(sent, i) else sent
  }

  // ---- What a fan-out adds ----

  lemma NewestExists(db: DB, rows: set<Id>)
    requires rows <= db.deliveries.Keys && rows != {}
    ensures Newest(db, rows) != {}
  {
    var x :| x in rows;
    if rows == {x} {
      assert x in Newest(db, rows);
    } else {
      NewestExists(db, rows - {x});
      var y :| y in Newest(db, rows - {x});
      var best := if db.deliveries[x].publishedAt <= db.deliveries[y].publishedAt then y else x;
      assert forall j :: j in rows ==> j == x || j in rows - {x};
      assert best in Newest(db, rows);
    }
  }

  /** The link goes to an unexpired row of the subscription published no earlier than any other,
      and is left out only when there is no such row. */
  lemma PredecessorIsNewest(env: Env, db: DB, subId: Id, topicId: Id)
    ensures var p := Predecessor(env, db, subId, topicId);
      var c := Candidates(db, subId, topicId);
      && (p.None? <==> c == {})
      && (p.Some? ==> p.value in c)
      && (p.Some? ==> forall j :: j in c ==> db.deliveries[j].publishedAt <= db.deliveries[p.value].publishedAt)
  {
    var c := Candidates(db, subId, topicId);
    var newest := Newest(db, c);
    var listed := Rows(env, db, newest);
    if c != {} {
      NewestExists(db, c);
      var x :| x in newest;
      assert x in listed;
    }
    if |listed| > 0 {
      assert listed[0] in listed;
    }
  }

  /** One row per listed subscription whose filter matches, each for a different one. */
  lemma {:induction false} CreatesSpec(env: Env, db: DB, subs: seq<Id>, msgId: Id)
    requires msgId in db.messages && forall s :: s in subs ==> s in db.subs
    requires Distinct(subs)
    ensures var rows := Creates(env, db, subs, msgId);
      && |rows| <= |subs|
      && (forall k :: 0 <= k < |rows| ==>
            && rows[k].subId in subs
            && Matches(env, db.subs[rows[k].subId], db.messages[msgId])
            && rows[k] == NewRow(env, db, rows[k].subId, msgId))
      && (forall k, l :: 0 <= k < l < |rows| ==> rows[k].subId != rows[l].subId)
      && (forall s :: s in subs && Matches(env, db.subs[s], db.messages[msgId]) ==>
            exists k :: 0 <= k < |rows| && rows[k].subId == s)
  {
    if subs != [] {
      var front, s := subs[..|subs| - 1], subs[|subs| - 1];
      CreatesSpec(env, db, front, msgId);
      var before, rows := Creates(env, db, front, msgId), Creates(env, db, subs, msgId);
      assert s !in front;
      assert forall k :: 0 <= k < |before| ==> rows[k] == before[k];
      assert forall x :: x in subs ==> x in front || x == s;
      if Matches(env, db.subs[s], db.messages[msgId]) {
        assert rows[|before|].subId == s;
      }
    }
  }

  /** Ids are below the counter they are drawn from. */
  predicate FreshIds(db: DB) {
    forall i :: i in db.deliveries ==> i < db.nextId
  }

  /** Subscriptions a message sent to the topic must reach. */
  function Targets(env: Env, db: DB, topicId: Id, msgId: Id): set<Id>
    requires msgId in db.messages
  {
    set s | s in LiveSubs(db, topicId) && Matches(env, db.subs[s], db.messages[msgId])
  }

  /** Everything a fan-out does: old rows stay as they are, and for every target exactly one
      new row appears. */
  ghost predicate FannedOut(env: Env, db: DB, db': DB, topicId: Id, msgId: Id)
    requires msgId in db.messages
  {
    && db' == db.(deliveries := db'.deliveries, nextId := db'.nextId)
    && db.nextId <= db'.nextId
    && (forall i :: i in db'.deliveries <==> i in db.deliveries || db.nextId <= i < db'.nextId)
    && (forall i :: i in db.deliveries ==> db'.deliveries[i] == db.deliveries[i])
    && (forall j :: db.nextId <= j < db'.nextId ==>
          && db'.deliveries[j].subId in Targets(env, db, topicId, msgId)
          && db'.deliveries[j] == NewRow(env, db, db'.deliveries[j].subId, msgId))
    && (forall j, k :: db.nextId <= j < k < db'.nextId ==> db'.deliveries[j].subId != db'.deliveries[k].subId)
    && (forall s :: s in Targets(env, db, topicId, msgId) ==>
          exists j :: db.nextId <= j < db'.nextId && db'.deliveries[j].subId == s)
  }

  lemma {:induction false} InsertSpec(db: DB, rows: seq<Delivery>)
    requires FreshIds(db)
    ensures var db' := Insert(db, rows);
      && db' == db.(deliveries := db'.deliveries, nextId := db.nextId + |rows|)
      && (forall i :: i in db'.deliveries <==> i in db.deliveries || db.nextId <= i < db'.nextId)
      && (forall i :: i in db.deliveries ==> db'.deliveries[i] == db.deliveries[i])
      && (forall j :: db.nextId <= j < db'.nextId ==> db'.deliveries[j] == rows[j - db.nextId])
  {
    if rows != [] {
      InsertSpec(db, rows[..|rows| - 1]);
    }
  }

  lemma FanOutEffect(env: Env, db: DB, topicId: Id, msgId: Id)
    requires msgId in db.messages && FreshIds(db)
    ensures FannedOut(env, db, FanOut(env, db, topicId, msgId), topicId, msgId)
  {
    hide NewRow, Creates, Insert, Matches;
    var subs := Rows(env, db, LiveSubs(db, topicId));
    CreatesSpec(env, db, subs, msgId);
    var rows, db' := Creates(env, db, subs, msgId), FanOut(env, db, topicId, msgId);
    InsertSpec(db, rows);
    forall j, k | db.nextId <= j < k < db'.nextId
      ensures db'.deliveries[j].subId != db'.deliveries[k].subId
    {
      assert rows[j - db.nextId].subId != rows[k - db.nextId].subId;
    }
    forall s | s in Targets(env, db, topicId, msgId)
      ensures exists j :: db.nextId <= j < db'.nextId && db'.deliveries[j].subId == s
    {
      var k :| 0 <= k < |rows| && rows[k].subId == s;
      assert db'.deliveries[db.nextId + k].subId == s;
    }
  }
}
