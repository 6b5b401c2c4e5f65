/** What each action does to the rows, in terms of their fields alone: none of these laws names the
    functions that define the action. */
module Laws {
  import opened Types
  import opened Backoff
  import opened DeliveryUtils
  import opened Packing
  import opened Actions
  import opened Effects
  import opened StepEffects
  import opened Runs
  import opened Snapshots
  import opened Wakeups
  import opened DeadLetters

  // ---- Ack and delay ----

  /** An ack completes every open row it names, now, and changes nothing else. */
  lemma AckLaw(env: Env, db: DB, now: Time, ids: set<Id>, db': DB)
    requires Next(env, db, Event(now, AckStep(ids)), db')
    ensures db' == db.(deliveries := db'.deliveries, clock := now)
    ensures db'.deliveries.Keys == db.deliveries.Keys
    ensures forall i :: i in db.deliveries ==>
      db'.deliveries[i] == if i in ids && db.deliveries[i].completedAt == None
                           then db.deliveries[i].(completedAt := Some(now)) else db.deliveries[i]
  {
  }

  /** A delay moves the next attempt of every open row it names, but a positive one only to a later time. */
  lemma DelayLaw(env: Env, db: DB, now: Time, ids: set<Id>, delay: Duration, db': DB)
    requires Next(env, db, Event(now, DelayStep(ids, delay)), db')
    ensures db' == db.(deliveries := db'.deliveries, clock := now)
    ensures db'.deliveries.Keys == db.deliveries.Keys
    ensures forall i :: i in db.deliveries ==>
      db'.deliveries[i] ==
        if i in ids && db.deliveries[i].completedAt == None && (delay <= 0 || db.deliveries[i].attemptAt < now + delay)
        then db.deliveries[i].(attemptAt := now + delay) else db.deliveries[i]
  {
  }

  // ---- Pull ----

  /** The rows a pull's query returns are due ones, in order of attempt time and without repetition. */
  lemma QueryLaw(env: Env, db: DB, now: Time, s: Id, limits: PullLimits, rows: seq<Id>, db': DB)
    requires Valid(db) && Next(env, db, Event(now, PullStep(s, limits, rows)), db')
    ensures s in db.subs && db.subs[s].deletedAt == None && |rows| <= limits.maxMessages
    ensures forall k, l :: 0 <= k < l < |rows| ==>
      rows[k] in db.deliveries && rows[l] in db.deliveries && rows[k] != rows[l]
      && db.deliveries[rows[k]].attemptAt <= db.deliveries[rows[l]].attemptAt
  {
    assert forall k :: 0 <= k < |rows| ==> rows[k] in rows && rows[k] in DueRows(At(db, now), s);
  }

  /** A row is returned if it is open, unexpired, due, and not held back by an open predecessor, as long as
      there is room for it; and only then. What is left out when there is no room is not due before what is
      returned. */
  lemma DueLaw(env: Env, db: DB, now: Time, s: Id, limits: PullLimits, rows: seq<Id>, db': DB, i: Id)
    requires Valid(db) && Next(env, db, Event(now, PullStep(s, limits, rows)), db')
    ensures s in db.subs
    ensures i in rows ==>
      && i in db.deliveries && db.deliveries[i].subId == s && db.deliveries[i].completedAt == None
      && now < db.deliveries[i].expiresAt && db.deliveries[i].attemptAt <= now
      && (!db.subs[s].ordered || db.deliveries[i].notBefore == None
          || (var p := db.deliveries[i].notBefore.value;
              p in db.deliveries && (db.deliveries[p].completedAt != None || db.deliveries[p].expiresAt <= now)))
    ensures
      && i in db.deliveries && db.deliveries[i].subId == s && db.deliveries[i].completedAt == None
      && now < db.deliveries[i].expiresAt && db.deliveries[i].attemptAt <= now
      && (!db.subs[s].ordered || db.deliveries[i].notBefore == None
          || (var p := db.deliveries[i].notBefore.value;
              p in db.deliveries && (db.deliveries[p].completedAt != None || db.deliveries[p].expiresAt <= now)))
      ==> i in rows || (|rows| == limits.maxMessages
                        && forall r :: r in rows ==>
                             r in db.deliveries && db.deliveries[r].attemptAt <= db.deliveries[i].attemptAt)
  {
    assert i in rows ==> i in DueRows(At(db, now), s);
    assert forall r :: r in rows ==> r in DueRows(At(db, now), s);
  }

  /** The rows that are eligible, due or not. */
  lemma EligibleLaw(db: DB, s: Id, i: Id)
    requires s in db.subs
    ensures i in EligibleRows(db, s) <==>
      && i in db.deliveries && db.deliveries[i].subId == s && db.deliveries[i].completedAt == None
      && db.clock < db.deliveries[i].expiresAt
      && (!db.subs[s].ordered || db.deliveries[i].notBefore == None
          || (var p := db.deliveries[i].notBefore.value;
              p in db.deliveries && (db.deliveries[p].completedAt != None || db.deliveries[p].expiresAt <= db.clock)))
    ensures i in DueRows(db, s) <==> i in EligibleRows(db, s) && db.deliveries[i].attemptAt <= db.clock
  {
  }

  /** When there is nothing to deliver, every row that is open, unexpired and due is held back by a predecessor that
      is open and unexpired, or gone. */
  lemma NothingDueLaw(db: DB, s: Id)
    requires s in db.subs
    ensures DueRows(db, s) == {} <==> forall i :: i in db.deliveries && db.deliveries[i].subId == s ==>
      db.deliveries[i].completedAt == None && db.deliveries[i].attemptAt <= db.clock < db.deliveries[i].expiresAt ==>
        db.subs[s].ordered && db.deliveries[i].notBefore != None
        && (db.deliveries[i].notBefore.value in db.deliveries ==>
              db.deliveries[db.deliveries[i].notBefore.value].completedAt == None
              && db.clock < db.deliveries[db.deliveries[i].notBefore.value].expiresAt)
  {
    if DueRows(db, s) == {} {
      forall i | i in db.deliveries ensures i !in DueRows(db, s) {
      }
    }
  }

  /** The wake time is no later than the attempt of any row that is open, unexpired and not held back, and there is
      none only if there is no such row; it is the attempt time, or the expiry, of such a row. */
  lemma WakeLaw(db: DB, s: Id, wake: Option<Time>, i: Id)
    requires s in db.subs && WakeTime(db, s, wake)
    ensures
      && i in db.deliveries && db.deliveries[i].subId == s && db.deliveries[i].completedAt == None
      && db.clock < db.deliveries[i].expiresAt
      && (!db.subs[s].ordered || db.deliveries[i].notBefore == None
          || (var p := db.deliveries[i].notBefore.value;
              p in db.deliveries && (db.deliveries[p].completedAt != None || db.deliveries[p].expiresAt <= db.clock)))
      ==> wake != None && wake.value <= db.deliveries[i].attemptAt
    ensures wake == None || exists f :: (
      && f in db.deliveries && db.deliveries[f].subId == s
      && db.deliveries[f].completedAt == None && db.clock < db.deliveries[f].expiresAt
      && (wake.value == db.deliveries[f].attemptAt || wake.value == db.deliveries[f].expiresAt < db.deliveries[f].attemptAt))
  {
    EligibleLaw(db, s, i);
  }

  /** The payload bytes of the first `k` rows that were handed out, judged by their attempt counts. */
  function HandedBytes(db: DB, db': DB, rows: seq<Id>, k: nat): nat
    requires k <= |rows|
    requires forall i :: i in rows ==>
      i in db.deliveries && db.deliveries[i].messageId in db.messages && i in db'.deliveries
  {
    if k == 0 then 0 else
      var i := rows[k - 1];
      HandedBytes(db, db', rows, k - 1)
        + if db'.deliveries[i].attempts > db.deliveries[i].attempts then |db.messages[db.deliveries[i].messageId].payload| else 0
  }

  /** A decision about a row is final. */
  lemma {:induction false} PackDecides(db: DB, sub: Subscription, rows: seq<Id>, k: nat, n: nat, limits: PullLimits)
    requires k < n <= |rows| && Loaded(db, rows) && Distinct(rows)
    ensures rows[k] in Pack(db, sub, rows, n, limits).taken <==> rows[k] in Pack(db, sub, rows, k + 1, limits).taken
    ensures rows[k] in Pack(db, sub, rows, n, limits).dead <==> rows[k] in Pack(db, sub, rows, k + 1, limits).dead
  {
    if k + 1 < n {
      PackDecides(db, sub, rows, k, n - 1, limits);
    }
  }

  /** Row `k` is looked at once: it is passed over if it does not fit beside what the rows before it took,
      dead-lettered if it has used up its attempts, and handed out otherwise. */
  lemma PackFate(db: DB, sub: Subscription, rows: seq<Id>, k: nat, limits: PullLimits)
    requires k < |rows| && Loaded(db, rows) && Distinct(rows)
    ensures rows[k] in db.deliveries && db.deliveries[rows[k]].messageId in db.messages
    ensures var p, before, d := Pack(db, sub, rows, |rows|, limits), Pack(db, sub, rows, k, limits), db.deliveries[rows[k]];
      var fits := (!limits.strict && k == 0) || before.bytes + |db.messages[d.messageId].payload| <= limits.maxBytes;
      var limit := sub.maxDeliveryAttempts;
      var usedUp := sub.deadLetterTopicId != None && limit != None && 0 < limit.value <= d.attempts;
      && (rows[k] in p.dead <==> fits && usedUp)
      && (rows[k] in p.taken <==> fits && !usedUp)
  {
    assert rows[k] in rows;
    PackDecides(db, sub, rows, k, |rows|, limits);
    PackChooses(db, sub, rows, k, limits);
    assert rows[k] !in rows[..k];
  }

  lemma {:induction false} BytesHanded(env: Env, db: DB, now: Time, s: Id, limits: PullLimits, rows: seq<Id>, db': DB, k: nat)
    requires Valid(db) && Next(env, db, Event(now, PullStep(s, limits, rows)), db')
    requires s in db.subs && k <= |rows| && Loaded(At(db, now), rows)
    requires forall i :: i in rows ==> i in db.deliveries && db.deliveries[i].messageId in db.messages && i in db'.deliveries
    requires forall j :: 0 <= j < |rows| ==>
      (db'.deliveries[rows[j]].attempts > db.deliveries[rows[j]].attempts <==>
         rows[j] in Pack(At(db, now), db.subs[s], rows, |rows|, limits).taken)
    requires Distinct(rows)
    ensures HandedBytes(db, db', rows, k) == Pack(At(db, now), db.subs[s], rows, k, limits).bytes
  {
    hide Valid, Next;
    if k > 0 {
      BytesHanded(env, db, now, s, limits, rows, db', k - 1);
      PackDecides(At(db, now), db.subs[s], rows, k - 1, |rows|, limits);
      PackChooses(At(db, now), db.subs[s], rows, k - 1, limits);
      assert rows[k - 1] !in rows[..k - 1];
    }
  }

  lemma PullTaken(env: Env, db: DB, now: Time, s: Id, limits: PullLimits, rows: seq<Id>, db': DB)
    requires Valid(db) && Next(env, db, Event(now, PullStep(s, limits, rows)), db')
    ensures s in db.subs && Loaded(db, rows) && Distinct(rows)
    ensures db.deliveries.Keys <= db'.deliveries.Keys
    ensures var p := Pack(At(db, now), db.subs[s], rows, |rows|, limits);
      && (forall i :: i in p.taken + p.dead ==> i in rows)
      && (forall i :: i in db.deliveries ==>
            db'.deliveries[i] == (if i in p.taken then HandedOut(env, At(db, now), db.subs[s], db.deliveries[i])
                                  else if i in p.dead then db.deliveries[i].(completedAt := Some(now))
                                  else db.deliveries[i]))
  {
    hide Next, Pull, Pack, HandedOut, Effect, Pulls, Valid;
    PullListed(env, db, now, s, limits, rows, db');
    ClockKeepsValid(db, now);
    PullEffect(env, At(db, now), PullStep(s, limits, rows));
  }

  lemma PullListed(env: Env, db: DB, now: Time, s: Id, limits: PullLimits, rows: seq<Id>, db': DB)
    requires Valid(db) && Next(env, db, Event(now, PullStep(s, limits, rows)), db')
    ensures s in db.subs && Loaded(db, rows) && Distinct(rows)
    ensures var p := Pack(At(db, now), db.subs[s], rows, |rows|, limits); forall i :: i in p.taken + p.dead ==> i in rows
    ensures Pulls(At(db, now), PullStep(s, limits, rows)) && db' == Pull(env, At(db, now), s, limits, rows)
  {
    hide Linked, Referenced, Numbered, Pull, Pack;
    assert forall i :: i in rows ==> i in DueRows(At(db, now), s);
    PackChooses(At(db, now), db.subs[s], rows, |rows|, limits);
    assert rows[..|rows|] == rows;
  }

  /** What becomes of row `k` of the result: it is left alone if it does not fit beside the rows before it that
      were handed out, completed if it has used up its attempts, and handed out otherwise. Only the first row of
      a non-strict pull fits whatever its size. */
  lemma FateLaw(env: Env, db: DB, now: Time, s: Id, limits: PullLimits, rows: seq<Id>, db': DB, k: nat)
    requires Valid(db) && Next(env, db, Event(now, PullStep(s, limits, rows)), db') && k < |rows|
    ensures s in db.subs
    ensures forall i :: i in rows ==>
      i in db.deliveries && db.deliveries[i].messageId in db.messages && i in db'.deliveries
    ensures var d, d', sub := db.deliveries[rows[k]], db'.deliveries[rows[k]], db.subs[s];
      var size, limit := |db.messages[d.messageId].payload|, sub.maxDeliveryAttempts;
      d' == if !(!limits.strict && k == 0) && HandedBytes(db, db', rows, k) + size > limits.maxBytes then d
            else if sub.deadLetterTopicId != None && limit != None && 0 < limit.value <= d.attempts then
              d.(completedAt := Some(now))
            else
              d.(lastAttemptedAt := Some(now), attempts := d.attempts + 1,
                 attemptAt := now + NextDelayFor(env, s, sub, d.attempts + 1).fuzzed)
  {
    hide Valid, Next, Pack, NextDelayFor;
    PullTaken(env, db, now, s, limits, rows, db');
    var pre, sub := At(db, now), db.subs[s];
    forall j | 0 <= j < |rows|
      ensures db'.deliveries[rows[j]].attempts > db.deliveries[rows[j]].attempts <==>
                rows[j] in Pack(pre, sub, rows, |rows|, limits).taken
    {
      assert rows[j] in rows;
    }
    BytesHanded(env, db, now, s, limits, rows, db', k);
    PackFate(pre, sub, rows, k, limits);
    RowsOfSub(env, db, now, s, limits, rows, db', k);
  }

  lemma {:induction false} BytesGrow(db: DB, db': DB, rows: seq<Id>, k: nat, n: nat)
    requires k <= n <= |rows|
    requires forall i :: i in rows ==>
      i in db.deliveries && db.deliveries[i].messageId in db.messages && i in db'.deliveries
    ensures HandedBytes(db, db', rows, k) <= HandedBytes(db, db', rows, n)
  {
    if k < n {
      BytesGrow(db, db', rows, k, n - 1);
    }
  }

  /** At-least-once delivery: a pull with room for another row hands out every row of its subscription that is open,
      unexpired, due and not held back, or completes it if it has used up its attempts; unless its payload does not
      fit beside what is handed out. */
  lemma DeliveryLaw(env: Env, db: DB, now: Time, s: Id, limits: PullLimits, rows: seq<Id>, db': DB, i: Id)
    requires Valid(db) && Next(env, db, Event(now, PullStep(s, limits, rows)), db') && |rows| < limits.maxMessages
    requires s in db.subs && i in db.deliveries && db.deliveries[i].subId == s && db.deliveries[i].completedAt == None
    requires db.deliveries[i].attemptAt <= now < db.deliveries[i].expiresAt
    requires !db.subs[s].ordered || db.deliveries[i].notBefore == None
      || (var p := db.deliveries[i].notBefore.value;
          p in db.deliveries && (db.deliveries[p].completedAt != None || db.deliveries[p].expiresAt <= now))
    ensures i in db'.deliveries && db.deliveries[i].messageId in db.messages
    ensures forall r :: r in rows ==>
      r in db.deliveries && db.deliveries[r].messageId in db.messages && r in db'.deliveries
    ensures var d, d', limit := db.deliveries[i], db'.deliveries[i], db.subs[s].maxDeliveryAttempts;
      || (d'.attempts == d.attempts + 1 && d'.lastAttemptedAt == Some(now))
      || (d'.completedAt == Some(now) && db.subs[s].deadLetterTopicId != None && limit != None && 0 < limit.value <= d.attempts)
      || (d' == d && HandedBytes(db, db', rows, |rows|) + |db.messages[d.messageId].payload| > limits.maxBytes)
  {
    hide Valid, Next, NextDelayFor;
    DueLaw(env, db, now, s, limits, rows, db', i);
    var k :| 0 <= k < |rows| && rows[k] == i;
    FateLaw(env, db, now, s, limits, rows, db', k);
    BytesGrow(db, db', rows, k, |rows|);
  }

  lemma RowsOfSub(env: Env, db: DB, now: Time, s: Id, limits: PullLimits, rows: seq<Id>, db': DB, k: nat)
    requires Valid(db) && Next(env, db, Event(now, PullStep(s, limits, rows)), db') && k < |rows|
    ensures rows[k] in db.deliveries && db.deliveries[rows[k]].subId == s
  {
    assert rows[k] in rows && rows[k] in DueRows(At(db, now), s);
  }

  /** Rows that the query did not return stay as they are, and of the other tables only the subscription's expiry
      changes: by its lifetime from now. */
  lemma PullLeavesRest(env: Env, db: DB, now: Time, s: Id, limits: PullLimits, rows: seq<Id>, db': DB)
    requires Valid(db) && Next(env, db, Event(now, PullStep(s, limits, rows)), db')
    ensures s in db.subs && db.nextId <= db'.nextId
    ensures db' == db.(deliveries := db'.deliveries, nextId := db'.nextId, clock := now,
                       subs := db.subs[s := db.subs[s].(expiresAt := now + db.subs[s].ttl)])
    ensures forall i :: i in db.deliveries && i !in rows ==> i in db'.deliveries && db'.deliveries[i] == db.deliveries[i]
  {
    hide Linked, Referenced, Numbered, Pack, HandedOut, Batch, BatchEffect;
    PullTaken(env, db, now, s, limits, rows, db');
    ClockKeepsValid(db, now);
    PullDead(env, At(db, now), PullStep(s, limits, rows));
    MiddleGrown(env, At(db, now), PullStep(s, limits, rows), Deads(Choice(At(db, now), PullStep(s, limits, rows)).dead),
                Batch(env, RefreshSub(At(db, now), s), Deads(Choice(At(db, now), PullStep(s, limits, rows)).dead)));
  }

  // ---- Nack and background dead-lettering ----

  /** A nack completes a pending row it names that has used up its attempts, and reschedules any other by the
      delay for the attempts it has had; it leaves all other rows alone. */
  lemma NackLaw(env: Env, db: DB, now: Time, ids: set<Id>, rows: seq<Id>, db': DB, i: Id)
    requires Valid(db) && Next(env, db, Event(now, NackStep(ids, rows)), db') && i in db.deliveries
    ensures i in db'.deliveries && db.deliveries[i].subId in db.subs
    ensures var d, d', sub := db.deliveries[i], db'.deliveries[i], db.subs[db.deliveries[i].subId];
      var limit := sub.maxDeliveryAttempts;
      d' == if i !in ids || d.completedAt != None || d.expiresAt <= now then d
            else if sub.deadLetterTopicId != None && limit != None && 0 < limit.value <= d.attempts then
              d.(completedAt := Some(now))
            else d.(attemptAt := now + NextDelayFor(env, d.subId, sub, d.attempts).fuzzed)
    ensures i in rows <==> i in ids && db.deliveries[i].completedAt == None && now < db.deliveries[i].expiresAt
  {
    hide Valid, Next, NextDelayFor;
    NackedRows(env, db, now, ids, rows, db', i);
    NackDone(env, db, now, ids, rows, db', i);
  }

  lemma NackedRows(env: Env, db: DB, now: Time, ids: set<Id>, rows: seq<Id>, db': DB, i: Id)
    requires Valid(db) && Next(env, db, Event(now, NackStep(ids, rows)), db') && i in db.deliveries
    ensures i in rows <==> i in ids && db.deliveries[i].completedAt == None && now < db.deliveries[i].expiresAt
  {
    hide Valid, Nack;
    assert i in Elements(rows) <==> i in rows;
  }

  /** A row on the list is changed as its act says, and no other row is. */
  lemma NackDone(env: Env, db: DB, now: Time, ids: set<Id>, rows: seq<Id>, db': DB, i: Id)
    requires Valid(db) && Next(env, db, Event(now, NackStep(ids, rows)), db') && i in db.deliveries
    ensures i in db'.deliveries && db.deliveries[i].subId in db.subs
    ensures if i in rows then ActDone(At(db, now), NackAct(env, At(db, now), i), db'.deliveries[i])
            else db'.deliveries[i] == db.deliveries[i]
  {
    hide Next, Linked, Referenced, Numbered, NackAct, ActDone, FreshRow, SentBy;
    NackIsReady(env, db, now, ids, rows, db');
    var pre, acts := At(db, now), NackActs(env, At(db, now), rows);
    BatchDoes(env, pre, acts);
    if i in rows {
      var k :| 0 <= k < |rows| && rows[k] == i;
      NackActId(env, pre, i);
      assert acts[k] in acts && ActDone(pre, acts[k], db'.deliveries[i]);
    }
    NackActsOn(env, pre, rows, i);
  }

  lemma NackActId(env: Env, db: DB, i: Id)
    requires i in db.deliveries && db.deliveries[i].subId in db.subs
    ensures NackAct(env, db, i).id == i
  {
  }

  lemma NackActsOn(env: Env, db: DB, rows: seq<Id>, i: Id)
    requires forall x :: x in rows ==> x in db.deliveries && db.deliveries[x].subId in db.subs
    ensures ActsOn(NackActs(env, db, rows), i) ==> i in rows
  {
    hide Lease;
    var acts := NackActs(env, db, rows);
    if ActsOn(acts, i) {
      var a :| a in acts && a.id == i;
      var k :| 0 <= k < |acts| && acts[k] == a;
    }
  }

  lemma NackIsReady(env: Env, db: DB, now: Time, ids: set<Id>, rows: seq<Id>, db': DB)
    requires Valid(db) && Next(env, db, Event(now, NackStep(ids, rows)), db')
    ensures forall i :: i in rows ==> i in db.deliveries && db.deliveries[i].subId in db.subs
    ensures var acts := NackActs(env, At(db, now), rows);
      FreshIds(At(db, now)) && DistinctActs(acts) && AllReady(At(db, now), acts) && db' == Batch(env, At(db, now), acts)
  {
    hide Lease, Linked, Referenced;
    assert forall i :: i in rows ==> i in Elements(rows);
    assert forall k :: 0 <= k < |rows| ==> rows[k] in rows;
  }

  /** The background job completes rows of live subscriptions that have used up their attempts, are open,
      unexpired and past their latest lease; all such rows, unless there are more than it may take; and it leaves
      all other rows alone. */
  lemma BackgroundLaw(env: Env, db: DB, now: Time, max: nat, rows: seq<Id>, db': DB, i: Id)
    requires Valid(db) && Next(env, db, Event(now, DeadLetterStep(max, rows)), db') && i in db.deliveries
    ensures i in db'.deliveries && db.deliveries[i].subId in db.subs
    ensures db'.deliveries[i] == if i in rows then db.deliveries[i].(completedAt := Some(now)) else db.deliveries[i]
    ensures var d, sub := db.deliveries[i], db.subs[db.deliveries[i].subId];
      var limit := sub.maxDeliveryAttempts;
      var overdue := sub.deletedAt == None && sub.deadLetterTopicId != None && limit != None && 0 < limit.value <= d.attempts
        && d.completedAt == None && now < d.expiresAt && d.attemptAt <= now;
      && (i in rows ==> overdue)
      && (overdue ==> i in rows || |Elements(rows)| == max)
  {
    hide Linked, Referenced, FreshRow, SentBy, Batch;
    var pre, acts := At(db, now), Deads(rows);
    BackgroundIsReady(env, db, now, max, rows, db');
    BatchDoes(env, pre, acts);
    DeadsActOn(rows, i);
    assert i in rows <==> i in Elements(rows);
    if i in rows {
      var a :| a in acts && a.id == i;
      assert ActDone(pre, a, db'.deliveries[i]);
    }
  }

  lemma BackgroundIsReady(env: Env, db: DB, now: Time, max: nat, rows: seq<Id>, db': DB)
    requires Valid(db) && Next(env, db, Event(now, DeadLetterStep(max, rows)), db')
    ensures var acts := Deads(rows);
      FreshIds(At(db, now)) && DistinctActs(acts) && AllReady(At(db, now), acts) && db' == Batch(env, At(db, now), acts)
  {
    hide Linked, Referenced, Batch;
    forall a | a in Deads(rows) ensures Ready(At(db, now), a) {
      var k :| 0 <= k < |rows| && Deads(rows)[k] == a;
      assert rows[k] in Elements(rows);
    }
  }

  /** A dead letter owes one delivery of its message to each live subscription of its live dead-letter topic
      whose filter lets the message through, and none to any other. */
  lemma OwedLaw(env: Env, db: DB, i: Id, s: Id, m: Id)
    requires Ready(db, Dead(i))
    ensures var msg, t := db.deliveries[i].messageId, db.subs[db.deliveries[i].subId].deadLetterTopicId.value;
      Owed(env, db, Dead(i))[(s, m)] ==
        if && m == msg
           && t in db.topics && db.topics[t].deletedAt == None
           && s in db.subs && db.subs[s].topicId == t && db.subs[s].deletedAt == None
           && (db.subs[s].filter == None || db.subs[s].filter == Some("")
               || env.evaluate(db.subs[s].filter.value, db.messages[msg].attributes) == Match)
        then 1 else 0
  {
    var msg, t := db.deliveries[i].messageId, db.subs[db.deliveries[i].subId].deadLetterTopicId.value;
    var owed := set x | x in Targets(env, db, t, msg) :: (x, msg);
    assert (s, m) in owed <==> s in Targets(env, db, t, msg) && m == msg;
  }

  // ---- Publish ----

  /** A publish to a live topic stores the message as it was given, and leaves everything else alone but for new
      deliveries. */
  lemma PublishLaw(env: Env, db: DB, now: Time, t: Id, payload: seq<Byte>, attributes: Attributes, key: string, db': DB)
    requires Valid(db) && Next(env, db, Event(now, PublishStep(t, payload, attributes, key)), db')
    ensures t in db.topics && db.topics[t].deletedAt == None && db.nextId < db'.nextId
    ensures db' == db.(clock := now, deliveries := db'.deliveries, nextId := db'.nextId,
                       messages := db.messages[db.nextId :=
                         Message(t, payload, attributes, now, if key == "" then None else Some(key))])
    ensures forall i :: i in db.deliveries ==> i in db'.deliveries && db'.deliveries[i] == db.deliveries[i]
    ensures forall i :: i in db'.deliveries <==> i in db.deliveries || db.nextId < i < db'.nextId
  {
    hide Targets, NewRow;
    PublishFans(env, db, now, t, payload, attributes, key, db');
  }

  lemma PublishFans(env: Env, db: DB, now: Time, t: Id, payload: seq<Byte>, attributes: Attributes, key: string, db': DB)
    requires Valid(db) && Next(env, db, Event(now, PublishStep(t, payload, attributes, key)), db')
    ensures FannedOut(env, PublishMessage(At(db, now), t, payload, attributes, key), db', t, db.nextId)
  {
    hide FannedOut, FanOut;
    FanOutEffect(env, PublishMessage(At(db, now), t, payload, attributes, key), t, db.nextId);
  }

  /** The subscriptions that get a new delivery are exactly the live ones of the topic that have no filter, an
      empty one, or one that the message's attributes match. */
  lemma TargetLaw(env: Env, db: DB, now: Time, t: Id, payload: seq<Byte>, attributes: Attributes, key: string, db': DB, s: Id)
    requires Valid(db) && Next(env, db, Event(now, PublishStep(t, payload, attributes, key)), db')
    ensures (exists j :: j in db'.deliveries && j !in db.deliveries && db'.deliveries[j].subId == s) <==>
      && s in db.subs && db.subs[s].topicId == t && db.subs[s].deletedAt == None
      && (db.subs[s].filter == None || db.subs[s].filter == Some("")
          || env.evaluate(db.subs[s].filter.value, attributes) == Match)
    ensures forall j, k :: j in db'.deliveries && k in db'.deliveries && j !in db.deliveries && k !in db.deliveries && j < k ==>
      db'.deliveries[j].subId != db'.deliveries[k].subId
  {
    hide NewRow, Referenced, Linked;
    PublishFans(env, db, now, t, payload, attributes, key, db');
    var posted := PublishMessage(At(db, now), t, payload, attributes, key);
    if s in Targets(env, posted, t, db.nextId) {
      var j :| posted.nextId <= j < db'.nextId && db'.deliveries[j].subId == s;
      assert j !in db.deliveries;
    }
  }

  /** A new delivery is open, was never attempted, is due after the subscription's delivery delay and expires after
      its message lifetime. In an ordered subscription, a message with an order key is linked to the latest
      unexpired delivery of the subscription from the same topic, if there is one; nothing else is linked. */
  lemma NewRowLaw(env: Env, db: DB, now: Time, t: Id, payload: seq<Byte>, attributes: Attributes, key: string, db': DB,
                  j: Id, e: Id)
    requires Valid(db) && Next(env, db, Event(now, PublishStep(t, payload, attributes, key)), db')
    requires j in db'.deliveries && j !in db.deliveries
    ensures db'.deliveries[j].subId in db.subs
    ensures var d, sub := db'.deliveries[j], db.subs[db'.deliveries[j].subId];
      && d == Delivery(db.nextId, d.subId, now, now + sub.deliveryDelay, None, 0, None, now + sub.messageTTL, d.notBefore)
      && (d.notBefore != None ==> sub.ordered && key != "")
      && (sub.ordered && key != "" && e in db.deliveries && db.deliveries[e].subId == d.subId && now < db.deliveries[e].expiresAt
          && db.deliveries[e].messageId in db.messages && db.messages[db.deliveries[e].messageId].topicId == t ==>
            && d.notBefore != None && d.notBefore.value in db.deliveries
            && db.deliveries[e].publishedAt <= db.deliveries[d.notBefore.value].publishedAt)
      && (d.notBefore != None ==>
            var p := d.notBefore.value;
            && p in db.deliveries && db.deliveries[p].subId == d.subId && now < db.deliveries[p].expiresAt
            && db.deliveries[p].messageId in db.messages && db.messages[db.deliveries[p].messageId].topicId == t)
  {
    hide Referenced, Linked, Predecessor;
    PublishFans(env, db, now, t, payload, attributes, key, db');
    var posted := PublishMessage(At(db, now), t, payload, attributes, key);
    var s := db'.deliveries[j].subId;
    assert db'.deliveries[j] == NewRow(env, posted, s, db.nextId) && s in Targets(env, posted, t, db.nextId);
    PredecessorIsNewest(env, posted, s, t);
    MessagesBefore(db, now, t, payload, attributes, key, s, e);
  }

  /** The lookup sees the deliveries there were before the message. */
  lemma MessagesBefore(db: DB, now: Time, t: Id, payload: seq<Byte>, attributes: Attributes, key: string, s: Id, e: Id)
    requires Valid(db)
    ensures var posted := PublishMessage(At(db, now), t, payload, attributes, key);
      forall x :: x in Candidates(posted, s, t) <==>
        x in db.deliveries && db.deliveries[x].subId == s && now < db.deliveries[x].expiresAt
        && db.deliveries[x].messageId in db.messages && db.messages[db.deliveries[x].messageId].topicId == t
  {
  }

  // ---- Seeks ----

  /** After a seek to a time: what was published by then is completed; what was published later is open, renewed
      for its whole lifetime and due at once, if it had been completed; expired rows and other subscriptions'
      rows stay as they are. */
  lemma SeekToTimeLaw(env: Env, db: DB, now: Time, s: Id, time: Time, db': DB, i: Id)
    requires Next(env, db, Event(now, SeekToTimeStep(s, time)), db')
    ensures s in db.subs && db.subs[s].deletedAt == None
    ensures db' == db.(deliveries := db'.deliveries, clock := now) && db'.deliveries.Keys == db.deliveries.Keys
    ensures i in db.deliveries ==>
      var d := db.deliveries[i];
      db'.deliveries[i] ==
        if d.subId != s || d.expiresAt < now then d
        else if d.publishedAt <= time then (if d.completedAt == None then d.(completedAt := Some(now)) else d)
        else if d.completedAt == None then d
        else d.(completedAt := None, expiresAt := now + db.subs[s].messageTTL, attemptAt := now)
  {
    SeekToTimeSets(At(db, now), s, time);
  }

  /** After a snapshot seek: an unexpired row that was published before the snapshot's threshold or is on its list is
      completed; any other row that was completed, expired or not, is open, renewed for its whole lifetime and due
      at once. */
  lemma SeekToSnapshotLaw(env: Env, db: DB, now: Time, s: Id, p: Id, db': DB, i: Id)
    requires Next(env, db, Event(now, SeekToSnapshotStep(s, p)), db')
    ensures s in db.subs && db.subs[s].deletedAt == None && p in db.snapshots
    ensures db' == db.(deliveries := db'.deliveries, clock := now) && db'.deliveries.Keys == db.deliveries.Keys
    ensures i in db.deliveries ==>
      var d, snap := db.deliveries[i], db.snapshots[p];
      db'.deliveries[i] ==
        if d.subId != s then d
        else if d.publishedAt < snap.ackedMessagesBefore || d.messageId in snap.ackedMessageIds then
          if d.completedAt == None && now <= d.expiresAt then d.(completedAt := Some(now)) else d
        else if d.completedAt == None then d
        else d.(completedAt := None, expiresAt := now + db.subs[s].messageTTL, attemptAt := now)
  {
    SeekIsAtOnce(At(db, now), s, db.snapshots[p]);
  }

  /** So a row that a seek reopens can be pulled again at once, and for a whole lifetime. */
  lemma ReopenedIsDue(env: Env, db: DB, e: Event, db': DB, i: Id)
    requires Valid(db) && Next(env, db, e, db') && SeekStep(e.step) && i in db.deliveries && i in db'.deliveries
    requires db.deliveries[i].completedAt != None && db'.deliveries[i].completedAt == None
    ensures e.step.subId in db.subs && db.deliveries[i].subId == e.step.subId
    ensures db'.deliveries[i].attemptAt == e.now
    ensures db'.deliveries[i].expiresAt == e.now + db.subs[e.step.subId].messageTTL
  {
    hide Valid, Next;
    if e.step.SeekToTimeStep? {
      SeekToTimeLaw(env, db, e.now, e.step.subId, e.step.time, db', i);
    } else {
      SeekToSnapshotLaw(env, db, e.now, e.step.subId, e.step.snapId, db', i);
    }
  }

  // ---- Snapshots ----

  /** A snapshot lasts a week. Its threshold is the earliest publish time among the open unexpired rows of its
      subscription, or now when there is none. */
  lemma SnapshotLaw(env: Env, db: DB, now: Time, name: string, s: Id, db': DB)
    requires Next(env, db, Event(now, CreateSnapshotStep(name, s)), db')
    ensures s in db.subs && db.subs[s].deletedAt == None
    ensures forall p :: p in db.snapshots ==> db.snapshots[p].name != name
    ensures db.nextId in db'.snapshots
    ensures var snap := db'.snapshots[db.nextId];
      && db' == db.(snapshots := db.snapshots[db.nextId := snap], nextId := db.nextId + 1, clock := now)
      && snap == Snapshot(db.subs[s].topicId, name, now, now + 7 * 24 * 3600 * 1_000_000_000,
                          snap.ackedMessagesBefore, snap.ackedMessageIds)
      && (forall i :: i in db.deliveries && db.deliveries[i].subId == s && db.deliveries[i].completedAt == None ==>
            db.deliveries[i].expiresAt <= now || snap.ackedMessagesBefore <= db.deliveries[i].publishedAt)
      && ((snap.ackedMessagesBefore == now && snap.ackedMessageIds == {})
          || (exists i :: i in db.deliveries && db.deliveries[i].subId == s && db.deliveries[i].completedAt == None
                          && now < db.deliveries[i].expiresAt && db.deliveries[i].publishedAt == snap.ackedMessagesBefore))
  {
    var unacked := UnackedRows(At(db, now), s);
    assert forall i :: i in unacked <==>
      i in db.deliveries && db.deliveries[i].subId == s && db.deliveries[i].completedAt == None && now < db.deliveries[i].expiresAt;
  }

  /** If something is open, it lists exactly the topic's messages from the threshold on that have a completed
      delivery on the subscription. */
  lemma ListedLaw(env: Env, db: DB, now: Time, name: string, s: Id, db': DB, m: Id, o: Id)
    requires Next(env, db, Event(now, CreateSnapshotStep(name, s)), db')
    requires o in db.deliveries && db.deliveries[o].subId == s && db.deliveries[o].completedAt == None && now < db.deliveries[o].expiresAt
    ensures s in db.subs && db.nextId in db'.snapshots
    ensures var snap := db'.snapshots[db.nextId];
      m in snap.ackedMessageIds <==>
        && m in db.messages && db.messages[m].topicId == db.subs[s].topicId
        && snap.ackedMessagesBefore <= db.messages[m].publishedAt
        && exists i :: i in db.deliveries && db.deliveries[i].subId == s && db.deliveries[i].messageId == m
                       && db.deliveries[i].completedAt != None
  {
    assert o in UnackedRows(At(db, now), s);
  }

  // ---- Using and deleting ----

  /** Using a subscription moves its expiry to a lifetime from now, and nothing else. */
  lemma TouchLaw(env: Env, db: DB, now: Time, s: Id, db': DB)
    requires Next(env, db, Event(now, TouchStep(s)), db')
    ensures s in db.subs
    ensures db' == db.(clock := now, subs := db.subs[s := db.subs[s].(expiresAt := now + db.subs[s].ttl)])
  {
  }

  /** Deleting by name marks the live subscriptions of that name, of which there must be one, and nothing else. */
  lemma DeleteSubscriptionLaw(env: Env, db: DB, now: Time, name: string, db': DB)
    requires Next(env, db, Event(now, DeleteSubscriptionStep(name)), db')
    ensures exists s :: s in db.subs && db.subs[s].deletedAt == None && db.subs[s].name == name
    ensures db' == db.(clock := now, subs := db'.subs) && db'.subs.Keys == db.subs.Keys
    ensures forall s :: s in db.subs ==>
      db'.subs[s] == if db.subs[s].deletedAt == None && db.subs[s].name == name then db.subs[s].(deletedAt := Some(now)) else db.subs[s]
  {
    var s :| s in LiveSubsNamed(At(db, now), name);
  }

  /** The expiry job marks live subscriptions whose expiry has passed: all of them, unless there are more than it may
      take. */
  lemma DeleteExpiredLaw(env: Env, db: DB, now: Time, p: Prune, db': DB)
    requires Next(env, db, Event(now, DeleteExpiredSubscriptionsStep(p)), db')
    ensures db' == db.(clock := now, subs := db'.subs) && db'.subs.Keys == db.subs.Keys && |p.rows| <= p.maxDelete
    ensures forall s :: s in db.subs ==>
      && db'.subs[s] == (if s in p.rows then db.subs[s].(deletedAt := Some(now)) else db.subs[s])
      && (s in p.rows ==> db.subs[s].deletedAt == None && db.subs[s].expiresAt < now)
      && (db.subs[s].deletedAt == None && db.subs[s].expiresAt < now ==> s in p.rows || |p.rows| == p.maxDelete)
  {
  }

  /** Deleting a topic marks the live topics of that name, of which there must be one, and drops their snapshots. */
  lemma DeleteTopicLaw(env: Env, db: DB, now: Time, name: string, db': DB)
    requires Next(env, db, Event(now, DeleteTopicStep(name)), db')
    ensures exists t :: t in db.topics && db.topics[t].deletedAt == None && db.topics[t].name == name
    ensures db' == db.(clock := now, topics := db'.topics, snapshots := db'.snapshots) && db'.topics.Keys == db.topics.Keys
    ensures forall t :: t in db.topics ==>
      db'.topics[t] == if db.topics[t].deletedAt == None && db.topics[t].name == name then db.topics[t].(deletedAt := Some(now)) else db.topics[t]
    ensures forall p :: p in db.snapshots && db.snapshots[p].topicId in db.topics ==>
      var t := db.topics[db.snapshots[p].topicId];
      (p in db'.snapshots <==> !(t.deletedAt == None && t.name == name))
    ensures forall p :: p in db'.snapshots ==> p in db.snapshots && db'.snapshots[p] == db.snapshots[p]
  {
    var t :| t in LiveTopicsNamed(At(db, now), name);
  }

  // ---- Pruning ----

  /** The rows a prune of deliveries may take. */
  ghost predicate MayPrune(db: DB, now: Time, step: Step, i: Id)
    requires i in db.deliveries && db.deliveries[i].subId in db.subs
  {
    match step
    case PruneCompletedDeliveriesStep(p) =>
      db.deliveries[i].completedAt != None && db.deliveries[i].completedAt.value <= now - p.minAge
    case PruneExpiredDeliveriesStep(p) => db.deliveries[i].expiresAt < now
    case PruneDeletedSubscriptionDeliveriesStep(p) =>
      db.subs[db.deliveries[i].subId].deletedAt != None && db.subs[db.deliveries[i].subId].deletedAt.value <= now - p.minAge
    case _ => false
  }

  /** A prune of deliveries removes rows completed long enough ago, expired, or of subscriptions deleted long enough
      ago: all of them, unless there are more than it may take. It unlinks the rows that waited for them, and changes
      nothing else. */
  lemma PruneDeliveriesLaw(env: Env, db: DB, e: Event, db': DB, i: Id)
    requires Valid(db) && Next(env, db, e, db') && i in db.deliveries
    requires e.step.PruneCompletedDeliveriesStep? || e.step.PruneExpiredDeliveriesStep? || e.step.PruneDeletedSubscriptionDeliveriesStep?
    ensures db' == db.(clock := e.now, deliveries := db'.deliveries) && db'.deliveries.Keys <= db.deliveries.Keys
    ensures |e.step.prune.rows| <= e.step.prune.maxDelete
    ensures db.deliveries[i].subId in db.subs
    ensures i !in db'.deliveries <==> i in e.step.prune.rows
    ensures i !in db'.deliveries ==> MayPrune(db, e.now, e.step, i)
    ensures MayPrune(db, e.now, e.step, i) ==> i !in db'.deliveries || |e.step.prune.rows| == e.step.prune.maxDelete
    ensures i in db'.deliveries ==>
      db'.deliveries[i] == if db.deliveries[i].notBefore != None && db.deliveries[i].notBefore.value !in db'.deliveries
                           then db.deliveries[i].(notBefore := None) else db.deliveries[i]
  {
    hide Referenced, Numbered;
  }

  /** Old messages without deliveries, subscriptions deleted long enough ago without deliveries, and topics deleted long
      enough ago without subscriptions, messages and snapshots, are removed: all of them, unless there are more than
      may be taken; a removed topic is nobody's dead-letter topic any more. */
  lemma PruneMessagesLaw(env: Env, db: DB, now: Time, p: Prune, db': DB, m: Id)
    requires Next(env, db, Event(now, PruneCompletedMessagesStep(p)), db') && m in db.messages
    ensures db' == db.(clock := now, messages := db'.messages) && |p.rows| <= p.maxDelete
    ensures m in db'.messages ==> db'.messages[m] == db.messages[m]
    ensures m !in db'.messages <==> m in p.rows
    ensures var prunable := db.messages[m].publishedAt <= now - p.minAge
        && forall i :: i in db.deliveries ==> db.deliveries[i].messageId != m;
      (m in p.rows ==> prunable) && (prunable ==> m in p.rows || |p.rows| == p.maxDelete)
  {
  }

  lemma PruneSubscriptionsLaw(env: Env, db: DB, now: Time, p: Prune, db': DB, s: Id)
    requires Next(env, db, Event(now, PruneDeletedSubscriptionsStep(p)), db') && s in db.subs
    ensures db' == db.(clock := now, subs := db'.subs) && |p.rows| <= p.maxDelete
    ensures s in db'.subs ==> db'.subs[s] == db.subs[s]
    ensures s !in db'.subs <==> s in p.rows
    ensures var prunable := db.subs[s].deletedAt != None && db.subs[s].deletedAt.value <= now - p.minAge
        && forall i :: i in db.deliveries ==> db.deliveries[i].subId != s;
      (s in p.rows ==> prunable) && (prunable ==> s in p.rows || |p.rows| == p.maxDelete)
  {
  }

  lemma PruneTopicsLaw(env: Env, db: DB, now: Time, p: Prune, db': DB, t: Id)
    requires Next(env, db, Event(now, PruneDeletedTopicsStep(p)), db') && t in db.topics
    ensures db' == db.(clock := now, topics := db'.topics, subs := db'.subs) && |p.rows| <= p.maxDelete
    ensures t in db'.topics ==> db'.topics[t] == db.topics[t]
    ensures t !in db'.topics <==> t in p.rows
    ensures db'.subs.Keys == db.subs.Keys && forall s :: s in db.subs ==>
      db'.subs[s] == if db.subs[s].deadLetterTopicId != None && db.subs[s].deadLetterTopicId.value in p.rows
                     then db.subs[s].(deadLetterTopicId := None) else db.subs[s]
    ensures var prunable := db.topics[t].deletedAt != None && db.topics[t].deletedAt.value <= now - p.minAge
        && forall s :: s in db.subs ==> db.subs[s].topicId != t;
      (t in p.rows ==> prunable) && (prunable ==> t in p.rows || |p.rows| == p.maxDelete)
    ensures t in p.rows ==>
      (forall m :: m in db.messages ==> db.messages[m].topicId != t) && (forall x :: x in db.snapshots ==> db.snapshots[x].topicId != t)
  {
  }

  // ---- Creating ----

  /** A topic's name must not be taken by a live one; the new topic is live and the only change. */
  lemma CreateTopicLaw(env: Env, db: DB, now: Time, name: string, db': DB)
    requires Next(env, db, Event(now, CreateTopicStep(name)), db')
    ensures forall t :: t in db.topics && db.topics[t].deletedAt == None ==> db.topics[t].name != name
    ensures db' == db.(clock := now, topics := db.topics[db.nextId := Topic(name, None)], nextId := db.nextId + 1)
  {
    assert forall t :: t in db.topics ==> t !in LiveTopicsNamed(At(db, now), name);
  }

  lemma CreateSubscriptionLaw(env: Env, db: DB, now: Time, sub: Subscription, db': DB)
    requires Next(env, db, Event(now, CreateSubscriptionStep(sub)), db')
    ensures forall s :: s in db.subs && db.subs[s].deletedAt == None ==> db.subs[s].name != sub.name
    ensures sub.topicId in db.topics && db.topics[sub.topicId].deletedAt == None && sub.deletedAt == None
    ensures sub.expiresAt == now + sub.ttl > now && sub.messageTTL > 0
    ensures if sub.deadLetterTopicId == None then sub.maxDeliveryAttempts == None
            else sub.maxDeliveryAttempts != None && sub.maxDeliveryAttempts.value > 0
                 && sub.deadLetterTopicId.value in db.topics && db.topics[sub.deadLetterTopicId.value].deletedAt == None
    ensures db' == db.(clock := now, subs := db.subs[db.nextId := sub], nextId := db.nextId + 1)
  {
    assert forall s :: s in db.subs ==> s !in LiveSubsNamed(At(db, now), sub.name);
  }
}
