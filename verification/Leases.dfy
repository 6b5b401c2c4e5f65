/** Leases and backoff over whole runs: how far apart the hand-outs of one delivery are. */
module Leases {
  import opened Types
  import opened Backoff
  import opened Actions
  import opened Effects
  import opened Runs
  import Ordering

  /** No seek of the subscription, and no delay of zero or less for its rows: nothing gives up a
      lease early. Nacks and positive delays are fine. */
  ghost predicate Patient(db: DB, step: Step, subId: Id) {
    && (step.SeekToTimeStep? || step.SeekToSnapshotStep? ==> step.subId != subId)
    && (step.DelayStep? && step.delay <= 0 ==> forall i :: i in step.ids ==> !Ordering.Of(db, subId, i))
  }

  /** The row waits at least the lease of its attempt count after its latest hand-out. */
  predicate Leased(env: Env, sub: Subscription, d: Delivery, now: Time) {
    if d.attempts == 0 then d.lastAttemptedAt.None?
    else d.lastAttemptedAt.Some? && d.lastAttemptedAt.value <= now
         && d.lastAttemptedAt.value + Lease(env, d.subId, sub, d.attempts) <= d.attemptAt
  }

  ghost predicate LeaseInv(env: Env, db: DB, subId: Id, sub: Subscription) {
    && subId < db.nextId
    && (subId in db.subs ==> db.subs[subId].minBackoff == sub.minBackoff && db.subs[subId].maxBackoff == sub.maxBackoff)
    && forall i :: Ordering.Of(db, subId, i) ==> Leased(env, sub, db.deliveries[i], db.clock)
  }

  /** Leases depend on the backoff settings alone. */
  lemma SameLease(env: Env, subId: Id, s: Subscription, t: Subscription, attempts: nat)
    requires s.minBackoff == t.minBackoff && s.maxBackoff == t.maxBackoff
    ensures NextDelayFor(env, subId, s, attempts) == NextDelayFor(env, subId, t, attempts)
  {
  }

  lemma RowKeepsLease(env: Env, db: DB, step: Step, db': DB, subId: Id, sub: Subscription, i: Id)
    requires Rooted(db) && LeaseInv(env, db, subId, sub) && Patient(db, step, subId)
    requires Ordering.Of(db, subId, i) && i in db'.deliveries && RowStep(env, db, step, db', i)
    ensures Leased(env, sub, db'.deliveries[i], db.clock)
  {
    hide NextDelayFor, DueRows, DeadLetterRows;
    var d, s := db.deliveries[i], db.subs[subId];
    SameLease(env, subId, s, sub, d.attempts);
    SameLease(env, subId, s, sub, d.attempts + 1);
    assert !MayReopen(db, step, i);
  }

  lemma StepKeepsLeases(env: Env, db: DB, e: Event, db': DB, subId: Id, sub: Subscription)
    requires Valid(db) && Next(env, db, e, db') && LeaseInv(env, db, subId, sub)
    requires Patient(At(db, e.now), e.step, subId)
    ensures Valid(db') && LeaseInv(env, db', subId, sub)
  {
    hide Valid, Enabled, Patient, RowStep, NextDelayFor;
    var pre := At(db, e.now);
    StepKeepsValid(env, db, e, db');
    assert LeaseInv(env, pre, subId, sub) by {
      forall i | Ordering.Of(pre, subId, i) ensures Leased(env, sub, pre.deliveries[i], pre.clock) {
        assert Ordering.Of(db, subId, i);
      }
    }
    if subId in db'.subs && subId in pre.subs {
      assert SubKept(pre, pre.subs[subId], db'.subs[subId], db');
    }
    forall i | Ordering.Of(db', subId, i) ensures Leased(env, sub, db'.deliveries[i], db'.clock) {
      if i in db.deliveries {
        RowKeeps(env, pre, e.step, db', i);
        RowKeepsLease(env, pre, e.step, db', subId, sub, i);
      } else {
        assert FreshRow(env, pre, db', i);
      }
    }
  }

  ghost predicate PatientRun(dbs: seq<DB>, events: seq<Event>, subId: Id)
    requires |dbs| == |events| + 1
  {
    forall k :: 0 <= k < |events| ==> Patient(At(dbs[k], events[k].now), events[k].step, subId)
  }

  /** The times at which a run hands delivery `i` out. */
  ghost function HandOutTimes(dbs: seq<DB>, events: seq<Event>, i: Id): seq<Time>
    requires |dbs| == |events| + 1
    decreases |events|
  {
    if events == [] then [] else
      var n := |events| - 1;
      var times := HandOutTimes(dbs[..|dbs| - 1], events[..n], i);
      if Ordering.HandsOut(dbs[n], dbs[n + 1], i) then times + [events[n].now] else times
  }

  /** Hand-out number m + 1 comes no sooner than a lease after number m. */
  predicate Spaced(env: Env, subId: Id, sub: Subscription, times: seq<Time>) {
    forall m :: 1 <= m < |times| ==> times[m - 1] + Lease(env, subId, sub, m) <= times[m]
  }

  /** The hand-out times so far, as the row itself records them. */
  ghost predicate Recorded(db: DB, i: Id, times: seq<Time>) {
    && i < db.nextId
    && (i in db.deliveries ==>
          && db.deliveries[i].attempts == |times|
          && (times != [] ==> db.deliveries[i].lastAttemptedAt == Some(times[|times| - 1])))
  }

  lemma StepRecords(env: Env, db: DB, e: Event, db': DB, subId: Id, sub: Subscription, i: Id, times: seq<Time>)
    requires Valid(db) && Next(env, db, e, db') && LeaseInv(env, db, subId, sub)
    requires Recorded(db, i, times) && Spaced(env, subId, sub, times)
    requires i in db.deliveries ==> db.deliveries[i].subId == subId
    ensures var times' := if Ordering.HandsOut(db, db', i) then times + [e.now] else times;
      Recorded(db', i, times') && Spaced(env, subId, sub, times')
    ensures i in db'.deliveries ==> i in db.deliveries && db'.deliveries[i].subId == subId
  {
    hide Valid, Enabled, Apply, Lease, RowStep, FreshRow, SubsEffect, MessagesEffect, TopicsEffect, SnapshotsEffect, Spaced;
    var pre := At(db, e.now);
    ClockKeepsValid(db, e.now);
    StepKeepsValid(env, db, e, db');
    NotReborn(env, pre, e.step, db', i);
    if i in db'.deliveries {
      assert Ordering.Of(db, subId, i);
      RowKeeps(env, pre, e.step, db', i);
      StepCounts(env, pre, e.step, db', subId, sub, i);
      SpacedNext(env, subId, sub, times, db.deliveries[i], e.now);
    }
  }

  /** A row whose lease is over by `now` may be handed out now. */
  lemma SpacedNext(env: Env, subId: Id, sub: Subscription, times: seq<Time>, d: Delivery, now: Time)
    requires Spaced(env, subId, sub, times) && d.subId == subId && d.attempts == |times|
    requires times != [] ==> d.lastAttemptedAt == Some(times[|times| - 1])
    requires d.attempts > 0 ==>
      d.lastAttemptedAt.Some? && d.lastAttemptedAt.value + Lease(env, subId, sub, d.attempts) <= d.attemptAt
    ensures d.attemptAt <= now ==> Spaced(env, subId, sub, times + [now])
  {
    hide Lease;
  }

  /** A step either hands the row out, one attempt more and now, or leaves its count alone. */
  lemma StepCounts(env: Env, db: DB, step: Step, db': DB, subId: Id, sub: Subscription, i: Id)
    requires Rooted(db) && i in db.deliveries && i in db'.deliveries && RowStep(env, db, step, db', i)
    ensures var d, d' := db.deliveries[i], db'.deliveries[i];
      if d'.attempts > d.attempts
      then d'.attempts == d.attempts + 1 && d'.lastAttemptedAt == Some(db.clock) && d.attemptAt <= db.clock
      else d'.attempts == d.attempts && d'.lastAttemptedAt == d.lastAttemptedAt
  {
    hide NextDelayFor, DeadLetterRows;
  }

  lemma {:induction false} RunSpaced(env: Env, dbs: seq<DB>, events: seq<Event>, subId: Id, sub: Subscription, i: Id)
    requires Run(env, dbs, events) && Valid(dbs[0]) && LeaseInv(env, dbs[0], subId, sub)
    requires PatientRun(dbs, events, subId)
    requires Ordering.Of(dbs[0], subId, i) && dbs[0].deliveries[i].attempts == 0
    ensures var times, last := HandOutTimes(dbs, events, i), dbs[|dbs| - 1];
      && Valid(last) && LeaseInv(env, last, subId, sub)
      && Recorded(last, i, times) && Spaced(env, subId, sub, times)
      && (i in last.deliveries ==> last.deliveries[i].subId == subId)
  {
    hide Valid, LeaseInv, Enabled, Next, Recorded, Spaced, Patient;
    if events == [] {
      assert Recorded(dbs[0], i, []) && Spaced(env, subId, sub, []) by { FreshlyRecorded(env, dbs[0], subId, sub, i); }
    } else {
      var n := |events| - 1;
      RunFront(env, dbs, events);
      RunSpaced(env, dbs[..|dbs| - 1], events[..n], subId, sub, i);
      var times := HandOutTimes(dbs[..|dbs| - 1], events[..n], i);
      assert dbs[..|dbs| - 1][n] == dbs[n];
      StepKeepsLeases(env, dbs[n], events[n], dbs[n + 1], subId, sub);
      StepRecords(env, dbs[n], events[n], dbs[n + 1], subId, sub, i, times);
    }
  }

  lemma FreshlyRecorded(env: Env, db: DB, subId: Id, sub: Subscription, i: Id)
    requires Valid(db) && i in db.deliveries && db.deliveries[i].attempts == 0
    ensures Recorded(db, i, []) && Spaced(env, subId, sub, [])
  {
  }

  /** The nominal delays after hand-outs 1, 2, ..., n. */
  function TotalDelay(env: Env, subId: Id, sub: Subscription, n: nat): Duration {
    if n == 0 then 0 else TotalDelay(env, subId, sub, n - 1) + NextDelayFor(env, subId, sub, n).nominal
  }

  lemma {:induction false} SpacedTotal(env: Env, subId: Id, sub: Subscription, times: seq<Time>, n: nat)
    requires Spaced(env, subId, sub, times) && n < |times|
    ensures times[0] + TotalDelay(env, subId, sub, n) <= times[n]
  {
    if n > 0 {
      SpacedTotal(env, subId, sub, times, n - 1);
      DelayBounds(env, subId, sub, n);
    }
  }

  /** In every patient run, n + 1 hand-outs of one delivery take at least the sum of the backoff
      delays after the first n of them. */
  lemma {:induction false} BackoffOverRun(env: Env, dbs: seq<DB>, events: seq<Event>, subId: Id, sub: Subscription, i: Id, n: nat)
    requires Run(env, dbs, events) && Valid(dbs[0]) && LeaseInv(env, dbs[0], subId, sub)
    requires PatientRun(dbs, events, subId)
    requires Ordering.Of(dbs[0], subId, i) && dbs[0].deliveries[i].attempts == 0
    requires n < |HandOutTimes(dbs, events, i)|
    ensures HandOutTimes(dbs, events, i)[0] + TotalDelay(env, subId, sub, n) <= HandOutTimes(dbs, events, i)[n]
  {
    RunSpaced(env, dbs, events, subId, sub, i);
    SpacedTotal(env, subId, sub, HandOutTimes(dbs, events, i), n);
  }
}
