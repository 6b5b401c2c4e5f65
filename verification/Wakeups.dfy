/** Why a waiting pull misses nothing: which subscriptions each action wakes when it commits, and how
    long a pull may sleep when it found nothing to deliver. */
module Wakeups {
  import opened Types
  import opened Backoff
  import opened DeliveryUtils
  import opened Actions
  import opened Effects
  import opened StepEffects
  import opened Runs
  import opened Ordering

  // ---- How long a pull may sleep ----

  ghost predicate IsFirst(db: DB, rows: set<Id>, i: Id)
    requires rows <= db.deliveries.Keys
  {
    i in rows && forall j :: j in rows ==> db.deliveries[i].attemptAt <= db.deliveries[j].attemptAt
  }

  /** The attempt time of the first row, or the expiry of the second if that is sooner. */
  function Sooner(db: DB, f: Id, g: Id): Time
    requires f in db.deliveries && g in db.deliveries
  {
    if db.deliveries[g].expiresAt < db.deliveries[f].attemptAt then db.deliveries[g].expiresAt
    else db.deliveries[f].attemptAt
  }

  /** The result of `nextAttempt`: two queries, both in order of attempt time, the first read for its
      attempt time and the second for its expiry. */
  ghost predicate WakeTime(db: DB, subId: Id, wake: Option<Time>)
    requires subId in db.subs
  {
    var rows := EligibleRows(db, subId);
    match wake
    case None => rows == {}
    case Some(t) => exists f, g :: IsFirst(db, rows, f) && IsFirst(db, rows, g) && t == Sooner(db, f, g)
  }

  /** The pull never sleeps past the due time of a delivery that is eligible when it goes to sleep, and
      sleeps without a timer only when there is none. */
  lemma NeverOversleeps(db: DB, subId: Id, wake: Option<Time>)
    requires subId in db.subs && WakeTime(db, subId, wake)
    ensures wake.None? <==> EligibleRows(db, subId) == {}
    ensures wake.Some? ==> forall i :: i in EligibleRows(db, subId) ==> wake.value <= db.deliveries[i].attemptAt
  {
  }

  /** A pending row that its ordering holds back. */
  ghost predicate Blocked(db: DB, subId: Id, i: Id)
    requires subId in db.subs
  {
    Of(db, subId, i) && db.deliveries[i].Pending(db.clock) && OrderBlocked(db, db.subs[subId], db.deliveries[i])
  }

  function Later(s: Time, t: Time): Time {
    if s < t then t else s
  }

  /** When the row becomes due if nobody acts: once its predecessor has expired and its own time has come. */
  function FreeAt(db: DB, i: Id): Time
    requires i in db.deliveries && db.deliveries[i].notBefore.Some? && db.deliveries[i].notBefore.value in db.deliveries
  {
    Later(Later(db.deliveries[db.deliveries[i].notBefore.value].expiresAt, db.deliveries[i].attemptAt), db.clock)
  }

  /** The row becomes due, and is not yet expired, while a pull sleeps until `wake`. */
  ghost predicate Overslept(db: DB, subId: Id, i: Id, wake: Time)
    requires subId in db.subs
  {
    && Blocked(db, subId, i)
    && db.deliveries[i].notBefore.value in db.deliveries
    && FreeAt(db, i) < wake
    && FreeAt(db, i) < db.deliveries[i].expiresAt
  }

  /** Exactly when a pull that nobody disturbs sleeps past no due delivery at all, those that were blocked
      when it went to sleep included: when none of them becomes free, due and unexpired before the wake
      time. In an unordered subscription none is blocked. */
  lemma SleepsWell(db: DB, subId: Id, wake: Time)
    requires Valid(db) && subId in db.subs && WakeTime(db, subId, Some(wake))
    ensures (forall now :: db.clock <= now < wake ==> DueRows(At(db, now), subId) == {})
       <==> (forall i: Id :: !Overslept(db, subId, i, wake))
  {
    if i: Id :| Overslept(db, subId, i, wake) {
      assert i in DueRows(At(db, FreeAt(db, i)), subId);
    } else {
      forall now | db.clock <= now < wake ensures DueRows(At(db, now), subId) == {} {
        forall i | i in DueRows(At(db, now), subId) ensures false {
          DueWasBlocked(db, subId, i, now, wake);
        }
      }
    }
  }

  lemma DueWasBlocked(db: DB, subId: Id, i: Id, now: Time, wake: Time)
    requires Valid(db) && subId in db.subs && WakeTime(db, subId, Some(wake)) && db.clock <= now < wake
    requires i in DueRows(At(db, now), subId)
    ensures Overslept(db, subId, i, wake)
  {
    assert i !in EligibleRows(db, subId);
  }

  // ---- Who is woken ----

  /** Subscriptions of the rows that a step adds: `deliverToSubscription` announces each. */
  function Announces(db: DB, db': DB): set<Id> {
    set j | j in db'.deliveries && j !in db.deliveries :: db'.deliveries[j].subId
  }

  /** Subscriptions of the rows a step completes, by an ack or as dead letters. */
  function Completes(db: DB, db': DB): set<Id> {
    set i | i in db.deliveries && i in db'.deliveries && !db.deliveries[i].Completed() && db'.deliveries[i].Completed()
      :: db.deliveries[i].subId
  }

  /** The subscriptions whose waiters are woken when the step commits. A nack that merely reschedules
      is not among the steps that wake. */
  function Wakes(db: DB, step: Step, db': DB): set<Id> {
    Announces(db, db') +
    (match step
     case AckStep(_) => Completes(db, db')
     case NackStep(_, _) => Completes(db, db')
     case PullStep(_, _, _) => Completes(db, db')
     case DeadLetterStep(_, _) => Completes(db, db')
     case DelayStep(ids, delay) =>
       if delay <= 0 then set i | i in ids && i in db.deliveries && !db.deliveries[i].Completed() :: db.deliveries[i].subId
       else {}
     case SeekToTimeStep(s, _) => if db'.deliveries != db.deliveries then {s} else {}
     case SeekToSnapshotStep(s, _) => if db'.deliveries != db.deliveries then {s} else {}
     case PruneExpiredDeliveriesStep(p) =>
       set i | i in p.rows && i in db.deliveries && db.deliveries[i].subId in db.subs
         && db.subs[db.deliveries[i].subId].ordered :: db.deliveries[i].subId
     case CreateSubscriptionStep(_) => {db.nextId}
     case DeleteSubscriptionStep(name) => LiveSubsNamed(db, name)
     case DeleteExpiredSubscriptionsStep(p) => p.rows
     case _ => {})
  }

  /** A nack that brings the next attempt of a row of the subscription forward. */
  ghost predicate Hastens(db: DB, step: Step, db': DB, subId: Id) {
    step.NackStep? && exists i: Id :: Hastened(db, db', subId, i)
  }

  ghost predicate Hastened(db: DB, db': DB, subId: Id, i: Id) {
    Of(db, subId, i) && i in db'.deliveries && db'.deliveries[i].attemptAt < db.deliveries[i].attemptAt
  }

  /** What a step may do to a row of a live subscription without waking it and without a nack hastening
      its rows: nothing but postpone its next attempt or hand it out. */
  predicate Postponed(d: Delivery, d': Delivery) {
    && d'.Completed() == d.Completed()
    && d'.expiresAt == d.expiresAt
    && d.attemptAt <= d'.attemptAt
  }

  lemma LeasePositive(env: Env, subId: Id, sub: Subscription, attempts: nat)
    ensures Lease(env, subId, sub, attempts) >= 0
  {
    DelayBounds(env, subId, sub, attempts);
  }

  /** Wakes are complete: when a step does not wake a subscription, it gives it no new row, completes
      and reopens none, and only ever postpones attempts. A nack that hastens a row is the one exception. */
  lemma SilentStep(env: Env, db: DB, step: Step, db': DB, subId: Id, i: Id)
    requires Rooted(db) && RowsEffect(env, db, step, db') && subId !in Wakes(db, step, db') && !Hastens(db, step, db', subId)
    requires Of(db', subId, i)
    ensures Of(db, subId, i) && Postponed(db.deliveries[i], db'.deliveries[i])
  {
    hide RowStep, FreshRow;
    NotAnnounced(db, db', subId, i);
    RowKeeps(env, db, step, db', i);
    SilentRow(env, db, step, db', subId, i);
  }

  lemma NotAnnounced(db: DB, db': DB, subId: Id, i: Id)
    requires subId !in Announces(db, db') && Of(db', subId, i)
    ensures i in db.deliveries
  {
  }

  lemma SilentRow(env: Env, db: DB, step: Step, db': DB, subId: Id, i: Id)
    requires Rooted(db) && Of(db, subId, i) && i in db'.deliveries && RowStep(env, db, step, db', i)
    requires subId !in Wakes(db, step, db') && !Hastens(db, step, db', subId)
    ensures Postponed(db.deliveries[i], db'.deliveries[i])
  {
    hide Wakes, Lease, NextDelayFor, DeadLetterRows, EligibleRows, LinkKept;
    var d, d' := db.deliveries[i], db'.deliveries[i];
    LeasePositive(env, subId, db.subs[subId], d.attempts + 1);
    if d'.Completed() != d.Completed() {
      AckedIsWoken(env, db, step, db', subId, i);
    } else if d'.attemptAt < d.attemptAt {
      assert Hastened(db, db', subId, i);
      ReleasedIsWoken(env, db, step, db', subId, i);
    }
  }

  /** Completing or reopening a row wakes its subscription. */
  lemma AckedIsWoken(env: Env, db: DB, step: Step, db': DB, subId: Id, i: Id)
    requires Rooted(db) && Of(db, subId, i) && i in db'.deliveries && RowStep(env, db, step, db', i)
    requires db'.deliveries[i].Completed() != db.deliveries[i].Completed()
    ensures subId in Wakes(db, step, db')
  {
    hide RowStep, Announces, LiveSubsNamed;
    CompletingSteps(env, db, step, db', i);
    if db'.deliveries[i].Completed() {
      assert subId in Completes(db, db');
    }
  }

  lemma CompletingSteps(env: Env, db: DB, step: Step, db': DB, i: Id)
    requires i in db.deliveries && db.deliveries[i].subId in db.subs && i in db'.deliveries && RowStep(env, db, step, db', i)
    requires db'.deliveries[i].Completed() != db.deliveries[i].Completed()
    ensures if db'.deliveries[i].Completed()
            then step.AckStep? || step.NackStep? || step.PullStep? || step.DeadLetterStep?
                 || (SeekStep(step) && step.subId == db.deliveries[i].subId)
            else SeekStep(step) && step.subId == db.deliveries[i].subId
  {
    hide Lease, NextDelayFor, EligibleRows, DeadLetterRows, LinkKept;
  }

  /** So does releasing it before its time, unless a nack does it. */
  lemma ReleasedIsWoken(env: Env, db: DB, step: Step, db': DB, subId: Id, i: Id)
    requires Rooted(db) && Of(db, subId, i) && i in db'.deliveries && RowStep(env, db, step, db', i)
    requires db'.deliveries[i].Completed() == db.deliveries[i].Completed()
    requires Hastened(db, db', subId, i) && !Hastens(db, step, db', subId)
    ensures subId in Wakes(db, step, db')
  {
    hide Announces, Completes, Lease, NextDelayFor, EligibleRows, DeadLetterRows, LiveSubsNamed, LinkKept;
    LeasePositive(env, subId, db.subs[subId], db.deliveries[i].attempts + 1);
  }

  /** A live subscription that a step deletes is woken. */
  lemma SilentStaysLive(env: Env, db: DB, e: Event, db': DB, subId: Id)
    requires Valid(db) && Next(env, db, e, db') && LiveSub(db, subId)
    requires subId !in Wakes(At(db, e.now), e.step, db')
    ensures LiveSub(db', subId)
  {
    hide Valid, RowsEffect, Announces, Completes;
    StepKeepsValid(env, db, e, db');
    assert SubsEffect(At(db, e.now), e.step, db');
  }

  /** The exception, exactly: nacking a row that is not exhausted wakes nobody, yet it brings the next
      attempt forward whenever the lease ends before the time the row was delayed to. */
  lemma RescheduleIsSilent(env: Env, db: DB, i: Id)
    requires Valid(db) && i in db.deliveries && db.deliveries[i].Pending(db.clock)
    requires !db.subs[db.deliveries[i].subId].Exhausted(db.deliveries[i].attempts)
    ensures var step, db' := NackStep({i}, [i]), Nack(env, db, [i]);
      && Enabled(db, step) && Apply(env, db, step) == db'
      && Wakes(db, step, db') == {}
      && i in db'.deliveries
      && (Postponed(db.deliveries[i], db'.deliveries[i]) <==>
            db.deliveries[i].attemptAt <=
              db.clock + Lease(env, db.deliveries[i].subId, db.subs[db.deliveries[i].subId], db.deliveries[i].attempts))
  {
    hide Nack, Lease, Linked, Referenced, Numbered;
    NackReschedules(env, db, i);
    var db' := Nack(env, db, [i]);
    assert Elements([i]) == NackRows(db, {i});
    assert Announces(db, db') == {} && Completes(db, db') == {};
  }

  lemma NackReschedules(env: Env, db: DB, i: Id)
    requires Rooted(db) && i in db.deliveries
    requires !db.subs[db.deliveries[i].subId].Exhausted(db.deliveries[i].attempts)
    ensures var d := db.deliveries[i];
      Nack(env, db, [i]) ==
        db.(deliveries := db.deliveries[i := d.(attemptAt := db.clock + Lease(env, d.subId, db.subs[d.subId], d.attempts))])
  {
    hide Lease;
    var acts := NackActs(env, db, [i]);
    assert acts[..|acts| - 1] == [];
    assert Batch(env, db, acts) == ApplyAct(env, Batch(env, db, []), acts[0]);
  }

  // ---- A parked pull misses nothing ----

  /** Nothing of the run so far has woken the waiters of the subscription, or hastened its rows. */
  ghost predicate SilentRun(dbs: seq<DB>, events: seq<Event>, subId: Id)
    requires |dbs| == |events| + 1
  {
    forall k :: 0 <= k < |events| ==>
      && subId !in Wakes(At(dbs[k], events[k].now), events[k].step, dbs[k + 1])
      && !Hastens(At(dbs[k], events[k].now), events[k].step, dbs[k + 1], subId)
  }

  /** The row was there before, has at most been postponed, and is linked as before while the row it was
      linked to is there. */
  ghost predicate RowWaits(db0: DB, db: DB, subId: Id, i: Id)
    requires i in db.deliveries
  {
    && Of(db0, subId, i)
    && Postponed(db0.deliveries[i], db.deliveries[i])
    && (db0.deliveries[i].notBefore.Some? && db0.deliveries[i].notBefore.value in db.deliveries ==>
          db.deliveries[i].notBefore == db0.deliveries[i].notBefore)
  }

  /** What silence keeps: no rows but postponed old ones, and in an ordered subscription all open ones. */
  ghost predicate StillWaits(db0: DB, db: DB, subId: Id)
    requires subId in db0.subs
  {
    && LiveSub(db, subId) && db0.nextId <= db.nextId
    && db.subs[subId].ordered == db0.subs[subId].ordered
    && (forall i :: Of(db, subId, i) ==> RowWaits(db0, db, subId, i))
    && (db0.subs[subId].ordered ==> forall p :: Of(db0, subId, p) && !db0.deliveries[p].Completed() ==> Of(db, subId, p))
  }

  lemma RootedIfValid(db: DB)
    requires Valid(db)
    ensures Rooted(db)
  {
  }

  /** In silence an ordered live subscription keeps its open rows: pruning an expired one would wake it. */
  lemma OpenRowStays(env: Env, db: DB, e: Event, db': DB, subId: Id, p: Id)
    requires Valid(db) && Next(env, db, e, db') && LiveSub(db, subId) && db.subs[subId].ordered
    requires subId !in Wakes(At(db, e.now), e.step, db') && Of(db, subId, p) && !db.deliveries[p].Completed()
    ensures Of(db', subId, p)
  {
    hide Valid, Enabled, Apply, RowStep, FreshRow, TablesEffect, Wakes, MayVanish;
    var pre := At(db, e.now);
    ClockKeepsValid(db, e.now);
    StepKeepsValid(env, db, e, db');
    RootedIfValid(pre);
    if p in db'.deliveries {
      RowKeeps(env, pre, e.step, db', p);
    } else {
      assert MayVanish(pre, e.step, p);
      PrunedIsWoken(env, pre, e.step, db', subId, p);
    }
  }

  lemma PrunedIsWoken(env: Env, db: DB, step: Step, db': DB, subId: Id, p: Id)
    requires Rooted(db) && Enabled(db, step) && db' == Apply(env, db, step) && LiveSub(db, subId) && db.subs[subId].ordered
    requires Of(db, subId, p) && !db.deliveries[p].Completed() && p !in db'.deliveries && MayVanish(db, step, p)
    ensures subId in Wakes(db, step, db')
  {
    hide Announces, Completes, Pull, Publish, Nack, Batch;
    assert step.PruneExpiredDeliveriesStep? && p in step.prune.rows;
  }

  lemma RowStillWaits(env: Env, db0: DB, db: DB, e: Event, db': DB, subId: Id, i: Id)
    requires Valid(db0) && Valid(db) && Next(env, db, e, db') && subId in db0.subs && StillWaits(db0, db, subId)
    requires subId !in Wakes(At(db, e.now), e.step, db') && !Hastens(At(db, e.now), e.step, db', subId)
    requires Of(db', subId, i)
    ensures RowWaits(db0, db', subId, i)
  {
    hide Valid, Enabled, Apply, RowStep, FreshRow, TablesEffect, Wakes, Hastens;
    var pre := At(db, e.now);
    ClockKeepsValid(db, e.now);
    StepKeepsValid(env, db, e, db');
    RootedIfValid(pre);
    SilentStep(env, pre, e.step, db', subId, i);
    assert Of(db, subId, i);
    RowKeeps(env, pre, e.step, db', i);
    var link := db0.deliveries[i].notBefore;
    if link.Some? && link.value in db'.deliveries {
      LinkedWithin(db0, subId, i);
      NotReborn(env, pre, e.step, db', link.value);
    }
  }

  lemma LinkedWithin(db: DB, subId: Id, i: Id)
    requires Valid(db) && Of(db, subId, i) && db.deliveries[i].notBefore.Some?
    ensures Of(db, subId, db.deliveries[i].notBefore.value) && db.deliveries[i].notBefore.value < db.nextId
  {
  }

  lemma SilentKeepsWaiting(env: Env, db0: DB, db: DB, e: Event, db': DB, subId: Id)
    requires Valid(db0) && Valid(db) && Next(env, db, e, db') && subId in db0.subs && StillWaits(db0, db, subId)
    requires subId !in Wakes(At(db, e.now), e.step, db') && !Hastens(At(db, e.now), e.step, db', subId)
    ensures Valid(db') && StillWaits(db0, db', subId)
  {
    hide Valid, Enabled, Apply, RowsEffect, MessagesEffect, TopicsEffect, SnapshotsEffect, Wakes, Hastens, RowWaits;
    StepKeepsValid(env, db, e, db');
    SilentStaysLive(env, db, e, db', subId);
    forall i | Of(db', subId, i) ensures RowWaits(db0, db', subId, i) {
      RowStillWaits(env, db0, db, e, db', subId, i);
    }
    if db0.subs[subId].ordered {
      forall p | Of(db0, subId, p) && !db0.deliveries[p].Completed() ensures Of(db', subId, p) {
        OpenInBoth(db0, db, subId, p);
        OpenRowStays(env, db, e, db', subId, p);
      }
    }
  }

  lemma OpenInBoth(db0: DB, db: DB, subId: Id, p: Id)
    requires Of(db0, subId, p) && !db0.deliveries[p].Completed() && Of(db, subId, p) && RowWaits(db0, db, subId, p)
    ensures !db.deliveries[p].Completed()
  {
  }

  lemma StepClock(env: Env, db: DB, e: Event, db': DB)
    requires Valid(db) && Next(env, db, e, db')
    ensures db'.clock == e.now >= db.clock
  {
    hide Enabled, Apply, RowsEffect, Valid;
    StepKeepsValid(env, db, e, db');
  }

  lemma {:induction false} SilentRunWaits(env: Env, dbs: seq<DB>, events: seq<Event>, subId: Id)
    requires Run(env, dbs, events) && Valid(dbs[0]) && LiveSub(dbs[0], subId) && SilentRun(dbs, events, subId)
    ensures var last := dbs[|events|];
      Valid(last) && StillWaits(dbs[0], last, subId) && dbs[0].clock <= last.clock
  {
    hide Valid, Next, StillWaits, Wakes, Hastens;
    if events == [] {
      WaitsAtFirst(dbs[0], subId);
    } else {
      var n := |events| - 1;
      RunFront(env, dbs, events);
      SilentRunWaits(env, dbs[..|dbs| - 1], events[..n], subId);
      assert dbs[..|dbs| - 1][n] == dbs[n];
      SilentKeepsWaiting(env, dbs[0], dbs[n], events[n], dbs[n + 1], subId);
      StepClock(env, dbs[n], events[n], dbs[n + 1]);
    }
  }

  lemma WaitsAtFirst(db: DB, subId: Id)
    requires LiveSub(db, subId)
    ensures StillWaits(db, db, subId)
  {
  }

  lemma NothingDueYet(db0: DB, db: DB, subId: Id, wake: Option<Time>, now: Time)
    requires Valid(db0) && LiveSub(db0, subId) && StillWaits(db0, db, subId) && db0.clock <= now
    requires WakeTime(db0, subId, wake)
    requires wake.Some? ==> now < wake.value && forall i: Id :: !Overslept(db0, subId, i, wake.value)
    ensures DueRows(At(db, now), subId) == {}
  {
    hide Referenced, Numbered;
    forall i | i in DueRows(At(db, now), subId) ensures false {
      assert Of(db, subId, i) && RowWaits(db0, db, subId, i);
      assert i !in EligibleRows(db0, subId);
      if wake.Some? {
        StillBlocked(db0, db, subId, i, now, wake.value);
      } else {
        assert i in UnackedRows(db0, subId);
        OrderingNeverStuck(db0, subId);
      }
    }
  }

  /** A row that was blocked and is due now became free by the expiry of its predecessor. */
  lemma StillBlocked(db0: DB, db: DB, subId: Id, i: Id, now: Time, wake: Time)
    requires Valid(db0) && LiveSub(db0, subId) && StillWaits(db0, db, subId) && db0.clock <= now < wake
    requires i in DueRows(At(db, now), subId) && i in db0.deliveries && i !in EligibleRows(db0, subId)
    ensures Overslept(db0, subId, i, wake)
  {
    hide Referenced, Numbered;
    assert Of(db, subId, i) && RowWaits(db0, db, subId, i);
    var p := db0.deliveries[i].notBefore.value;
    assert Of(db0, subId, p);
    assert Of(db, subId, p) && RowWaits(db0, db, subId, p);
  }

  /** A pull finds nothing due, and parks until its wake time. As long as nothing wakes the subscription
      and no nack hastens its rows, there is nothing to deliver before then, provided that no row that was
      blocked becomes free, due and unexpired in the meantime. In an unordered subscription none is blocked;
      in an ordered one the proviso is the exact condition of `SleepsWell`. */
  lemma ParkedPullMissesNothing(env: Env, dbs: seq<DB>, events: seq<Event>, subId: Id, wake: Option<Time>, now: Time)
    requires Run(env, dbs, events) && Valid(dbs[0]) && LiveSub(dbs[0], subId)
    requires WakeTime(dbs[0], subId, wake) && SilentRun(dbs, events, subId)
    requires dbs[|events|].clock <= now && (wake.Some? ==> now < wake.value)
    requires wake.Some? && dbs[0].subs[subId].ordered ==> forall i: Id :: !Overslept(dbs[0], subId, i, wake.value)
    ensures LiveSub(dbs[|events|], subId)
    ensures DueRows(At(dbs[|events|], now), subId) == {}
  {
    hide Valid, Next, SilentRun, WakeTime, StillWaits, DueRows;
    SilentRunWaits(env, dbs, events, subId);
    StillLive(dbs[0], dbs[|events|], subId);
    if !dbs[0].subs[subId].ordered {
      forall i: Id ensures wake.Some? ==> !Overslept(dbs[0], subId, i, wake.value) {
      }
    }
    NothingDueYet(dbs[0], dbs[|events|], subId, wake, now);
  }

  lemma StillLive(db0: DB, db: DB, subId: Id)
    requires subId in db0.subs && StillWaits(db0, db, subId)
    ensures LiveSub(db, subId) && db.subs[subId].ordered == db0.subs[subId].ordered
  {
  }

  // ---- Disciplined runs never oversleep ----

  /** In a disciplined ordered subscription at most one row is eligible, so the wake time is that
      row's attempt time or expiry, whichever is sooner. */
  lemma OneIsEligible(db: DB, subId: Id, topicId: Id, f: Id, g: Id)
    requires Valid(db) && OrderInv(db, subId, topicId) && LiveSub(db, subId)
    requires f in EligibleRows(db, subId) && g in EligibleRows(db, subId)
    ensures f == g
  {
    if f < g {
      EligibleClears(db, subId, topicId, f, g);
    } else if g < f {
      EligibleClears(db, subId, topicId, g, f);
    }
  }

  /** And a row behind it is not free before it has expired. */
  lemma DisciplineSleepsWell(db: DB, subId: Id, topicId: Id, wake: Time, i: Id)
    requires Valid(db) && OrderInv(db, subId, topicId) && LiveSub(db, subId) && WakeTime(db, subId, Some(wake))
    ensures !Overslept(db, subId, i, wake)
  {
    hide Referenced, Numbered, OrderInv;
    var rows := EligibleRows(db, subId);
    var f, g :| IsFirst(db, rows, f) && IsFirst(db, rows, g) && wake == Sooner(db, f, g);
    OneIsEligible(db, subId, topicId, f, g);
    if Blocked(db, subId, i) && db.deliveries[i].notBefore.value in db.deliveries {
      BehindHead(db, subId, topicId, f, db.deliveries[i].notBefore.value);
    }
  }

  /** An open row is not before the eligible one, so it does not expire before it either. */
  lemma BehindHead(db: DB, subId: Id, topicId: Id, f: Id, p: Id)
    requires Valid(db) && OrderInv(db, subId, topicId) && LiveSub(db, subId)
    requires f in EligibleRows(db, subId) && Of(db, subId, p) && !db.deliveries[p].Done(db.clock)
    ensures db.deliveries[f].expiresAt <= db.deliveries[p].expiresAt
  {
    assert Of(db, subId, f);
    if p < f {
      EligibleClears(db, subId, topicId, p, f);
    }
  }

  /** Ordered subscriptions, in a disciplined run: a parked pull misses nothing before its wake time,
      although rows behind the head of the queue may be long overdue. */
  lemma ParkedOrderedPullMissesNothing(env: Env, dbs: seq<DB>, events: seq<Event>, subId: Id, topicId: Id,
                                       wake: Time, now: Time)
    requires Run(env, dbs, events) && Valid(dbs[0]) && OrderInv(dbs[0], subId, topicId) && LiveSub(dbs[0], subId)
    requires SilentRun(dbs, events, subId) && WakeTime(dbs[0], subId, Some(wake))
    requires dbs[|events|].clock <= now < wake
    ensures LiveSub(dbs[|events|], subId)
    ensures DueRows(At(dbs[|events|], now), subId) == {}
  {
    hide Valid, OrderInv, Next, SilentRun, WakeTime, DueRows, Overslept;
    forall i: Id ensures !Overslept(dbs[0], subId, i, wake) {
      DisciplineSleepsWell(dbs[0], subId, topicId, wake, i);
    }
    ParkedPullMissesNothing(env, dbs, events, subId, Some(wake), now);
  }
}
