/** Runs of the bus: any sequence of actions, each at a time no earlier than the one before. */
module Runs {
  import opened Types
  import opened DeliveryUtils
  import opened Actions
  import opened Effects
  import opened StepEffects

  datatype Event = Event(now: Time, step: Step)

  function At(db: DB, now: Time): DB {
    db.(clock := now)
  }

  /** One committed transaction. Failed ones are rolled back and leave the state as it was. */
  ghost predicate Next(env: Env, db: DB, e: Event, db': DB) {
    && db.clock <= e.now
    && Rooted(db)
    && Enabled(At(db, e.now), e.step)
    && db' == Apply(env, At(db, e.now), e.step)
  }

  ghost predicate Run(env: Env, dbs: seq<DB>, events: seq<Event>) {
    && |dbs| == |events| + 1
    && forall k :: 0 <= k < |events| ==> Next(env, dbs[k], events[k], dbs[k + 1])
  }

  lemma RunFront(env: Env, dbs: seq<DB>, events: seq<Event>)
    requires Run(env, dbs, events) && events != []
    ensures Run(env, dbs[..|dbs| - 1], events[..|events| - 1])
    ensures Next(env, dbs[|dbs| - 2], events[|events| - 1], dbs[|dbs| - 1])
  {
  }

  // ---- References hold in every run ----

  lemma ClockKeepsValid(db: DB, now: Time)
    requires Valid(db)
    ensures Valid(At(db, now))
  {
  }

  lemma StepKeepsTables(db: DB, step: Step, db': DB)
    requires Valid(db) && TablesEffect(db, step, db')
    ensures Referenced(db')
  {
  }

  lemma StepKeepsRoots(env: Env, db: DB, step: Step, db': DB)
    requires Valid(db) && Effect(env, db, step, db')
    ensures Rooted(db')
  {
    forall i | i in db'.deliveries
      ensures db'.deliveries[i].messageId in db'.messages && db'.deliveries[i].subId in db'.subs
    {
      if i in db.deliveries {
        RowKeeps(env, db, step, db', i);
      }
    }
  }

  lemma StepKeepsLinks(env: Env, db: DB, step: Step, db': DB)
    requires Valid(db) && RowsEffect(env, db, step, db')
    ensures Linked(db')
  {
    forall i | i in db'.deliveries && db'.deliveries[i].notBefore.Some?
      ensures var p := db'.deliveries[i].notBefore.value;
        p < i && p in db'.deliveries && db'.deliveries[p].subId == db'.deliveries[i].subId
    {
      if i in db.deliveries {
        RowKeeps(env, db, step, db', i);
        RowKeeps(env, db, step, db', db'.deliveries[i].notBefore.value);
      }
    }
  }

  lemma StepKeepsNumbers(env: Env, db: DB, step: Step, db': DB)
    requires Valid(db) && Effect(env, db, step, db')
    ensures Numbered(db')
  {
  }

  /** Foreign keys, links within a subscription to earlier rows, and id freshness: kept by every step. */
  lemma StepKeepsValid(env: Env, db: DB, e: Event, db': DB)
    requires Valid(db) && Next(env, db, e, db')
    ensures Valid(db') && Effect(env, At(db, e.now), e.step, db')
  {
    var pre := At(db, e.now);
    ClockKeepsValid(db, e.now);
    StepEffect(env, pre, e.step);
    StepKeepsTables(pre, e.step, db');
    StepKeepsRoots(env, pre, e.step, db');
    StepKeepsLinks(env, pre, e.step, db');
    StepKeepsNumbers(env, pre, e.step, db');
  }

  /** Every reachable state has its references intact. */
  lemma {:induction false} RunValid(env: Env, dbs: seq<DB>, events: seq<Event>)
    requires Run(env, dbs, events) && Valid(dbs[0])
    ensures forall k :: 0 <= k < |dbs| ==> Valid(dbs[k])
  {
    if events != [] {
      RunFront(env, dbs, events);
      RunValid(env, dbs[..|dbs| - 1], events[..|events| - 1]);
      assert Valid(dbs[..|dbs| - 1][|dbs| - 2]);
      StepKeepsValid(env, dbs[|dbs| - 2], events[|events| - 1], dbs[|dbs| - 1]);
    }
  }
}
