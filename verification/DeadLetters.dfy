/** Dead-lettering: the attempt limit is never exceeded, and nothing is lost or duplicated. */
module DeadLetters {
  import opened Types
  import opened DeliveryUtils
  import opened Packing
  import opened Backoff
  import opened Actions
  import opened Effects
  import opened StepEffects
  import opened Runs

  // ---- The bound ----

  predicate RowWithin(sub: Subscription, d: Delivery) {
    sub.HasFullDeadLetterConfig() ==> d.attempts <= sub.maxDeliveryAttempts.value
  }

  /** No delivery of a subscription with a full dead-letter configuration was attempted more often
      than its limit. */
  predicate WithinLimit(db: DB) {
    forall i :: i in db.deliveries && db.deliveries[i].subId in db.subs ==>
      RowWithin(db.subs[db.deliveries[i].subId], db.deliveries[i])
  }

  lemma RowWithinLimit(env: Env, db: DB, step: Step, db': DB, i: Id)
    requires Rooted(db) && i in db.deliveries && i in db'.deliveries && RowStep(env, db, step, db', i)
    ensures db'.deliveries[i].subId == db.deliveries[i].subId
    ensures db'.deliveries[i].attempts <= db.deliveries[i].attempts
      || (db'.deliveries[i].attempts == db.deliveries[i].attempts + 1
          && !db.subs[db.deliveries[i].subId].Exhausted(db.deliveries[i].attempts))
  {
    hide MayComplete, MayMove;
  }

  lemma StepWithinLimit(env: Env, db: DB, e: Event, db': DB)
    requires Valid(db) && Next(env, db, e, db') && WithinLimit(db)
    ensures Valid(db') && WithinLimit(db')
  {
    hide Valid, Enabled, RowStep;
    var pre := At(db, e.now);
    ClockKeepsValid(db, e.now);
    StepKeepsValid(env, db, e, db');
    assert Rooted(pre) && Rooted(db');
    forall i | i in db'.deliveries
      ensures RowWithin(db'.subs[db'.deliveries[i].subId], db'.deliveries[i])
    {
      if i in pre.deliveries {
        RowWithinLimit(env, pre, e.step, db', i);
        var s := pre.deliveries[i].subId;
        assert SubKept(pre, pre.subs[s], db'.subs[s], db');
      } else {
        assert FreshRow(env, pre, db', i);
        var s := db'.deliveries[i].subId;
        assert SubKept(pre, pre.subs[s], db'.subs[s], db');
      }
    }
  }

  /** Along pulls, nacks, background dead-lettering and everything else, in every run. */
  lemma {:induction false} RunWithinLimit(env: Env, dbs: seq<DB>, events: seq<Event>)
    requires Run(env, dbs, events) && Valid(dbs[0]) && WithinLimit(dbs[0])
    ensures forall k :: 0 <= k < |dbs| ==> Valid(dbs[k]) && WithinLimit(dbs[k])
  {
    hide Valid, WithinLimit, Next;
    if events != [] {
      var n := |events| - 1;
      RunFront(env, dbs, events);
      RunWithinLimit(env, dbs[..|dbs| - 1], events[..n]);
      assert forall k :: 0 <= k <= n ==> dbs[..|dbs| - 1][k] == dbs[k];
      StepWithinLimit(env, dbs[n], events[n], dbs[n + 1]);
    }
  }

  // ---- Conservation ----

  /** The (subscription, message) pairs of the rows numbered lo, ..., hi - 1. */
  function Pairs(db: DB, lo: Id, hi: Id): multiset<(Id, Id)>
    requires forall j :: lo <= j < hi ==> j in db.deliveries
    decreases hi
  {
    if hi <= lo then multiset{}
    else Pairs(db, lo, hi - 1) + PairOf(db.deliveries[hi - 1])
  }

  /** The pairs one dead letter owes: the row's message for every live subscription of the live
      dead-letter topic whose filter matches. Nothing when the topic is gone. */
  function Owed(env: Env, db: DB, act: Act): multiset<(Id, Id)>
    requires Ready(db, act)
  {
    var m := db.deliveries[act.id].messageId;
    var topics := db.subs[db.deliveries[act.id].subId].deadLetterTopicId;
    if act.Dead? && LiveTopic(db, topics.value)
    then multiset(set s | s in Targets(env, db, topics.value, m) :: (s, m))
    else multiset{}
  }

  function AllOwed(env: Env, db: DB, acts: seq<Act>): multiset<(Id, Id)>
    requires AllReady(db, acts)
  {
    if acts == [] then multiset{} else AllOwed(env, db, acts[..|acts| - 1]) + Owed(env, db, acts[|acts| - 1])
  }

  lemma {:induction false} PairsSplit(db: DB, lo: Id, mid: Id, hi: Id)
    requires lo <= mid <= hi && forall j :: lo <= j < hi ==> j in db.deliveries
    ensures Pairs(db, lo, hi) == Pairs(db, lo, mid) + Pairs(db, mid, hi)
    decreases hi
  {
    hide Pairs;
    if mid == hi {
      PairsNone(db, mid, hi);
    } else {
      PairsSplit(db, lo, mid, hi - 1);
      PairsNext(db, lo, hi);
      PairsNext(db, mid, hi);
      SumRegroups(Pairs(db, lo, mid), Pairs(db, mid, hi - 1), PairOf(db.deliveries[hi - 1]));
    }
  }

  function PairOf(d: Delivery): multiset<(Id, Id)> {
    multiset{(d.subId, d.messageId)}
  }

  lemma PairsNone(db: DB, lo: Id, hi: Id)
    requires hi <= lo
    ensures Pairs(db, lo, hi) == multiset{}
  {
  }

  lemma PairsNext(db: DB, lo: Id, hi: Id)
    requires lo < hi && forall j :: lo <= j < hi ==> j in db.deliveries
    ensures Pairs(db, lo, hi) == Pairs(db, lo, hi - 1) + PairOf(db.deliveries[hi - 1])
  {
  }

  lemma SumRegroups(a: multiset<(Id, Id)>, b: multiset<(Id, Id)>, c: multiset<(Id, Id)>)
    ensures (a + b) + c == a + (b + c)
  {
  }

  lemma {:induction false} PairsSame(db: DB, db': DB, lo: Id, hi: Id)
    requires forall j :: lo <= j < hi ==> j in db.deliveries && j in db'.deliveries
    requires forall j :: lo <= j < hi ==> db'.deliveries[j].subId == db.deliveries[j].subId
    requires forall j :: lo <= j < hi ==> db'.deliveries[j].messageId == db.deliveries[j].messageId
    ensures Pairs(db', lo, hi) == Pairs(db, lo, hi)
    decreases hi
  {
    if lo < hi {
      PairsSame(db, db', lo, hi - 1);
    }
  }

  function PairSet(db: DB, lo: Id, hi: Id, m: Id): set<(Id, Id)>
    requires forall j :: lo <= j < hi ==> j in db.deliveries
  {
    set j | lo <= j < hi :: (db.deliveries[j].subId, m)
  }

  lemma PairSetNext(db: DB, lo: Id, hi: Id, m: Id)
    requires lo < hi && forall j :: lo <= j < hi ==> j in db.deliveries
    requires forall j, k :: lo <= j < k < hi ==> db.deliveries[j].subId != db.deliveries[k].subId
    ensures var p := (db.deliveries[hi - 1].subId, m);
      p !in PairSet(db, lo, hi - 1, m) && PairSet(db, lo, hi, m) == PairSet(db, lo, hi - 1, m) + {p}
  {
  }

  lemma AddOne(s: set<(Id, Id)>, p: (Id, Id))
    requires p !in s
    ensures multiset(s + {p}) == multiset(s) + multiset{p}
  {
  }

  /** Rows of one message for pairwise different subscriptions make a set of pairs. */
  lemma {:induction false} PairsOfFanOut(db: DB, lo: Id, hi: Id, m: Id)
    requires lo <= hi && forall j :: lo <= j < hi ==> j in db.deliveries && db.deliveries[j].messageId == m
    requires forall j, k :: lo <= j < k < hi ==> db.deliveries[j].subId != db.deliveries[k].subId
    ensures Pairs(db, lo, hi) == multiset(PairSet(db, lo, hi, m))
    decreases hi
  {
    if lo < hi {
      hide Pairs, PairSet;
      PairsOfFanOut(db, lo, hi - 1, m);
      PairsNext(db, lo, hi);
      PairSetNext(db, lo, hi, m);
      AddOne(PairSet(db, lo, hi - 1, m), (db.deliveries[hi - 1].subId, m));
    }
  }

  lemma DeadLetterConserves(env: Env, db: DB, i: Id, topicId: Id)
    requires FreshIds(db) && i in db.deliveries && db.deliveries[i].messageId in db.messages
    ensures var m, db' := db.deliveries[i].messageId, DeadLetterOne(env, db, i, topicId);
      && db.nextId <= db'.nextId
      && (forall j :: db.nextId <= j < db'.nextId ==> j in db'.deliveries)
      && Pairs(db', db.nextId, db'.nextId) ==
         if LiveTopic(db, topicId) then multiset(set s | s in Targets(env, db, topicId, m) :: (s, m)) else multiset{}
  {
    hide Pairs, Predecessor, Targets, FanOut;
    var m, db' := db.deliveries[i].messageId, DeadLetterOne(env, db, i, topicId);
    DeadLetterEffect(env, db, i, topicId);
    PairsOfFanOut(db', db.nextId, db'.nextId, m);
    var sent := PairSet(db', db.nextId, db'.nextId, m);
    if LiveTopic(db, topicId) {
      var owed := set s | s in Targets(env, db, topicId, m) :: (s, m);
      forall p | p in owed ensures p in sent {
        var j :| db.nextId <= j < db'.nextId && db'.deliveries[j].subId == p.0;
      }
      assert sent == owed;
    } else {
      assert sent == {};
    }
  }

  /** Which subscriptions a dead letter reaches does not change while a batch runs. */
  lemma OwedSame(env: Env, db: DB, mid: DB, act: Act)
    requires Ready(db, act) && Ready(mid, act) && Grown(db, mid)
    requires mid.deliveries[act.id].subId == db.deliveries[act.id].subId
    requires mid.deliveries[act.id].messageId == db.deliveries[act.id].messageId
    ensures Owed(env, mid, act) == Owed(env, db, act)
  {
    var m := db.deliveries[act.id].messageId;
    var topics := db.subs[db.deliveries[act.id].subId].deadLetterTopicId;
    if act.Dead? {
      assert Targets(env, mid, topics.value, m) == Targets(env, db, topics.value, m);
    }
  }

  lemma {:induction false} BatchPairs(env: Env, db: DB, acts: seq<Act>)
    requires FreshIds(db) && DistinctActs(acts) && AllReady(db, acts)
    ensures var db' := Batch(env, db, acts);
      && Grown(db, db')
      && Pairs(db', db.nextId, db'.nextId) == AllOwed(env, db, acts)
  {
    hide FreshRow, SentBy, ApplyAct, Owed, BatchSends, ActDone;
    if acts != [] {
      var front, act := acts[..|acts| - 1], acts[|acts| - 1];
      BatchDoes(env, db, front);
      BatchPairs(env, db, front);
      var mid := Batch(env, db, front);
      assert Ready(db, act) && !ActsOn(front, act.id);
      assert mid.deliveries[act.id] == db.deliveries[act.id];
      BatchActConserves(env, db, mid, act, Batch(env, db, acts));
    }
  }

  /** Conservation: the rows a batch adds are exactly those its dead letters owe, counted with
      multiplicity; and every row it dead-letters is completed. */
  lemma BatchConserves(env: Env, db: DB, acts: seq<Act>)
    requires FreshIds(db) && DistinctActs(acts) && AllReady(db, acts)
    ensures var db' := Batch(env, db, acts);
      && db.nextId <= db'.nextId
      && (forall j :: db.nextId <= j < db'.nextId ==> j in db'.deliveries)
      && Pairs(db', db.nextId, db'.nextId) == AllOwed(env, db, acts)
      && (forall act :: act in acts && act.Dead? ==> act.id in db'.deliveries && db'.deliveries[act.id].Completed())
  {
    hide FreshRow, SentBy, ApplyAct, Owed, BatchSends;
    BatchDoes(env, db, acts);
    BatchPairs(env, db, acts);
  }

  lemma BatchActConserves(env: Env, db: DB, mid: DB, act: Act, db': DB)
    requires FreshIds(db) && Grown(db, mid) && Ready(db, act) && Ready(mid, act) && db' == ApplyAct(env, mid, act)
    requires mid.deliveries[act.id] == db.deliveries[act.id]
    ensures Grown(db, db')
    ensures Pairs(db', db.nextId, db'.nextId) == Pairs(mid, db.nextId, mid.nextId) + Owed(env, db, act)
  {
    hide Owed, Targets;
    OwedSame(env, db, mid, act);
    ActConserves(env, mid, act);
    PairsSame(mid, db', db.nextId, mid.nextId);
    PairsSplit(db', db.nextId, mid.nextId, db'.nextId);
  }

  lemma ActConserves(env: Env, db: DB, act: Act)
    requires FreshIds(db) && Ready(db, act)
    ensures var db' := ApplyAct(env, db, act);
      && Grown(db, db')
      && (forall i :: i in db.deliveries ==> db'.deliveries[i].subId == db.deliveries[i].subId)
      && (forall i :: i in db.deliveries ==> db'.deliveries[i].messageId == db.deliveries[i].messageId)
      && Pairs(db', db.nextId, db'.nextId) == Owed(env, db, act)
  {
    hide FanOut, Targets, NewRow;
    if act.Dead? {
      var topicId := db.subs[db.deliveries[act.id].subId].deadLetterTopicId.value;
      DeadLetterEffect(env, db, act.id, topicId);
      DeadLetterConserves(env, db, act.id, topicId);
    }
  }

  /** The background job completes every row it selected and sends exactly what they owe. */
  lemma BackgroundConserves(env: Env, db: DB, maxDeliveries: nat, rows: seq<Id>)
    requires Valid(db) && Enabled(db, DeadLetterStep(maxDeliveries, rows))
    ensures AllReady(db, Deads(rows))
    ensures var db' := Apply(env, db, DeadLetterStep(maxDeliveries, rows));
      && (forall i :: i in rows ==> i in db'.deliveries && db'.deliveries[i].Completed())
      && (forall j :: db.nextId <= j < db'.nextId ==> j in db'.deliveries)
      && Pairs(db', db.nextId, db'.nextId) == AllOwed(env, db, Deads(rows))
  {
    hide Pairs, AllOwed, Owed, Batch, Valid;
    DeadsReady(db, maxDeliveries, rows);
    BatchConserves(env, db, Deads(rows));
    forall i | i in rows ensures Dead(i) in Deads(rows) {
      var k :| 0 <= k < |rows| && rows[k] == i;
      assert Deads(rows)[k] == Dead(i);
    }
  }

  lemma DeadsReady(db: DB, maxDeliveries: nat, rows: seq<Id>)
    requires Valid(db) && Enabled(db, DeadLetterStep(maxDeliveries, rows))
    ensures FreshIds(db) && DistinctActs(Deads(rows)) && AllReady(db, Deads(rows))
  {
    hide Linked, Referenced;
    forall a | a in Deads(rows) ensures Ready(db, a) {
      var k :| 0 <= k < |rows| && Deads(rows)[k] == a;
      assert rows[k] in Elements(rows);
    }
  }

  /** A nack dead-letters exactly the exhausted rows, and sends exactly what they owe. */
  lemma NackConserves(env: Env, db: DB, ids: set<Id>, rows: seq<Id>)
    requires Valid(db) && Enabled(db, NackStep(ids, rows))
    ensures forall i :: i in rows ==> i in NackRows(db, ids)
    ensures var acts := NackActs(env, db, rows);
      && AllReady(db, acts)
      && (forall act :: act in acts ==>
            (act.Dead? <==> db.subs[db.deliveries[act.id].subId].Exhausted(db.deliveries[act.id].attempts)))
      && var db' := Apply(env, db, NackStep(ids, rows));
      && (forall act :: act in acts && act.Dead? ==> act.id in db'.deliveries && db'.deliveries[act.id].Completed())
      && (forall j :: db.nextId <= j < db'.nextId ==> j in db'.deliveries)
      && Pairs(db', db.nextId, db'.nextId) == AllOwed(env, db, acts)
  {
    hide Pairs, AllOwed, Owed, Batch, Valid;
    NackActsReady(env, db, ids, rows);
    BatchConserves(env, db, NackActs(env, db, rows));
  }

  lemma NackActsReady(env: Env, db: DB, ids: set<Id>, rows: seq<Id>)
    requires Valid(db) && Enabled(db, NackStep(ids, rows))
    ensures FreshIds(db)
    ensures forall i :: i in rows ==> i in NackRows(db, ids) && i in db.deliveries && db.deliveries[i].subId in db.subs
    ensures var acts := NackActs(env, db, rows);
      && DistinctActs(acts) && AllReady(db, acts)
      && (forall act :: act in acts ==>
            (act.Dead? <==> db.subs[db.deliveries[act.id].subId].Exhausted(db.deliveries[act.id].attempts)))
  {
    hide Lease, Linked, Referenced;
    assert forall i :: i in rows ==> i in Elements(rows);
    assert forall k :: 0 <= k < |rows| ==> rows[k] in rows;
  }

  /** A pull dead-letters the exhausted rows it looked at, and sends exactly what they owe. */
  lemma PullConserves(env: Env, db: DB, step: Step)
    requires Valid(db) && Pulls(db, step)
    ensures AllReady(db, Deads(Choice(db, step).dead))
    ensures var db' := Pull(env, db, step.subId, step.limits, step.rows);
      && (forall i :: i in Choice(db, step).dead ==> i in db'.deliveries && db'.deliveries[i].Completed())
      && (forall j :: db.nextId <= j < db'.nextId ==> j in db'.deliveries)
      && Pairs(db', db.nextId, db'.nextId) == AllOwed(env, db, Deads(Choice(db, step).dead))
  {
    PullChoice(db, step);
    var p, db1 := Choice(db, step), RefreshSub(db, step.subId);
    var acts := Deads(p.dead);
    forall a | a in acts ensures Ready(db, a) && Ready(db1, a) {
      var k :| 0 <= k < |acts| && acts[k] == a;
      assert p.dead[k] in p.dead;
    }
    forall i | i in p.dead ensures Dead(i) in acts {
      var k :| 0 <= k < |p.dead| && p.dead[k] == i;
      assert acts[k] == Dead(i);
    }
    RefreshedConserves(env, db, step, acts);
  }

  lemma RefreshedConserves(env: Env, db: DB, step: Step, acts: seq<Act>)
    requires Valid(db) && Pulls(db, step) && DistinctActs(acts)
    requires AllReady(db, acts) && AllReady(RefreshSub(db, step.subId), acts) && acts == Deads(Choice(db, step).dead)
    ensures var db' := Pull(env, db, step.subId, step.limits, step.rows);
      && (forall a :: a in acts && a.Dead? ==> a.id in db'.deliveries && db'.deliveries[a.id].Completed())
      && (forall j :: db.nextId <= j < db'.nextId ==> j in db'.deliveries)
      && Pairs(db', db.nextId, db'.nextId) == AllOwed(env, db, acts)
  {
    hide Pack, AllOwed, Owed, Linked, Referenced, Lease;
    var db1, db' := RefreshSub(db, step.subId), Pull(env, db, step.subId, step.limits, step.rows);
    var db2 := Batch(env, db1, acts);
    BatchConserves(env, db1, acts);
    AllOwedRefreshed(env, db, step.subId, acts);
    PairsSame(db2, db', db.nextId, db2.nextId);
  }

  lemma {:induction false} AllOwedRefreshed(env: Env, db: DB, subId: Id, acts: seq<Act>)
    requires subId in db.subs && AllReady(db, acts) && AllReady(RefreshSub(db, subId), acts)
    ensures AllOwed(env, RefreshSub(db, subId), acts) == AllOwed(env, db, acts)
  {
    hide Owed, RefreshSub;
    if acts != [] {
      AllOwedRefreshed(env, db, subId, acts[..|acts| - 1]);
      OwedRefreshed(env, db, subId, acts[|acts| - 1]);
    }
  }

  lemma OwedRefreshed(env: Env, db: DB, subId: Id, act: Act)
    requires subId in db.subs && Ready(db, act) && Ready(RefreshSub(db, subId), act)
    ensures Owed(env, RefreshSub(db, subId), act) == Owed(env, db, act)
  {
    if act.Dead? {
      var topicId := db.subs[db.deliveries[act.id].subId].deadLetterTopicId.value;
      var m := db.deliveries[act.id].messageId;
      assert Targets(env, RefreshSub(db, subId), topicId, m) == Targets(env, db, topicId, m);
    }
  }
}
