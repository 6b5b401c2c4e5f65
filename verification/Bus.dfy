/** The actions as they run: each is one transaction on the tables. A method that fails leaves the
    tables as they were, like the rollback of `DoTx`; one that succeeds makes exactly one step of a
    run, and its commit hooks make the calls that module Commits says the step must make. */
module Bus {
  import opened Types
  import opened Backoff
  import opened DeliveryUtils
  import opened Packing
  import opened Actions
  import opened Effects
  import opened StepEffects
  import opened Runs
  import opened Snapshots
  import opened Wakeups
  import opened Commits
  import opened Queries
  import opened Laws
  import opened Replies
  import Notify

  /** The results kept for the rows taken so far, in order and by id. */
  ghost predicate Chosen(env: Env, db: DB, sub: Subscription, taken: seq<Id>, results: seq<Handed>, chosen: map<Id, Handed>) {
    && |results| == |taken|
    && (forall k :: 0 <= k < |taken| ==> taken[k] in chosen && results[k] == chosen[taken[k]])
    && (forall i :: i in taken ==>
          i in db.deliveries && db.deliveries[i].messageId in db.messages && i in chosen
          && chosen[i] == HandedOf(env, db, sub, i))
  }

  lemma ChosenNext(env: Env, db: DB, sub: Subscription, taken: seq<Id>, results: seq<Handed>, chosen: map<Id, Handed>, i: Id)
    requires Chosen(env, db, sub, taken, results, chosen) && i !in taken
    requires i in db.deliveries && db.deliveries[i].messageId in db.messages
    ensures var h := HandedOf(env, db, sub, i);
      Chosen(env, db, sub, taken + [i], results + [h], chosen[i := h])
  {
    hide HandedRow;
  }

  lemma ChosenReady(env: Env, db: DB, sub: Subscription, taken: seq<Id>, results: seq<Handed>, chosen: map<Id, Handed>)
    requires Chosen(env, db, sub, taken, results, chosen)
    ensures seq(|results|, k requires 0 <= k < |results| => results[k].id) == taken
    ensures forall i :: i in taken ==>
      && i in db.deliveries && i in chosen && chosen[i].id == i
      && chosen[i].nextAttemptAt + chosen[i].fuzzDelay
         == db.clock + Lease(env, db.deliveries[i].subId, sub, db.deliveries[i].attempts + 1)
  {
    hide NextDelayFor;
    assert forall k :: 0 <= k < |results| ==> results[k].id == taken[k] && taken[k] in taken;
  }

  lemma PackNext(db: DB, sub: Subscription, rows: seq<Id>, k: nat, limits: PullLimits)
    requires k < |rows| && Loaded(db, rows) && Distinct(rows)
    ensures rows[k] in db.deliveries && db.deliveries[rows[k]].messageId in db.messages
    ensures var p, next, i := Pack(db, sub, rows, k, limits), Pack(db, sub, rows, k + 1, limits), rows[k];
      && i !in p.taken
      && next == (if (limits.strict || k > 0) && p.bytes + Size(db, i) > limits.maxBytes then p
                  else if sub.Exhausted(db.deliveries[i].attempts) then p.(dead := p.dead + [i])
                  else p.(taken := p.taken + [i], bytes := p.bytes + Size(db, i)))
  {
    assert rows[k] in rows;
    PackChooses(db, sub, rows, k, limits);
  }

  lemma ChoiceStarts(env: Env, db: DB, sub: Subscription, limits: PullLimits, rows: seq<Id>, pre: DB)
    requires Loaded(db, rows)
    ensures Pack(db, sub, rows, 0, limits) == Packed([], [], 0)
    ensures Batch(env, pre, Deads([])) == pre && Woken(pre, pre) == {}
    ensures Chosen(env, db, sub, [], [], map[])
  {
    LoopStarts(env, pre, []);
  }

  /** A dead letter announces the rows it makes, and the subscription it may have unblocked. */
  lemma DeadCalls(before: seq<Notify.Op>, made: seq<Delivery>, s: Id)
    ensures Extends(before, before + RowCalls(made) + [WakeOne(s)], SubsOf(made) + {s})
  {
    RowCallsAlone(made);
    var more := RowCalls(made) + [WakeOne(s)];
    assert (before + RowCalls(made) + [WakeOne(s)])[|before|..] == more;
    assert forall c :: c in more <==> c in RowCalls(made) || c == WakeOne(s);
    assert s in SubsOf(made) + {s};
  }

  lemma ReleaseCalls(listed: seq<Id>, wakes: set<Id>, calls: seq<Notify.Op>)
    requires Lists(listed, wakes)
    requires calls == if |listed| != 0 then [Notify.WakePublishOp(false, listed)] else []
    ensures CallsForDelay(wakes, calls)
  {
    ListsEmpty(listed, wakes);
  }

  lemma OpenRows(db: DB, ids: set<Id>, delay: Duration, rows: set<Id>)
    requires rows == set i | i in ids && i in db.deliveries && !db.deliveries[i].Completed()
                             && (delay <= 0 || db.deliveries[i].attemptAt < db.clock + delay)
    ensures rows == DelayRows(db, ids, delay)
  {
  }

  lemma NothingExtended(before: seq<Notify.Op>)
    ensures Extends(before, before, {})
  {
  }

  class MessageBus {
    const env: Env

    var topics: map<Id, Topic>
    var subs: map<Id, Subscription>
    var messages: map<Id, Message>
    var deliveries: map<Id, Delivery>
    var snapshots: map<Id, Snapshot>
    var nextId: Id
    var clock: Time

    /** The calls to the registry of waiters that the commit hooks of the latest transaction make, in order. */
    var hooks: seq<Notify.Op>

    constructor (env: Env)
      ensures this.env == env && State() == EMPTY && Valid(State())
    {
      this.env := env;
      topics, subs, messages, deliveries, snapshots, nextId, clock := map[], map[], map[], map[], map[], 1, 0;
      hooks := [];
    }

    function State(): DB
      reads this
    {
      DB(topics, subs, messages, deliveries, snapshots, nextId, clock)
    }

    /** The transaction made this step of a run, and its hooks make the calls the step must make. */
    ghost predicate Did(before: DB, e: Event)
      reads this
    {
      Committed(env, before, e, State(), hooks)
    }

    /** Nothing happened and nobody is called. */
    ghost predicate Undone(before: DB)
      reads this
    {
      State() == before && hooks == []
    }

    // ---- Making deliveries ----

    method DeliverToSubscription(s: Id, msgId: Id) returns (row: Option<Delivery>)
      requires s in subs && msgId in messages
      modifies this`hooks
      ensures row == if Matches(env, subs[s], messages[msgId]) then Some(NewRow(env, State(), s, msgId)) else None
      ensures hooks == old(hooks) + if row.Some? then [WakeOne(s)] else []
    {
      var sub, msg := subs[s], messages[msgId];
      if sub.filter.Some? && sub.filter.value != "" {
        match env.evaluate(sub.filter.value, msg.attributes)
        case ParseError => return None;
        case EvalError => return None;
        case NoMatch => return None;
        case Match =>
      }
      var d := Delivery(msgId, s, clock, clock + sub.deliveryDelay, None, 0, None, clock + sub.messageTTL, None);
      if sub.ordered && msg.orderKey.Some? && msg.orderKey.value != "" {
        d := d.(notBefore := Predecessor(env, State(), s, msg.topicId));
      }
      hooks := hooks + [WakeOne(s)];
      return Some(d);
    }

    method DeliverToAll(targets: seq<Id>, msgId: Id) returns (creates: seq<Delivery>)
      requires msgId in messages && forall s :: s in targets ==> s in subs
      modifies this`hooks
      ensures creates == Creates(env, State(), targets, msgId)
      ensures hooks == old(hooks) + RowCalls(creates)
    {
      creates := [];
      for k := 0 to |targets|
        invariant creates == Creates(env, State(), targets[..k], msgId)
        invariant hooks == old(hooks) + RowCalls(creates)
      {
        var row := DeliverToSubscription(targets[k], msgId);
        assert targets[..k + 1][..k] == targets[..k];
        if row.Some? {
          RowCallsAppend(creates, row.value);
          creates := creates + [row.value];
        }
      }
      assert targets[..|targets|] == targets;
    }

    method CreateBulk(rows: seq<Delivery>)
      modifies this`deliveries, this`nextId
      ensures State() == Insert(old(State()), rows)
    {
      for k := 0 to |rows|
        invariant State() == Insert(old(State()), rows[..k])
      {
        assert rows[..k + 1][..k] == rows[..k];
        deliveries, nextId := deliveries[nextId := rows[k]], nextId + 1;
      }
      assert rows[..|rows|] == rows;
    }

    method DeadLetterDelivery(i: Id, topicId: Id)
      requires Ready(State(), Dead(i)) && FreshIds(State())
      requires subs[deliveries[i].subId].deadLetterTopicId == Some(topicId)
      modifies this`deliveries, this`nextId, this`hooks
      ensures State() == ApplyAct(env, old(State()), Dead(i))
      ensures Extends(old(hooks), hooks, ActWakes(old(State()), Dead(i), State()))
    {
      hide Insert, Extends, Matches, Creates;
      ghost var before := State();
      var d := deliveries[i];
      ghost var made := DeadLetterCopies(d.messageId, topicId);
      InsertSpec(before, made);
      InsertAnnounces(before, made);
      DeadCalls(old(hooks), made, d.subId);
      ghost var sent := State();
      deliveries := deliveries[i := deliveries[i].(completedAt := Some(clock))];
      hooks := hooks + [WakeOne(d.subId)];
      assert Announces(before, State()) == Announces(before, sent);
    }

    /** New deliveries of the message on the dead-letter topic, if it is still there. */
    method DeadLetterCopies(msgId: Id, topicId: Id) returns (ghost made: seq<Delivery>)
      requires msgId in messages
      modifies this`deliveries, this`nextId, this`hooks
      ensures made == if LiveTopic(old(State()), topicId)
                      then Creates(env, old(State()), Rows(env, old(State()), LiveSubs(old(State()), topicId)), msgId) else []
      ensures State() == Insert(old(State()), made)
      ensures hooks == old(hooks) + RowCalls(made)
    {
      made := [];
      if topicId in topics && topics[topicId].Live() {
        var targets := Rows(env, State(), LiveSubs(State(), topicId));
        if |targets| != 0 {
          var creates := DeliverToAll(targets, msgId);
          CreateBulk(creates);
          made := creates;
        }
      }
    }

    method Publish(now: Time, topicId: Id, payload: seq<Byte>, attributes: Attributes, orderKey: string)
      returns (r: Result<Id>, numDeliveries: nat)
      requires Valid(State()) && clock <= now
      modifies this
      ensures r.Failure? <==> !(topicId in old(topics) && old(topics)[topicId].deletedAt == None)
      ensures r.Failure? ==> r.error == NotFound && Undone(old(State()))
      ensures r.Success? ==> Did(old(State()), Event(now, PublishStep(topicId, payload, attributes, orderKey)))
      ensures r.Success? ==> r.value !in old(messages) && r.value in messages
      ensures r.Success? ==> messages[r.value].payload == payload && messages[r.value].attributes == attributes
      ensures r.Success? ==> numDeliveries == |Receivers(env, old(State()), topicId, attributes)|
    {
      hide Valid, Committed, Next, Creates, Insert, Matches, Receivers, Targets;
      hooks := [];
      if !(topicId in topics && topics[topicId].Live()) {
        return Failure(NotFound), 0;
      }
      PublishCommits(env, State(), Event(now, PublishStep(topicId, payload, attributes, orderKey)));
      PublishReply(env, State(), now, topicId, payload, attributes, orderKey);
      clock := now;
      var m := nextId;
      messages := messages[m := Message(topicId, payload, attributes, clock, if orderKey == "" then None else Some(orderKey))];
      nextId := nextId + 1;
      var targets := Rows(env, State(), LiveSubs(State(), topicId));
      var creates := DeliverToAll(targets, m);
      assert hooks == RowCalls(creates);
      CreateBulk(creates);
      return Success(m), |creates|;
    }

    // ---- Nack and background dead-lettering ----

    method NackOne(i: Id, d: Delivery, sub: Subscription) returns (dead: bool)
      requires i in deliveries && deliveries[i] == d && d.messageId in messages && FreshIds(State())
      requires d.subId in subs && subs[d.subId] == sub
      modifies this`deliveries, this`nextId, this`hooks
      ensures var act := NackAct(env, old(State()), i);
        && dead == act.Dead?
        && State() == ApplyAct(env, old(State()), act)
        && Extends(old(hooks), hooks, ActWakes(old(State()), act, State()))
    {
      hide DeadLetterOne, Announces, Lease, NextDelayFor, Extends;
      NothingExtended(hooks);
      dead := sub.HasFullDeadLetterConfig() && d.attempts >= sub.maxDeliveryAttempts.value;
      if dead {
        DeadLetterDelivery(i, sub.deadLetterTopicId.value);
      } else {
        deliveries := deliveries[i := deliveries[i].(attemptAt := clock + Lease(env, d.subId, sub, d.attempts))];
      }
    }

    method NackAll(rows: seq<Id>, found: map<Id, Delivery>, subById: map<Id, Subscription>) returns (numDead: nat)
      requires found == deliveries && FreshIds(State()) && hooks == []
      requires forall i :: i in rows ==>
        i in found && found[i].subId in subById && found[i].subId in subs && subById[found[i].subId] == subs[found[i].subId]
      requires var acts := NackActs(env, State(), rows); DistinctActs(acts) && OpenActs(State(), acts)
      modifies this`deliveries, this`nextId, this`hooks
      ensures State() == Actions.Nack(env, old(State()), rows) && EachAlone(hooks, Woken(old(State()), State()))
      ensures numDead == NumDead(NackActs(env, old(State()), rows))
    {
      hide Batch, Woken, ApplyAct, ActWakes, EachAlone, Extends;
      NobodyAlone();
      ghost var pre := State();
      ghost var acts := NackActs(env, pre, rows);
      LoopStarts(env, pre, acts);
      numDead := 0;
      for k := 0 to |rows|
        invariant State() == Batch(env, pre, acts[..k]) && EachAlone(hooks, Woken(pre, State()))
        invariant numDead == NumDead(acts[..k])
      {
        Round(env, pre, acts, k);
        assert acts[..k + 1][..k] == acts[..k];
        ghost var before, called := State(), hooks;
        var dead := NackOne(rows[k], found[rows[k]], subById[found[rows[k]].subId]);
        ExtendAlone(called, hooks, Woken(pre, before), ActWakes(before, acts[k], State()));
        if dead {
          numDead := numDead + 1;
        }
      }
      assert acts[..|acts|] == acts;
    }

    method Nack(now: Time, ids: set<Id>) returns (numNacked: nat, numDeadLettered: nat, ghost rows: seq<Id>)
      requires Valid(State()) && clock <= now
      modifies this
      ensures Did(old(State()), Event(now, NackStep(ids, rows)))
      ensures numNacked == |PendingAmong(old(State()), ids, now)|
      ensures numDeadLettered == |NowCompleted(old(State()), State())|
    {
      hide Valid, Committed, Next, Batch, Woken, OpenActs, DistinctActs, Actions.Nack, NumDead, NowCompleted, PendingAmong;
      ghost var before := State();
      clock, hooks := now, [];
      ghost var pre := State();
      ClockKeepsValid(before, now);
      var found := deliveries;
      var sorted := SortIds(NackRows(State(), ids));
      rows := sorted;
      NackIsOpen(env, pre, ids, rows);
      var subById := map i | i in sorted :: found[i].subId := subs[found[i].subId];
      numDeadLettered := NackAll(sorted, found, subById);
      numNacked := |sorted|;
      NackCommits(env, before, now, ids, rows, hooks);
      IsNext(env, before, Event(now, NackStep(ids, rows)), State(), hooks);
      NackReply(env, before, now, ids, rows, State());
    }

    method DeadLetterDeliveries(now: Time, maxDeliveries: nat) returns (numDeadLettered: nat, ghost rows: seq<Id>)
      requires Valid(State()) && clock <= now
      modifies this
      ensures Did(old(State()), Event(now, DeadLetterStep(maxDeliveries, rows)))
      ensures numDeadLettered == |NowCompleted(old(State()), State())|
    {
      hide Valid, Committed, Next, Batch, Woken, OpenActs, DistinctActs, NowCompleted;
      ghost var before := State();
      clock, hooks := now, [];
      ghost var pre := State();
      ClockKeepsValid(before, now);
      var selected := SelectSome(DeadLetterRows(State()), maxDeliveries);
      var found := Rows(env, State(), selected);
      rows := found;
      assert Elements(rows) == selected && forall i :: i in rows ==> i in selected;
      DeadsAreOpen(pre, rows);
      DeadLetterAll(found);
      numDeadLettered := |found|;
      DeadLettersCommit(env, before, now, maxDeliveries, rows, hooks);
      IsNext(env, before, Event(now, DeadLetterStep(maxDeliveries, rows)), State(), hooks);
      BackgroundReply(env, before, now, maxDeliveries, rows, State());
    }

    method DeadLetterAll(rows: seq<Id>)
      requires FreshIds(State()) && hooks == [] && DistinctActs(Deads(rows)) && OpenActs(State(), Deads(rows))
      modifies this`deliveries, this`nextId, this`hooks
      ensures State() == Batch(env, old(State()), Deads(rows)) && EachAlone(hooks, Woken(old(State()), State()))
    {
      hide Batch, Woken, ApplyAct, ActWakes, EachAlone, Extends;
      NobodyAlone();
      ghost var pre := State();
      ghost var acts := Deads(rows);
      LoopStarts(env, pre, acts);
      for k := 0 to |rows|
        invariant State() == Batch(env, pre, acts[..k]) && EachAlone(hooks, Woken(pre, State()))
      {
        Round(env, pre, acts, k);
        ghost var before, called := State(), hooks;
        DeadLetterDelivery(rows[k], subs[deliveries[rows[k]].subId].deadLetterTopicId.value);
        ExtendAlone(called, hooks, Woken(pre, before), ActWakes(before, acts[k], State()));
      }
      assert acts[..|acts|] == acts;
    }

    // ---- Pull ----

    /** When the next delivery may be due: two queries by attempt time, the second read for its expiry. */
    method NextAttempt(subId: Id) returns (next: Option<Time>)
      requires subId in subs
      ensures WakeTime(State(), subId, next)
    {
      if EligibleRows(State(), subId) == {} {
        return None;
      }
      var f := Earliest(State(), EligibleRows(State(), subId));
      var g := Earliest(State(), EligibleRows(State(), subId));
      assert IsFirst(State(), EligibleRows(State(), subId), f) && IsFirst(State(), EligibleRows(State(), subId), g);
      var at := deliveries[f].attemptAt;
      if deliveries[g].expiresAt < at {
        at := deliveries[g].expiresAt;
      }
      return Some(at);
    }

    /** One attempt of a pull: hand out what is due, or find out how long to wait. */
    method GetMessages(now: Time, subId: Id, limits: PullLimits) returns (r: Result<PullOutcome>, ghost rows: seq<Id>)
      requires Valid(State()) && clock <= now && limits.maxMessages > 0 && limits.maxBytes > 0
      modifies this
      ensures r.Failure? <==> !(subId in old(subs) && old(subs)[subId].deletedAt == None)
      ensures r.Failure? ==> r.error == NotFound && Undone(old(State()))
      ensures r.Success? && r.value.Waits? ==>
        && State() == At(old(State()), now) && hooks == [] && subId in subs
        && DueRows(State(), subId) == {} && WakeTime(State(), subId, r.value.next)
      ensures r.Success? && r.value.Waits? ==> forall i :: i in deliveries && deliveries[i].subId == subId ==>
        deliveries[i].completedAt == None && deliveries[i].attemptAt <= now < deliveries[i].expiresAt ==>
          subs[subId].ordered && deliveries[i].notBefore != None
          && (deliveries[i].notBefore.value in deliveries ==>
                deliveries[deliveries[i].notBefore.value].completedAt == None
                && now < deliveries[deliveries[i].notBefore.value].expiresAt)
      ensures r.Success? && r.value.Pulled? ==>
        && rows != []
        && Did(old(State()), Event(now, PullStep(subId, limits, rows)))
        && Told(old(State()), State(), subId, r.value.deliveries, r.value.numDeadLettered)
    {
      hide Valid, Committed, Next, Actions.Pull, FirstRows, WakeTime, Pack, EachAlone, Woken, Told, Results;
      ghost var before := State();
      hooks := [];
      rows := [];
      if !(subId in subs && subs[subId].Live()) {
        return Failure(NotFound), [];
      }
      clock := now;
      ClockKeepsValid(before, now);
      var found := SelectFirst(State(), DueRows(State(), subId), limits.maxMessages);
      rows := found;
      if |found| == 0 {
        NothingDue(State(), subId, limits.maxMessages);
        NothingDueLaw(State(), subId);
        var next := NextAttempt(subId);
        return Success(Waits(next)), rows;
      }
      RowsLoaded(State(), subId, limits, rows);
      var results, numDead := ApplyResults(subId, limits, found);
      PullCommits(env, before, now, subId, limits, rows, hooks);
      IsNext(env, before, Event(now, PullStep(subId, limits, rows)), State(), hooks);
      PullReply(env, before, now, subId, limits, rows, State(), results, numDead);
      return Success(Pulled(results, numDead)), rows;
    }

    /** The packing loop: skip what does not fit, dead-letter what is exhausted, take the rest. */
    method Choose(ghost db: DB, subId: Id, sub: Subscription, limits: PullLimits, rows: seq<Id>)
      returns (results: seq<Handed>, chosen: map<Id, Handed>, numDead: nat)
      requires Valid(db) && QueryRows(db, subId, limits, rows) && Loaded(db, rows) && sub == db.subs[subId]
      requires State() == RefreshSub(db, subId) && hooks == []
      modifies this`deliveries, this`nextId, this`hooks
      ensures var p := Pack(db, sub, rows, |rows|, limits);
        && State() == Batch(env, RefreshSub(db, subId), Deads(p.dead))
        && EachAlone(hooks, Woken(RefreshSub(db, subId), State()))
        && numDead == |p.dead|
        && Chosen(env, db, sub, p.taken, results, chosen)
    {
      hide Valid, FirstRows, DueRows, Woken, Batch, ApplyAct, ActWakes, HandedRow, Pack, Chosen, EachAlone, Extends;
      NobodyAlone();
      var found := deliveries;
      var bytes := 0;
      results, chosen, numDead := [], map[], 0;
      ghost var pre, p := State(), Packed([], [], 0);
      RowsLoaded(db, subId, limits, rows);
      ChoiceStarts(env, db, sub, limits, rows, pre);
      for k := 0 to |rows|
        invariant p == Pack(db, sub, rows, k, limits) && bytes == p.bytes && numDead == |p.dead|
        invariant State() == Batch(env, pre, Deads(p.dead)) && EachAlone(hooks, Woken(pre, State()))
        invariant Chosen(env, db, sub, p.taken, results, chosen)
      {
        var i := rows[k];
        var d := found[i];
        var size := |messages[d.messageId].payload|;
        PackNext(db, sub, rows, k, limits);
        ghost var next := Pack(db, sub, rows, k + 1, limits);
        if (limits.strict || k > 0) && bytes + size > limits.maxBytes {
          continue;
        }
        p := next;
        if sub.HasFullDeadLetterConfig() && d.attempts >= sub.maxDeliveryAttempts.value {
          DeadRound(env, db, subId, limits, rows, k);
          ghost var before, called := State(), hooks;
          DeadLetterDelivery(i, sub.deadLetterTopicId.value);
          ExtendAlone(called, hooks, Woken(pre, before), ActWakes(before, Dead(i), State()));
          numDead := numDead + 1;
          continue;
        }
        var handed := HandedRow(env, clock, sub, i, d, messages[d.messageId]);
        assert handed == HandedOf(env, db, sub, i);
        ChosenNext(env, db, sub, p.taken[..|p.taken| - 1], results, chosen, i);
        results, chosen := results + [handed], chosen[i := handed];
        bytes := bytes + size;
        if k + 1 >= limits.maxMessages {
          break;
        }
      }
    }

    /** The update loop: it touches exactly the listed rows, each once. */
    method MarkHandedOut(sub: Subscription, order: seq<Id>, chosen: map<Id, Handed>)
      requires Distinct(order)
      requires forall i :: i in order ==>
        && i in deliveries && i in chosen && chosen[i].id == i
        && chosen[i].nextAttemptAt + chosen[i].fuzzDelay
           == clock + Lease(env, deliveries[i].subId, sub, deliveries[i].attempts + 1)
      modifies this`deliveries
      ensures State() == HandOut(env, old(State()), sub, Elements(order))
    {
      hide Lease, NextDelayFor, HandOut;
      ghost var mid := State();
      HandOutNone(env, mid, sub);
      for k := 0 to |order|
        invariant State() == HandOut(env, mid, sub, Elements(order[..k]))
      {
        var h := chosen[order[k]];
        assert order[k] in order;
        assert order[..k + 1] == order[..k] + [order[k]];
        assert order[k] !in order[..k];
        assert Elements(order[..k + 1]) == Elements(order[..k]) + {order[k]};
        HandOutNext(env, mid, sub, Elements(order[..k]), order[k]);
        var d := deliveries[h.id];
        deliveries := deliveries[h.id := d.(lastAttemptedAt := Some(clock), attempts := d.attempts + 1,
                                            attemptAt := h.nextAttemptAt + h.fuzzDelay)];
      }
      assert order[..|order|] == order;
    }

    method ApplyResults(subId: Id, limits: PullLimits, rows: seq<Id>) returns (results: seq<Handed>, numDead: nat)
      requires Valid(State()) && QueryRows(State(), subId, limits, rows) && Loaded(State(), rows) && hooks == []
      modifies this
      ensures State() == Actions.Pull(env, old(State()), subId, limits, rows)
      ensures EachAlone(hooks, Woken(old(State()), State()))
      ensures Results(env, old(State()), subId, limits, rows, results, numDead)
    {
      hide Valid, FirstRows, DueRows, Woken, Pack, Batch, HandOut, EachAlone, HandedOf, Lease;
      ghost var db := State();
      var sub := subs[subId];
      subs := subs[subId := sub.(expiresAt := clock + sub.ttl)];
      var chosen;
      results, chosen, numDead := Choose(db, subId, sub, limits, rows);
      ghost var mid, p := State(), Pack(db, sub, rows, |rows|, limits);
      TakenUntouched(env, db, subId, limits, rows);
      ChosenReady(env, db, sub, p.taken, results, chosen);
      var order := AnyOrder(seq(|results|, k requires 0 <= k < |results| => results[k].id));
      MarkHandedOut(sub, order, chosen);
      HandOutWakes(env, db, subId, mid, sub, Elements(p.taken));
    }

    /** A pull's first transaction: the subscription must be live, and using it postpones its expiry. */
    method Touch(now: Time, subId: Id) returns (r: Result<()>)
      requires Valid(State()) && clock <= now
      modifies this
      ensures r.Failure? <==> !(subId in old(subs) && old(subs)[subId].deletedAt == None)
      ensures r.Failure? ==> r.error == NotFound && Undone(old(State()))
      ensures r.Success? ==> Did(old(State()), Event(now, TouchStep(subId)))
    {
      hide Valid, Committed;
      hooks := [];
      if !(subId in subs && subs[subId].Live()) {
        return Failure(NotFound);
      }
      r := GiveUp(now, subId);
    }

    /** A pull whose time is up applies no results: that postpones the expiry of the subscription it knows,
        deleted or not, as long as its row is there. */
    method GiveUp(now: Time, subId: Id) returns (r: Result<()>)
      requires Valid(State()) && clock <= now
      modifies this
      ensures r.Failure? <==> subId !in old(subs)
      ensures r.Failure? ==> r.error == NotFound && Undone(old(State()))
      ensures r.Success? ==> Did(old(State()), Event(now, TouchStep(subId)))
    {
      hide Valid, Committed, CallsFor;
      hooks := [];
      if subId !in subs {
        return Failure(NotFound);
      }
      ghost var before := State();
      clock := now;
      subs := subs[subId := subs[subId].(expiresAt := clock + subs[subId].ttl)];
      NobodyCalled(At(before, now), TouchStep(subId), State());
      Commit(env, before, Event(now, TouchStep(subId)), State(), hooks);
      return Success(());
    }

    // ---- Ack and delay ----

    method Ack(now: Time, ids: set<Id>) returns (numAcked: nat)
      requires Valid(State()) && clock <= now
      modifies this
      ensures Did(old(State()), Event(now, AckStep(ids)))
      ensures numAcked == |OpenAmong(old(State()), ids)|
    {
      hide Valid, Committed, EachAlone, SubIdsOf, CompleteRows, OpenAmong;
      ghost var before := State();
      clock, hooks := now, [];
      var rows := AckRows(State(), ids);
      var subIds := Rows(env, State(), SubIdsOf(State(), rows));
      ListsEmpty(subIds, SubIdsOf(At(before, now), rows));
      CompleteAll(rows);
      WakeAll(subIds);
      assert hooks == WakeEach(subIds);
      WakeEachAlone(subIds);
      AckCommits(env, before, now, ids, hooks);
      AckReply(before, now, ids);
      return |rows|;
    }

    /** A commit hook that wakes subscriptions one by one. */
    method WakeAll(subIds: seq<Id>)
      modifies this`hooks
      ensures hooks == old(hooks) + WakeEach(subIds)
    {
      for k := 0 to |subIds|
        invariant hooks == old(hooks) + WakeEach(subIds[..k])
      {
        assert WakeEach(subIds[..k + 1]) == WakeEach(subIds[..k]) + [WakeOne(subIds[k])];
        hooks := hooks + [WakeOne(subIds[k])];
      }
      assert subIds[..|subIds|] == subIds;
    }

    method Delay(now: Time, ids: set<Id>, delay: Duration) returns (numDelayed: nat)
      requires Valid(State()) && clock <= now
      modifies this
      ensures Did(old(State()), Event(now, DelayStep(ids, delay)))
      ensures numDelayed == |MovableAmong(old(State()), ids, delay, now)|
    {
      hide Valid, Committed, CallsForDelay, DelayRows, SubIdsOf, DelayDeliveries, MovableAmong;
      ghost var before := State();
      clock, hooks := now, [];
      var open := set i | i in ids && i in deliveries && !deliveries[i].Completed();
      var subIds: seq<Id> := [];
      if delay <= 0 {
        subIds := Rows(env, State(), SubIdsOf(State(), open));
      } else {
        open := set i | i in open && deliveries[i].attemptAt < clock + delay;
      }
      OpenRows(State(), ids, delay, open);
      DelayAll(ids, delay, open);
      if |subIds| != 0 {
        hooks := hooks + [Notify.WakePublishOp(false, subIds)];
      }
      ReleaseCalls(subIds, Released(At(before, now), ids, delay), hooks);
      DelayCommits(env, before, now, ids, delay, hooks);
      DelayReply(before, now, ids, delay);
      return |open|;
    }

    method DelayAll(ghost ids: set<Id>, delay: Duration, rows: set<Id>)
      requires rows == DelayRows(State(), ids, delay)
      modifies this`deliveries
      ensures State() == DelayDeliveries(old(State()), ids, delay)
    {
      deliveries := map i | i in deliveries ::
        if i in rows then deliveries[i].(attemptAt := clock + delay) else deliveries[i];
    }

    // ---- Snapshots and seeks ----

    method CreateSnapshot(now: Time, name: string, subId: Id) returns (r: Result<Id>)
      requires Valid(State()) && clock <= now
      modifies this
      ensures r == Failure(Exists) <==> exists p :: p in old(snapshots) && old(snapshots)[p].name == name
      ensures r.Success? ==> subId in old(subs) && old(subs)[subId].deletedAt == None
      ensures r.Failure? && r.error != Exists ==>
        r.error == NotFound && !(subId in old(subs) && old(subs)[subId].deletedAt == None)
      ensures r.Failure? ==> Undone(old(State()))
      ensures r.Success? ==> Did(old(State()), Event(now, CreateSnapshotStep(name, subId)))
      ensures r.Success? ==> r.value in snapshots && r.value !in old(snapshots) && snapshots[r.value].name == name
    {
      hide Valid, Committed, UnackedRows, AckedMessages;
      hooks := [];
      if exists p :: p in snapshots && snapshots[p].name == name {
        return Failure(Exists);
      }
      if !(subId in subs && subs[subId].Live()) {
        return Failure(NotFound);
      }
      ghost var before := State();
      clock := now;
      var sub := subs[subId];
      var snap := Snapshot(sub.topicId, name, clock, clock + SNAPSHOT_TTL, clock, {});
      var unacked := UnackedRows(State(), subId);
      UnackedExist(State(), subId);
      if unacked != {} {
        var oldest := OldestOf(State(), unacked);
        var from := deliveries[oldest].publishedAt;
        assert from == OldestPublished(State(), unacked);
        snap := snap.(ackedMessagesBefore := from, ackedMessageIds := AckedMessages(State(), subId, sub.topicId, from));
      }
      assert snap == TakeSnapshot(State(), name, subId);
      SnapshotCommits(env, before, now, name, subId);
      var id := nextId;
      snapshots, nextId := snapshots[id := snap], nextId + 1;
      return Success(id);
    }

    method SeekToSnapshot(now: Time, subId: Id, snapId: Id) returns (r: Result<(nat, nat)>)
      requires Valid(State()) && clock <= now
      modifies this
      ensures r.Failure? <==>
        !(subId in old(subs) && old(subs)[subId].deletedAt == None && snapId in old(snapshots))
      ensures r.Failure? ==> r.error == NotFound && Undone(old(State()))
      ensures r.Success? ==>
        && Did(old(State()), Event(now, SeekToSnapshotStep(subId, snapId)))
        && r.value == (|NowCompleted(old(State()), State())|, |NowOpen(old(State()), State())|)
    {
      hide Valid, Committed, Next, SnapAckedBefore, SnapAckedListed, SnapReopened, CompleteRows, ReopenRows, NowCompleted, NowOpen;
      hooks := [];
      if !(subId in subs && subs[subId].Live()) {
        return Failure(NotFound);
      }
      if snapId !in snapshots {
        return Failure(NotFound);
      }
      ghost var before := State();
      clock := now;
      var snap := snapshots[snapId];
      SeekToSnapshotCommits(env, before, now, subId, snapId);
      var acked := SnapAckedBefore(State(), subId, snap);
      CompleteAll(acked);
      var numAcked := |acked|;
      if |snap.ackedMessageIds| != 0 {
        acked := SnapAckedListed(State(), subId, snap);
        CompleteAll(acked);
        numAcked := numAcked + |acked|;
      } else {
        NoneListed(State(), subId, snap);
      }
      var reopened := SnapReopened(State(), subId, snap);
      ReopenAll(reopened, subs[subId].messageTTL);
      if numAcked != 0 || |reopened| != 0 {
        hooks := hooks + [WakeOne(subId)];
      }
      assert hooks == if numAcked != 0 || |reopened| != 0 then [WakeOne(subId)] else [];
      IsNext(env, before, Event(now, SeekToSnapshotStep(subId, snapId)), State(), hooks);
      SeekToSnapshotReply(env, before, now, subId, snapId, State());
      return Success((numAcked, |reopened|));
    }

    method SeekToTime(now: Time, subId: Id, time: Time) returns (r: Result<(nat, nat)>)
      requires Valid(State()) && clock <= now
      modifies this
      ensures r.Failure? <==> !(subId in old(subs) && old(subs)[subId].deletedAt == None)
      ensures r.Failure? ==> r.error == NotFound && Undone(old(State()))
      ensures r.Success? ==>
        && Did(old(State()), Event(now, SeekToTimeStep(subId, time)))
        && r.value == (|NowCompleted(old(State()), State())|, |NowOpen(old(State()), State())|)
    {
      hide Valid, Committed, Next, TimeAcked, TimeReopened, CompleteRows, ReopenRows, NowCompleted, NowOpen;
      hooks := [];
      if !(subId in subs && subs[subId].Live()) {
        return Failure(NotFound);
      }
      ghost var before := State();
      clock := now;
      SeekToTimeCommits(env, before, now, subId, time);
      var acked := TimeAcked(State(), subId, time);
      CompleteAll(acked);
      var reopened := TimeReopened(State(), subId, time);
      ReopenAll(reopened, subs[subId].messageTTL);
      if |acked| != 0 || |reopened| != 0 {
        hooks := hooks + [WakeOne(subId)];
      }
      assert hooks == if |acked| != 0 || |reopened| != 0 then [WakeOne(subId)] else [];
      IsNext(env, before, Event(now, SeekToTimeStep(subId, time)), State(), hooks);
      SeekToTimeReply(env, before, now, subId, time, State());
      return Success((|acked|, |reopened|));
    }

    method CompleteAll(rows: set<Id>)
      modifies this`deliveries
      ensures State() == CompleteRows(old(State()), rows)
    {
      deliveries := map i | i in deliveries ::
        if i in rows then deliveries[i].(completedAt := Some(clock)) else deliveries[i];
    }

    method ReopenAll(rows: set<Id>, ttl: Duration)
      modifies this`deliveries
      ensures State() == ReopenRows(old(State()), rows, ttl)
    {
      deliveries := map i | i in deliveries ::
        if i in rows then deliveries[i].(completedAt := None, expiresAt := clock + ttl, attemptAt := clock) else deliveries[i];
    }

    // ---- Deleting ----

    method DeleteSubscription(now: Time, name: string) returns (r: Result<nat>)
      requires Valid(State()) && clock <= now
      modifies this
      ensures r.Failure? <==> SubsCalled(old(State()), name) == {}
      ensures r.Failure? ==> r.error == NotFound && Undone(old(State()))
      ensures r.Success? ==> Did(old(State()), Event(now, DeleteSubscriptionStep(name)))
      ensures r.Success? ==> r.value == |SubsCalled(old(State()), name)|
    {
      hide Valid, Committed, LiveSubsNamed, SubsCalled;
      hooks := [];
      ghost var before := State();
      DeleteReply(before, name);
      var found := Rows(env, State(), LiveSubsNamed(State(), name));
      ListsEmpty(found, LiveSubsNamed(before, name));
      if |found| == 0 {
        return Failure(NotFound);
      }
      clock := now;
      NamedExist(before, name);
      MarkSubsDeleted(found);
      assert CallsForSubs(At(before, now), LiveSubsNamed(before, name), hooks);
      DeleteSubCommits(env, before, now, name, hooks);
      return Success(|found|);
    }

    method DeleteExpiredSubscriptions(now: Time, minAge: Duration, maxDelete: nat) returns (numDeleted: nat, ghost p: Prune)
      requires Valid(State()) && clock <= now && minAge >= 0 && maxDelete > 0
      modifies this
      ensures p.minAge == minAge && p.maxDelete == maxDelete && numDeleted == |p.rows|
      ensures Did(old(State()), Event(now, DeleteExpiredSubscriptionsStep(p)))
    {
      hide Valid, Committed, ExpiredSubs;
      ghost var before := State();
      clock, hooks := now, [];
      var selected := SelectSome(ExpiredSubs(State()), maxDelete);
      p := Prune(minAge, maxDelete, selected);
      var found := Rows(env, State(), selected);
      ListsEmpty(found, selected);
      ExpiredExist(At(before, now), selected);
      MarkSubsDeleted(found);
      DeleteExpiredCommits(env, before, now, p, hooks);
      return |found|, p;
    }

    /** Fills the id list, marks those rows, then notifies for each. */
    method MarkSubsDeleted(found: seq<Id>)
      requires hooks == [] && forall s :: s in found ==> s in subs
      modifies this`subs, this`hooks
      ensures State() == DeleteSubs(old(State()), Elements(found))
      ensures hooks == SubsModified(old(subs), found)
    {
      var listed := subs;
      var ids := FillIds(found);
      subs := map s | s in subs :: if s in ids then subs[s].(deletedAt := Some(clock)) else subs[s];
      assert subs == DeleteSubs(old(State()), Elements(found)).subs;
      NotifySubs(listed, found);
    }

    method NotifySubs(listed: map<Id, Subscription>, found: seq<Id>)
      requires hooks == [] && forall s :: s in found ==> s in listed
      modifies this`hooks
      ensures hooks == SubsModified(listed, found)
    {
      for k := 0 to |found|
        invariant hooks == SubsModified(listed, found[..k])
      {
        assert found[..k + 1][..k] == found[..k];
        NotifyModifySubscription(found[k], listed[found[k]].name);
      }
      assert found[..|found|] == found;
    }

    /** Wakes the subscription's modify listeners, then the internal listeners for publishes to it. */
    method NotifyModifySubscription(s: Id, name: string)
      modifies this`hooks
      ensures hooks == old(hooks) + [Notify.WakeModifyOp(Notify.OfSubs, false, s, name), Notify.WakePublishOp(true, [s])]
    {
      hooks := hooks + [Notify.WakeModifyOp(Notify.OfSubs, false, s, name)];
      hooks := hooks + [Notify.WakePublishOp(true, [s])];
    }

    method FillIds(found: seq<Id>) returns (ids: seq<Id>)
      ensures ids == found
    {
      var filled := new Id[|found|];
      for k := 0 to |found|
        invariant filled[..k] == found[..k]
      {
        filled[k] := found[k];
      }
      return filled[..];
    }

    method DeleteTopic(now: Time, name: string) returns (r: Result<nat>)
      requires Valid(State()) && clock <= now
      modifies this
      ensures r.Failure? <==> TopicsCalled(old(State()), name) == {}
      ensures r.Failure? ==> r.error == NotFound && Undone(old(State()))
      ensures r.Success? ==> Did(old(State()), Event(now, DeleteTopicStep(name)))
      ensures r.Success? ==> r.value == |TopicsCalled(old(State()), name)|
    {
      hide Valid, Committed, LiveTopicsNamed, TopicsCalled;
      hooks := [];
      ghost var before := State();
      DeleteReply(before, name);
      var found := Rows(env, State(), LiveTopicsNamed(State(), name));
      ListsEmpty(found, LiveTopicsNamed(before, name));
      if |found| == 0 {
        return Failure(NotFound);
      }
      clock := now;
      NamedExist(before, name);
      MarkTopicsDeleted(found);
      assert CallsForTopics(At(before, now), LiveTopicsNamed(before, name), hooks);
      DeleteTopicCommits(env, before, now, name, hooks);
      return Success(|found|);
    }

    /** Fills the id list, marks those rows, drops their snapshots, then notifies for each. */
    method MarkTopicsDeleted(found: seq<Id>)
      requires hooks == [] && forall t :: t in found ==> t in topics
      modifies this`topics, this`snapshots, this`hooks
      ensures State() == DeleteTopics(old(State()), Elements(found))
      ensures hooks == TopicsModified(old(topics), found)
    {
      var listed := topics;
      var ids := FillIds(found);
      topics := map t | t in topics :: if t in ids then topics[t].(deletedAt := Some(clock)) else topics[t];
      assert topics == DeleteTopics(old(State()), Elements(found)).topics;
      snapshots := map p | p in snapshots && snapshots[p].topicId !in ids :: snapshots[p];
      assert snapshots == DeleteTopics(old(State()), Elements(found)).snapshots;
      NotifyTopics(listed, found);
    }

    method NotifyTopics(listed: map<Id, Topic>, found: seq<Id>)
      requires hooks == [] && forall t :: t in found ==> t in listed
      modifies this`hooks
      ensures hooks == TopicsModified(listed, found)
    {
      for k := 0 to |found|
        invariant hooks == TopicsModified(listed, found[..k])
      {
        assert found[..k + 1][..k] == found[..k];
        hooks := hooks + [Notify.WakeModifyOp(Notify.OfTopics, false, found[k], listed[found[k]].name)];
      }
      assert found[..|found|] == found;
    }

    // ---- Pruning ----

    method RemoveRows(ids: set<Id>)
      modifies this`deliveries
      ensures State() == RemoveDeliveries(old(State()), ids)
    {
      deliveries := map i | i in deliveries && i !in ids :: Unlink(deliveries[i], ids);
    }

    method PruneCompletedDeliveries(now: Time, minAge: Duration, maxDelete: nat) returns (numDeleted: nat, ghost p: Prune)
      requires Valid(State()) && clock <= now && minAge >= 0 && maxDelete > 0
      modifies this
      ensures p.minAge == minAge && p.maxDelete == maxDelete && numDeleted == |p.rows|
      ensures Did(old(State()), Event(now, PruneCompletedDeliveriesStep(p)))
    {
      hide Valid, Committed, CompletedRows;
      ghost var before := State();
      clock, hooks := now, [];
      var ids := SelectSome(CompletedRows(State(), minAge), maxDelete);
      p := Prune(minAge, maxDelete, ids);
      PruneCommits(env, before, Event(now, PruneCompletedDeliveriesStep(p)), ids);
      RemoveRows(ids);
      return |ids|, p;
    }

    method PruneDeletedSubscriptionDeliveries(now: Time, minAge: Duration, maxDelete: nat) returns (numDeleted: nat, ghost p: Prune)
      requires Valid(State()) && clock <= now && minAge >= 0 && maxDelete > 0
      modifies this
      ensures p.minAge == minAge && p.maxDelete == maxDelete && numDeleted == |p.rows|
      ensures Did(old(State()), Event(now, PruneDeletedSubscriptionDeliveriesStep(p)))
    {
      hide Valid, Committed, OrphanRows;
      ghost var before := State();
      clock, hooks := now, [];
      var ids := SelectSome(OrphanRows(State(), minAge), maxDelete);
      p := Prune(minAge, maxDelete, ids);
      PruneCommits(env, before, Event(now, PruneDeletedSubscriptionDeliveriesStep(p)), ids);
      RemoveRows(ids);
      return |ids|, p;
    }

    method PruneExpiredDeliveries(now: Time, minAge: Duration, maxDelete: nat) returns (numDeleted: nat, ghost p: Prune)
      requires Valid(State()) && clock <= now && minAge >= 0 && maxDelete > 0
      modifies this
      ensures p.minAge == minAge && p.maxDelete == maxDelete && numDeleted == |p.rows|
      ensures Did(old(State()), Event(now, PruneExpiredDeliveriesStep(p)))
    {
      hide Valid, Committed, ExpiredRows;
      ghost var before := State();
      clock, hooks := now, [];
      var ids := SelectSome(ExpiredRows(State()), maxDelete);
      p := Prune(minAge, maxDelete, ids);
      var orderedSubs := Rows(env, State(), OrderedSubs(State(), ids));
      ListsEmpty(orderedSubs, OrderedSubs(At(before, now), ids));
      RemoveRows(ids);
      WakeAll(orderedSubs);
      assert hooks == WakeEach(orderedSubs);
      WakeEachAlone(orderedSubs);
      PruneExpiredCommits(env, before, now, p, hooks);
      return |ids|, p;
    }

    method PruneCompletedMessages(now: Time, minAge: Duration, maxDelete: nat) returns (numDeleted: nat, ghost p: Prune)
      requires Valid(State()) && clock <= now && minAge >= 0 && maxDelete > 0
      modifies this
      ensures p.minAge == minAge && p.maxDelete == maxDelete && numDeleted == |p.rows|
      ensures Did(old(State()), Event(now, PruneCompletedMessagesStep(p)))
    {
      hide Valid, Committed, UnusedMessages;
      ghost var before := State();
      clock, hooks := now, [];
      var ids := SelectSome(UnusedMessages(State(), minAge), maxDelete);
      p := Prune(minAge, maxDelete, ids);
      PruneMessagesCommits(env, before, now, p);
      messages := map m | m in messages && m !in ids :: messages[m];
      return |ids|, p;
    }

    method PruneDeletedSubscriptions(now: Time, minAge: Duration, maxDelete: nat) returns (numDeleted: nat, ghost p: Prune)
      requires Valid(State()) && clock <= now && minAge >= 0 && maxDelete > 0
      modifies this
      ensures p.minAge == minAge && p.maxDelete == maxDelete && numDeleted == |p.rows|
      ensures Did(old(State()), Event(now, PruneDeletedSubscriptionsStep(p)))
    {
      hide Valid, Committed, DrainedSubs;
      ghost var before := State();
      clock, hooks := now, [];
      var ids := SelectSome(DrainedSubs(State(), minAge), maxDelete);
      p := Prune(minAge, maxDelete, ids);
      PruneSubsCommits(env, before, now, p);
      var listed := Rows(env, State(), ids);
      var filled := FillIds(listed);
      subs := map s | s in subs && s !in filled :: subs[s];
      assert subs == RemoveSubs(At(before, now), ids).subs;
      return |ids|, p;
    }

    /** Messages or snapshots that still name one of the topics make the database refuse, and the
        transaction is rolled back. */
    method PruneDeletedTopics(now: Time, minAge: Duration, maxDelete: nat) returns (r: Result<nat>, ghost p: Prune)
      requires Valid(State()) && clock <= now && minAge >= 0 && maxDelete > 0
      modifies this
      ensures p.minAge == minAge && p.maxDelete == maxDelete
      ensures Limited(p.rows, DrainedTopics(At(old(State()), now), minAge), maxDelete)
      ensures r.Failure? <==>
        || (exists m :: m in old(messages) && old(messages)[m].topicId in p.rows)
        || (exists x :: x in old(snapshots) && old(snapshots)[x].topicId in p.rows)
      ensures r.Failure? ==> r.error == ForeignKey && Undone(old(State()))
      ensures r.Success? ==> r.value == |p.rows| && Did(old(State()), Event(now, PruneDeletedTopicsStep(p)))
    {
      hide Valid, Committed, DrainedTopics, Limited, CallsFor, Wakes, RemoveTopics;
      hooks := [];
      ghost var before := State();
      var saved := clock;
      clock := now;
      var ids := SelectSome(DrainedTopics(State(), minAge), maxDelete);
      p := Prune(minAge, maxDelete, ids);
      var listed := Rows(env, State(), ids);
      var filled := FillIds(listed);
      if !Unreferenced(State(), ids) {
        clock := saved;
        return Failure(ForeignKey), p;
      }
      PruneTopicsCommits(env, before, now, p);
      ListsEmpty(filled, ids);
      DropTopics(filled);
      return Success(|ids|), p;
    }

    method DropTopics(ids: seq<Id>)
      modifies this`topics, this`subs
      ensures State() == RemoveTopics(old(State()), Elements(ids))
    {
      topics := map t | t in topics && t !in ids :: topics[t];
      subs := map s | s in subs ::
        if subs[s].deadLetterTopicId.Some? && subs[s].deadLetterTopicId.value in ids
        then subs[s].(deadLetterTopicId := None) else subs[s];
      assert topics == RemoveTopics(old(State()), Elements(ids)).topics;
      assert subs == RemoveTopics(old(State()), Elements(ids)).subs;
    }
  }
}
