/** Runs from the empty bus that end where a promise of the code's comments fails. Each is an instance of
    an exact condition proved elsewhere. */
module Failures {
  import opened Types
  import opened Backoff
  import opened DeliveryUtils
  import opened Actions
  import opened Effects
  import opened Runs
  import opened Ordering
  import opened Snapshots
  import opened Wakeups
  import opened Commits

  const TOPIC: Id := 1
  const SUB: Id := 2
  const TOPICS: map<Id, Topic> := map[TOPIC := Topic("t", None)]

  /** A subscription without filter, backoff settings and dead letters. */
  function Sub(ordered: bool, messageTTL: Duration): Subscription {
    Subscription(TOPIC, "s", 1_000_000, None, 1_000_000, messageTTL, ordered, None, None, None, None, None, 0)
  }

  /** The bus with that one topic and subscription. */
  function World(sub: Subscription, messages: map<Id, Message>, deliveries: map<Id, Delivery>, nextId: Id, clock: Time): DB {
    DB(TOPICS, map[SUB := sub], messages, deliveries, map[], nextId, clock)
  }

  const WITH_TOPIC := DB(TOPICS, map[], map[], map[], map[], 2, 0)

  lemma Setup(env: Env, sub: Subscription)
    requires sub == Sub(sub.ordered, sub.messageTTL) && sub.messageTTL > 0
    ensures Next(env, EMPTY, Event(0, CreateTopicStep("t")), WITH_TOPIC)
    ensures Next(env, WITH_TOPIC, Event(0, CreateSubscriptionStep(sub)), World(sub, map[], map[], 3, 0))
  {
    assert LiveTopicsNamed(At(EMPTY, 0), "t") == {};
    assert LiveSubsNamed(At(WITH_TOPIC, 0), sub.name) == {};
  }

  function Posted(now: Time, key: string): Message {
    Message(TOPIC, [], map[], now, if key == "" then None else Some(key))
  }

  function Fresh(msgId: Id, now: Time, messageTTL: Duration, link: Option<Id>): Delivery {
    Delivery(msgId, SUB, now, now, None, 0, None, now + messageTTL, link)
  }

  /** A publish makes one delivery. */
  lemma PublishesOne(env: Env, sub: Subscription, messages: map<Id, Message>, deliveries: map<Id, Delivery>,
                     nextId: Id, clock: Time, now: Time, key: string, link: Option<Id>)
    requires sub == Sub(sub.ordered, sub.messageTTL) && clock <= now
    requires Rooted(World(sub, messages, deliveries, nextId, clock))
    requires link == if sub.ordered && key != ""
                     then Predecessor(env, World(sub, messages[nextId := Posted(now, key)], deliveries, nextId + 1, now), SUB, TOPIC)
                     else None
    ensures Next(env, World(sub, messages, deliveries, nextId, clock), Event(now, PublishStep(TOPIC, [], map[], key)),
                 World(sub, messages[nextId := Posted(now, key)],
                     deliveries[nextId + 1 := Fresh(nextId, now, sub.messageTTL, link)], nextId + 2, now))
  {
    hide FanOut, Predecessor;
    var posted := World(sub, messages[nextId := Posted(now, key)], deliveries, nextId + 1, now);
    FansOutToOne(env, sub, posted, nextId);
  }

  lemma FansOutToOne(env: Env, sub: Subscription, posted: DB, msgId: Id)
    requires posted.subs == map[SUB := sub] && sub == Sub(sub.ordered, sub.messageTTL) && msgId in posted.messages
    ensures FanOut(env, posted, TOPIC, msgId) ==
      posted.(deliveries := posted.deliveries[posted.nextId := NewRow(env, posted, SUB, msgId)], nextId := posted.nextId + 1)
  {
    hide NewRow, Creates, Insert;
    var subs := Rows(env, posted, LiveSubs(posted, TOPIC));
    assert LiveSubs(posted, TOPIC) == {SUB};
    ListsEmpty(subs, {SUB});
    assert subs[0] in subs && subs == [SUB];
    CreatesOne(env, posted, SUB, msgId);
    InsertsOne(posted, NewRow(env, posted, SUB, msgId));
  }

  lemma CreatesOne(env: Env, db: DB, s: Id, msgId: Id)
    requires msgId in db.messages && s in db.subs && Matches(env, db.subs[s], db.messages[msgId])
    ensures Creates(env, db, [s], msgId) == [NewRow(env, db, s, msgId)]
  {
    hide NewRow, Matches;
    assert [s][..0] == [];
    assert Creates(env, db, [], msgId) == [];
  }

  lemma InsertsOne(db: DB, row: Delivery)
    ensures Insert(db, [row]) == db.(deliveries := db.deliveries[db.nextId := row], nextId := db.nextId + 1)
  {
    assert [row][..0] == [];
    assert Insert(db, []) == db;
  }

  /** A delay moves the one row it names. */
  lemma DelaysOne(env: Env, db: DB, now: Time, i: Id, delay: Duration)
    requires Rooted(db) && db.clock <= now && i in db.deliveries && !db.deliveries[i].Completed()
    requires db.deliveries[i].attemptAt < now + delay
    ensures Next(env, db, Event(now, DelayStep({i}, delay)),
                 At(db, now).(deliveries := db.deliveries[i := db.deliveries[i].(attemptAt := now + delay)]))
  {
    assert DelayRows(At(db, now), {i}, delay) == {i};
    assert DelayDeliveries(At(db, now), {i}, delay).deliveries == db.deliveries[i := db.deliveries[i].(attemptAt := now + delay)];
  }

  // ---- Sleeping too long ----

  const ORDERED := Sub(true, 100)

  const A := Fresh(3, 10, 100, None)
  const B := Fresh(5, 50, 100, Some(4))
  const X := Fresh(7, 90, 100, None)

  const AFTER_A := World(ORDERED, map[3 := Posted(10, "")], map[4 := A], 5, 10)
  const AFTER_B := World(ORDERED, map[3 := Posted(10, ""), 5 := Posted(50, "k")], map[4 := A, 6 := B], 7, 50)
  const AFTER_X := World(ORDERED, map[3 := Posted(10, ""), 5 := Posted(50, "k"), 7 := Posted(90, "")],
                       map[4 := A, 6 := B, 8 := X], 9, 90)
  const A_DELAYED := AFTER_X.(deliveries := map[4 := A.(attemptAt := 1000), 6 := B, 8 := X], clock := 100)
  const X_DELAYED := AFTER_X.(deliveries := map[4 := A.(attemptAt := 1000), 6 := B, 8 := X.(attemptAt := 180)], clock := 100)

  const OVERSLEEPS: seq<DB> := [EMPTY, WITH_TOPIC, World(ORDERED, map[], map[], 3, 0), AFTER_A, AFTER_B, AFTER_X, A_DELAYED, X_DELAYED]
  const OVERSLEEPING: seq<Event> := [
    Event(0, CreateTopicStep("t")),
    Event(0, CreateSubscriptionStep(ORDERED)),
    Event(10, PublishStep(TOPIC, [], map[], "")),
    Event(50, PublishStep(TOPIC, [], map[], "k")),
    Event(90, PublishStep(TOPIC, [], map[], "")),
    Event(100, DelayStep({4}, 900)),
    Event(100, DelayStep({8}, 80))]

  lemma LinkToA(env: Env)
    ensures Predecessor(env, AFTER_A.(messages := AFTER_A.messages[5 := Posted(50, "k")], nextId := 6, clock := 50), SUB, TOPIC) == Some(4)
  {
    var db := AFTER_A.(messages := AFTER_A.messages[5 := Posted(50, "k")], nextId := 6, clock := 50);
    assert 4 in Candidates(db, SUB, TOPIC);
    PredecessorIsNewest(env, db, SUB, TOPIC);
  }

  lemma OversleepingRuns(env: Env)
    ensures Run(env, OVERSLEEPS, OVERSLEEPING)
  {
    hide Next;
    Setup(env, ORDERED);
    Publishing(env);
    Delaying(env);
  }

  lemma Publishing(env: Env)
    ensures Next(env, OVERSLEEPS[2], OVERSLEEPING[2], AFTER_A)
    ensures Next(env, AFTER_A, OVERSLEEPING[3], AFTER_B)
    ensures Next(env, AFTER_B, OVERSLEEPING[4], AFTER_X)
  {
    hide Next, Predecessor;
    PublishesOne(env, ORDERED, map[], map[], 3, 0, 10, "", None);
    LinkToA(env);
    PublishesOne(env, ORDERED, AFTER_A.messages, AFTER_A.deliveries, 5, 10, 50, "k", Some(4));
    PublishesOne(env, ORDERED, AFTER_B.messages, AFTER_B.deliveries, 7, 50, 90, "", None);
  }

  lemma Delaying(env: Env)
    ensures Next(env, AFTER_X, OVERSLEEPING[5], A_DELAYED)
    ensures Next(env, A_DELAYED, OVERSLEEPING[6], X_DELAYED)
  {
    hide Next;
    DelaysOne(env, AFTER_X, 100, 4, 900);
    DelaysOne(env, A_DELAYED, 100, 8, 80);
    assert AFTER_X.deliveries[4 := A.(attemptAt := 1000)] == A_DELAYED.deliveries;
    assert A_DELAYED.deliveries[8 := X.(attemptAt := 180)] == X_DELAYED.deliveries;
  }

  /** A pull can sleep past a due delivery until it has expired. On an ordered subscription, A without an
      order key, B with one, linked to A, and X without one are published; then A is delayed far and X less.
      Nothing is due at 100, and the pull sleeps until 180, when X is. But B is due from 110, when A expires,
      and expires itself at 150. */
  lemma CanOversleep(env: Env)
    ensures Run(env, OVERSLEEPS, OVERSLEEPING) && Valid(EMPTY)
    ensures DueRows(X_DELAYED, SUB) == {}
    ensures WakeTime(X_DELAYED, SUB, Some(180))
    ensures Overslept(X_DELAYED, SUB, 6, 180)
    ensures 6 in DueRows(At(X_DELAYED, 110), SUB) && X_DELAYED.deliveries[6].expiresAt == 150
  {
    hide Run, EligibleRows;
    OversleepingRuns(env);
    NothingDueAt100();
    assert IsFirst(X_DELAYED, {4, 8}, 8) && 180 == Sooner(X_DELAYED, 8, 8);
    assert Overslept(X_DELAYED, SUB, 6, 180);
    DueAt110();
  }

  lemma NothingDueAt100()
    ensures EligibleRows(X_DELAYED, SUB) == {4, 8} && DueRows(X_DELAYED, SUB) == {}
  {
  }

  lemma DueAt110()
    ensures 6 in DueRows(At(X_DELAYED, 110), SUB)
  {
  }

  // ---- A snapshot that does not come back ----

  const UNORDERED := Sub(false, 100)

  const PUBLISHED := World(UNORDERED, map[3 := Posted(10, "")], map[4 := Fresh(3, 10, 100, None)], 5, 10)
  const ACKED := PUBLISHED.(deliveries := map[4 := Fresh(3, 10, 100, None).(completedAt := Some(10))])
  const SNAPSHOT := Snapshot(TOPIC, "n", 10, 10 + SNAPSHOT_TTL, 10, {})
  const TAKEN := ACKED.(snapshots := map[5 := SNAPSHOT], nextId := 6)
  const SOUGHT := TAKEN.(deliveries := map[4 := Fresh(3, 10, 100, None)])

  const LOSES_ACK: seq<DB> := [EMPTY, WITH_TOPIC, World(UNORDERED, map[], map[], 3, 0), PUBLISHED, ACKED, TAKEN, SOUGHT]
  const LOSING_ACK: seq<Event> := [
    Event(0, CreateTopicStep("t")),
    Event(0, CreateSubscriptionStep(UNORDERED)),
    Event(10, PublishStep(TOPIC, [], map[], "")),
    Event(10, AckStep({4})),
    Event(10, CreateSnapshotStep("n", SUB)),
    Event(10, SeekToSnapshotStep(SUB, 5))]

  lemma AcksIt(env: Env)
    ensures Next(env, PUBLISHED, Event(10, AckStep({4})), ACKED)
  {
    assert AckRows(PUBLISHED, {4}) == {4};
    assert CompleteRows(PUBLISHED, {4}).deliveries == ACKED.deliveries;
  }

  lemma TakesIt(env: Env)
    ensures Next(env, ACKED, Event(10, CreateSnapshotStep("n", SUB)), TAKEN)
  {
    assert UnackedRows(ACKED, SUB) == {};
    assert TakeSnapshot(ACKED, "n", SUB) == SNAPSHOT;
  }

  lemma SeeksIt(env: Env)
    ensures Next(env, TAKEN, Event(10, SeekToSnapshotStep(SUB, 5)), SOUGHT)
  {
    hide SnapAckedBefore, SnapAckedListed, SnapReopened, CompleteRows;
    SoughtRows();
    NothingToDo(TAKEN, 100);
    assert ReopenRows(TAKEN, {4}, 100).deliveries == SOUGHT.deliveries;
  }

  lemma SoughtRows()
    ensures SnapAckedBefore(TAKEN, SUB, SNAPSHOT) == {} && SnapAckedListed(TAKEN, SUB, SNAPSHOT) == {}
    ensures SnapReopened(TAKEN, SUB, SNAPSHOT) == {4}
  {
  }

  lemma LosingAckRuns(env: Env)
    ensures Run(env, LOSES_ACK, LOSING_ACK)
  {
    hide Enabled, Apply;
    Setup(env, UNORDERED);
    PublishesOne(env, UNORDERED, map[], map[], 3, 0, 10, "", None);
    AcksIt(env);
    TakesIt(env);
    SeeksIt(env);
  }

  /** A seek to a snapshot can undo an ack that the snapshot saw: of a message published and acked at the very
      instant at which the snapshot is taken and finds nothing open. */
  lemma CanLoseAck(env: Env)
    ensures Run(env, LOSES_ACK, LOSING_ACK)
    ensures ACKED.deliveries[4].Completed() && SOUGHT.deliveries[4].Pending(10)
    ensures Valid(ACKED) && Direct(ACKED, SUB, TOPIC) && !Resolved(ACKED, SUB, ACKED.deliveries[4])
  {
    hide Run;
    LosingAckRuns(env);
    assert UnackedRows(ACKED, SUB) == {};
  }

  // ---- A nack that nobody hears of ----

  const LASTING := Sub(false, 7200 * SECOND)

  const WAITING := World(LASTING, map[3 := Posted(10, "")], map[4 := Fresh(3, 10, 7200 * SECOND, None)], 5, 10)
  const PUT_OFF := WAITING.(deliveries := map[4 := WAITING.deliveries[4].(attemptAt := 10 + 3600 * SECOND)])

  function Hastening(env: Env): seq<DB> {
    [EMPTY, WITH_TOPIC, World(LASTING, map[], map[], 3, 0), WAITING, PUT_OFF,
     PUT_OFF.(deliveries := map[4 := WAITING.deliveries[4].(attemptAt := 10 + Lease(env, SUB, LASTING, 0))])]
  }

  const HASTENED: seq<Event> := [
    Event(0, CreateTopicStep("t")),
    Event(0, CreateSubscriptionStep(LASTING)),
    Event(10, PublishStep(TOPIC, [], map[], "")),
    Event(10, DelayStep({4}, 3600 * SECOND)),
    Event(10, NackStep({4}, [4]))]

  lemma NacksIt(env: Env)
    ensures Next(env, PUT_OFF, Event(10, NackStep({4}, [4])), Hastening(env)[5])
    ensures Wakes(PUT_OFF, NackStep({4}, [4]), Hastening(env)[5]) == {}
  {
    hide Lease, Nack, Wakes;
    ValidPutOff();
    RescheduleIsSilent(env, PUT_OFF, 4);
    NackReschedules(env, PUT_OFF, 4);
    assert Hastening(env)[5].deliveries == PUT_OFF.deliveries[4 := PUT_OFF.deliveries[4].(attemptAt := 10 + Lease(env, SUB, LASTING, 0))];
  }

  lemma ValidPutOff()
    ensures Valid(PUT_OFF)
  {
  }

  lemma HasteningRuns(env: Env)
    ensures Run(env, Hastening(env), HASTENED)
  {
    hide Enabled, Apply, Lease;
    Setup(env, LASTING);
    PublishesOne(env, LASTING, map[], map[], 3, 0, 10, "", None);
    DelaysOne(env, WAITING, 10, 4, 3600 * SECOND);
    assert WAITING.deliveries[4 := WAITING.deliveries[4].(attemptAt := 10 + 3600 * SECOND)] == PUT_OFF.deliveries;
    NacksIt(env);
  }

  /** A nack can bring a delivery forward that was put off for an hour, to be due within eleven seconds,
      without waking anybody. */
  lemma CanHastenSilently(env: Env)
    ensures Run(env, Hastening(env), HASTENED)
    ensures PUT_OFF.deliveries[4].attemptAt == 10 + 3600 * SECOND
    ensures Hastened(PUT_OFF, Hastening(env)[5], SUB, 4) && Hastening(env)[5].deliveries[4].attemptAt < 10 + 11 * SECOND
    ensures Wakes(PUT_OFF, NackStep({4}, [4]), Hastening(env)[5]) == {}
  {
    hide Run, Wakes;
    HasteningRuns(env);
    NacksIt(env);
    FirstRetry(env);
  }

  lemma FirstRetry(env: Env)
    ensures 0 <= Lease(env, SUB, LASTING, 0) < 11 * SECOND
  {
    assert Growth(0) == 1.0;
    DelayBounds(env, SUB, LASTING, 0);
  }
}
