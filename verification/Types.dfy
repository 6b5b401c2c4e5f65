/** The rows of the message bus's tables, and the database state the actions of `actions/` run on. */
module Types {

  /** A UUID. New rows get the next number, so ids are names in order of creation;
      no action depends on more than their being distinct. */
  type Id = nat

  /** Instants and durations, in nanoseconds as in Go. */
  type Time = int
  type Duration = int

  newtype Byte = x: int | 0 <= x < 256

  type Attributes = map<string, string>

  datatype Option<+T> = None | Some(value: T)

  datatype Result<+T> = Success(value: T) | Failure(error: Error)

  datatype Error = NotFound | Exists | ForeignKey

  /** What parsing and evaluating a subscription's filter on a message's attributes can give. */
  datatype FilterOutcome = ParseError | EvalError | NoMatch | Match

  datatype Topic = Topic(name: string, deletedAt: Option<Time>) {
    predicate Live() { deletedAt.None? }
  }

  datatype Subscription = Subscription(
    topicId: Id,
    name: string,
    expiresAt: Time,
    deletedAt: Option<Time>,
    ttl: Duration,
    messageTTL: Duration,
    ordered: bool,
    minBackoff: Option<Duration>,
    maxBackoff: Option<Duration>,
    filter: Option<string>,
    maxDeliveryAttempts: Option<int>,
    deadLetterTopicId: Option<Id>,
    deliveryDelay: Duration)
  {
    predicate Live() { deletedAt.None? }

    /** Both halves of the dead-letter configuration are there, and the limit is a real one. */
    predicate HasFullDeadLetterConfig() {
      maxDeliveryAttempts.Some? && deadLetterTopicId.Some? && maxDeliveryAttempts.value > 0
    }

    /** The limit test that pull, nack and the background job share. */
    predicate Exhausted(attempts: nat) {
      HasFullDeadLetterConfig() && attempts >= maxDeliveryAttempts.value
    }
  }

  datatype Message = Message(
    topicId: Id,
    payload: seq<Byte>,
    attributes: Attributes,
    publishedAt: Time,
    orderKey: Option<string>)
  {
    predicate Keyed() { orderKey.Some? && orderKey.value != "" }
  }

  datatype Delivery = Delivery(
    messageId: Id,
    subId: Id,
    publishedAt: Time,
    attemptAt: Time,
    lastAttemptedAt: Option<Time>,
    attempts: nat,
    completedAt: Option<Time>,
    expiresAt: Time,
    notBefore: Option<Id>)
  {
    predicate Completed() { completedAt.Some? }

    predicate Pending(now: Time) { completedAt.None? && now < expiresAt }

    /** Nothing is left to do for this row: it was completed, or it ran out of time. */
    predicate Done(now: Time) { completedAt.Some? || expiresAt <= now }
  }

  datatype Snapshot = Snapshot(
    topicId: Id,
    name: string,
    createdAt: Time,
    expiresAt: Time,
    ackedMessagesBefore: Time,
    ackedMessageIds: set<Id>)

  /** The five tables, the next unused id, and the time of the latest transaction. */
  datatype DB = DB(
    topics: map<Id, Topic>,
    subs: map<Id, Subscription>,
    messages: map<Id, Message>,
    deliveries: map<Id, Delivery>,
    snapshots: map<Id, Snapshot>,
    nextId: Id,
    clock: Time)

  const EMPTY := DB(map[], map[], map[], map[], map[], 1, 0)

  /** `q` lists every element of `s` exactly once. */
  ghost predicate Lists(q: seq<Id>, s: set<Id>) {
    && (forall x :: x in q <==> x in s)
    && (forall i, j :: 0 <= i < j < |q| ==> q[i] != q[j])
  }

  /** What the model does not compute: filter evaluation, the checksum behind the fuzz, and the
      order in which the database returns the rows of a query that does not fix one. */
  datatype Oracle = Oracle(
    evaluate: (string, Attributes) -> FilterOutcome,
    checksum: (Id, nat) -> nat,
    rowOrder: (DB, set<Id>) -> seq<Id>)

  ghost predicate ReturnsEveryRow(o: Oracle) {
    forall db: DB, s: set<Id> :: Lists(o.rowOrder(db, s), s)
  }

  type Env = o: Oracle | ReturnsEveryRow(o)
    ghost witness Oracle((f, a) => NoMatch, (s, n) => 0, (db, s) => Listing(s))

  ghost function Listing(s: set<Id>): (q: seq<Id>)
    ensures Lists(q, s)
  {
    if s == {} then [] else
      var x :| x in s;
      [x] + Listing(s - {x})
  }

  /** The rows of a result set, in the order the database happens to return them. */
  function Rows(env: Env, db: DB, s: set<Id>): (q: seq<Id>)
    ensures Lists(q, s)
  {
    assert ReturnsEveryRow(env);
    env.rowOrder(db, s)
  }

  /** The set of values in a listing. */
  function Elements(q: seq<Id>): (s: set<Id>)
    ensures forall x :: x in s <==> x in q
  {
    set x | x in q
  }

  predicate Distinct(q: seq<Id>) {
    forall i, j :: 0 <= i < j < |q| ==> q[i] != q[j]
  }

  /** A result of `SELECT ... LIMIT max` over the matching rows, in no particular order. */
  predicate Limited(rows: set<Id>, matching: set<Id>, max: nat) {
    && rows <= matching
    && |rows| <= max
    && (rows != matching ==> |rows| == max)
  }
}
