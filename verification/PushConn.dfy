/** The HTTP push connection: finished pushes queue up as fast acks, slow acks or nacks, and each batch
    the streamer receives moves the window of messages it may have outstanding. */
module PushConn {
  import opened Types
  import opened Backoff
  import opened Streamer

  const MAX_WINDOW := 1000
  const MAX_BYTES := 10_000_000

  /** How a push went. */
  datatype Response = Unreachable | Status(code: nat)

  datatype Queue = FastAcks | SlowAcks | Nacks

  datatype Request = Request(flow: Option<FlowControl>, ack: seq<Id>, nack: seq<Id>)

  /** Where a finished push is reported: anything but the five success codes is a nack, and an ack is
      fast when the push took less than a second. */
  function QueueFor(elapsed: Duration, response: Response): Queue {
    if response.Status? && response.code in {102, 200, 201, 202, 204} then
      if elapsed < SECOND then FastAcks else SlowAcks
    else Nacks
  }

  /** The window after a batch of `n`, always between 1 and 1000. */
  function Resized(q: Queue, window: int, n: nat): int {
    match q
    case FastAcks => if window >= MAX_WINDOW then window else if window + n > MAX_WINDOW then MAX_WINDOW else window + n
    case SlowAcks => if window <= 1 then window else if window - n < 1 then 1 else window - n
    case Nacks => if window <= 1 then window else if window - 10 * n < 1 then 1 else window - 10 * n
  }

  /** Whether a batch tells the streamer about the window. */
  predicate Announces(q: Queue, window: int) {
    if q == FastAcks then window < MAX_WINDOW else window > 1
  }

  /** The queues hold what has been sent to them and not been received, including the ids of pushes whose
      goroutine is blocked on a full channel. */
  datatype Conn = Conn(fast: seq<Id>, slow: seq<Id>, nack: seq<Id>, window: int) {
    function Queued(q: Queue): seq<Id> {
      match q case FastAcks => fast case SlowAcks => slow case Nacks => nack
    }

    function With(q: Queue, ids: seq<Id>): Conn {
      match q case FastAcks => this.(fast := ids) case SlowAcks => this.(slow := ids) case Nacks => this.(nack := ids)
    }
  }

  const INITIAL := Conn([], [], [], 1)

  function Finish(c: Conn, id: Id, elapsed: Duration, response: Response): Conn {
    var q := QueueFor(elapsed, response);
    c.With(q, c.Queued(q) + [id])
  }

  /** Receive a batch: the first `n` ids of a queue. */
  function Received(c: Conn, q: Queue, n: nat): (Conn, Request)
    requires 0 < n <= |c.Queued(q)|
  {
    var ids, window := c.Queued(q)[..n], Resized(q, c.window, n);
    (c.With(q, c.Queued(q)[n..]).(window := window),
     Request(if Announces(q, c.window) then Some(FlowControl(window, MAX_BYTES)) else None,
             if q == Nacks then [] else ids, if q == Nacks then ids else []))
  }

  /** A push that took less than a second and ended in one of the five success codes is a fast ack; a slower
      one a slow ack; and any other status, or no answer, a nack. Nothing else changes. */
  lemma FinishLaw(c: Conn, id: Id, elapsed: Duration, response: Response)
    ensures var ok := response != Unreachable && response.code in {102, 200, 201, 202, 204};
      Finish(c, id, elapsed, response) ==
        if ok && elapsed < 1_000_000_000 then c.(fast := c.fast + [id])
        else if ok then c.(slow := c.slow + [id])
        else c.(nack := c.nack + [id])
  {
  }

  function Clamped(window: int): int {
    if window < 1 then 1 else if window > 1000 then 1000 else window
  }

  /** In the range of windows, a fast ack widens the window by one, a slow ack narrows it by one and a nack by ten,
      as far as the range allows; the streamer is told unless the window was at that end of the range already. */
  lemma ReceiveLaw(c: Conn, q: Queue, n: nat)
    requires 1 <= c.window <= 1000 && 0 < n <= |c.Queued(q)|
    ensures var (c', r) := Received(c, q, n);
      && c'.window == (match q case FastAcks => Clamped(c.window + n)
                               case SlowAcks => Clamped(c.window - n)
                               case Nacks => Clamped(c.window - 10 * n))
      && r.flow == (if c.window == (if q == FastAcks then 1000 else 1) then None
                    else Some(FlowControl(c'.window, 10_000_000)))
      && r.ack == (match q case FastAcks => c.fast[..n] case SlowAcks => c.slow[..n] case Nacks => [])
      && r.nack == (if q == Nacks then c.nack[..n] else [])
      && c' == (match q case FastAcks => c.(fast := c.fast[n..], window := c'.window)
                        case SlowAcks => c.(slow := c.slow[n..], window := c'.window)
                        case Nacks => c.(nack := c.nack[n..], window := c'.window))
  {
  }

  /** Away from the ends of the range, as many slow acks undo fast ones, and ten fast acks undo a nack. */
  lemma WindowUndone(window: int, n: nat)
    requires 1 <= window <= 1000
    ensures Resized(SlowAcks, Resized(FastAcks, window, n), n) == window <==> n == 0 || window == 1 || window + n <= 1000
    ensures Resized(FastAcks, Resized(Nacks, window, n), 10 * n) == window <==> n == 0 || window == 1000 || 10 * n < window
  {
  }

  // ---- The connection itself ----

  /** Moves all that is in a channel to the end of a list. */
  method DrainIds(dest: seq<Id>, src: seq<Id>) returns (all: seq<Id>, rest: seq<Id>)
    ensures all == dest + src && rest == []
  {
    all, rest := dest, src;
    while rest != []
      invariant all + rest == dest + src
      decreases |rest|
    {
      assert all + rest == all + [rest[0]] + rest[1..];
      all, rest := all + [rest[0]], rest[1..];
    }
  }

  class HttpPushConn {
    var fastAckQueue: seq<Id>
    var slowAckQueue: seq<Id>
    var nackQueue: seq<Id>
    var maxMessages: int

    constructor ()
      ensures Value() == INITIAL
    {
      fastAckQueue, slowAckQueue, nackQueue, maxMessages := [], [], [], 1;
    }

    function Value(): Conn
      reads this
    {
      Conn(fastAckQueue, slowAckQueue, nackQueue, maxMessages)
    }

    /** The end of a push: report it to the queue its outcome calls for. */
    method Report(id: Id, elapsed: Duration, response: Response)
      modifies this
      ensures Value() == Finish(old(Value()), id, elapsed, response)
    {
      var q := SlowAcks;
      if elapsed < SECOND {
        q := FastAcks;
      }
      match response {
        case Unreachable => q := Nacks;
        case Status(code) =>
          if code !in {102, 200, 201, 202, 204} {
            q := Nacks;
          }
      }
      match q {
        case FastAcks => fastAckQueue := fastAckQueue + [id];
        case SlowAcks => slowAckQueue := slowAckQueue + [id];
        case Nacks => nackQueue := nackQueue + [id];
      }
    }

    /** Receive from a queue that has something: the first id, then whatever else is there. */
    method Receive(q: Queue) returns (r: Request)
      requires Value().Queued(q) != []
      modifies this
      ensures (Value(), r) == Received(old(Value()), q, |old(Value()).Queued(q)|)
    {
      ghost var before := Value();
      ghost var n := |before.Queued(q)|;
      assert before.Queued(q)[..n] == before.Queued(q) && before.Queued(q)[n..] == [];
      assert [before.Queued(q)[0]] + before.Queued(q)[1..] == before.Queued(q);
      match q
      case FastAcks =>
        var ids;
        ids, fastAckQueue := DrainIds([fastAckQueue[0]], fastAckQueue[1..]);
        r := Request(None, ids, []);
        if maxMessages < MAX_WINDOW {
          var mm := maxMessages + |ids|;
          if mm > MAX_WINDOW {
            mm := MAX_WINDOW;
          }
          maxMessages := mm;
          r := r.(flow := Some(FlowControl(maxMessages, MAX_BYTES)));
        }
      case SlowAcks =>
        var ids;
        ids, slowAckQueue := DrainIds([slowAckQueue[0]], slowAckQueue[1..]);
        r := Request(None, ids, []);
        if maxMessages > 1 {
          var mm := maxMessages - |ids|;
          if mm < 1 {
            mm := 1;
          }
          maxMessages := mm;
          r := r.(flow := Some(FlowControl(maxMessages, MAX_BYTES)));
        }
      case Nacks =>
        var ids;
        ids, nackQueue := DrainIds([nackQueue[0]], nackQueue[1..]);
        r := Request(None, [], ids);
        if maxMessages > 1 {
          var mm := maxMessages - 10 * |ids|;
          if mm < 1 {
            mm := 1;
          }
          maxMessages := mm;
          r := r.(flow := Some(FlowControl(maxMessages, MAX_BYTES)));
        }
    }
  }

  // ---- The connection and the streamer's reader together ----

  /** What the streamer has been told so far, and what was reported to the connection. */
  datatype Link = Link(conn: Conn, fc: FlowControl, acked: multiset<Id>, nacked: multiset<Id>,
                       succeeded: multiset<Id>, failed: multiset<Id>)

  const LINKED := Link(INITIAL, START.fc, multiset{}, multiset{}, multiset{}, multiset{})

  datatype Happening = Finishes(id: Id, elapsed: Duration, response: Response) | Receives(queue: Queue, n: nat)

  /** A push finishes, or the reader receives a batch and processes it. */
  ghost predicate Happens(l: Link, h: Happening, l': Link) {
    match h
    case Finishes(id, elapsed, response) =>
      var c := l.(conn := Finish(l.conn, id, elapsed, response));
      l' == if response.Status? && response.code in {102, 200, 201, 202, 204}
            then c.(succeeded := c.succeeded + multiset{id}) else c.(failed := c.failed + multiset{id})
    case Receives(q, n) =>
      && 0 < n <= |l.conn.Queued(q)|
      && var (conn, r) := Received(l.conn, q, n);
         l' == l.(conn := conn, fc := if r.flow.Some? then r.flow.value else l.fc,
                  acked := l.acked + multiset(r.ack), nacked := l.nacked + multiset(r.nack))
  }

  ghost predicate History(links: seq<Link>, happenings: seq<Happening>) {
    && |links| == |happenings| + 1
    && links[0] == LINKED
    && forall k :: 0 <= k < |happenings| ==> Happens(links[k], happenings[k], links[k + 1])
  }

  /** The window is in range and the streamer knows it. Every push that succeeded is acked or about to
      be, every one that failed is nacked or about to be, each exactly once. */
  ghost predicate LinkInv(l: Link) {
    WindowKnown(l) && Counted(l)
  }

  predicate WindowKnown(l: Link) {
    && 1 <= l.conn.window <= MAX_WINDOW
    && l.fc.maxMessages == l.conn.window
    && (l.fc.maxBytes == MAX_BYTES || l.fc == START.fc)
  }

  predicate Counted(l: Link) {
    && l.succeeded == l.acked + multiset(l.conn.fast) + multiset(l.conn.slow)
    && l.failed == l.nacked + multiset(l.conn.nack)
  }

  /** Moving the front of a queue to what has been reported keeps the sum. */
  lemma FrontReported(reported: multiset<Id>, queue: seq<Id>, n: nat)
    requires n <= |queue|
    ensures reported + multiset(queue[..n]) + multiset(queue[n..]) == reported + multiset(queue)
  {
    assert queue == queue[..n] + queue[n..];
  }

  lemma FinishKeeps(l: Link, h: Happening, l': Link)
    requires LinkInv(l) && h.Finishes? && Happens(l, h, l')
    ensures LinkInv(l')
  {
    var one := multiset{h.id};
    match QueueFor(h.elapsed, h.response)
    case FastAcks => assert multiset(l'.conn.fast) == multiset(l.conn.fast) + one;
    case SlowAcks => assert multiset(l'.conn.slow) == multiset(l.conn.slow) + one;
    case Nacks => assert multiset(l'.conn.nack) == multiset(l.conn.nack) + one;
  }

  lemma ReceiveWindow(l: Link, h: Happening, l': Link)
    requires WindowKnown(l) && h.Receives? && Happens(l, h, l')
    ensures WindowKnown(l')
  {
  }

  lemma ReceiveCounted(l: Link, h: Happening, l': Link)
    requires Counted(l) && h.Receives? && Happens(l, h, l')
    ensures Counted(l')
  {
    hide Resized, Announces;
    match h.queue
    case FastAcks =>
      FrontReported(l.acked, l.conn.fast, h.n);
      assert l'.nacked == l.nacked;
    case SlowAcks =>
      FrontReported(l.acked + multiset(l.conn.fast), l.conn.slow, h.n);
      assert l'.acked + multiset(l.conn.fast) == l.acked + multiset(l.conn.fast) + multiset(l.conn.slow[..h.n]);
      assert l'.nacked == l.nacked;
    case Nacks =>
      FrontReported(l.nacked, l.conn.nack, h.n);
      assert l'.acked == l.acked;
  }

  lemma HappensKeeps(l: Link, h: Happening, l': Link)
    requires LinkInv(l) && Happens(l, h, l')
    ensures LinkInv(l')
  {
    hide Happens, WindowKnown, Counted;
    match h
    case Finishes(_, _, _) => FinishKeeps(l, h, l');
    case Receives(_, _) =>
      ReceiveWindow(l, h, l');
      ReceiveCounted(l, h, l');
  }

  /** Over any sequence of finished pushes and received batches: the window stays within 1..1000 and is
      what the streamer last heard; and every id is reported exactly as often as its push finished, as an
      ack if it succeeded and as a nack if it failed. */
  lemma {:induction false} PushWindowHolds(links: seq<Link>, happenings: seq<Happening>)
    requires History(links, happenings)
    ensures LinkInv(links[|happenings|])
  {
    hide Happens;
    if happenings != [] {
      var n := |happenings| - 1;
      PushWindowHolds(links[..|happenings|], happenings[..n]);
      HappensKeeps(links[n], happenings[n], links[n + 1]);
    }
  }

  /** When nothing is queued, everything that finished has been reported. */
  lemma AllReported(links: seq<Link>, happenings: seq<Happening>)
    requires History(links, happenings)
    requires var c := links[|happenings|].conn; c.fast == [] && c.slow == [] && c.nack == []
    ensures var l := links[|happenings|]; l.acked == l.succeeded && l.nacked == l.failed
  {
    PushWindowHolds(links, happenings);
  }

  /** How acks or nacks of one kind are cut into batches makes no difference to the window. */
  lemma {:induction false} BatchingIsIrrelevant(q: Queue, window: int, batches: seq<nat>)
    requires 1 <= window <= MAX_WINDOW
    ensures ResizedAll(q, window, batches) == Resized(q, window, Sum(batches))
    ensures 1 <= ResizedAll(q, window, batches) <= MAX_WINDOW
  {
    if batches != [] {
      BatchingIsIrrelevant(q, window, batches[..|batches| - 1]);
    }
  }

  function ResizedAll(q: Queue, window: int, batches: seq<nat>): int {
    if batches == [] then window else
      Resized(q, ResizedAll(q, window, batches[..|batches| - 1]), batches[|batches| - 1])
  }

  function Sum(batches: seq<nat>): nat {
    if batches == [] then 0 else Sum(batches[..|batches| - 1]) + batches[|batches| - 1]
  }
}
