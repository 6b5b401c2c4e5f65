/** The message streamer: a reader, a sender, a refresher and an automatic delayer share the client's
    flow control, the map of pending messages and a one-slot wake channel. */
module Streamer {
  import opened Types
  import opened Packing

  datatype FlowControl = FlowControl(maxMessages: int, maxBytes: int) {
    predicate Within(u: FlowControl) {
      maxMessages <= u.maxMessages && maxBytes <= u.maxBytes
    }
  }

  datatype Entry = Entry(bytes: nat, nextAttemptAt: Time)

  type Pending = map<Id, Entry>

  /** The sender's place in its loops. While it waits it remembers what it measured. */
  datatype Sender =
    | Checking(anyPending: bool)
    | Measuring(anyPending: bool)
    | Waiting(anyPending: bool, fc: FlowControl, sizes: map<Id, nat>)
    | Fetching(limits: FlowControl, strict: bool)
    | Fetched(got: Pending)
    | Stopped

  datatype Refresher = Idle | Read(ids: set<Id>) | Owing

  /** The goroutine that waits for the context to end, then closes the connection, then wakes. */
  datatype Closer = Watching | Closing | Finished

  datatype Delayer = Resting | Picked(ids: set<Id>)

  datatype State = State(
    fc: FlowControl, pending: Pending, token: bool, done: bool,
    sender: Sender, refresher: Refresher, closer: Closer, delayer: Delayer)

  const START := State(FlowControl(1, 1), map[], false, false, Checking(false), Idle, Watching, Resting)

  const MAX_FETCH := 100

  function Sizes(p: Pending): map<Id, nat> {
    map i | i in p :: p[i].bytes
  }

  ghost function Total(sizes: map<Id, nat>): nat
    decreases |sizes|
  {
    if sizes == map[] then 0 else
      var i :| i in sizes;
      sizes[i] + Total(sizes - {i})
  }

  /** What the flow control leaves for more messages. */
  ghost function Room(fc: FlowControl, sizes: map<Id, nat>): FlowControl {
    FlowControl(fc.maxMessages - |sizes|, fc.maxBytes - Total(sizes))
  }

  ghost predicate Full(fc: FlowControl, sizes: map<Id, nat>) {
    Room(fc, sizes).maxMessages <= 0 || Room(fc, sizes).maxBytes <= 0
  }

  /** What a pull with these limits may return. */
  ghost predicate Fits(sizes: map<Id, nat>, limits: FlowControl, strict: bool) {
    && |sizes| <= limits.maxMessages
    && (Total(sizes) <= limits.maxBytes || (!strict && |sizes| == 1))
  }

  function Later(e: Entry, at: Time): Entry {
    if e.nextAttemptAt < at then e.(nextAttemptAt := at) else e
  }

  datatype Move =
    | SetFlow(fc: FlowControl)
    | Remove(ids: set<Id>)
    | ReaderQuits
    | Check
    | Measure
    | TakeToken
    | TakePublish
    | Fetch(got: Pending)
    | FetchFails
    | Add
    | RefreshRead
    | RefreshApply(alive: map<Id, Time>)
    | RefreshWake
    | DelayPick(nextCheck: Time)
    | DelayApply(at: Time)
    | Cancel
    | CloserSees
    | CloserWakes

  /** One atomic action of one of the goroutines. Everything done under the mutex is one action; the
      refresher's wake and the closer's come after they have let go of it. */
  ghost predicate Moves(s: State, m: Move, s': State) {
    match m
    // reader: new flow control, or acked and nacked messages, and the wake, in one critical section
    case SetFlow(fc) => s' == s.(fc := fc, token := true)
    case Remove(ids) => s' == s.(pending := s.pending - ids, token := true)
    case ReaderQuits => s.done && s' == s.(token := true)
    // sender
    case Check =>
      && s.sender.Checking?
      && s' == s.(sender := if s.done then Stopped else Measuring(s.sender.anyPending))
    case Measure =>
      && s.sender.Measuring?
      && var any := s.sender.anyPending || s.pending != map[];
         var room := Room(s.fc, Sizes(s.pending));
         s' == s.(sender :=
           if room.maxBytes > 0 && room.maxMessages > 0 then
             Fetching(room.(maxMessages := if room.maxMessages > MAX_FETCH then MAX_FETCH else room.maxMessages), any)
           else Waiting(any, s.fc, Sizes(s.pending)))
    case TakeToken => s.sender.Waiting? && s.token && s' == s.(token := false, sender := Checking(s.sender.anyPending))
    case TakePublish => s.sender.Waiting? && s' == s.(sender := Checking(s.sender.anyPending))
    case Fetch(got) =>
      && s.sender.Fetching?
      && Fits(Sizes(got), s.sender.limits, s.sender.strict)
      && s' == s.(sender := Fetched(got))
    case FetchFails => s.sender.Fetching? && s' == s.(sender := Stopped)
    case Add => s.sender.Fetched? && s' == s.(pending := s.pending + s.sender.got, sender := Checking(false))
    // refresher: reads the ids, asks the database which are still open, drops the others
    case RefreshRead =>
      && s.refresher.Idle?
      && s' == s.(refresher := if s.pending == map[] then Idle else Read(s.pending.Keys))
    case RefreshApply(alive) =>
      && s.refresher.Read?
      && var gone := s.refresher.ids - alive.Keys;
         s' == s.(pending := map i | i in s.pending && i !in gone ::
                    if i in s.refresher.ids then Later(s.pending[i], alive[i]) else s.pending[i],
                  refresher := if gone == {} then Idle else Owing)
    case RefreshWake => s.refresher.Owing? && s' == s.(token := true, refresher := Idle)
    // automatic delays
    case DelayPick(nextCheck) =>
      && s.delayer.Resting?
      && s' == s.(delayer := Picked(set i | i in s.pending && s.pending[i].nextAttemptAt < nextCheck))
    case DelayApply(at) =>
      && s.delayer.Picked?
      && s' == s.(pending := map i | i in s.pending ::
                    if i in s.delayer.ids then Later(s.pending[i], at) else s.pending[i],
                  delayer := Resting)
    // shutdown
    case Cancel => s' == s.(done := true)
    case CloserSees => s.done && s.closer.Watching? && s' == s.(closer := Closing)
    case CloserWakes => s.closer.Closing? && s' == s.(closer := Finished, token := true)
  }

  ghost predicate Trace(states: seq<State>, moves: seq<Move>) {
    && |states| == |moves| + 1
    && states[0] == START
    && forall k :: 0 <= k < |moves| ==> Moves(states[k], moves[k], states[k + 1])
  }

  // ---- Sums ----

  lemma {:induction false} TotalPick(sizes: map<Id, nat>, i: Id)
    requires i in sizes
    ensures Total(sizes) == sizes[i] + Total(sizes - {i})
    decreases |sizes|
  {
    var j :| j in sizes && Total(sizes) == sizes[j] + Total(sizes - {j});
    if i != j {
      TotalPick(sizes - {j}, i);
      TotalPick(sizes - {i}, j);
      assert sizes - {j} - {i} == sizes - {i} - {j};
    }
  }

  /** Fewer messages weigh no more. */
  lemma {:induction false} TotalShrinks(some: map<Id, nat>, all: map<Id, nat>)
    requires some.Keys <= all.Keys && forall i :: i in some ==> some[i] == all[i]
    ensures Total(some) <= Total(all) && |some| <= |all|
    decreases |all|
  {
    if all == map[] {
      assert some == map[];
    } else {
      var i :| i in all;
      TotalPick(all, i);
      assert |all - {i}| == |all| - 1;
      if i in some {
        TotalPick(some, i);
        TotalShrinks(some - {i}, all - {i});
        assert |some - {i}| == |some| - 1;
      } else {
        TotalShrinks(some, all - {i});
      }
    }
  }

  lemma MinusUnion(a: map<Id, nat>, b: map<Id, nat>, i: Id)
    ensures (a + b) - {i} == (a - {i}) + (b - {i})
  {
  }

  lemma UnionCount(a: map<Id, nat>, b: map<Id, nat>)
    ensures |a + b| <= |a| + |b|
  {
    assert (a + b).Keys == a.Keys + b.Keys;
    assert |a.Keys + b.Keys| == |a.Keys| + |b.Keys| - |a.Keys * b.Keys|;
  }

  /** Two lots together weigh no more than the one and the other. */
  lemma {:induction false} TotalUnion(a: map<Id, nat>, b: map<Id, nat>)
    ensures Total(a + b) <= Total(a) + Total(b)
    decreases |b|
  {
    if b == map[] {
      assert a + b == a;
    } else {
      hide Total;
      var i :| i in b;
      assert |b - {i}| < |b|;
      TotalPick(b, i);
      TotalPick(a + b, i);
      MinusUnion(a, b, i);
      TotalUnion(a - {i}, b - {i});
      TotalShrinks(a - {i}, a);
    }
  }

  // ---- Flow control is respected ----

  ghost predicate Bounded(sizes: map<Id, nat>, u: FlowControl) {
    |sizes| <= u.maxMessages && (Total(sizes) <= u.maxBytes || |sizes| == 1)
  }

  /** There is room for whatever the sender is about to add. */
  ghost predicate RoomKept(s: State, u: FlowControl) {
    var sizes := Sizes(s.pending);
    match s.sender
    case Fetching(limits, strict) =>
      && |sizes| + limits.maxMessages <= u.maxMessages
      && Total(sizes) + limits.maxBytes <= u.maxBytes
      && (!strict ==> sizes == map[])
    case Fetched(got) =>
      && |sizes| + |got| <= u.maxMessages
      && (Total(sizes) + Total(Sizes(got)) <= u.maxBytes || (sizes == map[] && |got| == 1))
    case _ => true
  }

  ghost predicate FlowInv(s: State, u: FlowControl) {
    && 1 <= u.maxMessages && 1 <= u.maxBytes && s.fc.Within(u)
    && Bounded(Sizes(s.pending), u)
    && RoomKept(s, u)
  }

  lemma SizesCount(p: Pending)
    ensures |Sizes(p)| == |p|
  {
    assert Sizes(p).Keys == p.Keys;
  }

  /** Taking messages away, by whichever goroutine, keeps all of it. */
  lemma ShrinkKeeps(s: State, s': State, u: FlowControl)
    requires FlowInv(s, u) && s'.sender == s.sender && s'.fc.Within(u)
    requires s'.pending.Keys <= s.pending.Keys
    requires forall i :: i in s'.pending ==> s'.pending[i].bytes == s.pending[i].bytes
    ensures FlowInv(s', u)
  {
    hide Total;
    var sizes, sizes' := Sizes(s.pending), Sizes(s'.pending);
    TotalShrinks(sizes', sizes);
    if sizes == map[] {
      assert sizes' == map[];
    }
    if sizes' == map[] {
      EmptyTotal();
    } else {
      assert |sizes'| != 0;
    }
  }

  lemma EmptyTotal()
    ensures Total(map[]) == 0
  {
  }

  lemma MeasureKeeps(s: State, s': State, u: FlowControl)
    requires FlowInv(s, u) && Moves(s, Measure, s')
    ensures FlowInv(s', u)
  {
    hide Total;
    assert s.pending == map[] ==> Sizes(s.pending) == map[];
  }

  lemma FetchKeeps(s: State, m: Move, s': State, u: FlowControl)
    requires FlowInv(s, u) && m.Fetch? && Moves(s, m, s')
    ensures FlowInv(s', u)
  {
    hide Total;
    SizesCount(m.got);
    EmptyTotal();
  }

  lemma AddKeeps(s: State, s': State, u: FlowControl)
    requires FlowInv(s, u) && Moves(s, Add, s')
    ensures FlowInv(s', u)
  {
    hide Total, Sizes, Bounded;
    var sizes, more := Sizes(s.pending), Sizes(s.sender.got);
    SizesCount(s.sender.got);
    SizesUnion(s.pending, s.sender.got);
    BoundedUnion(sizes, more, u);
  }

  lemma BoundedUnion(sizes: map<Id, nat>, more: map<Id, nat>, u: FlowControl)
    requires |sizes| + |more| <= u.maxMessages
    requires Total(sizes) + Total(more) <= u.maxBytes || (sizes == map[] && |more| == 1)
    ensures Bounded(sizes + more, u)
  {
    hide Total;
    TotalUnion(sizes, more);
    UnionCount(sizes, more);
    if sizes == map[] {
      assert sizes + more == more;
    }
  }

  lemma SizesUnion(p: Pending, q: Pending)
    ensures Sizes(p + q) == Sizes(p) + Sizes(q)
  {
  }

  lemma MoveFlow(s: State, m: Move, s': State, u: FlowControl)
    requires FlowInv(s, u) && Moves(s, m, s') && (m.SetFlow? ==> m.fc.Within(u))
    ensures FlowInv(s', u)
  {
    hide Total, Bounded;
    match m
    case Measure => MeasureKeeps(s, s', u);
    case Fetch(_) => FetchKeeps(s, m, s', u);
    case Add => AddKeeps(s, s', u);
    case Check =>
    case TakeToken =>
    case TakePublish =>
    case FetchFails =>
    case _ => ShrinkKeeps(s, s', u);
  }

  lemma {:induction false} TraceFlow(states: seq<State>, moves: seq<Move>, u: FlowControl)
    requires Trace(states, moves) && START.fc.Within(u)
    requires forall m :: m in moves && m.SetFlow? ==> m.fc.Within(u)
    ensures FlowInv(states[|moves|], u)
  {
    hide Moves, Bounded, RoomKept;
    if moves == [] {
      StartFlow(u);
    } else {
      var n := |moves| - 1;
      TraceFlow(states[..|moves|], moves[..n], u);
      assert Moves(states[n], moves[n], states[n + 1]) && moves[n] in moves;
      MoveFlow(states[n], moves[n], states[n + 1], u);
    }
  }

  lemma StartFlow(u: FlowControl)
    requires START.fc.Within(u)
    ensures FlowInv(START, u)
  {
    assert Sizes(map[]) == map[];
  }

  // ---- What the client has been sent ----

  /** The story so far, told by the moves alone: the flow control the client sent last, the messages sent to it that
      are still its business, what the latest fetch returned, which ids the refresher is asking about, and whether
      any measurement since the last messages found something outstanding. */
  datatype Story = Story(fc: FlowControl, sent: map<Id, nat>, fetched: map<Id, nat>, asked: set<Id>, busy: bool)

  /** What is fetched is outstanding once the sender has added it, until the client acks or nacks it or a refresh
      finds it gone. */
  function After(story: Story, m: Move): Story {
    match m
    case SetFlow(fc) => story.(fc := fc)
    case Fetch(got) => story.(fetched := map i | i in got :: got[i].bytes)
    case Add => story.(sent := story.sent + story.fetched, busy := false)
    case Remove(ids) => story.(sent := story.sent - ids)
    case RefreshRead => story.(asked := story.sent.Keys)
    case RefreshApply(alive) => story.(sent := story.sent - (story.asked - alive.Keys))
    case Measure => story.(busy := story.busy || story.sent != map[])
    case _ => story
  }

  function StoryOf(moves: seq<Move>): Story {
    if moves == [] then Story(FlowControl(1, 1), map[], map[], {}, false)
    else After(StoryOf(moves[..|moves| - 1]), moves[|moves| - 1])
  }

  ghost predicate Agrees(s: State, story: Story) {
    && s.fc == story.fc
    && Sizes(s.pending) == story.sent
    && (s.sender.Fetched? ==> Sizes(s.sender.got) == story.fetched)
    && (s.refresher.Read? ==> s.refresher.ids == story.asked)
    && (s.sender.Checking? || s.sender.Measuring? || s.sender.Waiting? ==> s.sender.anyPending == story.busy)
    && (s.sender.Fetching? ==> s.sender.strict == story.busy)
  }

  lemma MoveAgrees(s: State, m: Move, s': State, story: Story)
    requires Agrees(s, story) && Moves(s, m, s')
    ensures Agrees(s', After(story, m))
  {
    hide Agrees, Moves, After;
    match m
    case SetFlow(_) => ReaderAgrees(s, m, s', story);
    case Remove(_) => ReaderAgrees(s, m, s', story);
    case Measure => MeasureAgrees(s, m, s', story);
    case Fetch(_) => FetchAgrees(s, m, s', story);
    case Add => FetchAgrees(s, m, s', story);
    case RefreshRead => RefreshAgrees(s, m, s', story);
    case RefreshApply(_) => RefreshAgrees(s, m, s', story);
    case DelayApply(_) => RefreshAgrees(s, m, s', story);
    case _ => OthersAgree(s, m, s', story);
  }

  lemma ReaderAgrees(s: State, m: Move, s': State, story: Story)
    requires Agrees(s, story) && Moves(s, m, s') && (m.SetFlow? || m.Remove?)
    ensures Agrees(s', After(story, m))
  {
    hide Sizes;
    SizesMinus(s.pending, s'.pending, if m.Remove? then m.ids else {});
  }

  lemma MeasureAgrees(s: State, m: Move, s': State, story: Story)
    requires Agrees(s, story) && Moves(s, m, s') && m.Measure?
    ensures Agrees(s', After(story, m))
  {
    hide Sizes, Total;
    SizesOf(s.pending);
  }

  lemma FetchAgrees(s: State, m: Move, s': State, story: Story)
    requires Agrees(s, story) && Moves(s, m, s') && (m.Fetch? || m.Add?)
    ensures Agrees(s', After(story, m))
  {
    hide Sizes, Fits;
    if m.Fetch? {
      SizesOf(m.got);
    } else {
      SizesUnion(s.pending, s.sender.got);
    }
  }

  lemma RefreshAgrees(s: State, m: Move, s': State, story: Story)
    requires Agrees(s, story) && Moves(s, m, s') && (m.RefreshRead? || m.RefreshApply? || m.DelayApply?)
    ensures Agrees(s', After(story, m))
  {
    hide Sizes;
    SizesOf(s.pending);
    SizesMinus(s.pending, s'.pending, if m.RefreshApply? then s.refresher.ids - m.alive.Keys else {});
  }

  /** Moves that leave flow control and messages alone. */
  predicate Minor(m: Move) {
    || m.ReaderQuits? || m.Check? || m.TakeToken? || m.TakePublish? || m.FetchFails? || m.RefreshWake? || m.DelayPick?
    || m.Cancel? || m.CloserSees? || m.CloserWakes?
  }

  lemma OthersAgree(s: State, m: Move, s': State, story: Story)
    requires Agrees(s, story) && Moves(s, m, s') && Minor(m)
    ensures Agrees(s', After(story, m))
  {
    hide Sizes, Total;
  }

  lemma SizesOf(p: Pending)
    ensures Sizes(p) == map i | i in p :: p[i].bytes
    ensures Sizes(p).Keys == p.Keys && (Sizes(p) == map[] <==> p == map[])
  {
    if p != map[] {
      var i :| i in p;
      assert i in Sizes(p);
    }
  }

  lemma SizesMinus(p: Pending, q: Pending, gone: set<Id>)
    requires q.Keys == p.Keys - gone && forall i :: i in q ==> q[i].bytes == p[i].bytes
    ensures Sizes(q) == Sizes(p) - gone
  {
  }

  /** In every interleaving the shared state is as the moves tell: the flow control is the client's latest, and what is
      pending is exactly what was sent and not taken back, with its sizes. */
  lemma {:induction false} PendingIsSent(states: seq<State>, moves: seq<Move>)
    requires Trace(states, moves)
    ensures Agrees(states[|moves|], StoryOf(moves))
  {
    hide Moves;
    if moves == [] {
      assert Sizes(map[]) == map[];
    } else {
      hide Agrees, After;
      var n := |moves| - 1;
      PendingIsSent(states[..|moves|], moves[..n]);
      MoveAgrees(states[n], moves[n], states[n + 1], StoryOf(moves[..n]));
    }
  }

  /** What the sender does when it measures follows from the story: if both parts of the flow control exceed what is
      outstanding, it fetches as much as is left, but no more than 100 messages, and strictly if anything was
      outstanding at a measurement since it last added messages; otherwise it waits. */
  lemma MeasureLaw(states: seq<State>, moves: seq<Move>)
    requires Trace(states, moves) && moves != [] && moves[|moves| - 1] == Measure
    ensures var story, sender := StoryOf(moves), states[|moves|].sender;
      var messages, bytes := story.fc.maxMessages - |story.sent|, story.fc.maxBytes - Total(story.sent);
      if messages > 0 && bytes > 0
      then sender == Fetching(FlowControl(if messages > 100 then 100 else messages, bytes), story.busy)
      else sender.Waiting?
  {
    hide Moves, Agrees, After, Total;
    var n := |moves| - 1;
    PendingIsSent(states[..|moves|], moves[..n]);
    MeasureDecides(states[n], states[n + 1], StoryOf(moves[..n]));
  }

  lemma MeasureDecides(s: State, s': State, story: Story)
    requires Agrees(s, story) && Moves(s, Measure, s')
    ensures var after := After(story, Measure);
      var messages, bytes := after.fc.maxMessages - |after.sent|, after.fc.maxBytes - Total(after.sent);
      if messages > 0 && bytes > 0
      then s'.sender == Fetching(FlowControl(if messages > 100 then 100 else messages, bytes), after.busy)
      else s'.sender.Waiting?
  {
    hide Total, Sizes;
    SizesOf(s.pending);
  }

  /** In every interleaving, whatever bounds all the flow controls that the client ever sent (and the
      initial one) bounds what it was sent and has not given back: never more messages, and never more bytes unless
      exactly one message is outstanding. */
  lemma FlowControlHolds(states: seq<State>, moves: seq<Move>, u: FlowControl)
    requires Trace(states, moves) && START.fc.Within(u)
    requires forall m :: m in moves && m.SetFlow? ==> m.fc.Within(u)
    ensures var sent := StoryOf(moves).sent;
      && |sent| <= u.maxMessages
      && (Total(sent) <= u.maxBytes || |sent| == 1)
  {
    hide Total;
    TraceFlow(states, moves, u);
    PendingIsSent(states, moves);
  }

  // ---- The sender is always woken ----

  ghost predicate WakeInv(s: State) {
    && (s.sender.Waiting? ==>
          && Full(s.sender.fc, s.sender.sizes)
          && (s.token || s.refresher.Owing? || (s.fc == s.sender.fc && Sizes(s.pending) == s.sender.sizes)))
    && (!s.closer.Watching? ==> s.done)
    && (s.closer.Finished? && (s.sender.Measuring? || s.sender.Waiting?) ==> s.token)
  }

  lemma MoveWake(s: State, m: Move, s': State)
    requires WakeInv(s) && Moves(s, m, s')
    ensures WakeInv(s')
  {
    hide Total;
    if m.DelayApply? || (m.RefreshApply? && s.refresher.ids <= m.alive.Keys) {
      assert Sizes(s'.pending) == Sizes(s.pending);
    }
  }

  lemma {:induction false} TraceWake(states: seq<State>, moves: seq<Move>)
    requires Trace(states, moves)
    ensures WakeInv(states[|moves|])
  {
    hide Moves;
    if moves != [] {
      var n := |moves| - 1;
      TraceWake(states[..|moves|], moves[..n]);
      MoveWake(states[n], moves[n], states[n + 1]);
    }
  }

  /** In every interleaving: when the sender is parked on flow control, the wake channel is empty and the
      refresher owes no wake, nothing that matters has changed since the sender measured. The flow
      control really is full, and the shutdown has not finished. */
  lemma NoLostWakeup(states: seq<State>, moves: seq<Move>)
    requires Trace(states, moves)
    requires var s := states[|moves|]; s.sender.Waiting? && !s.token && !s.refresher.Owing?
    ensures var s := states[|moves|];
      && s.fc == s.sender.fc && Sizes(s.pending) == s.sender.sizes
      && Full(s.fc, Sizes(s.pending))
      && !s.closer.Finished?
  {
    hide Moves, Full;
    TraceWake(states, moves);
  }

  /** Nothing but the sender adds a message. The known next attempt of a pending message only moves later: a refresh
      that finds it open moves it to the attempt time in the database, and an automatic delay that picked it moves
      it to the end of the delay. */
  lemma OnlySenderAdds(s: State, m: Move, s': State, i: Id)
    requires Moves(s, m, s') && !m.Add? && i in s'.pending
    ensures i in s.pending && s.pending[i].bytes == s'.pending[i].bytes
    ensures m.RefreshApply? && i in s.refresher.ids ==> i in m.alive
    ensures var at := s.pending[i].nextAttemptAt;
      s'.pending[i].nextAttemptAt ==
        if m.RefreshApply? && i in s.refresher.ids && at < m.alive[i] then m.alive[i]
        else if m.DelayApply? && i in s.delayer.ids && at < m.at then m.at
        else at
  {
  }

  // ---- What a fetch returns fits ----

  function TakenSizes(db: DB, taken: seq<Id>): map<Id, nat>
    requires Loaded(db, taken)
  {
    map i | i in taken :: Size(db, i)
  }

  lemma TakenLast(db: DB, taken: seq<Id>)
    requires Loaded(db, taken) && Distinct(taken) && taken != []
    ensures var front, i, sizes := taken[..|taken| - 1], taken[|taken| - 1], TakenSizes(db, taken);
      && i in sizes && sizes[i] == Size(db, i)
      && Loaded(db, front) && sizes - {i} == TakenSizes(db, front)
      && |sizes| == |TakenSizes(db, front)| + 1
  {
    hide Size;
    var front, i := taken[..|taken| - 1], taken[|taken| - 1];
    assert i !in front && forall x :: x in taken <==> x in front || x == i;
    assert TakenSizes(db, taken).Keys == TakenSizes(db, front).Keys + {i};
  }

  lemma {:induction false} TakenTotal(db: DB, taken: seq<Id>)
    requires Loaded(db, taken) && Distinct(taken)
    ensures Total(TakenSizes(db, taken)) == TotalSize(db, taken)
    ensures |TakenSizes(db, taken)| == |taken|
  {
    if taken != [] {
      hide Total, Size;
      var front, i := taken[..|taken| - 1], taken[|taken| - 1];
      TakenTotal(db, front);
      TakenLast(db, taken);
      TotalPick(TakenSizes(db, taken), i);
    } else {
      assert TakenSizes(db, []) == map[];
    }
  }

  /** The packing of a pull keeps to the limits in the sense the streamer relies on. */
  lemma PullFits(db: DB, sub: Subscription, rows: seq<Id>, limits: PullLimits)
    requires Loaded(db, rows) && Distinct(rows) && |rows| <= limits.maxMessages && limits.maxBytes >= 0
    ensures var taken := Pack(db, sub, rows, |rows|, limits).taken;
      Loaded(db, taken) && Fits(TakenSizes(db, taken), FlowControl(limits.maxMessages, limits.maxBytes), limits.strict)
  {
    hide Total, Pack;
    var taken := Pack(db, sub, rows, |rows|, limits).taken;
    PackChooses(db, sub, rows, |rows|, limits);
    PackCounts(db, sub, rows, |rows|, limits);
    PackFits(db, sub, rows, |rows|, limits);
    TakenTotal(db, taken);
  }
}
