/** Pulls that wait and transactions that commit, interleaved. A pull registers before it queries; a
    transaction wakes after it has committed. */
module PullWait {
  import opened Types
  import opened Actions
  import opened Effects
  import opened Runs
  import opened Ordering
  import opened Wakeups
  import opened Commits
  import opened Notify

  type Client = nat

  /** A waiting pull: its awaiter, and once its query has found nothing due, how many transactions had
      committed by then, when that was, and how long it may sleep. */
  datatype Pull = Registered(subId: Id, chan: Chan)
                | Parked(subId: Id, chan: Chan, seen: nat, since: Time, wake: Option<Time>)

  /** The run so far, the time, the registry, the calls that each committed transaction's hooks have still
      to make, in order, and the pulls between registering and cancelling. `stopped` is history: the
      subscriptions that a transaction's call named but did not get to. */
  datatype System = System(
    dbs: seq<DB>, events: seq<Event>, clock: Time, reg: Registry,
    owed: seq<seq<Op>>, stopped: set<(nat, Id)>, pulls: map<Client, Pull>)

  /** Transaction `k` of the run wakes these subscriptions. */
  function WokenBy(dbs: seq<DB>, events: seq<Event>, k: nat): set<Id>
    requires |dbs| == |events| + 1 && k < |events|
  {
    Wakes(At(dbs[k], events[k].now), events[k].step, dbs[k + 1])
  }

  /** A subscription listed before entry `i` has no wait set, so a call with this list ends there. */
  predicate StopsBefore(r: Registry, subIds: seq<Id>, i: nat) {
    exists j :: 0 <= j < i && j < |subIds| && Publish(subIds[j]) !in r.waiters
  }

  function StoppedBy(r: Registry, k: nat, op: Op): set<(nat, Id)> {
    if op.WakePublishOp? then set i | 0 <= i < |op.subIds| && StopsBefore(r, op.subIds, i) :: (k, op.subIds[i]) else {}
  }

  datatype Move =
    | Register(client: Client, subId: Id)
    | Query(client: Client, now: Time, wake: Option<Time>)
    | Leave(client: Client)
    | Commit(event: Event, calls: seq<Op>)
    | Wake(k: nat)
    | Other(op: Op)

  function Last(sys: System): DB
    requires sys.dbs != []
  {
    sys.dbs[|sys.dbs| - 1]
  }

  /** One move of one of the parties. Hooks for other processes are never set, and nobody else cancels a
      pull's awaiter. */
  ghost predicate Moves(env: Env, sys: System, m: Move, sys': System)
    requires sys.dbs != []
  {
    match m
    case Register(p, s) =>
      && p !in sys.pulls
      && sys' == sys.(reg := Await(sys.reg, Publish(s)), pulls := sys.pulls[p := Registered(s, sys.reg.next)])
    case Query(p, now, wake) =>
      && p in sys.pulls && sys.pulls[p].Registered? && sys.clock <= now
      && LiveSub(Last(sys), sys.pulls[p].subId)
      && DueRows(At(Last(sys), now), sys.pulls[p].subId) == {}
      && WakeTime(At(Last(sys), now), sys.pulls[p].subId, wake)
      && sys' == sys.(clock := now,
                      pulls := sys.pulls[p := Parked(sys.pulls[p].subId, sys.pulls[p].chan, |sys.events|, now, wake)])
    case Leave(p) =>
      && p in sys.pulls
      && sys' == sys.(reg := Cancel(sys.reg, Publish(sys.pulls[p].subId), sys.pulls[p].chan), pulls := sys.pulls - {p})
    case Commit(e, calls) =>
      && sys.clock <= e.now
      && sys'.dbs != [] && Next(env, Last(sys), e, Last(sys'))
      && CallsFor(At(Last(sys), e.now), e.step, Last(sys'), calls)
      && sys' == sys.(dbs := sys.dbs + [Last(sys')], events := sys.events + [e], clock := e.now, owed := sys.owed + [calls])
    case Wake(k) =>
      && k < |sys.owed| && sys.owed[k] != []
      && sys' == sys.(reg := Do(sys.reg, sys.owed[k][0]), owed := sys.owed[k := sys.owed[k][1..]],
                      stopped := sys.stopped + StoppedBy(sys.reg, k, sys.owed[k][0]))
    case Other(op) =>
      && !op.SetHooksOp?
      && (op.CancelOp? ==> forall p :: p in sys.pulls ==> sys.pulls[p].chan != op.chan)
      && sys' == sys.(reg := Do(sys.reg, op))
  }

  /** Transaction `k` has yet to make a call that names the subscription. */
  ghost predicate Owes(sys: System, k: nat, subId: Id)
    requires k < |sys.owed|
  {
    exists c :: c in sys.owed[k] && c.WakePublishOp? && subId in c.subIds
  }

  /** While its awaiter is open, a pull is registered; and any transaction after its query that calls for
      waking it is still going to, or its call has stopped short of the pull's subscription. */
  ghost predicate Attentive(sys: System, p: Pull)
    requires |sys.dbs| == |sys.events| + 1 == |sys.owed| + 1
  {
    p.chan in sys.reg.closed ||
    (&& p.chan in sys.reg.Waiting(Publish(p.subId))
     && (p.Parked? ==>
           forall k :: p.seen <= k < |sys.events| && p.subId in WokenBy(sys.dbs, sys.events, k) ==>
             Owes(sys, k, p.subId) || (k, p.subId) in sys.stopped))
  }

  /** The query happened between two transactions, found nothing due, and learnt how long to wait. */
  ghost predicate Queried(sys: System, p: Pull)
    requires |sys.dbs| == |sys.events| + 1 && p.Parked?
  {
    && p.seen <= |sys.events|
    && sys.dbs[p.seen].clock <= p.since <= sys.clock
    && (p.seen < |sys.events| ==> p.since <= sys.events[p.seen].now)
    && LiveSub(At(sys.dbs[p.seen], p.since), p.subId)
    && WakeTime(At(sys.dbs[p.seen], p.since), p.subId, p.wake)
  }

  /** Calls list no subscription twice, and several only when deliveries are released; so only such a
      call can stop short. */
  ghost predicate Shaped(sys: System) {
    && |sys.dbs| == |sys.events| + 1 == |sys.owed| + 1
    && (forall k, c :: 0 <= k < |sys.owed| && c in sys.owed[k] ==> CallOk(c, sys.events[k].step.DelayStep?))
    && (forall q :: q in sys.stopped ==> q.0 < |sys.events| && sys.events[q.0].step.DelayStep?)
  }

  ghost predicate Inv(env: Env, sys: System) {
    && Shaped(sys)
    && Run(env, sys.dbs, sys.events) && Valid(sys.dbs[0]) && Last(sys).clock <= sys.clock
    && sys.reg.Safe() && sys.reg.publishHooks == {}
    && (forall p :: p in sys.pulls ==> sys.pulls[p].chan < sys.reg.next && Attentive(sys, sys.pulls[p]))
    && (forall p :: p in sys.pulls && sys.pulls[p].Parked? ==> Queried(sys, sys.pulls[p]))
    && (forall p, q :: p in sys.pulls && q in sys.pulls && p != q ==> sys.pulls[p].chan != sys.pulls[q].chan)
  }

  /** Before anything has happened. */
  ghost predicate Start(sys: System) {
    exists db :: Valid(db) && sys == System([db], [], db.clock, INITIAL, [], {}, map[])
  }

  lemma StartInv(env: Env, sys: System)
    requires Start(sys)
    ensures Inv(env, sys)
  {
  }

  // ---- Each move keeps it ----

  /** Moves of the registry that leave the run and the debts alone. */
  lemma RegistryMove(env: Env, sys: System, op: Op, p: Client)
    requires Inv(env, sys) && p in sys.pulls && !op.SetHooksOp?
    requires !(op.CancelOp? && op.chan == sys.pulls[p].chan)
    ensures Attentive(sys.(reg := Do(sys.reg, op)), sys.pulls[p])
  {
    hide Run, Do, WokenBy;
    ClosedStays(sys.reg, op);
    var sys' := sys.(reg := Do(sys.reg, op));
    if sys.pulls[p].chan !in sys.reg.closed {
      AwaiterSurvives(sys.reg, op, Publish(sys.pulls[p].subId), sys.pulls[p].chan);
    }
    SameDebts(sys, sys', sys.pulls[p].subId);
  }

  lemma SameDebts(sys: System, sys': System, subId: Id)
    requires sys'.owed == sys.owed
    ensures forall k :: 0 <= k < |sys.owed| ==> Owes(sys', k, subId) == Owes(sys, k, subId)
  {
  }

  /** What of the invariant does not concern single pulls, for a move of the registry. */
  lemma RegistryInv(env: Env, sys: System, op: Op, sys': System)
    requires Inv(env, sys) && !op.SetHooksOp? && sys'.reg == Do(sys.reg, op)
    ensures sys'.reg.Safe() && sys'.reg.publishHooks == {} && sys.reg.next <= sys'.reg.next
  {
    hide Run, Attentive, Queried;
    DoSafe(sys.reg, op);
    ClosedStays(sys.reg, op);
    match op
    case WakePublishOp(_, ids) => WakeSubsNext(sys.reg, ids);
    case WakeModifyOp(kind, _, id, name) => CloseSlotsNext(sys.reg, ModifySlots(kind, id, name));
    case _ =>
  }

  lemma RegisterKeeps(env: Env, sys: System, m: Move, sys': System)
    requires Inv(env, sys) && m.Register? && Moves(env, sys, m, sys')
    ensures Inv(env, sys')
  {
    hide Run, Attentive, Queried, Do, Next, CallsFor, CallOk;
    var op := AwaitOp(Publish(m.subId));
    AwaitIs(sys.reg, Publish(m.subId));
    RegistryInv(env, sys, op, sys');
    SameRun(env, sys, sys');
    forall p | p in sys.pulls ensures Attentive(sys', sys'.pulls[p]) {
      RegistryMove(env, sys, op, p);
      SameAttention(sys.(reg := sys'.reg), sys', sys.pulls[p]);
    }
    NewAttention(sys', m.client);
  }

  lemma AwaitIs(r: Registry, s: Slot)
    ensures Do(r, AwaitOp(s)) == Await(r, s) && r.next in Await(r, s).Waiting(s)
  {
  }

  lemma NewAttention(sys: System, p: Client)
    requires |sys.dbs| == |sys.events| + 1 == |sys.owed| + 1
    requires p in sys.pulls && sys.pulls[p].Registered? && sys.pulls[p].chan in sys.reg.Waiting(Publish(sys.pulls[p].subId))
    ensures Attentive(sys, sys.pulls[p])
  {
  }

  /** Attention depends on the run, the registry, the debts and the history only. */
  lemma SameAttention(sys: System, sys': System, p: Pull)
    requires |sys.dbs| == |sys.events| + 1 == |sys.owed| + 1 && Attentive(sys, p)
    requires sys'.dbs == sys.dbs && sys'.events == sys.events && sys'.reg == sys.reg
    requires sys'.owed == sys.owed && sys'.stopped == sys.stopped
    ensures Attentive(sys', p)
  {
    hide WokenBy;
    SameDebts(sys, sys', p.subId);
  }

  lemma SameRun(env: Env, sys: System, sys': System)
    requires Inv(env, sys) && sys'.dbs == sys.dbs && sys'.events == sys.events && sys.clock <= sys'.clock
    ensures Run(env, sys'.dbs, sys'.events) && Valid(sys'.dbs[0]) && Last(sys').clock <= sys'.clock
    ensures forall p :: p in sys.pulls && sys.pulls[p].Parked? ==> Queried(sys', sys.pulls[p])
  {
    hide Attentive, WakeTime, LiveSub;
  }

  lemma LeaveKeeps(env: Env, sys: System, m: Move, sys': System)
    requires Inv(env, sys) && m.Leave? && Moves(env, sys, m, sys')
    ensures Inv(env, sys')
  {
    hide Run, Attentive, Queried, Next, CallsFor, CallOk;
    var op := CancelOp(Publish(sys.pulls[m.client].subId), sys.pulls[m.client].chan);
    RegistryInv(env, sys, op, sys');
    SameRun(env, sys, sys');
    forall p | p in sys'.pulls ensures Attentive(sys', sys'.pulls[p]) {
      RegistryMove(env, sys, op, p);
      SameAttention(sys.(reg := sys'.reg), sys', sys.pulls[p]);
    }
  }

  lemma OtherKeeps(env: Env, sys: System, m: Move, sys': System)
    requires Inv(env, sys) && m.Other? && Moves(env, sys, m, sys')
    ensures Inv(env, sys')
  {
    hide Run, Attentive, Queried, Do, Next, CallsFor, CallOk;
    RegistryInv(env, sys, m.op, sys');
    SameRun(env, sys, sys');
    forall p | p in sys'.pulls ensures Attentive(sys', sys'.pulls[p]) {
      RegistryMove(env, sys, m.op, p);
    }
  }

  lemma QueryKeeps(env: Env, sys: System, m: Move, sys': System)
    requires Inv(env, sys) && m.Query? && Moves(env, sys, m, sys')
    ensures Inv(env, sys')
  {
    hide Run, WakeTime, Attentive, Next, Wakes, CallsFor, CallOk;
    SameRun(env, sys, sys');
    forall p | p in sys'.pulls ensures Attentive(sys', sys'.pulls[p]) {
      if p == m.client {
        ParkedAttention(sys, sys', p);
      } else {
        SameAttention(sys, sys', sys.pulls[p]);
      }
    }
  }

  /** A pull that parks has seen every transaction so far. */
  lemma ParkedAttention(sys: System, sys': System, p: Client)
    requires |sys.dbs| == |sys.events| + 1 == |sys.owed| + 1 && p in sys.pulls && Attentive(sys, sys.pulls[p])
    requires sys'.dbs == sys.dbs && sys'.events == sys.events && sys'.reg == sys.reg && sys'.owed == sys.owed
    requires p in sys'.pulls && sys'.pulls[p].Parked? && sys'.pulls[p].seen == |sys.events|
    requires sys'.pulls[p].chan == sys.pulls[p].chan && sys'.pulls[p].subId == sys.pulls[p].subId
    ensures Attentive(sys', sys'.pulls[p])
  {
    hide WokenBy;
  }

  lemma WakeKeeps(env: Env, sys: System, m: Move, sys': System)
    requires Inv(env, sys) && m.Wake? && Moves(env, sys, m, sys')
    ensures Inv(env, sys')
  {
    hide Run, Attentive, Queried, Do, Next, CallsFor;
    var op := sys.owed[m.k][0];
    assert op in sys.owed[m.k] && CallOk(op, sys.events[m.k].step.DelayStep?);
    RegistryInv(env, sys, op, sys');
    SameRun(env, sys, sys');
    WakeShape(sys, m.k, sys');
    forall p | p in sys'.pulls ensures Attentive(sys', sys'.pulls[p]) {
      RegistryMove(env, sys, op, p);
      PaidAttention(env, sys, m.k, sys', p);
    }
  }

  /** A call for one subscription never stops short of it. */
  lemma WakeShape(sys: System, k: nat, sys': System)
    requires Shaped(sys) && k < |sys.owed| && sys.owed[k] != []
    requires sys'.dbs == sys.dbs && sys'.events == sys.events && sys'.owed == sys.owed[k := sys.owed[k][1..]]
    requires sys'.stopped == sys.stopped + StoppedBy(sys.reg, k, sys.owed[k][0])
    ensures Shaped(sys')
  {
    var op := sys.owed[k][0];
    assert op in sys.owed[k];
    forall j, c | 0 <= j < |sys'.owed| && c in sys'.owed[j] ensures CallOk(c, sys'.events[j].step.DelayStep?) {
      assert c in sys.owed[j];
    }
  }

  /** Making a call closes the awaiters of the pulls it was owed to, unless it stops short of them. */
  lemma PaidAttention(env: Env, sys: System, k: nat, sys': System, p: Client)
    requires Inv(env, sys) && Moves(env, sys, Wake(k), sys') && p in sys.pulls
    requires Attentive(sys.(reg := sys'.reg), sys.pulls[p])
    ensures Attentive(sys', sys.pulls[p])
  {
    hide Run, WokenBy, Queried, Do, Next, CallsFor;
    var subId, op := sys.pulls[p].subId, sys.owed[k][0];
    assert op in sys.owed[k] && CallOk(op, sys.events[k].step.DelayStep?);
    SameDebts(sys, sys.(reg := sys'.reg), subId);
    if sys.pulls[p].chan !in sys'.reg.closed {
      ClosedStays(sys.reg, op);
      forall j | 0 <= j < |sys.owed| && Owes(sys, j, subId)
        ensures Owes(sys', j, subId) || (j, subId) in sys'.stopped
      {
        var c :| c in sys.owed[j] && c.WakePublishOp? && subId in c.subIds;
        if j == k && c == op {
          PaidCloses(sys.reg, op, subId, sys.pulls[p].chan, k);
        } else {
          assert j == k ==> c in sys.owed[k][1..];
          assert c in sys'.owed[j];
        }
      }
    }
  }

  /** The call either closes the waiter or stops at a subscription listed earlier. */
  lemma PaidCloses(r: Registry, op: Op, subId: Id, c: Chan, k: nat)
    requires r.Safe() && r.publishHooks == {} && op.WakePublishOp? && Distinct(op.subIds) && subId in op.subIds
    requires c in r.Waiting(Publish(subId))
    ensures c in Do(r, op).closed || (k, subId) in StoppedBy(r, k, op)
  {
    var i :| 0 <= i < |op.subIds| && op.subIds[i] == subId;
    if !StopsBefore(r, op.subIds, i) {
      assert Reaches(r, op.subIds, i);
      WakesMany(r, op.subIds, Publish(subId));
      WakesManyCloses(r, op.subIds);
    }
  }

  lemma CommitKeeps(env: Env, sys: System, m: Move, sys': System)
    requires Inv(env, sys) && m.Commit? && Moves(env, sys, m, sys')
    ensures Inv(env, sys')
  {
    hide Attentive, Queried, Enabled, Apply, CallsFor, CallOk, Wakes, Valid, Rooted;
    assert Run(env, sys'.dbs, sys'.events);
    assert Last(sys').clock == m.event.now by { StepTime(env, sys, m, sys'); }
    CommitShape(sys, m, sys');
    forall p | p in sys.pulls
      ensures Attentive(sys', sys.pulls[p]) && (sys.pulls[p].Parked? ==> Queried(sys', sys.pulls[p]))
    {
      OwedAttention(env, sys, m, sys', sys.pulls[p]);
      StillQueried(sys, sys', sys.pulls[p], m.event);
    }
  }

  lemma CommitShape(sys: System, m: Move, sys': System)
    requires Shaped(sys) && m.Commit? && sys'.dbs != [] && sys'.dbs == sys.dbs + [Last(sys')]
    requires CallsFor(At(Last(sys), m.event.now), m.event.step, Last(sys'), m.calls)
    requires sys'.events == sys.events + [m.event] && sys'.owed == sys.owed + [m.calls] && sys'.stopped == sys.stopped
    ensures Shaped(sys')
  {
    hide CallsFor, CallOk;
    CallsShape(At(Last(sys), m.event.now), m.event.step, Last(sys'), m.calls);
  }

  lemma StepTime(env: Env, sys: System, m: Move, sys': System)
    requires Inv(env, sys) && m.Commit? && Moves(env, sys, m, sys')
    ensures Last(sys').clock == m.event.now && Valid(Last(sys))
  {
    hide Attentive, Queried, Enabled, Apply, CallsFor, Wakes, Valid;
    RunValid(env, sys.dbs, sys.events);
    StepClock(env, Last(sys), m.event, Last(sys'));
  }

  lemma StillQueried(sys: System, sys': System, p: Pull, e: Event)
    requires |sys.dbs| == |sys.events| + 1 && (p.Parked? ==> Queried(sys, p))
    requires sys'.dbs != [] && sys'.dbs == sys.dbs + [Last(sys')] && sys'.events == sys.events + [e]
    requires sys.clock <= e.now == sys'.clock
    ensures p.Parked? ==> Queried(sys', p)
  {
    hide WakeTime, LiveSub;
  }

  lemma WokenByStays(dbs: seq<DB>, events: seq<Event>, db: DB, e: Event, k: nat)
    requires |dbs| == |events| + 1 && k < |events|
    ensures WokenBy(dbs + [db], events + [e], k) == WokenBy(dbs, events, k)
  {
    hide Wakes;
  }

  /** The transaction that has just committed still owes its calls. */
  lemma OwedAttention(env: Env, sys: System, m: Move, sys': System, p: Pull)
    requires |sys.dbs| == |sys.events| + 1 == |sys.owed| + 1 && Attentive(sys, p)
    requires m.Commit? && Moves(env, sys, m, sys')
    ensures Attentive(sys', p)
  {
    hide Next, Wakes, CallsFor, WokenBy;
    var n := |sys.events|;
    forall k | 0 <= k < n
      ensures WokenBy(sys'.dbs, sys'.events, k) == WokenBy(sys.dbs, sys.events, k)
      ensures Owes(sys', k, p.subId) == Owes(sys, k, p.subId)
    {
      WokenByStays(sys.dbs, sys.events, Last(sys'), m.event, k);
      assert sys'.owed[k] == sys.owed[k];
    }
    if p.subId in WokenBy(sys'.dbs, sys'.events, n) {
      NewDebt(env, sys, m, sys', p.subId);
    }
  }

  lemma NewDebt(env: Env, sys: System, m: Move, sys': System, subId: Id)
    requires |sys.dbs| == |sys.events| + 1 == |sys.owed| + 1 && m.Commit? && Moves(env, sys, m, sys')
    requires subId in WokenBy(sys'.dbs, sys'.events, |sys.events|)
    ensures Owes(sys', |sys.events|, subId)
  {
    hide Wakes, CallsFor, Enabled, Apply;
    CallsCover(env, At(Last(sys), m.event.now), m.event.step, Last(sys'), m.calls, subId);
    assert sys'.owed[|sys.events|] == m.calls;
  }

  /** Every move keeps the invariant. */
  lemma MoveKeeps(env: Env, sys: System, m: Move, sys': System)
    requires Inv(env, sys) && Moves(env, sys, m, sys')
    ensures Inv(env, sys')
  {
    hide Inv, Moves;
    match m
    case Register(_, _) => RegisterKeeps(env, sys, m, sys');
    case Query(_, _, _) => QueryKeeps(env, sys, m, sys');
    case Leave(_) => LeaveKeeps(env, sys, m, sys');
    case Commit(_, _) => CommitKeeps(env, sys, m, sys');
    case Wake(_) => WakeKeeps(env, sys, m, sys');
    case Other(_) => OtherKeeps(env, sys, m, sys');
  }

  // ---- No lost wakeup ----

  ghost predicate Trace(env: Env, syss: seq<System>, moves: seq<Move>) {
    && |syss| == |moves| + 1
    && Start(syss[0])
    && forall k :: 0 <= k < |moves| ==> syss[k].dbs != [] && Moves(env, syss[k], moves[k], syss[k + 1])
  }

  lemma TraceFront(env: Env, syss: seq<System>, moves: seq<Move>)
    requires Trace(env, syss, moves) && moves != []
    ensures Trace(env, syss[..|moves|], moves[..|moves| - 1])
    ensures syss[|moves| - 1].dbs != [] && Moves(env, syss[|moves| - 1], moves[|moves| - 1], syss[|moves|])
  {
    hide Moves, Start;
  }

  lemma {:induction false} TraceInv(env: Env, syss: seq<System>, moves: seq<Move>)
    requires Trace(env, syss, moves)
    ensures Inv(env, syss[|moves|])
  {
    hide Moves, Inv;
    if moves == [] {
      StartInv(env, syss[0]);
    } else {
      TraceFront(env, syss, moves);
      TraceInv(env, syss[..|moves|], moves[..|moves| - 1]);
      assert syss[..|moves|][|moves| - 1] == syss[|moves| - 1];
      MoveKeeps(env, syss[|moves| - 1], moves[|moves| - 1], syss[|moves|]);
    }
  }

  /** At move `n` of the trace, transaction `k` makes a call that lists the subscription behind one that
      has no wait set at that moment. */
  ghost predicate StopsShort(syss: seq<System>, moves: seq<Move>, n: nat, k: nat, subId: Id)
    requires |syss| == |moves| + 1 && n < |moves|
  {
    && moves[n] == Wake(k) && k < |syss[n].owed| && syss[n].owed[k] != []
    && syss[n].owed[k][0].WakePublishOp?
    && exists i: nat, j: nat :: StopsAt(syss[n].reg, syss[n].owed[k][0].subIds, j, i, subId)
  }

  predicate StopsAt(r: Registry, subIds: seq<Id>, j: nat, i: nat, subId: Id) {
    j < i < |subIds| && subIds[i] == subId && Publish(subIds[j]) !in r.waiters
  }

  /** What the history says has happened. */
  lemma {:induction false} StoppedHappened(env: Env, syss: seq<System>, moves: seq<Move>, k: nat, subId: Id)
    requires Trace(env, syss, moves) && (k, subId) in syss[|moves|].stopped
    ensures exists n :: 0 <= n < |moves| && StopsShort(syss, moves, n, k, subId)
  {
    hide Next, CallsFor, Do;
    if moves != [] {
      var n := |moves| - 1;
      TraceFront(env, syss, moves);
      if (k, subId) in syss[n].stopped {
        StoppedHappened(env, syss[..|moves|], moves[..n], k, subId);
        var n' :| 0 <= n' < n && StopsShort(syss[..|moves|], moves[..n], n', k, subId);
        assert StopsShort(syss, moves, n', k, subId);
      } else {
        StoppedNow(syss[n].reg, k, syss[n].owed[k][0], subId);
        assert StopsShort(syss, moves, n, k, subId);
      }
    }
  }

  lemma StoppedNow(r: Registry, k: nat, op: Op, subId: Id)
    requires (k, subId) in StoppedBy(r, k, op)
    ensures op.WakePublishOp? && exists i: nat, j: nat :: StopsAt(r, op.subIds, j, i, subId)
  {
    var i :| 0 <= i < |op.subIds| && StopsBefore(r, op.subIds, i) && op.subIds[i] == subId;
    var j :| 0 <= j < i && Publish(op.subIds[j]) !in r.waiters;
    assert StopsAt(r, op.subIds, j, i, subId);
  }

  /** In every interleaving: if a pull is parked on an open awaiter, then every transaction since its query
      that wakes its subscription still owes it the call; or was a release of deliveries of several
      subscriptions, whose call met one without a wait set that it listed before this one. */
  lemma NoLostWakeup(env: Env, syss: seq<System>, moves: seq<Move>, p: Client, k: nat)
    requires Trace(env, syss, moves)
    requires p in syss[|moves|].pulls && syss[|moves|].pulls[p].Parked?
    requires var sys := syss[|moves|];
      && sys.pulls[p].chan !in sys.reg.closed
      && |sys.dbs| == |sys.events| + 1 == |sys.owed| + 1
      && sys.pulls[p].seen <= k < |sys.events| && sys.pulls[p].subId in WokenBy(sys.dbs, sys.events, k)
      && !Owes(sys, k, sys.pulls[p].subId)
    ensures var sys := syss[|moves|];
      && sys.pulls[p].chan in sys.reg.Waiting(Publish(sys.pulls[p].subId))
      && (k, sys.pulls[p].subId) in sys.stopped
      && sys.events[k].step.DelayStep?
      && exists n :: 0 <= n < |moves| && StopsShort(syss, moves, n, k, sys.pulls[p].subId)
  {
    hide Moves, Run, WokenBy, Queried, CallOk, StopsShort;
    TraceInv(env, syss, moves);
    var sys := syss[|moves|];
    assert Attentive(sys, sys.pulls[p]);
    StoppedHappened(env, syss, moves, k, sys.pulls[p].subId);
  }

  // ---- What that means for deliveries ----

  /** Nobody owes the pull a wake, and since its query no nack has hastened rows of its subscription and no
      call has stopped short of it. */
  ghost predicate Calm(sys: System, p: Pull)
    requires |sys.dbs| == |sys.events| + 1 == |sys.owed| + 1 && p.Parked?
  {
    forall k :: p.seen <= k < |sys.events| ==>
      && !Owes(sys, k, p.subId)
      && (k, p.subId) !in sys.stopped
      && !Hastens(At(sys.dbs[k], sys.events[k].now), sys.events[k].step, sys.dbs[k + 1], p.subId)
  }

  /** The tables as the query saw them. */
  function QueriedState(sys: System, p: Pull): DB
    requires p.Parked? && p.seen < |sys.dbs|
  {
    At(sys.dbs[p.seen], p.since)
  }

  /** The run from the query on. */
  function FromQuery(sys: System, p: Pull): seq<DB>
    requires p.Parked? && p.seen < |sys.dbs|
  {
    [QueriedState(sys, p)] + sys.dbs[p.seen + 1..]
  }

  lemma FromQueryRuns(env: Env, sys: System, p: Pull)
    requires |sys.dbs| == |sys.events| + 1 && Run(env, sys.dbs, sys.events) && p.Parked? && Queried(sys, p)
    ensures Run(env, FromQuery(sys, p), sys.events[p.seen..])
  {
    hide Enabled, Apply, WakeTime, LiveSub;
    var dbs, events := FromQuery(sys, p), sys.events[p.seen..];
    forall k | 0 <= k < |events| ensures Next(env, dbs[k], events[k], dbs[k + 1]) {
      assert Next(env, sys.dbs[p.seen + k], sys.events[p.seen + k], sys.dbs[p.seen + k + 1]);
      assert At(dbs[k], events[k].now) == At(sys.dbs[p.seen + k], events[k].now);
    }
  }

  lemma FromQuerySilent(sys: System, p: Pull)
    requires |sys.dbs| == |sys.events| + 1 == |sys.owed| + 1 && p.Parked? && p.seen < |sys.dbs| && Calm(sys, p)
    requires p.chan !in sys.reg.closed && Attentive(sys, p)
    ensures SilentRun(FromQuery(sys, p), sys.events[p.seen..], p.subId)
  {
    hide Wakes, Hastens, Owes;
    var dbs, events := FromQuery(sys, p), sys.events[p.seen..];
    forall k | 0 <= k < |events|
      ensures p.subId !in Wakes(At(dbs[k], events[k].now), events[k].step, dbs[k + 1])
      ensures !Hastens(At(dbs[k], events[k].now), events[k].step, dbs[k + 1], p.subId)
    {
      assert p.subId !in WokenBy(sys.dbs, sys.events, p.seen + k);
      assert At(dbs[k], events[k].now) == At(sys.dbs[p.seen + k], sys.events[p.seen + k].now);
    }
  }

  lemma StillRight(env: Env, sys: System, p: Pull, now: Time)
    requires |sys.dbs| == |sys.events| + 1 == |sys.owed| + 1 && Run(env, sys.dbs, sys.events) && Valid(sys.dbs[0])
    requires p.Parked? && Queried(sys, p) && Last(sys).clock <= sys.clock <= now && Calm(sys, p)
    requires p.chan !in sys.reg.closed && Attentive(sys, p)
    requires p.wake.Some? ==> now < p.wake.value
    requires var db := QueriedState(sys, p);
      p.wake.Some? && db.subs[p.subId].ordered ==> forall i: Id :: !Overslept(db, p.subId, i, p.wake.value)
    ensures LiveSub(Last(sys), p.subId) && DueRows(At(Last(sys), now), p.subId) == {}
  {
    hide Valid, WakeTime, Next, SilentRun, Calm, Attentive, Overslept, DueRows;
    var dbs, events := FromQuery(sys, p), sys.events[p.seen..];
    RunValid(env, sys.dbs, sys.events);
    ClockKeepsValid(sys.dbs[p.seen], p.since);
    FromQueryRuns(env, sys, p);
    FromQuerySilent(sys, p);
    assert At(dbs[|events|], now) == At(Last(sys), now);
    ParkedPullMissesNothing(env, dbs, events, p.subId, p.wake, now);
  }

  /** End to end: a pull that is parked on an open awaiter, with nobody owing it a wake, misses nothing
      before its timer fires. In an ordered subscription this needs the exact condition of `SleepsWell` to
      hold of what its query saw; in an unordered one that always holds. */
  lemma ParkedPullIsRight(env: Env, syss: seq<System>, moves: seq<Move>, p: Client, now: Time)
    requires Trace(env, syss, moves)
    requires p in syss[|moves|].pulls && syss[|moves|].pulls[p].Parked?
    requires var sys := syss[|moves|];
      && sys.pulls[p].chan !in sys.reg.closed
      && |sys.dbs| == |sys.events| + 1 == |sys.owed| + 1
      && Calm(sys, sys.pulls[p])
      && sys.clock <= now && (sys.pulls[p].wake.Some? ==> now < sys.pulls[p].wake.value)
      && sys.pulls[p].seen < |sys.dbs| && sys.pulls[p].subId in QueriedState(sys, sys.pulls[p]).subs
    requires var sys := syss[|moves|];
      var pull, db := sys.pulls[p], QueriedState(sys, sys.pulls[p]);
      pull.wake.Some? && db.subs[pull.subId].ordered ==> forall i: Id :: !Overslept(db, pull.subId, i, pull.wake.value)
    ensures var sys := syss[|moves|];
      LiveSub(Last(sys), sys.pulls[p].subId) && DueRows(At(Last(sys), now), sys.pulls[p].subId) == {}
  {
    hide Moves, Attentive, Run, WakeTime, Valid, Calm, Overslept, DueRows, CallOk;
    var sys := syss[|moves|];
    TraceInv(env, syss, moves);
    assert Queried(sys, sys.pulls[p]);
    StillRight(env, sys, sys.pulls[p], now);
  }

  /** In a disciplined run of an ordered subscription the condition always holds. */
  lemma ParkedOrderedPullIsRight(env: Env, syss: seq<System>, moves: seq<Move>, p: Client, topicId: Id, now: Time)
    requires Trace(env, syss, moves)
    requires p in syss[|moves|].pulls && syss[|moves|].pulls[p].Parked?
    requires var sys := syss[|moves|];
      && sys.pulls[p].chan !in sys.reg.closed
      && |sys.dbs| == |sys.events| + 1 == |sys.owed| + 1
      && Calm(sys, sys.pulls[p])
      && sys.clock <= now && (sys.pulls[p].wake.Some? ==> now < sys.pulls[p].wake.value)
      && NewlyOrdered(sys.dbs[0], sys.pulls[p].subId, topicId)
      && DisciplinedRun(sys.dbs, sys.events, sys.pulls[p].subId, topicId)
    ensures var sys := syss[|moves|];
      LiveSub(Last(sys), sys.pulls[p].subId) && DueRows(At(Last(sys), now), sys.pulls[p].subId) == {}
  {
    hide Moves, Attentive, Run, WakeTime, Valid, Calm, Overslept, DueRows, CallOk, NewlyOrdered, DisciplinedRun;
    var sys := syss[|moves|];
    var pull := sys.pulls[p];
    TraceInv(env, syss, moves);
    assert Queried(sys, pull);
    if pull.wake.Some? {
      DisciplinedQuery(env, sys, pull, topicId);
    }
    StillRight(env, sys, pull, now);
  }

  lemma DisciplinedQuery(env: Env, sys: System, p: Pull, topicId: Id)
    requires |sys.dbs| == |sys.events| + 1 && Run(env, sys.dbs, sys.events) && p.Parked? && Queried(sys, p) && p.wake.Some?
    requires NewlyOrdered(sys.dbs[0], p.subId, topicId) && DisciplinedRun(sys.dbs, sys.events, p.subId, topicId)
    ensures forall i: Id :: !Overslept(QueriedState(sys, p), p.subId, i, p.wake.value)
  {
    hide Next, Valid, OrderInv, NewlyOrdered, DisciplinedRun, WakeTime, Overslept;
    RunKeepsOrder(env, sys.dbs, sys.events, p.subId, topicId);
    ClockKeepsValid(sys.dbs[p.seen], p.since);
    ClockMoves(sys.dbs[p.seen], p.since, p.subId, topicId);
    forall i: Id ensures !Overslept(QueriedState(sys, p), p.subId, i, p.wake.value) {
      DisciplineSleepsWell(QueriedState(sys, p), p.subId, topicId, p.wake.value, i);
    }
  }
}
