/** The in-memory registry of waiters: who waits for what, and which channels a wake closes. */
module Notify {
  import opened Types

  /** A channel, named in order of creation. Closing one twice is a panic. */
  type Chan = nat

  type Hook = nat

  /** The zero UUID. */
  const NIL: Id := 0

  datatype Kind = OfTopics | OfSubs

  /** What can be waited for: a publish to a subscription, a change of a topic or subscription known
      by id, name or both, or a change of any of them. */
  datatype Slot = Publish(subId: Id) | Modify(kind: Kind, id: Id, name: string) | AnyModify(kind: Kind)

  /** `waiters` may hold empty sets: a cancelled waiter leaves its set behind. */
  datatype Registry = Registry(
    waiters: map<Slot, set<Chan>>,
    publishHooks: set<Hook>,
    topicHooks: set<Hook>,
    subHooks: set<Hook>,
    called: set<(Hook, Id)>,
    closed: set<Chan>,
    next: Chan)
  {
    function Hooks(kind: Kind): set<Hook> {
      if kind == OfTopics then topicHooks else subHooks
    }

    function Waiting(s: Slot): set<Chan> {
      if s in waiters then waiters[s] else {}
    }

    /** Every registered channel is open and in exactly one wait set. */
    ghost predicate Safe() {
      && (forall s :: s in waiters ==> Below(waiters[s], next) && waiters[s] !! closed)
      && (forall s, t :: s in waiters && t in waiters && s != t ==> waiters[s] !! waiters[t])
      && Below(closed, next)
    }
  }

  predicate Below(s: set<Chan>, next: Chan) {
    forall c :: c in s ==> c < next
  }

  const INITIAL := Registry(map[], {}, {}, {}, {}, {}, 0)

  function Await(r: Registry, s: Slot): Registry {
    r.(waiters := r.waiters[s := r.Waiting(s) + {r.next}], next := r.next + 1)
  }

  function Cancel(r: Registry, s: Slot, c: Chan): Registry {
    if s in r.waiters then r.(waiters := r.waiters[s := r.waiters[s] - {c}]) else r
  }

  /** Close a wait set and drop it. */
  function CloseSlot(r: Registry, s: Slot): Registry {
    r.(closed := r.closed + r.Waiting(s), waiters := r.waiters - {s})
  }

  /** The loop over subscriptions returns, rather than going on, at the first that has no wait set. */
  function WakeSubs(r: Registry, subIds: seq<Id>): Registry
    decreases subIds
  {
    if subIds == [] || Publish(subIds[0]) !in r.waiters then r
    else WakeSubs(CloseSlot(r, Publish(subIds[0])), subIds[1..])
  }

  /** Every hook is called for every id. */
  function Calls(hooks: set<Hook>, ids: seq<Id>): set<(Hook, Id)> {
    set h, k | h in hooks && 0 <= k < |ids| :: (h, ids[k])
  }

  function WakePublish(r: Registry, onlyInternal: bool, subIds: seq<Id>): Registry {
    if !onlyInternal && r.publishHooks != {} then
      r.(called := r.called + Calls(r.publishHooks, subIds))
    else WakeSubs(r, subIds)
  }

  /** Waiters by id and name, by id, by name, and for anything. The first three may coincide. */
  function WakeModify(r: Registry, kind: Kind, onlyInternal: bool, id: Id, name: string): Registry {
    if !onlyInternal && r.Hooks(kind) != {} then
      r.(called := r.called + Calls(r.Hooks(kind), [id]))
    else CloseSlots(r, ModifySlots(kind, id, name))
  }

  function ModifySlots(kind: Kind, id: Id, name: string): seq<Slot> {
    [Modify(kind, id, name), Modify(kind, id, ""), Modify(kind, NIL, name), AnyModify(kind)]
  }

  function CloseSlots(r: Registry, slots: seq<Slot>): Registry {
    if slots == [] then r else CloseSlot(CloseSlots(r, slots[..|slots| - 1]), slots[|slots| - 1])
  }

  function AllWaiting(r: Registry): set<Chan> {
    set s, c | s in r.waiters && c in r.waiters[s] :: c
  }

  function WakeAll(r: Registry): Registry {
    r.(waiters := map[], closed := r.closed + AllWaiting(r))
  }

  // ---- Every sequence of operations ----

  datatype Op =
    | AwaitOp(slot: Slot)
    | CancelOp(slot: Slot, chan: Chan)
    | WakePublishOp(onlyInternal: bool, subIds: seq<Id>)
    | WakeModifyOp(kind: Kind, onlyInternal: bool, id: Id, name: string)
    | WakeAllOp
    | SetHooksOp(publishHooks: set<Hook>, topicHooks: set<Hook>, subHooks: set<Hook>)

  function Do(r: Registry, op: Op): Registry {
    match op
    case AwaitOp(s) => Await(r, s)
    case CancelOp(s, c) => Cancel(r, s, c)
    case WakePublishOp(o, ids) => WakePublish(r, o, ids)
    case WakeModifyOp(k, o, id, name) => WakeModify(r, k, o, id, name)
    case WakeAllOp => WakeAll(r)
    case SetHooksOp(p, t, s) => r.(publishHooks := p, topicHooks := t, subHooks := s)
  }

  function DoAll(r: Registry, ops: seq<Op>): Registry {
    if ops == [] then r else Do(DoAll(r, ops[..|ops| - 1]), ops[|ops| - 1])
  }

  lemma CloseSlotSafe(r: Registry, s: Slot)
    requires r.Safe()
    ensures CloseSlot(r, s).Safe() && r.Waiting(s) !! r.closed
    ensures forall t :: CloseSlot(r, s).Waiting(t) == if t == s then {} else r.Waiting(t)
    ensures CloseSlot(r, s).closed - r.closed == r.Waiting(s)
  {
  }

  lemma {:induction false} WakeSubsSafe(r: Registry, subIds: seq<Id>)
    requires r.Safe()
    ensures WakeSubs(r, subIds).Safe()
    decreases subIds
  {
    if subIds != [] && Publish(subIds[0]) in r.waiters {
      CloseSlotSafe(r, Publish(subIds[0]));
      WakeSubsSafe(CloseSlot(r, Publish(subIds[0])), subIds[1..]);
    }
  }

  lemma AwaitSafe(r: Registry, s: Slot)
    requires r.Safe()
    ensures Await(r, s).Safe()
  {
  }

  lemma CancelSafe(r: Registry, s: Slot, c: Chan)
    requires r.Safe()
    ensures Cancel(r, s, c).Safe()
  {
  }

  /** Closing a list of wait sets, possibly with repetitions, closes what was in them, each once. */
  lemma {:induction false} CloseSlotsSpec(r: Registry, slots: seq<Slot>)
    requires r.Safe()
    ensures var r' := CloseSlots(r, slots);
      && r'.Safe()
      && (forall s :: r'.Waiting(s) == if s in slots then {} else r.Waiting(s))
      && (forall s :: s in slots ==> r.Waiting(s) <= r'.closed - r.closed)
      && (forall s :: s !in slots ==> r.Waiting(s) !! r'.closed)
      && r.closed <= r'.closed
  {
    if slots != [] {
      var front, last := slots[..|slots| - 1], slots[|slots| - 1];
      CloseSlotsSpec(r, front);
      CloseSlotSafe(CloseSlots(r, front), last);
      assert forall s :: s in slots <==> s in front || s == last;
    }
  }

  lemma DoSafe(r: Registry, op: Op)
    requires r.Safe()
    ensures Do(r, op).Safe()
  {
    match op
    case AwaitOp(s) => AwaitSafe(r, s);
    case CancelOp(s, c) => CancelSafe(r, s, c);
    case WakePublishOp(o, ids) => WakeSubsSafe(r, ids);
    case WakeModifyOp(kind, o, id, name) => CloseSlotsSpec(r, ModifySlots(kind, id, name));
    case WakeAllOp =>
    case SetHooksOp(_, _, _) =>
  }

  /** However awaits, cancels and wakes follow each other, each registered channel is open and sits in
      exactly one wait set. */
  lemma {:induction false} AlwaysSafe(ops: seq<Op>)
    ensures DoAll(INITIAL, ops).Safe()
  {
    if ops != [] {
      AlwaysSafe(ops[..|ops| - 1]);
      DoSafe(DoAll(INITIAL, ops[..|ops| - 1]), ops[|ops| - 1]);
    }
  }

  // ---- Which waiters a wake reaches ----

  /** Waking one subscription without hooks closes all of its waiters and nobody else's. */
  lemma WakesOne(r: Registry, onlyInternal: bool, subId: Id)
    requires r.Safe() && (onlyInternal || r.publishHooks == {})
    ensures var r' := WakePublish(r, onlyInternal, [subId]);
      && r'.closed - r.closed == r.Waiting(Publish(subId))
      && forall s :: r'.Waiting(s) == if s == Publish(subId) then {} else r.Waiting(s)
  {
    CloseSlotSafe(r, Publish(subId));
    assert [subId][1..] == [];
    assert WakeSubs(CloseSlot(r, Publish(subId)), []) == CloseSlot(r, Publish(subId));
    assert WakeSubs(r, [subId]) ==
      if Publish(subId) in r.waiters then CloseSlot(r, Publish(subId)) else r;
  }

  /** The loop over several subscriptions gets as far as entry `k`. */
  predicate Reaches(r: Registry, subIds: seq<Id>, k: nat)
    requires k < |subIds|
  {
    forall j :: 0 <= j <= k ==> Publish(subIds[j]) in r.waiters && subIds[j] !in subIds[..j]
  }

  lemma ReachesNext(r: Registry, subIds: seq<Id>, k: nat)
    requires 0 < k < |subIds| && Publish(subIds[0]) in r.waiters
    ensures Reaches(r, subIds, k) <==> Reaches(CloseSlot(r, Publish(subIds[0])), subIds[1..], k - 1)
  {
    var r', rest := CloseSlot(r, Publish(subIds[0])), subIds[1..];
    if Reaches(r, subIds, k) {
      forall j | 0 <= j <= k - 1 ensures Publish(rest[j]) in r'.waiters && rest[j] !in rest[..j] {
        assert subIds[j + 1] !in subIds[..j + 1];
        assert subIds[..j + 1][0] == subIds[0];
        assert forall i :: 0 <= i < j ==> rest[i] == subIds[..j + 1][i + 1];
      }
    }
    if Reaches(r', rest, k - 1) {
      forall j | 0 <= j <= k ensures Publish(subIds[j]) in r.waiters && subIds[j] !in subIds[..j] {
        if j > 0 {
          assert rest[j - 1] == subIds[j];
          assert forall i :: 0 < i < j ==> subIds[i] == rest[..j - 1][i - 1];
        }
      }
    }
  }

  /** With several subscriptions, a waiter is woken exactly when every subscription listed up to its own
      has a wait set and none of them is listed twice. */
  lemma {:induction false} WakesMany(r: Registry, subIds: seq<Id>, s: Slot)
    requires r.Safe()
    ensures WakeSubs(r, subIds).Waiting(s) ==
      if exists k :: 0 <= k < |subIds| && s == Publish(subIds[k]) && Reaches(r, subIds, k) then {} else r.Waiting(s)
    decreases subIds
  {
    if subIds != [] && Publish(subIds[0]) in r.waiters {
      var r', rest := CloseSlot(r, Publish(subIds[0])), subIds[1..];
      CloseSlotSafe(r, Publish(subIds[0]));
      WakesMany(r', rest, s);
      if s == Publish(subIds[0]) {
        assert Reaches(r, subIds, 0);
      }
      forall k | 0 < k < |subIds|
        ensures Reaches(r, subIds, k) <==> Reaches(r', rest, k - 1)
      {
        ReachesNext(r, subIds, k);
      }
      if k :| 0 <= k < |rest| && s == Publish(rest[k]) && Reaches(r', rest, k) {
        assert s == Publish(subIds[k + 1]) && Reaches(r, subIds, k + 1);
      }
      if k :| 0 <= k < |subIds| && s == Publish(subIds[k]) && Reaches(r, subIds, k) {
        assert k > 0 ==> s == Publish(rest[k - 1]) && Reaches(r', rest, k - 1);
      }
    }
  }

  /** What is woken is closed, and nothing else is. */
  lemma {:induction false} WakesManyCloses(r: Registry, subIds: seq<Id>)
    requires r.Safe()
    ensures forall s, c :: c in r.Waiting(s) ==> (c in WakeSubs(r, subIds).closed <==> c !in WakeSubs(r, subIds).Waiting(s))
    ensures r.closed <= WakeSubs(r, subIds).closed
    ensures WakeSubs(r, subIds).closed <= r.closed + AllWaiting(r)
    decreases subIds
  {
    if subIds != [] && Publish(subIds[0]) in r.waiters {
      var r' := CloseSlot(r, Publish(subIds[0]));
      CloseSlotSafe(r, Publish(subIds[0]));
      WakesManyCloses(r', subIds[1..]);
      WakeSubsSafe(r', subIds[1..]);
    }
  }

  /** So releasing deliveries of two subscriptions at once can leave a waiter of the second asleep, when
      the first has no wait set. */
  lemma EarlyReturnLosesWake(a: Id, b: Id, c: Chan)
    requires a != b
    ensures var r := INITIAL.(waiters := map[Publish(b) := {c}], next := c + 1);
      && r.Safe()
      && WakePublish(r, false, [a, b]) == r
      && WakePublish(r, false, [b, a]).Waiting(Publish(b)) == {}
  {
    var r := INITIAL.(waiters := map[Publish(b) := {c}], next := c + 1);
    CloseSlotSafe(r, Publish(b));
    assert [b, a][1..] == [a] && [b, a][0] == b;
    assert WakeSubs(r, [b, a]) == WakeSubs(CloseSlot(r, Publish(b)), [a]);
    assert Publish(a) !in CloseSlot(r, Publish(b)).waiters;
  }

  /** A modification wakes those who wait for its id and name, id or name, or for anything of its kind:
      all of them, and nobody else, also when some of the keys coincide. */
  lemma WakesModified(r: Registry, kind: Kind, onlyInternal: bool, id: Id, name: string, s: Slot)
    requires r.Safe() && (onlyInternal || r.Hooks(kind) == {})
    ensures var r' := WakeModify(r, kind, onlyInternal, id, name);
      var hit := s in {Modify(kind, id, name), Modify(kind, id, ""), Modify(kind, NIL, name), AnyModify(kind)};
      && r'.Waiting(s) == (if hit then {} else r.Waiting(s))
      && (hit ==> r.Waiting(s) <= r'.closed - r.closed)
      && (!hit ==> r.Waiting(s) !! r'.closed)
  {
    CloseSlotsSpec(r, ModifySlots(kind, id, name));
  }

  /** Waking everyone closes every registered channel, once. */
  lemma WakesAll(r: Registry)
    requires r.Safe()
    ensures forall s :: WakeAll(r).Waiting(s) == {} && r.Waiting(s) <= WakeAll(r).closed - r.closed
    ensures WakeAll(r).closed - r.closed == AllWaiting(r)
  {
  }

  /** A waiter stays registered until it is woken, unless it is cancelled itself. */
  lemma AwaiterSurvives(r: Registry, op: Op, s: Slot, c: Chan)
    requires r.Safe() && c in r.Waiting(s) && !(op.CancelOp? && op.chan == c)
    ensures c in Do(r, op).Waiting(s) || c in Do(r, op).closed
  {
    match op
    case WakePublishOp(_, ids) =>
      WakesMany(r, ids, s);
      WakesManyCloses(r, ids);
    case WakeModifyOp(kind, o, id, name) =>
      if o || r.Hooks(kind) == {} {
        WakesModified(r, kind, o, id, name, s);
      }
    case WakeAllOp => WakesAll(r);
    case _ =>
  }

  /** An await adds one channel, new and open, to one wait set; a cancel takes one channel out of one wait set, and
      leaves the set behind. So cancelling an await leaves everybody waiting as before. */
  lemma RegisterLaw(r: Registry, s: Slot, c: Chan)
    requires r.Safe()
    ensures var r' := Await(r, s);
      && r' == r.(waiters := r'.waiters, next := r'.next)
      && r.next < r'.next && r.next !in r.closed + AllWaiting(r)
      && forall t :: r'.Waiting(t) == if t == s then r.Waiting(s) + {r.next} else r.Waiting(t)
    ensures var r' := Cancel(r, s, c);
      && r' == r.(waiters := r'.waiters) && r'.waiters.Keys == r.waiters.Keys
      && c !in r'.Waiting(s)
      && forall t, x :: (t != s || x != c) ==> (x in r'.Waiting(t) <==> x in r.Waiting(t))
    ensures forall t :: Cancel(Await(r, s), s, r.next).Waiting(t) == r.Waiting(t)
  {
    assert forall t :: t in r.waiters ==> r.next !in r.waiters[t];
  }

  /** With hooks, a wake that is not internal calls every hook for every id and touches no waiter. */
  lemma HookLaw(r: Registry, kind: Kind, subIds: seq<Id>, id: Id, name: string, h: Hook, x: Id)
    ensures r.publishHooks != {} ==>
      var r' := WakePublish(r, false, subIds);
      r' == r.(called := r'.called) && ((h, x) in r'.called <==> (h, x) in r.called || (h in r.publishHooks && x in subIds))
    ensures var hooks := if kind == OfTopics then r.topicHooks else r.subHooks;
      var r' := WakeModify(r, kind, false, id, name);
      hooks != {} ==>
        r' == r.(called := r'.called) && ((h, x) in r'.called <==> (h, x) in r.called || (h in hooks && x == id))
  {
    assert [id][0] == id;
    if x in subIds {
      var k :| 0 <= k < |subIds| && subIds[k] == x;
    }
  }

  lemma ClosedStays(r: Registry, op: Op)
    requires r.Safe()
    ensures r.closed <= Do(r, op).closed && r.next <= Do(r, op).next
  {
    match op
    case WakePublishOp(_, ids) =>
      WakesManyCloses(r, ids);
      WakeSubsNext(r, ids);
    case WakeModifyOp(kind, _, id, name) =>
      CloseSlotsSpec(r, ModifySlots(kind, id, name));
      CloseSlotsNext(r, ModifySlots(kind, id, name));
    case _ =>
  }

  lemma {:induction false} WakeSubsNext(r: Registry, subIds: seq<Id>)
    ensures WakeSubs(r, subIds) == r.(waiters := WakeSubs(r, subIds).waiters, closed := WakeSubs(r, subIds).closed)
    decreases subIds
  {
    if subIds != [] && Publish(subIds[0]) in r.waiters {
      WakeSubsNext(CloseSlot(r, Publish(subIds[0])), subIds[1..]);
    }
  }

  lemma {:induction false} CloseSlotsNext(r: Registry, slots: seq<Slot>)
    ensures CloseSlots(r, slots) == r.(waiters := CloseSlots(r, slots).waiters, closed := CloseSlots(r, slots).closed)
  {
    if slots != [] {
      CloseSlotsNext(r, slots[..|slots| - 1]);
    }
  }

  lemma CloseSlotKeepsTotal(r: Registry, s: Slot)
    ensures CloseSlot(r, s).closed + AllWaiting(CloseSlot(r, s)) == r.closed + AllWaiting(r)
  {
    forall c | c in AllWaiting(r) ensures c in r.Waiting(s) + AllWaiting(CloseSlot(r, s)) {
      var t :| t in r.waiters && c in r.waiters[t];
      assert t != s ==> t in CloseSlot(r, s).waiters && c in CloseSlot(r, s).waiters[t];
    }
  }

  lemma CallsMore(hooks: set<Hook>, h: Hook, ids: seq<Id>)
    ensures Calls(hooks + {h}, ids) == Calls(hooks, ids) + Calls({h}, ids)
  {
  }

  // ---- The registry itself ----

  /** The package's maps, changed in place under its mutex. Every channel that a method closes is
      known to be open, so no call panics. */
  class Waiters {
    var waiters: map<Slot, set<Chan>>
    var publishHooks: set<Hook>
    var topicHooks: set<Hook>
    var subHooks: set<Hook>
    var called: set<(Hook, Id)>
    var closed: set<Chan>
    var next: Chan

    constructor ()
      ensures Value() == INITIAL && Value().Safe()
    {
      waiters, publishHooks, topicHooks, subHooks, called, closed, next := map[], {}, {}, {}, {}, {}, 0;
    }

    function Value(): Registry
      reads this
    {
      Registry(waiters, publishHooks, topicHooks, subHooks, called, closed, next)
    }

    method Close(c: Chan)
      requires c !in closed
      modifies this`closed
      ensures closed == old(closed) + {c}
    {
      closed := closed + {c};
    }

    method CloseWaitSet(s: Slot)
      requires Value().Safe() && s in waiters
      modifies this`waiters, this`closed
      ensures Value() == CloseSlot(old(Value()), s) && Value().Safe()
    {
      ghost var r := Value();
      while waiters[s] != {}
        invariant s in waiters && waiters[s] <= r.waiters[s] && waiters == r.waiters[s := waiters[s]]
        invariant closed == r.closed + (r.waiters[s] - waiters[s])
        decreases waiters[s]
      {
        var c :| c in waiters[s];
        Close(c);
        waiters := waiters[s := waiters[s] - {c}];
      }
      waiters := waiters - {s};
      CloseSlotSafe(r, s);
    }

    /** A new channel, put into a wait set that is made if it is not there. */
    method Awaiter(s: Slot) returns (c: Chan)
      requires Value().Safe()
      modifies this`waiters, this`next
      ensures Value() == Await(old(Value()), s) && Value().Safe()
      ensures c == old(next) && c in Value().Waiting(s) && c !in closed
    {
      AwaitSafe(Value(), s);
      c := next;
      next := next + 1;
      if s !in waiters {
        waiters := waiters[s := {}];
      }
      waiters := waiters[s := waiters[s] + {c}];
    }

    method CancelAwaiter(s: Slot, c: Option<Chan>)
      requires Value().Safe()
      modifies this`waiters
      ensures Value() == (if c.Some? then Cancel(old(Value()), s, c.value) else old(Value())) && Value().Safe()
    {
      if c.None? {
        return;
      }
      CancelSafe(Value(), s, c.value);
      if s in waiters {
        waiters := waiters[s := waiters[s] - {c.value}];
      }
    }

    method WakePublishListeners(onlyInternal: bool, subIds: seq<Id>)
      requires Value().Safe()
      modifies this`waiters, this`closed, this`called
      ensures Value() == WakePublish(old(Value()), onlyInternal, subIds) && Value().Safe()
    {
      ghost var r := Value();
      WakeSubsSafe(r, subIds);
      if !onlyInternal {
        var hooks := publishHooks;
        while hooks != {}
          invariant hooks <= publishHooks && waiters == r.waiters && closed == r.closed
          invariant called == r.called + Calls(publishHooks - hooks, subIds)
          decreases hooks
        {
          var h :| h in hooks;
          CallsMore(publishHooks - hooks, h, subIds);
          called := called + Calls({h}, subIds);
          hooks := hooks - {h};
          assert publishHooks - hooks == publishHooks - (hooks + {h}) + {h};
        }
        assert publishHooks - hooks == publishHooks;
        if publishHooks != {} {
          return;
        }
      }
      for k := 0 to |subIds|
        invariant Value().Safe() && called == r.called
        invariant WakeSubs(Value(), subIds[k..]) == WakeSubs(r, subIds)
      {
        assert subIds[k..][0] == subIds[k] && subIds[k..][1..] == subIds[k + 1..];
        if Publish(subIds[k]) !in waiters {
          return;
        }
        CloseWaitSet(Publish(subIds[k]));
      }
    }

    method WakeModifyListeners(kind: Kind, onlyInternal: bool, id: Id, name: string)
      requires Value().Safe()
      modifies this`waiters, this`closed, this`called
      ensures Value() == WakeModify(old(Value()), kind, onlyInternal, id, name) && Value().Safe()
    {
      ghost var r := Value();
      var hooks := if kind == OfTopics then topicHooks else subHooks;
      if !onlyInternal && hooks != {} {
        called := called + Calls(hooks, [id]);
        return;
      }
      var slots := ModifySlots(kind, id, name);
      for k := 0 to |slots|
        invariant Value() == CloseSlots(r, slots[..k]) && Value().Safe()
      {
        assert slots[..k + 1][..k] == slots[..k];
        CloseSlotSafe(Value(), slots[k]);
        if slots[k] in waiters {
          CloseWaitSet(slots[k]);
        } else {
          assert CloseSlot(Value(), slots[k]) == Value();
        }
      }
      assert slots[..|slots|] == slots;
    }

    method WakeAllInternal()
      requires Value().Safe()
      modifies this`waiters, this`closed
      ensures Value() == WakeAll(old(Value())) && Value().Safe()
    {
      ghost var r := Value();
      while waiters != map[]
        invariant Value().Safe() && Value() == r.(waiters := waiters, closed := closed)
        invariant closed + AllWaiting(Value()) == r.closed + AllWaiting(r)
        decreases |waiters|
      {
        var s :| s in waiters;
        CloseSlotKeepsTotal(Value(), s);
        CloseWaitSet(s);
      }
    }
  }
}
