/**
 The trade manager's entry points, run to completion, are runs of the interleaving
 machine: whatever holds in every reachable state of the machine holds of the lists
 that the manager works on.
 */
module ManagerRuns {
  import opened Wrappers
  import opened Amounts
  import opened Proto
  import opened Psbts
  import opened Lifecycle
  import opened Identifiers
  import opened Orders
  import opened OwnOrderList
  import opened Collecting
  import opened TradeSteps
  import opened Bookkeeping
  import opened Reservations
  import opened BookRuns
  import opened ManagerSteps

  // ------------------------------------------------------------- collecting trades

  /** The active trade of an entry, if it has one. */
  function LiveOf(p: Proc): seq<TradeState> {
    if p.Live? then [p.t] else []
  }

  /** The finalised trade of an entry that awaits its cleanup. */
  function TodoOf(p: Proc): seq<TradeState> {
    if (p.Succeeding? && p.t.state == Success) || (p.Failing? && p.t.state in {Failed, Abandoned}) then [p.t] else []
  }

  // ------------------------------------------------------------------ representation

  /** The lists and locks of a daemon whose entry points run one after another. */
  datatype Status = Status(own: OwnOrders, trades: seq<TradeState>, todo: seq<TradeState>, locked: set<OutPoint>)

  ghost predicate Represents(b: Book, s: Status) {
    && b.own == s.own && b.locked == s.locked
    && Collect(LiveOf, b.procs) == s.trades && Collect(TodoOf, b.procs) == s.todo
  }

  ghost predicate Reachable(w: World, cfg: Settings, me: Account, b: Book) {
    exists states, actions :: IsRun(w, cfg, me, states, actions) && states[|actions|] == b
  }

  ghost predicate Reached(w: World, cfg: Settings, me: Account, s: Status) {
    exists b :: Reachable(w, cfg, me, b) && Represents(b, s)
  }

  lemma InitialReached(w: World, cfg: Settings, me: Account, locked: set<OutPoint>)
    ensures Reached(w, cfg, me, Status(OwnOrders(map[], 0), [], [], locked))
  {
    var b := Book(OwnOrders(map[], 0), [], locked);
    var states, actions: seq<Action> := [b], [];
    assert IsRun(w, cfg, me, states, actions) && states[|actions|] == b;
    assert Reachable(w, cfg, me, b);
  }

  lemma ActionReachable(w: World, cfg: Settings, me: Account, b: Book, a: Action)
    requires Reachable(w, cfg, me, b) && Enabled(w, me, b, a)
    ensures Reachable(w, cfg, me, Apply(w, cfg, me, b, a))
  {
    hide Enabled, Apply;
    var states, actions :| IsRun(w, cfg, me, states, actions) && states[|actions|] == b;
    var states', actions' := states + [Apply(w, cfg, me, b, a)], actions + [a];
    forall i | 0 <= i < |actions'|
      ensures Enabled(w, me, states'[i], actions'[i]) && states'[i + 1] == Apply(w, cfg, me, states'[i], actions'[i])
    {
      if i < |actions| {
        assert states'[i] == states[i] && states'[i + 1] == states[i + 1] && actions'[i] == actions[i];
      }
    }
    assert IsRun(w, cfg, me, states', actions') && states'[|actions'|] == Apply(w, cfg, me, b, a);
  }

  // --------------------------------------------------------------------- own orders

  /** A refresh with a validity check is a refresh that keeps the valid orders. */
  lemma RefreshReachable(w: World, cfg: Settings, me: Account, b: Book, valid: Order -> bool)
    requires Reachable(w, cfg, me, b)
    ensures Reachable(w, cfg, me, b.(own := RefreshStep(b.own, valid)))
  {
    var a := Refresh(set id | id in b.own.orders && valid(b.own.orders[id]));
    ActionReachable(w, cfg, me, b, a);
    assert Apply(w, cfg, me, b, a) == b.(own := RefreshStep(b.own, valid));
  }

  lemma RefreshReached(w: World, cfg: Settings, me: Account, s: Status, valid: Order -> bool)
    requires Reached(w, cfg, me, s)
    ensures Reached(w, cfg, me, s.(own := RefreshStep(s.own, valid)))
  {
    var b :| Reachable(w, cfg, me, b) && Represents(b, s);
    RefreshReachable(w, cfg, me, b, valid);
    assert Represents(b.(own := RefreshStep(b.own, valid)), s.(own := RefreshStep(s.own, valid)));
  }

  /** MyOrders.Add and RemoveById, called by the user. */
  lemma AddReached(w: World, cfg: Settings, me: Account, s: Status, o: Order, valid: Order -> bool)
    requires Reached(w, cfg, me, s) && !o.locked && valid(o)
    ensures Reached(w, cfg, me, s.(own := RefreshStep(AddStep(s.own, o), valid)))
  {
    var b :| Reachable(w, cfg, me, b) && Represents(b, s);
    ActionReachable(w, cfg, me, b, AddOrder(o, true));
    assert Represents(b.(own := AddStep(b.own, o)), s.(own := AddStep(s.own, o)));
    RefreshReached(w, cfg, me, s.(own := AddStep(s.own, o)), valid);
  }

  lemma RemoveReached(w: World, cfg: Settings, me: Account, s: Status, id: nat, valid: Order -> bool)
    requires Reached(w, cfg, me, s)
    ensures Reached(w, cfg, me, s.(own := RefreshStep(RemoveStep(s.own, id), valid)))
  {
    var b :| Reachable(w, cfg, me, b) && Represents(b, s);
    ActionReachable(w, cfg, me, b, CancelOrder(id));
    assert Represents(b.(own := RemoveStep(b.own, id)), s.(own := RemoveStep(s.own, id)));
    RefreshReached(w, cfg, me, s.(own := RemoveStep(s.own, id)), valid);
  }

  // ------------------------------------------------------------------ taking orders

  lemma TakeReached(w: World, cfg: Settings, me: Account, s: Status, order: Order, units: Int64, now: int, env: Env)
    requires Reached(w, cfg, me, s) && CanTake(me, order, units, now)
    requires EnvOk(w, me, TakenTrade(order, units, now), s.locked, env)
    ensures var o := ReplyStep(w, me, TakenTrade(order, units, now), s.locked, env);
      Reached(w, cfg, me, s.(trades := if o.reply.Ok? then s.trades + [o.trade] else s.trades, locked := o.locked))
  {
    hide ReplyStep, EnvOk;
    var b :| Reachable(w, cfg, me, b) && Represents(b, s);
    var o := ReplyStep(w, me, TakenTrade(order, units, now), s.locked, env);
    var b' := Apply(w, cfg, me, b, TakeOrder(order, units, now, env));
    ActionReachable(w, cfg, me, b, TakeOrder(order, units, now, env));
    CollectAppend(LiveOf, b.procs, Live(o.trade));
    CollectAppend(TodoOf, b.procs, Live(o.trade));
    assert Represents(b', s.(trades := if o.reply.Ok? then s.trades + [o.trade] else s.trades, locked := o.locked));
  }

  lemma TakeStepReached(w: World, cfg: Settings, me: Account, s: Status, o: Order, units: Int64, now: int, env: Env)
    requires Reached(w, cfg, me, s)
    requires CheckOrder(o, units).Some? && CheckOrder(o, units).value.account != me ==>
      CanTake(me, o, units, now) && EnvOk(w, me, TakenTrade(o, units, now), s.locked, env)
    ensures var d := TakeStep(w, me, s.trades, o, units, now, s.locked, env);
      Reached(w, cfg, me, s.(trades := d.trades, locked := d.locked))
  {
    hide ReplyStep, EnvOk, Reached;
    if CheckOrder(o, units).Some? && CheckOrder(o, units).value.account != me {
      TakeReached(w, cfg, me, s, o, units, now, env);
    }
  }

  /** TryLock, and the refresh that comes with it. */
  lemma LockReachable(w: World, cfg: Settings, me: Account, b: Book, id: nat, units: Int64, taker: Account, valid: Order -> bool)
    requires Reachable(w, cfg, me, b) && CanLock(b.own, id)
    ensures Reachable(w, cfg, me, b.(own := RefreshStep(LockStep(b.own, id), valid),
                                     procs := b.procs + [Taking(Identified(b.own.orders[id], me, id), units, taker)]))
  {
    ActionReachable(w, cfg, me, b, TryLock(id, units, taker));
    var b1 := Apply(w, cfg, me, b, TryLock(id, units, taker));
    hide Reachable;
    RefreshReachable(w, cfg, me, b1, valid);
  }

  /** OrderTaken refuses, and the order is unlocked again. */
  lemma RefusalReachable(w: World, cfg: Settings, me: Account, b: Book, id: nat, p: Proc, now: int)
    requires p.Taking? && p.order.id == Some(id) && IsRefused(me, p)
    requires Reachable(w, cfg, me, b.(procs := b.procs + [p])) && CanUnlock(b.own, id)
    ensures Reachable(w, cfg, me, b.(own := UnlockStep(b.own, id), procs := b.procs + [Done]))
  {
    var b1, n := b.(procs := b.procs + [p]), |b.procs|;
    ActionReachable(w, cfg, me, b1, OrderTaken(n, now));
    hide Reachable;
    var b2 := b.(procs := b.procs + [Rejected(id)]);
    assert Apply(w, cfg, me, b1, OrderTaken(n, now)) == b2;
    ActionReachable(w, cfg, me, b2, Reject(n));
    assert Apply(w, cfg, me, b2, Reject(n)) == b.(own := UnlockStep(b.own, id), procs := b.procs + [Done]);
  }

  lemma RefusalReached(w: World, cfg: Settings, me: Account, s: Status, id: nat, units: Int64, taker: Account, now: int,
                       valid: Order -> bool)
    requires Reached(w, cfg, me, s) && CanLock(s.own, id)
    requires IsRefused(me, Taking(Identified(s.own.orders[id], me, id), units, taker))
    requires CanUnlock(RefreshStep(LockStep(s.own, id), valid), id)
    ensures Reached(w, cfg, me, s.(own := RefreshStep(UnlockStep(RefreshStep(LockStep(s.own, id), valid), id), valid)))
  {
    hide Reachable, IsRefused, CanUnlock, RefreshStep;
    var b :| Reachable(w, cfg, me, b) && Represents(b, s);
    LockReachable(w, cfg, me, b, id, units, taker, valid);
    var b1 := b.(own := RefreshStep(LockStep(b.own, id), valid));
    RefusalReachable(w, cfg, me, b1, id, Taking(Identified(s.own.orders[id], me, id), units, taker), now);
    var b2 := b.(own := UnlockStep(b1.own, id), procs := b.procs + [Done]);
    RefreshReachable(w, cfg, me, b2, valid);
    CollectAppend(LiveOf, b.procs, Done);
    CollectAppend(TodoOf, b.procs, Done);
    assert Represents(b2.(own := RefreshStep(b2.own, valid)), s.(own := RefreshStep(b2.own, valid)));
  }

  /** OrderTaken accepts, whether or not the order has survived the refresh. */
  lemma AcceptanceReached(w: World, cfg: Settings, me: Account, s: Status, id: nat, units: Int64, taker: Account, now: int,
                          valid: Order -> bool)
    requires Reached(w, cfg, me, s) && CanLock(s.own, id)
    requires var p := Taking(Identified(s.own.orders[id], me, id), units, taker);
      !IsRefused(me, p) && Ready(me, AcceptedTrade(p, now))
    ensures var p := Taking(Identified(s.own.orders[id], me, id), units, taker);
      Reached(w, cfg, me, s.(own := RefreshStep(LockStep(s.own, id), valid), trades := s.trades + [AcceptedTrade(p, now)]))
  {
    var b :| Reachable(w, cfg, me, b) && Represents(b, s);
    var p, n := Taking(Identified(s.own.orders[id], me, id), units, taker), |b.procs|;
    LockReachable(w, cfg, me, b, id, units, taker, valid);
    hide Reachable;
    var b1 := b.(own := RefreshStep(LockStep(b.own, id), valid), procs := b.procs + [p]);
    var t := AcceptedTrade(p, now);
    ActionReachable(w, cfg, me, b1, OrderTaken(n, now));
    var b2 := b1.(procs := b.procs + [Live(t)]);
    assert Apply(w, cfg, me, b1, OrderTaken(n, now)) == b2;
    CollectAppend(LiveOf, b.procs, Live(t));
    CollectAppend(TodoOf, b.procs, Live(t));
    assert Represents(b2, s.(own := b1.own, trades := s.trades + [t]));
  }

  // ------------------------------------------------------------------------ messages

  lemma DispatchReached(w: World, cfg: Settings, me: Account, s: Status, msg: Message, env: Env)
    requires Reached(w, cfg, me, s)
    requires DispatchEnvOk(w, me, s.trades, msg, s.locked, env)
    ensures var d := DispatchStep(w, me, s.trades, msg, s.locked, env);
      d.Dispatched? && Reached(w, cfg, me, s.(trades := d.trades, locked := d.locked))
  {
    hide ReplyStep, HandleMessageStep, Collect, Reachable, EnvOk, Ready;
    var k := FirstMatch(s.trades, msg);
    if k < |s.trades| {
      var b :| Reachable(w, cfg, me, b) && Represents(b, s);
      var i := Position(LiveOf, b.procs, k);
      var t := s.trades[k];
      LiveIsReady(w, cfg, me, b, i);
      HandleKeepsReady(me, t, msg);
      ActionReachable(w, cfg, me, b, Receive(i, msg));
      var t1 := HandleMessageStep(me, t, msg);
      var b1 := b.(procs := b.procs[i := Live(t1)]);
      ContractStays(w, me, t, msg, s.locked, env);
      ActionReachable(w, cfg, me, b1, Turn(i, env));
      var o := ReplyStep(w, me, t1, s.locked, env);
      var b2 := b.(procs := b.procs[i := Live(o.trade)], locked := o.locked);
      assert Apply(w, cfg, me, b1, Turn(i, env)) == b2;
      LiveReplaced(b.procs, i, k, o.trade);
      assert Represents(b2, s.(trades := s.trades[k := o.trade], locked := o.locked));
    }
  }

  lemma LiveIsReady(w: World, cfg: Settings, me: Account, b: Book, i: nat)
    requires Reachable(w, cfg, me, b) && IsLive(b, i)
    ensures Ready(me, b.procs[i].t)
  {
    var states, actions :| IsRun(w, cfg, me, states, actions) && states[|actions|] == b;
    RunKeepsInv(w, cfg, me, states, actions, |actions|);
    assert TradeOk(w, me, b.procs[i].t);
  }

  lemma HandleKeepsReady(me: Account, t: TradeState, msg: Message)
    requires Ready(me, t)
    ensures Ready(me, HandleMessageStep(me, t, msg)) && Answerable(me, HandleMessageStep(me, t, msg))
  {
  }

  /** A message leaves the node's contract with a trade as it is. */
  lemma ContractStays(w: World, me: Account, t: TradeState, msg: Message, locked: set<OutPoint>, env: Env)
    requires EnvOk(w, me, t, locked, env)
    ensures EnvOk(w, me, HandleMessageStep(me, t, msg), locked, env)
  {
  }

  /** Moving the k-th active trade along changes that trade in the list. */
  lemma LiveReplaced(procs: seq<Proc>, i: nat, k: nat, t: TradeState)
    requires i < |procs| && procs[i].Live?
    requires k < |Collect(LiveOf, procs)| && Collect(LiveOf, procs[..i]) == Collect(LiveOf, procs)[..k]
    ensures Collect(LiveOf, procs[i := Live(t)]) == Collect(LiveOf, procs)[k := t]
    ensures Collect(TodoOf, procs[i := Live(t)]) == Collect(TodoOf, procs)
  {
    hide Collect;
    CollectSplit(LiveOf, procs, i);
    CollectUpdate(LiveOf, procs, i, Live(t));
    CollectSplit(TodoOf, procs, i);
    CollectUpdate(TodoOf, procs, i, Live(t));
  }

  // ------------------------------------------------------------- updates and archiving

  /** How many active trades come before entry i. */
  function LivesBefore(procs: seq<Proc>, i: nat): (m: nat)
    requires i <= |procs|
    ensures m <= |Collect(LiveOf, procs)|
  {
    CollectConcat(LiveOf, procs[..i], procs[i..]);
    assert procs == procs[..i] + procs[i..];
    |Collect(LiveOf, procs[..i])|
  }

  lemma LivesStep(procs: seq<Proc>, n: nat)
    requires n < |procs| && Collect(TodoOf, procs) == []
    ensures TodoOf(procs[n]) == []
    ensures LivesBefore(procs, n + 1) == LivesBefore(procs, n) + |LiveOf(procs[n])|
    ensures procs[n].Live? ==>
      LivesBefore(procs, n) < |Collect(LiveOf, procs)| && Collect(LiveOf, procs)[LivesBefore(procs, n)] == procs[n].t
  {
    CollectSplit(TodoOf, procs, n);
    CollectSplit(LiveOf, procs, n);
    assert procs[..n + 1] == procs[..n] + [procs[n]];
    CollectAppend(LiveOf, procs[..n], procs[n]);
  }

  /** The machine after the first i entries were updated. */
  ghost predicate UpdatedUpTo(cfg: Settings, me: Account, b: Book, now: int, obs: seq<Observation>, i: nat, b': Book)
    requires i <= |b.procs|
    requires |obs| == |Collect(LiveOf, b.procs)| && AllProcessable(me, Collect(LiveOf, b.procs))
  {
    var done := Updated(cfg, Collect(LiveOf, b.procs), now, obs)[..LivesBefore(b.procs, i)];
    && b'.own == b.own && b'.locked == b.locked
    && |b'.procs| == |b.procs| && b'.procs[i..] == b.procs[i..]
    && Collect(LiveOf, b'.procs[..i]) == Actives(done) && Collect(TodoOf, b'.procs[..i]) == Finals(done)
  }

  /** One more entry: what becomes of it goes to one of the two lists. */
  lemma OneMoreUpdated(cfg: Settings, me: Account, b: Book, now: int, obs: seq<Observation>, n: nat, b1: Book, b': Book)
    requires n < |b.procs| && Collect(TodoOf, b.procs) == []
    requires |obs| == |Collect(LiveOf, b.procs)| && AllProcessable(me, Collect(LiveOf, b.procs))
    requires UpdatedUpTo(cfg, me, b, now, obs, n, b1)
    requires var m := LivesBefore(b.procs, n);
      && (b.procs[n].Live? ==> m < |obs|)
      && b' == b1.(procs := b1.procs[n :=
           if b.procs[n].Live? then Finalise(Updated(cfg, Collect(LiveOf, b.procs), now, obs)[m]) else b.procs[n]])
    ensures UpdatedUpTo(cfg, me, b, now, obs, n + 1, b')
  {
    hide Updated, UpdateStep, Collect, Actives, Finals, LivesBefore;
    var m := LivesBefore(b.procs, n);
    var updated := Updated(cfg, Collect(LiveOf, b.procs), now, obs);
    LivesStep(b.procs, n);
    assert b'.procs[..n + 1] == b1.procs[..n] + [b'.procs[n]];
    assert b'.procs[n + 1..] == b1.procs[n..][1..] == b.procs[n..][1..] == b.procs[n + 1..];
    CollectAppend(LiveOf, b1.procs[..n], b'.procs[n]);
    CollectAppend(TodoOf, b1.procs[..n], b'.procs[n]);
    if b.procs[n].Live? {
      PartitionAppend(updated[..m], updated[m]);
      assert updated[..m + 1] == updated[..m] + [updated[m]];
    }
  }

  lemma EntryUpdated(w: World, cfg: Settings, me: Account, b: Book, n: nat, now: int, obs: Observation)
    requires Reachable(w, cfg, me, b) && IsLive(b, n) && Processable(me, b.procs[n].t)
    ensures Reachable(w, cfg, me, b.(procs := b.procs[n := Finalise(UpdateStep(cfg, b.procs[n].t, now, obs))]))
  {
    hide Reachable, UpdateStep, Storable;
    ActionReachable(w, cfg, me, b, Update(n, now, obs));
  }

  lemma EntryUntouched(cfg: Settings, me: Account, b: Book, now: int, obs: seq<Observation>, n: nat, b1: Book)
    requires n < |b.procs|
    requires |obs| == |Collect(LiveOf, b.procs)| && AllProcessable(me, Collect(LiveOf, b.procs))
    requires UpdatedUpTo(cfg, me, b, now, obs, n, b1)
    ensures |b1.procs| == |b.procs| && b1.procs[n] == b.procs[n]
  {
    assert b1.procs[n] == b1.procs[n..][0] == b.procs[n..][0] == b.procs[n];
  }

  lemma {:induction false} UpdateEntries(w: World, cfg: Settings, me: Account, b: Book, now: int, obs: seq<Observation>, i: nat)
    returns (b': Book)
    requires Reachable(w, cfg, me, b) && Collect(TodoOf, b.procs) == []
    requires |obs| == |Collect(LiveOf, b.procs)| && AllProcessable(me, Collect(LiveOf, b.procs))
    requires i <= |b.procs|
    ensures Reachable(w, cfg, me, b') && UpdatedUpTo(cfg, me, b, now, obs, i, b')
    decreases i
  {
    if i == 0 {
      b' := b;
      assert LivesBefore(b.procs, 0) == 0 && b.procs[..0] == [];
    } else {
      hide Collect, Reachable, UpdateStep, LivesBefore, UpdatedUpTo, Represents, Apply, Enabled;
      var n := i - 1;
      var b1 := UpdateEntries(w, cfg, me, b, now, obs, n);
      EntryUntouched(cfg, me, b, now, obs, n, b1);
      LivesStep(b.procs, n);
      var m := LivesBefore(b.procs, n);
      if b.procs[n].Live? {
        assert Processable(me, b.procs[n].t);
        EntryUpdated(w, cfg, me, b1, n, now, obs[m]);
        b' := b1.(procs := b1.procs[n := Finalise(UpdateStep(cfg, b.procs[n].t, now, obs[m]))]);
      } else {
        b' := b1;
        assert b1.procs[n := b.procs[n]] == b1.procs;
      }
      OneMoreUpdated(cfg, me, b, now, obs, n, b1, b');
    }
  }

  lemma UpdateReached(w: World, cfg: Settings, me: Account, s: Status, now: int, obs: seq<Observation>)
    requires Reached(w, cfg, me, s) && s.todo == [] && AllProcessable(me, s.trades) && |obs| == |s.trades|
    ensures var updated := Updated(cfg, s.trades, now, obs);
      Reached(w, cfg, me, s.(trades := Actives(updated), todo := Finals(updated)))
  {
    hide Reachable, Updated, UpdateStep, Storable;
    var b :| Reachable(w, cfg, me, b) && Represents(b, s);
    var n := |b.procs|;
    var b' := UpdateEntries(w, cfg, me, b, now, obs, n);
    var updated := Updated(cfg, s.trades, now, obs);
    assert b.procs[..n] == b.procs && b'.procs[..n] == b'.procs;
    assert updated[..|updated|] == updated;
    assert LivesBefore(b.procs, n) == |s.trades|;
    assert Represents(b', s.(trades := Actives(updated), todo := Finals(updated)));
  }

  // ------------------------------------------------------------------------- cleanup

  /** The entry that is cleaned up drops out of the list. */
  lemma TodoDone(procs: seq<Proc>, i: nat, p: Proc)
    requires i < |procs| && Collect(TodoOf, procs) != [] && TodoOf(procs[i]) == [Collect(TodoOf, procs)[0]]
    requires Collect(TodoOf, procs[..i]) == []
    requires LiveOf(p) == [] && TodoOf(p) == []
    ensures Collect(TodoOf, procs[i := p]) == Collect(TodoOf, procs)[1..]
    ensures Collect(LiveOf, procs[i := p]) == Collect(LiveOf, procs)
  {
    hide Collect;
    CollectSplit(TodoOf, procs, i);
    CollectUpdate(TodoOf, procs, i, p);
    CollectSplit(LiveOf, procs, i);
    CollectUpdate(LiveOf, procs, i, p);
  }

  /** One call of HandleSuccess. */
  lemma SuccessReachable(w: World, cfg: Settings, me: Account, b: Book, i: nat, valid: Order -> bool)
    requires Reachable(w, cfg, me, b) && i < |b.procs| && b.procs[i].Succeeding? && b.procs[i].t.state == Success
    ensures CleanOne(me, b.own, b.procs[i].t, valid).Some?
    ensures Reachable(w, cfg, me, b.(procs := b.procs[i := Done], own := CleanOne(me, b.own, b.procs[i].t, valid).value))
  {
    hide Reachable, WorthKeeping, Reduced;
    var t := b.procs[i].t;
    ActionReachable(w, cfg, me, b, CleanOrder(i));
    if RoleOf(me, t) == Maker {
      var reduced := Reduced(t.order, t.units);
      var b1 := b.(procs := b.procs[i := AfterSuccess(me, t)], own := RemoveStep(b.own, t.order.id));
      RefreshReachable(w, cfg, me, b1, valid);
      var b2 := b1.(own := RefreshStep(b1.own, valid));
      if WorthKeeping(reduced) {
        ActionReachable(w, cfg, me, b2, Recreate(i, valid(reduced)));
        var b3 := b2.(procs := b.procs[i := Done], own := if valid(reduced) then AddStep(b2.own, reduced) else b2.own);
        assert Apply(w, cfg, me, b2, Recreate(i, valid(reduced))) == b3;
        if valid(reduced) {
          RefreshReachable(w, cfg, me, b3, valid);
        }
      }
    }
  }

  /** One call of HandleFailure, unless its check fails. */
  lemma FailureReachable(w: World, cfg: Settings, me: Account, b: Book, i: nat, valid: Order -> bool, failing: set<OutPoint>)
    requires Reachable(w, cfg, me, b) && i < |b.procs| && b.procs[i].Failing? && b.procs[i].t.state in {Failed, Abandoned}
    requires CleanOne(me, b.own, b.procs[i].t, valid).Some?
    ensures Reachable(w, cfg, me, Book(CleanOne(me, b.own, b.procs[i].t, valid).value, b.procs[i := Done],
                                       FailureRelease(me, b.procs[i].t, b.locked, failing)))
  {
    hide Reachable, FailureRelease;
    var t := b.procs[i].t;
    ActionReachable(w, cfg, me, b, CleanOrder(i));
    var b1 := Apply(w, cfg, me, b, CleanOrder(i));
    if RoleOf(me, t) == Maker {
      RefreshReachable(w, cfg, me, b1, valid);
    }
    var b2 := Book(CleanOne(me, b.own, t, valid).value, b.procs[i := Releasing(t)], b.locked);
    assert b2 == if RoleOf(me, t) == Maker then b1.(own := RefreshStep(b1.own, valid)) else b1;
    ActionReachable(w, cfg, me, b2, CleanWallet(i, failing));
    assert b2.procs[i := Done] == b.procs[i := Done];
  }

  lemma CleanReached(w: World, cfg: Settings, me: Account, s: Status, valid: Order -> bool, failing: set<OutPoint>)
    requires Reached(w, cfg, me, s) && s.todo != [] && CleanOne(me, s.own, s.todo[0], valid).Some?
    ensures Reached(w, cfg, me, Status(CleanOne(me, s.own, s.todo[0], valid).value, s.trades, s.todo[1..],
                                       CleanLock(me, s.locked, s.todo[0], failing)))
  {
    hide Reachable, CleanOne, FailureRelease, Collect;
    var b :| Reachable(w, cfg, me, b) && Represents(b, s);
    var i := Position(TodoOf, b.procs, 0);
    var own := CleanOne(me, s.own, s.todo[0], valid).value;
    TodoDone(b.procs, i, Done);
    var b' := Book(own, b.procs[i := Done], CleanLock(me, s.locked, s.todo[0], failing));
    if b.procs[i].Succeeding? {
      SuccessReachable(w, cfg, me, b, i, valid);
    } else {
      FailureReachable(w, cfg, me, b, i, valid, failing);
    }
    assert Reachable(w, cfg, me, b');
    assert Represents(b', Status(own, s.trades, s.todo[1..], b'.locked));
  }

  /** The cleanup of the first i finalised trades. */
  lemma {:induction false} CleanSomeReached(w: World, cfg: Settings, me: Account, s: Status, valid: Order -> bool,
                                            failing: set<OutPoint>, i: nat)
    requires Reached(w, cfg, me, s) && i <= |s.todo| && CleanOwn(me, s.own, s.todo[..i], valid).Some?
    ensures Reached(w, cfg, me, Status(CleanOwn(me, s.own, s.todo[..i], valid).value, s.trades, s.todo[i..],
                                       CleanLocks(me, s.locked, s.todo[..i], failing)))
    decreases i
  {
    if i == 0 {
      assert s.todo[..0] == [] && s.todo[0..] == s.todo;
    } else {
      var n := i - 1;
      assert s.todo[..i][..n] == s.todo[..n] && s.todo[..i][n] == s.todo[n] == s.todo[n..][0];
      CleanSomeReached(w, cfg, me, s, valid, failing, n);
      var s1 := Status(CleanOwn(me, s.own, s.todo[..n], valid).value, s.trades, s.todo[n..],
                       CleanLocks(me, s.locked, s.todo[..n], failing));
      CleanReached(w, cfg, me, s1, valid, failing);
      assert s1.todo[1..] == s.todo[i..];
    }
  }

  lemma CleanAllReached(w: World, cfg: Settings, me: Account, s: Status, valid: Order -> bool, failing: set<OutPoint>)
    requires Reached(w, cfg, me, s) && CleanOwn(me, s.own, s.todo, valid).Some?
    ensures Reached(w, cfg, me, Status(CleanOwn(me, s.own, s.todo, valid).value, s.trades, [],
                                       CleanLocks(me, s.locked, s.todo, failing)))
  {
    var n := |s.todo|;
    assert s.todo[..n] == s.todo && s.todo[n..] == [];
    CleanSomeReached(w, cfg, me, s, valid, failing, n);
  }

  // ------------------------------------------------------- what follows for the lists

  /** For an order that can be locked there is no maker trade. */
  lemma UnlockedIsUntraded(w: World, cfg: Settings, me: Account, s: Status, j: nat)
    requires Reached(w, cfg, me, s) && j < |s.trades| && RoleOf(me, s.trades[j]) == Maker
    ensures !CanLock(s.own, s.trades[j].order.id)
  {
    var b :| Reachable(w, cfg, me, b) && Represents(b, s);
    var states, actions :| IsRun(w, cfg, me, states, actions) && states[|actions|] == b;
    var x := Position(LiveOf, b.procs, j);
    hide IsRun;
    OneLiveTradePerOrder(w, cfg, me, states, actions, |actions|, x, x);
  }

  /**
   In a manager's list, the reservations of two trades are locked and disjoint; two
   maker trades are for different orders, which are locked or gone; and no message
   matches a maker trade and another trade.
   */
  lemma ListsAreSafe(w: World, cfg: Settings, me: Account, s: Status, j: nat, k: nat, msg: Message)
    requires Reached(w, cfg, me, s) && j < |s.trades| && k < |s.trades| && j != k
    ensures var t, u := s.trades[j], s.trades[k];
      && ReservedBy(w, me, t) <= s.locked && ReservedBy(w, me, t) !! ReservedBy(w, me, u)
      && (RoleOf(me, t) == Maker ==>
            && (t.order.id in s.own.orders ==> s.own.orders[t.order.id].locked)
            && (RoleOf(me, u) == Maker ==> t.order.id != u.order.id)
            && !(Matches(t, msg) && Matches(u, msg)))
  {
    var b :| Reachable(w, cfg, me, b) && Represents(b, s);
    var states, actions :| IsRun(w, cfg, me, states, actions) && states[|actions|] == b;
    var n := |actions|;
    var x := Position(LiveOf, b.procs, j);
    var y := Position(LiveOf, b.procs, k);
    assert x != y;
    hide IsRun;
    ReservedNeverOverlap(w, cfg, me, states, actions, n, x, y, {});
    var t, u := s.trades[j], s.trades[k];
    if RoleOf(me, t) == Maker {
      OneLiveTradePerOrder(w, cfg, me, states, actions, n, x, x);
      if RoleOf(me, u) == Maker {
        OneLiveTradePerOrder(w, cfg, me, states, actions, n, x, y);
      }
      if Matches(t, msg) && Matches(u, msg) {
        DispatchUnique(w, cfg, me, states, actions, n, x, y, msg);
      }
    }
  }
}
