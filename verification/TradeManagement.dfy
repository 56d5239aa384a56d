/** The list of active trades, its archive, and the entry points that work on it. */
module TradeManagement {
  import opened Wrappers
  import opened Amounts
  import opened Proto
  import opened Lifecycle
  import opened Identifiers
  import opened Orders
  import opened OwnOrderList
  import opened TradeSteps
  import opened Trades
  import opened Bookkeeping
  import opened ManagerSteps
  import opened ManagerRuns

  class TradeManager {
    const cfg: Settings
    const account: Account
    const rpc: XayaRpc
    const orders: MyOrders
    var trades: seq<TradeState>
    var archive: seq<PublicTrade>

    constructor (cfg: Settings, rpc: XayaRpc, orders: MyOrders)
      requires orders.account == rpc.wallet
      ensures this.cfg == cfg && account == rpc.wallet && this.rpc == rpc && this.orders == orders
      ensures trades == [] && archive == [] && Valid()
      ensures orders.own == OwnOrders(map[], 0) ==> InRun()
    {
      this.cfg, account, this.rpc, this.orders := cfg, rpc.wallet, rpc, orders;
      trades, archive := [], [];
      new;
      if orders.own == OwnOrders(map[], 0) {
        InitialReached(rpc.w, cfg, account, rpc.locked);
      }
    }

    predicate Valid()
      reads this
    {
      account == rpc.wallet && orders.account == account && AllProcessable(account, trades)
    }

    /** The fields are the state of a run of the daemon, with all cleanup done. */
    ghost predicate InRun()
      reads this, rpc, orders
    {
      Reached(rpc.w, cfg, account, Status(orders.own, trades, [], rpc.locked))
    }

    /** Updates all trades, archives the finalised ones, and sorts them into two lists. */
    method UpdateAll(now: int, obs: seq<Rpc<Observation>>)
      returns (alive: bool, stillActive: seq<TradeState>, finalised: seq<TradeState>)
      requires Valid() && |obs| == |trades|
      modifies this`archive
      ensures alive <==> AllSurvive(trades, obs)
      ensures alive ==>
        var updated := Updated(cfg, trades, now, SeenAll(obs));
        && stillActive == Actives(updated) && finalised == Finals(updated)
        && archive == old(archive) + PublicInfos(account, finalised)
    {
      hide Updated, UpdateStep, Storable, Actives, Finals, PublicInfos, PublicInfo, IsFinalised, Survives;
      ghost var updated := Updated(cfg, trades, now, SeenAll(obs));
      NothingArchived(account, updated);
      alive, stillActive, finalised := true, [], [];
      for i := 0 to |trades|
        invariant alive && forall j :: 0 <= j < i ==> Survives(trades[j], obs[j])
        invariant stillActive == Actives(updated[..i]) && finalised == Finals(updated[..i])
        invariant archive == old(archive) + PublicInfos(account, finalised)
      {
        var obj := new Trade(cfg, rpc, trades[i]);
        alive := obj.Update(now, obs[i]);
        if !alive {
          return;
        }
        UpdatedAt(cfg, trades, now, SeenAll(obs), i);
        OneMoreArchived(account, updated, i);
        if IsFinalised(obj.pb) {
          archive := archive + [PublicInfo(account, obj.pb)];
          finalised := finalised + [obj.pb];
        } else {
          stillActive := stillActive + [obj.pb];
        }
      }
      assert updated[..|trades|] == updated;
    }

    /** The block of UpdateAndArchiveTrades under the state's mutex. */
    method UpdateAndArchive(now: int, obs: seq<Rpc<Observation>>) returns (alive: bool, finalised: seq<TradeState>)
      requires Valid() && |obs| == |trades|
      modifies this`trades, this`archive
      ensures alive <==> AllSurvive(old(trades), obs)
      ensures alive ==>
        var updated := Updated(cfg, old(trades), now, SeenAll(obs));
        && trades == Actives(updated)
        && finalised == Finals(updated)
        && archive == old(archive) + PublicInfos(account, finalised)
        && forall t :: t in finalised ==> IsFinalised(t)
      ensures Valid()
    {
      PartitionComplete(Updated(cfg, trades, now, SeenAll(obs)));
      ActivesKeepProcessable(cfg, account, trades, now, SeenAll(obs));
      var stillActive: seq<TradeState>;
      alive, stillActive, finalised := UpdateAll(now, obs);
      if alive {
        trades := stillActive;
      }
    }

    method HandleSuccess(t: TradeState, valid: Order -> bool)
      requires account == rpc.wallet && t.state == Success
      modifies orders
      ensures CleanOne(account, old(orders.own), t, valid) == Some(orders.own)
      ensures RoleOf(account, t) == Taker ==> orders.own == old(orders.own)
      ensures RoleOf(account, t) == Maker && t.units <= t.order.maxUnits ==>
        var left := t.order.maxUnits - t.units;
        var rest := Order(None, None, Some(t.order.asset), t.order.minUnits, left, Some(t.order.orderType), Some(t.order.priceSat), false);
        var next := old(orders.own.nextFreeId);
        if left > 0 && (t.order.minUnits.Some? ==> left >= t.order.minUnits.value) && valid(rest)
        then next in orders.own.orders && orders.own.orders[next] == rest && orders.own.nextFreeId == next + 1
        else orders.own.nextFreeId == next && orders.own.orders.Keys <= old(orders.own.orders).Keys - {t.order.id}
    {
      if RoleOf(account, t) == Maker && t.units <= t.order.maxUnits {
        RemainderListed(account, orders.own, t, valid);
      }
      if RoleOf(account, t) == Maker {
        orders.RemoveById(t.order.id, valid);
        var newOrder := Reduced(t.order, t.units);
        if newOrder.maxUnits > 0 && newOrder.maxUnits >= MinUnits(newOrder) {
          var _ := orders.Add(newOrder, valid);
        }
      }
    }

    /**
     Unless the check of Unlock fails or the transaction to unlock cannot be decoded,
     which ends the process; even then only outputs of this trade have been unlocked.
     */
    method HandleFailure(t: TradeState, valid: Order -> bool, failing: Rpc<set<OutPoint>>) returns (alive: bool)
      requires account == rpc.wallet && t.state in {Failed, Abandoned}
      modifies orders, rpc`locked
      ensures alive <==> CleanOne(account, old(orders.own), t, valid).Some? && CanClean(account, t, failing)
      ensures alive ==> CleanOne(account, old(orders.own), t, valid) == Some(orders.own)
      ensures alive ==> rpc.locked == FailureRelease(account, t, old(rpc.locked), FailingOf(failing))
      ensures old(rpc.locked) - Releasable(account, [t]) <= rpc.locked <= old(rpc.locked)
    {
      ReleasableOne(account, t);
      if RoleOf(account, t) == Maker {
        if !CanUnlock(orders.own, t.order.id) {
          return false;
        }
        orders.Unlock(t.order.id, valid);
      }
      if t.sellerData.Some? && t.sellerData.value.nameOutput.Some? {
        var nameOutput := t.sellerData.value.nameOutput.value;
        var _ := rpc.LockUnspent(false, nameOutput, nameOutput !in FailingOf(failing));
      }
      if TypeOf(account, t) == Bid && t.ourPsbt.Some? {
        if failing.Throws? {
          return false;
        }
        rpc.UnlockPsbtInputs(t.ourPsbt.value.tx, failing.value);
      }
      return true;
    }

    /** The cleanup call for a finalised trade, of the kind its state asks for. */
    method CleanUpTrade(t: TradeState, valid: Order -> bool, failing: Rpc<set<OutPoint>>) returns (alive: bool)
      requires account == rpc.wallet && IsFinalised(t)
      modifies orders, rpc`locked
      ensures alive <==> CleanOne(account, old(orders.own), t, valid).Some? && CanClean(account, t, failing)
      ensures alive ==> CleanOne(account, old(orders.own), t, valid) == Some(orders.own)
      ensures alive ==> rpc.locked == CleanLock(account, old(rpc.locked), t, FailingOf(failing))
      ensures old(rpc.locked) - Releasable(account, [t]) <= rpc.locked <= old(rpc.locked)
    {
      hide CleanOne, FailureRelease, Releasable;
      if t.state == Success {
        HandleSuccess(t, valid);
        alive := true;
      } else {
        alive := HandleFailure(t, valid, failing);
      }
    }

    method CleanUp(finalised: seq<TradeState>, valid: Order -> bool, failing: Rpc<set<OutPoint>>) returns (alive: bool)
      requires account == rpc.wallet && forall t :: t in finalised ==> IsFinalised(t)
      modifies orders, rpc`locked
      ensures alive <==>
        && CleanOwn(account, old(orders.own), finalised, valid).Some?
        && forall i :: 0 <= i < |finalised| ==> CanClean(account, finalised[i], failing)
      ensures alive ==> CleanOwn(account, old(orders.own), finalised, valid) == Some(orders.own)
      ensures alive ==> rpc.locked == CleanLocks(account, old(rpc.locked), finalised, FailingOf(failing))
      ensures old(rpc.locked) - Releasable(account, finalised) <= rpc.locked <= old(rpc.locked)
    {
      hide CleanOne, CleanLock, CanClean;
      alive := true;
      for i := 0 to |finalised|
        invariant alive && CleanOwn(account, old(orders.own), finalised[..i], valid) == Some(orders.own)
        invariant forall j :: 0 <= j < i ==> CanClean(account, finalised[j], failing)
        invariant rpc.locked == CleanLocks(account, old(rpc.locked), finalised[..i], FailingOf(failing))
        invariant old(rpc.locked) - Releasable(account, finalised[..i]) <= rpc.locked <= old(rpc.locked)
      {
        assert finalised[..i + 1][..i] == finalised[..i];
        assert finalised[i] in finalised;
        ReleasableMore(account, finalised, i);
        ReleasablePrefix(account, finalised, i + 1);
        alive := CleanUpTrade(finalised[i], valid, failing);
        if !alive {
          CleanPrefix(account, old(orders.own), finalised, valid, i + 1);
          return;
        }
      }
      assert finalised[..|finalised|] == finalised;
    }

    /**
     The periodic job: updates all trades, archives the finalised ones, and cleans up
     after them, unless the process ends on the way. Also in that case, once the
     lookups have worked, the lists are updated, and the wallet has unlocked at most
     outputs of failed trades.
     */
    method UpdateAndArchiveTrades(now: int, obs: seq<Rpc<Observation>>, valid: Order -> bool, failing: Rpc<set<OutPoint>>)
      returns (alive: bool)
      requires Valid() && |obs| == |trades|
      modifies this`trades, this`archive, orders, rpc`locked
      ensures var finals := Finals(Updated(cfg, old(trades), now, SeenAll(obs)));
        && (alive <==>
              && AllSurvive(old(trades), obs)
              && CleanOwn(account, old(orders.own), finals, valid).Some?
              && forall i :: 0 <= i < |finals| ==> CanClean(account, finals[i], failing))
        && (alive ==>
              && CleanOwn(account, old(orders.own), finals, valid) == Some(orders.own)
              && rpc.locked == CleanLocks(account, old(rpc.locked), finals, FailingOf(failing)))
        && (AllSurvive(old(trades), obs) ==>
              && trades == Actives(Updated(cfg, old(trades), now, SeenAll(obs)))
              && archive == old(archive) + PublicInfos(account, finals)
              && old(rpc.locked) - Releasable(account, finals) <= rpc.locked)
        && rpc.locked <= old(rpc.locked)
      ensures Valid()
      ensures alive && old(InRun()) ==> InRun()
    {
      ghost var before := Status(orders.own, trades, [], rpc.locked);
      var finalised: seq<TradeState>;
      alive, finalised := UpdateAndArchive(now, obs);
      if alive {
        alive := CleanUp(finalised, valid, failing);
        if alive && Reached(rpc.w, cfg, account, before) {
          UpdateReached(rpc.w, cfg, account, before, now, SeenAll(obs));
          CleanAllReached(rpc.w, cfg, account, Status(before.own, trades, finalised, before.locked), valid, FailingOf(failing));
        }
      }
    }

    /** A new trade as taker, with its first turn; an exception leaves the list as it was. */
    method StartTrade(o: Order, terms: Terms, units: Int64, now: int, env: Env) returns (ok: bool, msg: Option<Message>)
      requires account == rpc.wallet && CheckOrder(o, units) == Some(terms) && terms.account != account
      modifies this`trades, rpc
      ensures Taken(ok, trades, rpc.locked, msg) == TakeStep(rpc.w, account, old(trades), o, units, now, old(rpc.locked), env)
      ensures rpc.sent == old(rpc.sent)
    {
      NewTradeTurn(rpc.w, account, terms, ToUint64(units), terms.account, now, rpc.locked, env);
      hide ReplyStep, TurnOrEnd, Answerable, Storable, CheckOrder;
      var data := NewTrade(terms, ToUint64(units), terms.account, now);
      var t := new Trade(cfg, rpc, data);
      var _, reply := t.HasReply(env);
      if reply.Throws? {
        return false, None;
      }
      var payload := if reply.value.Some? then reply.value.value else Payload(None, None);
      trades := trades + [t.pb];
      return true, Some(ToMessage(data, payload, Some(TakingOrder(data.order.id, data.units))));
    }

    /** Takes somebody else's order. */
    method TakeOrder(o: Order, units: Int64, now: int, env: Env) returns (ok: bool, msg: Option<Message>)
      requires Valid()
      modifies this`trades, rpc
      ensures Taken(ok, trades, rpc.locked, msg) == TakeStep(rpc.w, account, old(trades), o, units, now, old(rpc.locked), env)
      ensures rpc.sent == old(rpc.sent)
      ensures Valid()
      ensures old(InRun()) && old(TakeEnvOk(o, units, now, env)) ==> InRun()
    {
      TakeKeepsProcessable(rpc.w, account, trades, o, units, now, rpc.locked, env);
      if InRun() && TakeEnvOk(o, units, now, env) {
        TakeStepReached(rpc.w, cfg, account, Status(orders.own, trades, [], rpc.locked), o, units, now, env);
      }
      var terms := CheckOrder(o, units);
      if terms.None? {
        return false, None;
      }
      if terms.value.account == account {
        return false, None;
      }
      hide TakeStep, ReplyStep, EnvOk, Storable, Reached, CanTake, CheckOrder;
      ok, msg := StartTrade(o, terms.value, units, now, env);
    }

    /** The amounts can be traded, and the node keeps its contract with the new trade. */
    ghost predicate TakeEnvOk(o: Order, units: Int64, now: int, env: Env)
      reads this, rpc
    {
      CheckOrder(o, units).Some? && CheckOrder(o, units).value.account != account ==>
        CanTake(account, o, units, now) && EnvOk(rpc.w, account, TakenTrade(o, units, now), rpc.locked, env)
    }

    /** Starts a trade as maker, for one of our orders that has just been locked. */
    method OrderTaken(o: Order, units: Int64, taker: Account, now: int) returns (ok: bool)
      requires o.account == Some(account)
      modifies this`trades
      ensures ok <==> CheckOrder(o, units).Some? && taker != account
      ensures trades == if ok then old(trades) + [NewTrade(CheckOrder(o, units).value, ToUint64(units), taker, now)]
                        else old(trades)
      ensures ok ==>
        var t := trades[|trades| - 1];
        && t.order.account == account && o.id == Some(t.order.id) && o.asset == Some(t.order.asset)
        && o.orderType == Some(t.order.orderType) && o.priceSat == Some(t.order.priceSat)
        && t.units == ToUint64(units) && t.counterparty == taker && t.startTime == now && t.state == Initiated
        && t.sellerData.None? && t.ourPsbt.None? && t.theirPsbt.None? && t.conflictHeight.None?
      ensures old(Valid()) ==> Valid()
    {
      var terms := CheckOrder(o, units);
      if terms.None? {
        return false;
      }
      if taker == account {
        return false;
      }
      trades := trades + [NewTrade(terms.value, ToUint64(units), taker, now)];
      return true;
    }

    /** One trade handles the message and replies, unless its turn ends the process. */
    method ProcessWith(i: nat, msg: Message, env: Env) returns (alive: bool, reply: Option<Message>)
      requires Valid() && i < |trades|
      modifies this`trades, rpc
      ensures DoesAll(DispatchTo(rpc.w, account, old(trades), i, msg, old(rpc.locked), env), old(rpc.sent), alive, reply)
    {
      HandleKeepsProcessable(account, trades[i], msg);
      hide ReplyStep, HandleMessageStep, Answerable, EndsProcess, UntradedThrows;
      var t := new Trade(cfg, rpc, trades[i]);
      t.HandleMessage(msg);
      var before := t.pb;
      var answer: Rpc<Option<Payload>>;
      alive, answer := t.HasReply(env);
      reply := None;
      if alive {
        if answer.Ok? && answer.value.Some? {
          reply := Some(ToMessage(before, answer.value.value, None));
        }
        trades := trades[i := t.pb];
      }
    }

    /** The processing block: the first matching trade is processed, if there is one. */
    method Dispatch(msg: Message, env: Env) returns (alive: bool, reply: Option<Message>)
      requires Valid()
      modifies this`trades, rpc
      ensures DoesAll(DispatchStep(rpc.w, account, old(trades), msg, old(rpc.locked), env), old(rpc.sent), alive, reply)
      ensures alive ==> Valid()
      ensures old(InRun()) && DispatchEnvOk(rpc.w, account, old(trades), msg, old(rpc.locked), env) ==> alive && InRun()
    {
      hide DispatchStep, DispatchTo, EnvOk, Storable, Reached;
      ghost var before := Status(orders.own, trades, [], rpc.locked);
      if DispatchStep(rpc.w, account, trades, msg, rpc.locked, env).Dispatched? {
        DispatchKeepsProcessable(rpc.w, account, trades, msg, rpc.locked, env);
      }
      if Reached(rpc.w, cfg, account, before) && DispatchEnvOk(rpc.w, account, trades, msg, rpc.locked, env) {
        DispatchReached(rpc.w, cfg, account, before, msg, env);
      }
      for i := 0 to |trades|
        invariant trades == old(trades) && rpc.locked == old(rpc.locked) && rpc.sent == old(rpc.sent)
        invariant forall j :: 0 <= j < i ==> !Matches(trades[j], msg)
      {
        if !Matches(trades[i], msg) { continue; }
        DispatchIsTo(rpc.w, account, trades, i, msg, rpc.locked, env);
        alive, reply := ProcessWith(i, msg, env);
        return;
      }
      DispatchIsTo(rpc.w, account, trades, |trades|, msg, rpc.locked, env);
      return true, None;
    }

    /** What a message that takes nothing, or takes an order successfully, does after that. */
    ghost function AfterTaking(msg: Message, now: int, env: Env): Dispatched
      requires msg.takingOrder.Some? ==> CanLock(orders.own, msg.takingOrder.value.id) && !Refuses(account, orders.own, msg)
      reads this, orders, rpc
    {
      var all := if msg.takingOrder.Some? then trades + [Accepted(account, orders.own, msg, now)] else trades;
      DispatchStep(rpc.w, account, all, msg, rpc.locked, env)
    }

    /**
     A received message. Taking one of our orders locks it first; if the trade is
     refused the order is unlocked again, which ends the process if the order has been
     dropped in between; otherwise the new trade is processed with all others.
     Messages that ask for an order that is not available are dropped.
     */
    method ProcessMessage(msg: Message, now: int, env: Env, valid: Order -> bool) returns (alive: bool, reply: Option<Message>)
      requires Valid()
      modifies this`trades, rpc, orders
      ensures msg.takingOrder.None? ==>
        && orders.own == old(orders.own)
        && DoesAll(old(AfterTaking(msg, now, env)), old(rpc.sent), alive, reply)
      ensures msg.takingOrder.Some? && !CanLock(old(orders.own), msg.takingOrder.value.id) ==>
        && alive && orders.own == old(orders.own)
        && trades == old(trades) && rpc.locked == old(rpc.locked) && reply.None? && rpc.sent == old(rpc.sent)
      ensures msg.takingOrder.Some? && CanLock(old(orders.own), msg.takingOrder.value.id) && Refuses(account, old(orders.own), msg) ==>
        && (alive <==> CanUnlock(AfterLock(old(orders.own), msg, valid), msg.takingOrder.value.id))
        && (alive ==> orders.own == RefreshStep(UnlockStep(AfterLock(old(orders.own), msg, valid), msg.takingOrder.value.id), valid))
        && trades == old(trades) && rpc.locked == old(rpc.locked) && reply.None? && rpc.sent == old(rpc.sent)
      ensures msg.takingOrder.Some? && CanLock(old(orders.own), msg.takingOrder.value.id) && !Refuses(account, old(orders.own), msg) ==>
        && orders.own == AfterLock(old(orders.own), msg, valid)
        && DoesAll(old(AfterTaking(msg, now, env)), old(rpc.sent), alive, reply)
      ensures alive ==> Valid()
      ensures alive && old(InRun()) && old(MessageEnvOk(msg, now, env)) ==> InRun()
    {
      if msg.takingOrder.Some? {
        ghost var before := Status(orders.own, trades, [], rpc.locked);
        var id, units := msg.takingOrder.value.id, Wrap(msg.takingOrder.value.units);
        var ok, o := orders.TryLock(id, valid);
        if !ok {
          return true, None;
        }
        if Reached(rpc.w, cfg, account, before) {
          if !Refuses(account, old(orders.own), msg) {
            if Ready(account, Accepted(account, old(orders.own), msg, now)) {
              AcceptanceReached(rpc.w, cfg, account, before, id, units, msg.counterparty, now, valid);
            }
          } else if CanUnlock(orders.own, id) {
            RefusalReached(rpc.w, cfg, account, before, id, units, msg.counterparty, now, valid);
          }
        }
        var taken := OrderTaken(o.value, units, msg.counterparty, now);
        if !taken {
          if !CanUnlock(orders.own, id) {
            return false, None;
          }
          orders.Unlock(id, valid);
          return true, None;
        }
        assert trades == old(trades) + [Accepted(account, old(orders.own), msg, now)];
      }
      alive, reply := Dispatch(msg, env);
    }

    /** The lists, locks, answer and broadcasts are those of the given outcome. */
    ghost predicate DoesAll(d: Dispatched, sent: seq<Psbt>, alive: bool, reply: Option<Message>)
      reads this, rpc
    {
      match d
      case Ended => !alive
      case Dispatched(trades', locked', reply', sent') =>
        alive && trades == trades' && rpc.locked == locked' && reply == reply' && rpc.sent == sent + sent'
    }

    /** The node keeps its contract with the trade a message is for, perhaps a new one. */
    ghost predicate MessageEnvOk(msg: Message, now: int, env: Env)
      reads this, rpc, orders
    {
      if msg.takingOrder.None? then DispatchEnvOk(rpc.w, account, trades, msg, rpc.locked, env)
      else CanLock(orders.own, msg.takingOrder.value.id) && !Refuses(account, orders.own, msg) ==>
        && Ready(account, Accepted(account, orders.own, msg, now))
        && DispatchEnvOk(rpc.w, account, trades + [Accepted(account, orders.own, msg, now)], msg, rpc.locked, env)
    }
  }
}
