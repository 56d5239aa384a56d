/**
 The trade manager of an honest daemon is a party of the protocol: what its entry
 points do to its list of trades, its messages and its broadcasts are steps of the
 network, so that what holds in every run of the network holds of the manager.
 */
module PartyRuns {
  import opened Wrappers
  import opened Amounts
  import opened Proto
  import opened Psbts
  import opened Lifecycle
  import opened Identifiers
  import opened Orders
  import opened OwnOrderList
  import opened Collecting
  import opened TradeSteps
  import opened TradeSafety
  import opened TradeRuns
  import Bookkeeping
  import opened Protocol
  import opened ManagerSteps

  // ------------------------------------------------------------------ representation

  ghost predicate InNetwork(w: World, cfg: Settings, s: Net) {
    exists states, actions :: IsRun(w, cfg, states, actions) && states[|actions|] == s
  }

  /** The manager of p has in its list the trades that are not finalised, in order. */
  predicate Plays(s: Net, p: Account, trades: seq<TradeState>) {
    IsHonest(s, p) && Actives(s.trades[p]) == trades
  }

  /** Only p has done something. */
  predicate OnlyMoves(s: Net, s': Net, p: Account) {
    && s'.trades.Keys == s.trades.Keys
    && (forall q :: q in s.trades && q != p ==> s'.trades[q] == s.trades[q])
    && s.packets <= s'.packets && s.broadcasts <= s'.broadcasts
  }

  /** The message, if any, has been sent to its counterparty. */
  predicate IsSent(s: Net, p: Account, msg: Option<Message>) {
    msg.Some? ==> Packet(p, msg.value.counterparty, msg.value) in s.packets
  }

  lemma ActionInNetwork(w: World, cfg: Settings, s: Net, a: Action)
    requires InNetwork(w, cfg, s) && Enabled(w, s, a)
    ensures InNetwork(w, cfg, Apply(w, cfg, s, a))
  {
    hide Enabled, Apply;
    var states, actions :| IsRun(w, cfg, states, actions) && states[|actions|] == s;
    var states', actions' := states + [Apply(w, cfg, s, a)], actions + [a];
    forall i | 0 <= i < |actions'|
      ensures Enabled(w, states'[i], actions'[i]) && states'[i + 1] == Apply(w, cfg, states'[i], actions'[i])
    {
      if i < |actions| {
        assert states'[i] == states[i] && states'[i + 1] == states[i + 1] && actions'[i] == actions[i];
      }
    }
    assert IsRun(w, cfg, states', actions') && states'[|actions'|] == Apply(w, cfg, s, a);
  }

  lemma InNetworkIsSafe(w: World, cfg: Settings, s: Net)
    requires InNetwork(w, cfg, s)
    ensures NetInv(w, s)
  {
    var states, actions :| IsRun(w, cfg, states, actions) && states[|actions|] == s;
    RunKeepsInv(w, cfg, states, actions, |actions|);
  }

  /** A manager's trades can be processed and traded. */
  lemma PlayedIsReady(w: World, cfg: Settings, s: Net, p: Account, trades: seq<TradeState>)
    requires InNetwork(w, cfg, s) && Plays(s, p, trades)
    ensures AllProcessable(p, trades)
    ensures forall k :: 0 <= k < |trades| ==> Ready(p, trades[k])
  {
    InNetworkIsSafe(w, cfg, s);
    ActivesSubset(s.trades[p]);
    forall k | 0 <= k < |trades|
      ensures Processable(p, trades[k]) && Ready(p, trades[k])
    {
      assert trades[k] in s.trades[p];
      var i :| 0 <= i < |s.trades[p]| && s.trades[p][i] == trades[k];
      assert IsTrade(s, p, i) && SafeTrade(w, p, s.trades[p][i]);
    }
  }

  // ---------------------------------------------------------------------- one message

  /** Neither a message nor a turn finalises a trade. */
  lemma ProcessingKeepsActive(w: World, me: Account, t: TradeState, msg: Message, locked: set<OutPoint>, env: Env)
    requires Ready(me, t) && !IsFinalised(t)
    ensures var t1 := HandleMessageStep(me, t, msg);
      && !IsFinalised(t1) && t1.counterparty == t.counterparty
      && Ready(me, t1) && Processed(w, me, t, msg, locked, env) == Some(ReplyStep(w, me, t1, locked, env))
      && !IsFinalised(ReplyStep(w, me, t1, locked, env).trade)
  {
    TurnKeepsActive(w, me, HandleMessageStep(me, t, msg), locked, env);
  }

  lemma TurnKeepsActive(w: World, me: Account, t: TradeState, locked: set<OutPoint>, env: Env)
    requires Ready(me, t) && !IsFinalised(t)
    ensures !IsFinalised(ReplyStep(w, me, t, locked, env).trade)
  {
    hide SellerSignStep, BuyerSignStep, SignedAsBuyer, Complete, Combine;
  }

  /** Moving the k-th active trade along changes that trade in the list. */
  lemma ActiveReplaced(all: seq<TradeState>, i: nat, k: nat, t: TradeState)
    requires i < |all| && !IsFinalised(all[i]) && !IsFinalised(t)
    requires k < |Actives(all)| && Actives(all[..i]) == Actives(all)[..k]
    ensures Actives(all[i := t]) == Actives(all)[k := t]
  {
    hide Collect;
    CollectSplit(ActiveOf, all, i);
    CollectUpdate(ActiveOf, all, i, t);
  }

  /** The message is delivered to the matching trade, which then takes its turn. */
  lemma DeliveryAndTurn(w: World, cfg: Settings, s: Net, p: Account, i: nat, packet: Packet, locked: set<OutPoint>, env: Env)
    returns (s': Net)
    requires InNetwork(w, cfg, s) && IsTrade(s, p, i) && Ready(p, s.trades[p][i]) && !IsFinalised(s.trades[p][i])
    requires packet in s.packets && packet.receiver == p && Matches(s.trades[p][i], Received(packet))
    requires EnvOk(w, p, s.trades[p][i], locked, env)
    ensures InNetwork(w, cfg, s') && OnlyMoves(s, s', p)
    ensures var t1 := HandleMessageStep(p, s.trades[p][i], Received(packet));
      Ready(p, t1)
      && var o := ReplyStep(w, p, t1, locked, env);
      && s'.trades[p] == s.trades[p][i := o.trade]
      && IsSent(s', p, if Replies(o) then Some(ToMessage(t1, o.reply.value.value, None)) else None)
      && (o.sent.Some? ==> Broadcast(p, i, o.sent.value) in s'.broadcasts)
  {
    hide ReplyStep, HandleMessageStep, EnvOk, Ready, InNetwork;
    var t := s.trades[p][i];
    ActionInNetwork(w, cfg, s, Deliver(p, i, packet));
    var s1 := Apply(w, cfg, s, Deliver(p, i, packet));
    ProcessingKeepsActive(w, p, t, Received(packet), locked, env);
    ContractKept(w, p, t, Received(packet), locked, env);
    var t1 := HandleMessageStep(p, t, Received(packet));
    assert s1.trades[p] == s.trades[p][i := t1] && s1.trades[p][i] == t1;
    ActionInNetwork(w, cfg, s1, Reply(p, i, locked, env));
    s' := Apply(w, cfg, s1, Reply(p, i, locked, env));
    assert s'.trades[p] == s.trades[p][i := ReplyStep(w, p, t1, locked, env).trade];
  }

  lemma ContractKept(w: World, me: Account, t: TradeState, msg: Message, locked: set<OutPoint>, env: Env)
    requires EnvOk(w, me, t, locked, env)
    ensures EnvOk(w, me, HandleMessageStep(me, t, msg), locked, env)
  {
  }

  /** TradeManager.ProcessMessage, after taking an order has been dealt with. */
  lemma DispatchInNetwork(w: World, cfg: Settings, s: Net, p: Account, trades: seq<TradeState>, packet: Packet,
                          locked: set<OutPoint>, env: Env) returns (s': Net)
    requires InNetwork(w, cfg, s) && Plays(s, p, trades)
    requires packet in s.packets && packet.receiver == p
    requires DispatchEnvOk(w, p, trades, Received(packet), locked, env)
    ensures InNetwork(w, cfg, s') && OnlyMoves(s, s', p)
    ensures var d := DispatchStep(w, p, trades, Received(packet), locked, env);
      && d.Dispatched?
      && Plays(s', p, d.trades) && IsSent(s', p, d.reply)
      && forall psbt :: psbt in d.sent ==> exists i :: Broadcast(p, i, psbt) in s'.broadcasts
  {
    var msg := Received(packet);
    var k := FirstMatch(trades, msg);
    if k == |trades| {
      s' := s;
    } else {
      var i := Position(ActiveOf, s.trades[p], k);
      assert s.trades[p][i] == trades[k] && !IsFinalised(trades[k]);
      PlayedIsReady(w, cfg, s, p, trades);
      hide InNetwork, Collect, Ready, EnvOk, ReplyStep, HandleMessageStep;
      s' := DeliveryAndTurn(w, cfg, s, p, i, packet, locked, env);
      ProcessingKeepsActive(w, p, trades[k], msg, locked, env);
      ActiveReplaced(s.trades[p], i, k, Processed(w, p, trades[k], msg, locked, env).value.trade);
    }
  }

  // ------------------------------------------------------------------- starting trades

  /** TradeManager.OrderTaken, called for a message that takes one of our orders. */
  lemma AcceptInNetwork(w: World, cfg: Settings, s: Net, p: Account, trades: seq<TradeState>, own: OwnOrders, msg: Message,
                        now: int) returns (s': Net)
    requires InNetwork(w, cfg, s) && Plays(s, p, trades)
    requires msg.takingOrder.Some? && CanLock(own, msg.takingOrder.value.id) && !Refuses(p, own, msg)
    requires Ready(p, Accepted(p, own, msg, now))
    ensures InNetwork(w, cfg, s') && OnlyMoves(s, s', p)
    ensures Plays(s', p, trades + [Accepted(p, own, msg, now)])
  {
    var t := Accepted(p, own, msg, now);
    var a := Accept(p, t.order, t.units, t.counterparty, now);
    ActionInNetwork(w, cfg, s, a);
    s' := Apply(w, cfg, s, a);
    CollectAppend(ActiveOf, s.trades[p], t);
  }

  /** TradeManager.TakeOrder: the trade, and the message that takes the order. */
  lemma TakeInNetwork(w: World, cfg: Settings, s: Net, p: Account, trades: seq<TradeState>, o: Order, units: Int64,
                      now: int, locked: set<OutPoint>, env: Env) returns (s': Net)
    requires InNetwork(w, cfg, s) && Plays(s, p, trades)
    requires CheckOrder(o, units).Some? && CheckOrder(o, units).value.account != p ==>
      Bookkeeping.CanTake(p, o, units, now) && EnvOk(w, p, Bookkeeping.TakenTrade(o, units, now), locked, env)
    ensures InNetwork(w, cfg, s') && OnlyMoves(s, s', p)
    ensures var d := TakeStep(w, p, trades, o, units, now, locked, env);
      Plays(s', p, d.trades) && IsSent(s', p, d.msg)
  {
    if CheckOrder(o, units).None? || CheckOrder(o, units).value.account == p {
      s' := s;
    } else {
      var t := Bookkeeping.TakenTrade(o, units, now);
      var r := ReplyStep(w, p, t, locked, env);
      TurnFollows(w, p, t, locked, env);
      TurnKeepsActive(w, p, t, locked, env);
      hide ReplyStep, EnvOk, Ready, InNetwork, CheckOrder;
      var a := Take(p, t.order, t.units, now, locked, env);
      ActionInNetwork(w, cfg, s, a);
      s' := Apply(w, cfg, s, a);
      CollectAppend(ActiveOf, s.trades[p], r.trade);
    }
  }

  // -------------------------------------------------------------------------- updates

  lemma NothingUpdatedYet(cfg: Settings, s: Net, p: Account, now: int, obs: seq<Observation>)
    requires IsHonest(s, p) && |obs| == |Actives(s.trades[p])| && AllProcessable(p, Actives(s.trades[p]))
    ensures UpdatedSoFar(cfg, s, s, p, now, obs, 0)
  {
    assert s.trades[p][..0] == [] && ActivesBefore(s.trades[p], 0) == 0;
  }

  /** One trade after another is updated; the list keeps those that stay active. */
  lemma {:induction false} UpdatesInNetwork(w: World, cfg: Settings, s: Net, p: Account, now: int, obs: seq<Observation>, i: nat)
    returns (s': Net)
    requires InNetwork(w, cfg, s) && IsHonest(s, p) && i <= |s.trades[p]|
    requires |obs| == |Actives(s.trades[p])| && AllProcessable(p, Actives(s.trades[p]))
    ensures InNetwork(w, cfg, s') && OnlyMoves(s, s', p)
    ensures UpdatedSoFar(cfg, s, s', p, now, obs, i)
    decreases i
  {
    hide InNetwork, Collect, UpdateStep, Storable, Actives, ActivesBefore, UpdatedSoFar, Apply, Enabled;
    if i == 0 {
      s' := s;
      NothingUpdatedYet(cfg, s, p, now, obs);
    } else {
      var s1 := UpdatesInNetwork(w, cfg, s, p, now, obs, i - 1);
      s' := UpdateNext(w, cfg, s, p, now, obs, i - 1, s1);
    }
  }

  /** The trade with this number is updated, if it is active. */
  lemma UpdateNext(w: World, cfg: Settings, s: Net, p: Account, now: int, obs: seq<Observation>, n: nat, s1: Net) returns (s': Net)
    requires IsHonest(s, p) && n < |s.trades[p]|
    requires |obs| == |Actives(s.trades[p])| && AllProcessable(p, Actives(s.trades[p]))
    requires InNetwork(w, cfg, s1) && OnlyMoves(s, s1, p) && UpdatedSoFar(cfg, s, s1, p, now, obs, n)
    ensures InNetwork(w, cfg, s') && OnlyMoves(s, s', p)
    ensures UpdatedSoFar(cfg, s, s', p, now, obs, n + 1)
  {
    hide InNetwork, Collect, UpdateStep, Storable, Actives, ActivesBefore, UpdatedSoFar, Apply, Enabled;
    NotYetUpdated(cfg, s, s1, p, now, obs, n);
    var m := ActivesBefore(s.trades[p], n);
    ActiveStep(s.trades[p], n);
    if IsFinalised(s.trades[p][n]) {
      s' := s1;
    } else {
      assert Processable(p, Actives(s.trades[p])[m]);
      s' := OneUpdate(w, cfg, s1, p, n, now, obs[m]);
    }
    OneMore(cfg, s, s1, s', p, now, obs, n);
  }

  lemma OneUpdate(w: World, cfg: Settings, s: Net, p: Account, n: nat, now: int, obs: Observation) returns (s': Net)
    requires InNetwork(w, cfg, s) && IsTrade(s, p, n) && Processable(p, s.trades[p][n])
    ensures InNetwork(w, cfg, s') && OnlyMoves(s, s', p)
    ensures s'.trades[p] == s.trades[p][n := UpdateStep(cfg, s.trades[p][n], now, obs)]
  {
    hide InNetwork, UpdateStep, Storable;
    ActionInNetwork(w, cfg, s, Protocol.Update(p, n, now, obs));
    s' := Apply(w, cfg, s, Protocol.Update(p, n, now, obs));
  }

  lemma NotYetUpdated(cfg: Settings, s: Net, s1: Net, p: Account, now: int, obs: seq<Observation>, n: nat)
    requires IsHonest(s, p) && n < |s.trades[p]|
    requires |obs| == |Actives(s.trades[p])| && AllProcessable(p, Actives(s.trades[p]))
    requires UpdatedSoFar(cfg, s, s1, p, now, obs, n)
    ensures IsTrade(s1, p, n) && s1.trades[p][n] == s.trades[p][n]
  {
    assert s1.trades[p][n] == s1.trades[p][n..][0] == s.trades[p][n..][0];
  }

  function ActivesBefore(all: seq<TradeState>, i: nat): (m: nat)
    requires i <= |all|
    ensures m <= |Actives(all)|
  {
    CollectConcat(ActiveOf, all[..i], all[i..]);
    assert all == all[..i] + all[i..];
    |Actives(all[..i])|
  }

  ghost predicate UpdatedSoFar(cfg: Settings, s: Net, s': Net, p: Account, now: int, obs: seq<Observation>, i: nat)
    requires IsHonest(s, p) && i <= |s.trades[p]|
    requires |obs| == |Actives(s.trades[p])| && AllProcessable(p, Actives(s.trades[p]))
  {
    var done := Updated(cfg, Actives(s.trades[p]), now, obs)[..ActivesBefore(s.trades[p], i)];
    && IsHonest(s', p) && |s'.trades[p]| == |s.trades[p]|
    && s'.trades[p][i..] == s.trades[p][i..]
    && Actives(s'.trades[p][..i]) == Actives(done)
  }

  lemma ActiveStep(all: seq<TradeState>, n: nat)
    requires n < |all|
    ensures ActivesBefore(all, n + 1) == ActivesBefore(all, n) + |ActiveOf(all[n])|
    ensures !IsFinalised(all[n]) ==>
      ActivesBefore(all, n) < |Actives(all)| && Actives(all)[ActivesBefore(all, n)] == all[n]
  {
    CollectSplit(ActiveOf, all, n);
    assert all[..n + 1] == all[..n] + [all[n]];
    CollectAppend(ActiveOf, all[..n], all[n]);
  }

  lemma OneMore(cfg: Settings, s: Net, s1: Net, s': Net, p: Account, now: int, obs: seq<Observation>, n: nat)
    requires IsHonest(s, p) && n < |s.trades[p]|
    requires |obs| == |Actives(s.trades[p])| && AllProcessable(p, Actives(s.trades[p]))
    requires UpdatedSoFar(cfg, s, s1, p, now, obs, n) && IsHonest(s', p)
    requires var m := ActivesBefore(s.trades[p], n);
      && (!IsFinalised(s.trades[p][n]) ==> m < |obs|)
      && s'.trades[p] == (if IsFinalised(s.trades[p][n]) then s1.trades[p]
                          else s1.trades[p][n := Updated(cfg, Actives(s.trades[p]), now, obs)[m]])
    ensures UpdatedSoFar(cfg, s, s', p, now, obs, n + 1)
  {
    hide Updated, UpdateStep, Collect, ActivesBefore, Actives;
    var m, t := ActivesBefore(s.trades[p], n), s.trades[p][n];
    var updated := Updated(cfg, Actives(s.trades[p]), now, obs);
    ActiveStep(s.trades[p], n);
    assert s1.trades[p][n] == s1.trades[p][n..][0] == s.trades[p][n..][0] == t;
    assert s'.trades[p][..n + 1] == s1.trades[p][..n] + [s'.trades[p][n]];
    assert s'.trades[p][n + 1..] == s1.trades[p][n..][1..] == s.trades[p][n..][1..] == s.trades[p][n + 1..];
    PartitionAppend(s1.trades[p][..n], s'.trades[p][n]);
    if !IsFinalised(t) {
      PartitionAppend(updated[..m], updated[m]);
      assert updated[..m + 1] == updated[..m] + [updated[m]];
    }
  }

  /** TradeManager.UpdateAndArchiveTrades, as far as the list is concerned. */
  lemma UpdateInNetwork(w: World, cfg: Settings, s: Net, p: Account, trades: seq<TradeState>, now: int, obs: seq<Observation>)
    returns (s': Net)
    requires InNetwork(w, cfg, s) && Plays(s, p, trades) && |obs| == |trades| && AllProcessable(p, trades)
    ensures InNetwork(w, cfg, s') && OnlyMoves(s, s', p)
    ensures Plays(s', p, Actives(Updated(cfg, trades, now, obs)))
  {
    var n := |s.trades[p]|;
    s' := UpdatesInNetwork(w, cfg, s, p, now, obs, n);
    assert s.trades[p][..n] == s.trades[p] && s'.trades[p][..n] == s'.trades[p];
    assert ActivesBefore(s.trades[p], n) == |trades|;
    var updated := Updated(cfg, trades, now, obs);
    assert updated[..|updated|] == updated;
  }

  // ------------------------------------------------------- what follows for a manager

  /**
   Whatever a manager has broadcast is complete and is the transaction of one of its
   trades, which is in its list or finalised; and if the counterparty is honest, its
   side of the trade is committed to the same transaction.
   */
  lemma ManagerAgrees(w: World, cfg: Settings, s: Net, p: Account, trades: seq<TradeState>, b: Broadcast)
    requires InNetwork(w, cfg, s) && Plays(s, p, trades) && b in s.broadcasts && b.maker == p
    ensures IsTrade(s, p, b.index) && CommittedWith(s.trades[p][b.index], b.psbt.tx) && Complete(w, b.psbt)
    ensures var t := s.trades[p][b.index];
      && (IsFinalised(t) || t in trades)
      && (IsHonest(s, t.counterparty) ==>
            exists i :: IsTrade(s, t.counterparty, i) && IsOtherSide(p, t, s.trades[t.counterparty][i], b.psbt.tx))
  {
    var states, actions :| IsRun(w, cfg, states, actions) && states[|actions|] == s;
    Agreement(w, cfg, states, actions, |actions|, b);
    var t := s.trades[p][b.index];
    if !IsFinalised(t) {
      CollectSplit(ActiveOf, s.trades[p], b.index);
      assert t in ActiveOf(t);
    }
  }
}
