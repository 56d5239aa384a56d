/** A lossless exchange between two honest parties runs to the end. */
module Exchange {
  import opened Wrappers
  import opened Amounts
  import opened Proto
  import opened Psbts
  import opened Chain
  import opened Checker
  import opened Identifiers
  import opened Orders
  import opened OwnOrderList
  import opened TradeSteps
  import opened TradeSafety
  import opened TradeRuns
  import opened Bookkeeping
  import opened ManagerSteps
  import opened Lifecycle
  import ManagerRuns
  import Protocol

  /** A trade after the counterparty's reply has arrived. */
  function Deliver(me: Account, t: TradeState, payload: Payload): TradeState {
    HandleMessageStep(me, t, ToMessage(t, payload, None))
  }

  /** The seller's node knows the name output, can lock it and has two addresses. */
  predicate SellerEnv(o: OutPoint, locked: set<OutPoint>, env: Env) {
    && env.nameShow == Ok(o) && env.lockWorks && o !in locked
    && env.newNameAddress.Ok? && env.newChiAddress.Ok?
    && env.newNameAddress != env.newChiAddress
  }

  /** The buyer's node approves the trade, finds funds and signs. */
  ghost predicate BuyerEnv(w: World, me: Account, t: TradeState, o: OutPoint, locked: set<OutPoint>, env: Env)
  {
    && EnvOk(w, me, t, locked, env)
    && BuyerTradeCheck(env.view) == Ok(Some(o))
    && CanConstruct(me, t)
    && var funded := env.fund(PaymentRequest(w, me, t));
    && funded.Ok? && funded.value.vin != []
    && env.makesNamePart && env.join(funded.value, NamePart(w, me, t, o)).Ok?
    && env.signs && env.decodes
  }

  /** What a taken order starts with on both sides. */
  predicate Starts(maker: Account, taker: Account, m0: TradeState, t0: TradeState) {
    && maker != taker
    && m0 == NewTrade(m0.order, m0.units, taker, m0.startTime)
    && t0 == NewTrade(m0.order, m0.units, maker, t0.startTime)
    && m0.order.account == maker
    && Ready(maker, m0) && Ready(taker, t0)
  }

  /** Both sides are waiting for the network, and the maker broadcast the deal. */
  predicate Done(w: World, maker: Account, o: Outcome, t: TradeState) {
    && o.trade.state == Pending && t.state == Pending
    && o.sent.Some? && Complete(w, o.sent.value)
    && o.trade.ourPsbt.Some? && t.ourPsbt.Some?
    && o.sent.value.tx == o.trade.ourPsbt.value.tx == t.ourPsbt.value.tx
    && o.reply == Ok(None)
  }

  lemma SellerAnswers(w: World, me: Account, t: TradeState, o: OutPoint, locked: set<OutPoint>, env: Env)
    requires Ready(me, t) && TypeOf(me, t) == Ask
    requires t.state == Initiated && t.sellerData.None?
    requires SellerEnv(o, locked, env)
    ensures var r := ReplyStep(w, me, t, locked, env);
      && r.sent.None? && r.trade == t.(sellerData := r.trade.sellerData)
      && r.trade.sellerData.Some? && r.trade.sellerData.value.nameOutput == Some(o)
      && HasAddresses(r.trade.sellerData.value)
      && r.reply == Ok(Some(Payload(Some(r.trade.sellerData.value.(nameOutput := None)), None)))
      && AcceptableSellerData(r.trade.sellerData.value.(nameOutput := None))
      && r.trade.sellerData.value.nameAddress == Some(env.newNameAddress.value)
      && r.trade.sellerData.value.chiAddress == Some(env.newChiAddress.value)
  {
  }

  /** The buyer's transaction: all inputs but the seller's name are the buyer's. */
  lemma BuyerBuilds(w: World, me: Account, t: TradeState, o: OutPoint, locked: set<OutPoint>, env: Env) returns (tx: Tx, k: nat)
    requires Ready(me, t) && TypeOf(me, t) == Bid && t.sellerData.Some?
    requires BuyerEnv(w, me, t, o, locked, env) && w.owner(o) != me
    ensures BuyerSignStep(w, me, t, locked, env).result == Ok(Some(tx))
    ensures
      && IsOnlyForeign(w, me, tx.vin, k) && tx.vin[k] == o
      && |tx.vin| > 1
      && Ready(me, t.(ourPsbt := Some(SignedAsBuyer(w, me, tx))))
      && BuyerSafe(w, me, t.(ourPsbt := Some(SignedAsBuyer(w, me, tx))))
  {
    tx := ConstructStep(w, me, t, o, locked, env).result.value;
    var funded := PartsOf(w, me, t, o, locked, env, tx);
    BuyerNeverSignsName(w, me, tx, funded.vin, o);
    assert |multiset(tx.vin)| == |tx.vin| == |funded.vin| + 1;
    BuyerSignedIsSafe(w, me, t, locked, env, tx);
    k :| IsOnlyForeign(w, me, tx.vin, k) && tx.vin[k] == o;
  }

  /** The seller's checks accept what an honest buyer built on the same terms. */
  lemma SellerAccepts(w: World, seller: Account, t: TradeState, buyer: Account, u: TradeState, before: Psbt, k: nat)
    requires Ready(seller, t) && TypeOf(seller, t) == Ask && t.counterparty == buyer
    requires Ready(buyer, u) && TypeOf(buyer, u) == Bid && u.counterparty == seller
    requires seller != buyer && u.order == t.order && u.units == t.units
    requires t.sellerData.Some? && u.sellerData.Some? && HasAddresses(u.sellerData.value)
    requires u.sellerData.value == t.sellerData.value.(nameOutput := None)
    requires u.ourPsbt.Some? && BuyerSafe(w, buyer, u)
    requires before.tx == u.ourPsbt.value.tx && t.theirPsbt == Some(Encoded(before))
    requires IsOnlyForeign(w, buyer, before.tx.vin, k) && Some(before.tx.vin[k]) == t.sellerData.value.nameOutput
    requires w.owner(before.tx.vin[k]) == seller
    ensures var c := CheckerFor(w, seller, t);
      && c.SellerOutputsOk(before.tx, t.sellerData.value.nameAddress.value, t.sellerData.value.chiAddress.value)
      && SellerSignatureOk(before, Sign(w, seller, before), before.tx.vin[k])
  {
    var tx, sd := before.tx, t.sellerData.value;
    var c := CheckerFor(w, seller, t);
    assert c == CheckerFor(w, buyer, u);
    var i :| 0 <= i < |tx.vout| && tx.vout[i].nameOp.Some?;
    assert IsNamePart(w, buyer, u, tx.vout[i]);
    assert c.IsNameUpdate(tx.vout[i], sd.nameAddress.value);
    var j :| 0 <= j < |tx.vout| && IsExactPayment(u, tx.vout[j]);
    if c.price * c.units != 0 {
      assert c.IsPayment(tx.vout[j], sd.chiAddress.value);
    }
    assert IsFirstSpend(tx, tx.vin[k], k);
    assert OnlySlotChanged(before.inputs, Sign(w, seller, before).inputs, k);
  }

  /** The buyer's turn: the taker shares its signatures, the maker the unsigned transaction. */
  lemma BuyerAnswers(w: World, me: Account, t: TradeState, locked: set<OutPoint>, env: Env, tx: Tx)
    requires Ready(me, t) && TypeOf(me, t) == Bid && t.state == Initiated && t.sellerData.Some? && t.ourPsbt.None?
    requires BuyerSignStep(w, me, t, locked, env).result == Ok(Some(tx))
    ensures var o, p := ReplyStep(w, me, t, locked, env), SignedAsBuyer(w, me, tx);
      && o.sent.None?
      && o.trade == t.(ourPsbt := Some(p), state := if RoleOf(me, t) == Taker then Pending else Initiated)
      && o.reply == Ok(Some(Payload(None, Some(if RoleOf(me, t) == Taker then p else UnsignedPsbt(tx)))))
  {
    hide BuyerSignStep;
  }

  /** A selling maker whose checks pass broadcasts. */
  lemma MakerSells(w: World, me: Account, t: TradeState, before: Psbt, locked: set<OutPoint>, env: Env)
    requires Ready(me, t) && TypeOf(me, t) == Ask && RoleOf(me, t) == Maker && t.state == Initiated
    requires t.sellerData.Some? && t.ourPsbt.None? && t.theirPsbt == Some(Encoded(before))
    requires env.decodes && env.signs && env.finalises && env.sends
    requires var sd := t.sellerData.value;
      && CheckerFor(w, me, t).SellerOutputsOk(before.tx, sd.nameAddress.value, sd.chiAddress.value)
      && SellerSignatureOk(before, Sign(w, me, before), sd.nameOutput.value)
    requires Complete(w, Sign(w, me, before))
    ensures var p := Sign(w, me, before);
      ReplyStep(w, me, t, locked, env) == Outcome(t.(ourPsbt := Some(p), state := Pending), locked, Ok(None), Some(p))
  {
    assert SellerSignStep(w, me, t, env) == Ok(Some(Sign(w, me, before)));
  }

  /** The maker sells: after the taker's message, three turns finish the exchange. */
  lemma SellTurns(w: World, maker: Account, taker: Account, m0: TradeState, t0: TradeState, o: OutPoint,
                           mLocked: set<OutPoint>, mEnv: Env, tLocked: set<OutPoint>, tEnv: Env,
                           mLocked': set<OutPoint>, mEnv': Env)
    requires Starts(maker, taker, m0, t0) && m0.order.orderType == Ask && w.owner(o) == maker
    requires SellerEnv(o, mLocked, mEnv)
    requires var m1 := ReplyStep(w, maker, m0, mLocked, mEnv);
      && Replies(m1)
      && var t1 := Deliver(taker, t0, m1.reply.value.value);
      Ready(taker, t1) && BuyerEnv(w, taker, t1, o, tLocked, tEnv)
    requires mEnv'.decodes && mEnv'.signs && mEnv'.finalises && mEnv'.sends
    ensures var m1 := ReplyStep(w, maker, m0, mLocked, mEnv);
      var t1 := Deliver(taker, t0, m1.reply.value.value);
      var t2 := ReplyStep(w, taker, t1, tLocked, tEnv);
      && m1.sent.None? && t2.sent.None? && Replies(t2)
      && var m2 := Deliver(maker, m1.trade, t2.reply.value.value);
      Ready(maker, m2) && Done(w, maker, ReplyStep(w, maker, m2, mLocked', mEnv'), t2.trade)
  {
    hide ReplyStep, EnvOk, BuyerSignStep, SellerSignStep, FinishStep, CreateSellerDataStep, BuyerTradeCheck, ConstructStep;
    SellerAnswers(w, maker, m0, o, mLocked, mEnv);
    var m1 := ReplyStep(w, maker, m0, mLocked, mEnv);
    var t1 := Deliver(taker, t0, m1.reply.value.value);
    assert t1 == t0.(sellerData := Some(m1.trade.sellerData.value.(nameOutput := None)));
    var tx, k := BuyerBuilds(w, taker, t1, o, tLocked, tEnv);
    BuyerAnswers(w, taker, t1, tLocked, tEnv, tx);
    var p := SignedAsBuyer(w, taker, tx);
    var t2 := ReplyStep(w, taker, t1, tLocked, tEnv);
    var m2 := Deliver(maker, m1.trade, t2.reply.value.value);
    assert m2 == m1.trade.(theirPsbt := Some(Encoded(p)));
    SellerAccepts(w, maker, m2, taker, t1.(ourPsbt := Some(p)), p, k);
    assert Complete(w, Sign(w, maker, p));
    MakerSells(w, maker, m2, p, mLocked', mEnv');
  }

  /** A selling taker whose checks pass hands over its signature. */
  lemma TakerSells(w: World, me: Account, t: TradeState, before: Psbt, locked: set<OutPoint>, env: Env)
    requires Ready(me, t) && TypeOf(me, t) == Ask && RoleOf(me, t) == Taker && t.state == Initiated
    requires t.sellerData.Some? && t.ourPsbt.None? && t.theirPsbt == Some(Encoded(before)) && env.decodes && env.signs
    requires var sd := t.sellerData.value;
      && CheckerFor(w, me, t).SellerOutputsOk(before.tx, sd.nameAddress.value, sd.chiAddress.value)
      && SellerSignatureOk(before, Sign(w, me, before), sd.nameOutput.value)
    requires !Complete(w, Sign(w, me, before))
    ensures var p := Sign(w, me, before);
      ReplyStep(w, me, t, locked, env)
        == Outcome(t.(ourPsbt := Some(p), state := Pending), locked, Ok(Some(Payload(None, Some(p)))), None)
  {
    assert SellerSignStep(w, me, t, env) == Ok(Some(Sign(w, me, before)));
  }

  /** A buying maker broadcasts the combination of both PSBTs. */
  lemma MakerBroadcasts(w: World, me: Account, t: TradeState, theirs: Psbt, locked: set<OutPoint>, env: Env)
    requires Ready(me, t) && TypeOf(me, t) == Bid && RoleOf(me, t) == Maker && t.state == Initiated
    requires t.sellerData.Some? && t.ourPsbt.Some? && t.theirPsbt == Some(Encoded(theirs)) && env.finalises && env.sends
    requires theirs.tx == t.ourPsbt.value.tx && Complete(w, Combine(theirs, t.ourPsbt.value))
    ensures ReplyStep(w, me, t, locked, env)
      == Outcome(t.(state := Pending), locked, Ok(None), Some(Combine(theirs, t.ourPsbt.value)))
  {
  }

  /** The maker buys: the taker's first message has the seller data already. */
  lemma BuyTurns(w: World, maker: Account, taker: Account, m0: TradeState, t0: TradeState, o: OutPoint,
                          tLocked: set<OutPoint>, tEnv: Env, mLocked: set<OutPoint>, mEnv: Env,
                          tLocked': set<OutPoint>, tEnv': Env, mLocked': set<OutPoint>, mEnv': Env)
    requires Starts(maker, taker, m0, t0) && m0.order.orderType == Bid && w.owner(o) == taker
    requires SellerEnv(o, tLocked, tEnv)
    requires var t1 := ReplyStep(w, taker, t0, tLocked, tEnv);
      && Replies(t1)
      && var m1 := Deliver(maker, m0, t1.reply.value.value);
      Ready(maker, m1) && BuyerEnv(w, maker, m1, o, mLocked, mEnv)
    requires tEnv'.decodes && tEnv'.signs && mEnv'.finalises && mEnv'.sends
    ensures var t1 := ReplyStep(w, taker, t0, tLocked, tEnv);
      var m1 := Deliver(maker, m0, t1.reply.value.value);
      var m2 := ReplyStep(w, maker, m1, mLocked, mEnv);
      && t1.sent.None? && m2.sent.None? && Replies(m2)
      && var t2 := Deliver(taker, t1.trade, m2.reply.value.value);
      && Ready(taker, t2)
      && var t3 := ReplyStep(w, taker, t2, tLocked', tEnv');
      && t3.sent.None? && Replies(t3)
      && var m3 := Deliver(maker, m2.trade, t3.reply.value.value);
      Ready(maker, m3) && Done(w, maker, ReplyStep(w, maker, m3, mLocked', mEnv'), t3.trade)
  {
    hide ReplyStep, EnvOk, BuyerSignStep, SellerSignStep, FinishStep, CreateSellerDataStep, BuyerTradeCheck, ConstructStep;
    hide BuyerSafe, Complete, Combine, Sign, SellerSignatureOk;
    SellerAnswers(w, taker, t0, o, tLocked, tEnv);
    var t1 := ReplyStep(w, taker, t0, tLocked, tEnv);
    var m1 := Deliver(maker, m0, t1.reply.value.value);
    assert m1 == m0.(sellerData := Some(t1.trade.sellerData.value.(nameOutput := None)));
    var tx, k := BuyerBuilds(w, maker, m1, o, mLocked, mEnv);
    BuyerAnswers(w, maker, m1, mLocked, mEnv, tx);
    var before, ours := UnsignedPsbt(tx), SignedAsBuyer(w, maker, tx);
    var m2 := ReplyStep(w, maker, m1, mLocked, mEnv);
    var t2 := Deliver(taker, t1.trade, m2.reply.value.value);
    assert t2 == t1.trade.(theirPsbt := Some(Encoded(before)));
    SellerAccepts(w, taker, t2, maker, m2.trade, before, k);
    var p := Sign(w, taker, before);
    NotYetComplete(w, taker, tx, k);
    TakerSells(w, taker, t2, before, tLocked', tEnv');
    var t3 := ReplyStep(w, taker, t2, tLocked', tEnv');
    var m3 := Deliver(maker, m2.trade, t3.reply.value.value);
    assert m3 == m2.trade.(theirPsbt := Some(Encoded(p)));
    BothSigned(w, maker, taker, tx, k);
    MakerBroadcasts(w, maker, m3, p, mLocked', mEnv');
  }

  /** The two parties' signatures together cover all inputs. */
  lemma BothSigned(w: World, buyer: Account, seller: Account, tx: Tx, k: nat)
    requires IsOnlyForeign(w, buyer, tx.vin, k) && w.owner(tx.vin[k]) == seller
    ensures Complete(w, Combine(Sign(w, seller, UnsignedPsbt(tx)), SignedAsBuyer(w, buyer, tx)))
  {
  }

  /** With a funded input still unsigned, the seller's signature completes nothing. */
  lemma NotYetComplete(w: World, taker: Account, tx: Tx, k: nat)
    requires k < |tx.vin| && |tx.vin| > 1
    requires forall i :: 0 <= i < |tx.vin| && i != k ==> w.owner(tx.vin[i]) != taker
    ensures !Complete(w, Sign(w, taker, UnsignedPsbt(tx)))
  {
    var i := if k == 0 then 1 else 0;
    assert Sign(w, taker, UnsignedPsbt(tx)).inputs[i] == Unsigned;
  }

  // ----------------------------------------------------------- through both managers

  /** The trade is with the other party, about the order of that maker under that id. */
  predicate IsDealing(t: TradeState, other: Account, maker: Account, id: nat) {
    t.counterparty == other && t.order.account == maker && t.order.id == id
  }

  predicate NoDealing(trades: seq<TradeState>, other: Account, maker: Account, id: nat) {
    forall i :: 0 <= i < |trades| ==> !IsDealing(trades[i], other, maker, id)
  }

  /** In a run, a manager has no trade yet about an order of its own that can be locked. */
  lemma OfferedIsUndealt(w: World, cfg: Settings, maker: Account, s: ManagerRuns.Status, taker: Account, id: nat)
    requires ManagerRuns.Reached(w, cfg, maker, s) && CanLock(s.own, id)
    ensures NoDealing(s.trades, taker, maker, id)
  {
    forall i | 0 <= i < |s.trades|
      ensures !IsDealing(s.trades[i], taker, maker, id)
    {
      if IsDealing(s.trades[i], taker, maker, id) {
        ManagerRuns.UnlockedIsUntraded(w, cfg, maker, s, i);
      }
    }
  }

  /** A message of the other side reaches the one trade it is for. */
  lemma DispatchReaches(w: World, me: Account, trades: seq<TradeState>, u: TradeState, p: Account, t: TradeState,
                        payload: Payload, taking: Option<TakingOrder>, locked: set<OutPoint>, env: Env)
    requires NoDealing(trades, p, t.order.account, t.order.id) && IsDealing(u, p, t.order.account, t.order.id)
    requires Ready(me, Deliver(me, u, payload))
    ensures var u1 := Deliver(me, u, payload);
      var r := ReplyStep(w, me, u1, locked, env);
      DispatchStep(w, me, trades + [u], Protocol.Received(Protocol.ReplyPacket(p, t, payload, taking)), locked, env)
        == Dispatched(trades + [r.trade], r.locked,
                      if Replies(r) then Some(ToMessage(u1, r.reply.value.value, None)) else None, SentBy(r))
  {
    hide ReplyStep;
    var msg := Protocol.Received(Protocol.ReplyPacket(p, t, payload, taking));
    forall i | 0 <= i < |trades|
      ensures (trades + [u])[i] == trades[i] && !Matches(trades[i], msg)
    {
      Protocol.MatchesExactly(p, t, trades[i], payload, taking);
    }
    Protocol.MatchesExactly(p, t, u, payload, taking);
    DispatchIsTo(w, me, trades + [u], |trades|, msg, locked, env);
    assert HandleMessageStep(me, u, msg) == Deliver(me, u, payload);
    assert (trades + [u])[|trades| := ReplyStep(w, me, Deliver(me, u, payload), locked, env).trade]
      == trades + [ReplyStep(w, me, Deliver(me, u, payload), locked, env).trade];
  }

  /** A listed order that can be taken for these units, and the total is an amount. */
  predicate IsOffered(own: OwnOrders, id: nat, maker: Account, units: Int64) {
    && CanLock(own, id)
    && var o := Identified(own.orders[id], maker, id);
    && CheckOrder(o, units).Some? && units > 0
    && o.priceSat.value < TWO_63 && o.priceSat.value * units < TWO_63
  }

  /** The buyer's trade with the seller's two new addresses. */
  function Informed(t: TradeState, env: Env): TradeState
    requires env.newNameAddress.Ok? && env.newChiAddress.Ok?
  {
    t.(sellerData := Some(SellerData(Some(env.newNameAddress.value), Some(env.newChiAddress.value), None)))
  }

  /** One broadcast, complete; and in both lists the new trade, pending with the same transaction. */
  ghost predicate Settled(w: World, before: seq<TradeState>, d: Dispatched, before': seq<TradeState>, after': seq<TradeState>,
                          maker: Account, taker: Account, id: nat, units: int, mNow: int, tNow: int)
  {
    && d.Dispatched? && d.reply.None?
    && |d.sent| == 1 && Complete(w, d.sent[0])
    && |d.trades| == |before| + 1 && d.trades[..|before|] == before
    && |after'| == |before'| + 1 && after'[..|before'|] == before'
    && var t, u := d.trades[|before|], after'[|before'|];
    && t.order == u.order && t.order.account == maker && t.order.id == id && t.units == u.units == units
    && t.counterparty == taker && u.counterparty == maker && t.startTime == mNow && u.startTime == tNow
    && t.state == Pending && u.state == Pending && t.ourPsbt.Some? && u.ourPsbt.Some?
    && d.sent[0].tx == t.ourPsbt.value.tx == u.ourPsbt.value.tx
  }

  /** The maker starts the same trade as the taker. */
  lemma BothStart(w: World, maker: Account, taker: Account, own: OwnOrders, id: nat, units: Int64, tNow: int, mNow: int)
    returns (m0: TradeState, t0: TradeState)
    requires maker != taker && IsOffered(own, id, maker, units)
    ensures var o := Identified(own.orders[id], maker, id);
      && t0 == TakenTrade(o, units, tNow)
      && m0 == NewTrade(t0.order, t0.units, taker, mNow) && t0 == NewTrade(t0.order, t0.units, maker, tNow)
      && Starts(maker, taker, m0, t0) && t0.order.id == id
      && forall payload :: var msg := Protocol.Received(Protocol.ReplyPacket(taker, t0, payload, Some(TakingOrder(id, t0.units))));
           !Refuses(maker, own, msg) && Accepted(maker, own, msg, mNow) == m0
  {
    t0 := TakenTrade(Identified(own.orders[id], maker, id), units, tNow);
    m0 := NewTrade(t0.order, t0.units, taker, mNow);
    assert Wrap(ToUint64(units)) == units;
  }

  /**
   A sell order: the taker's call of TakeOrder and three messages, each dispatched by
   the manager that gets it, end with both sides pending and the maker's broadcast.
   */
  lemma SellOrderCompletes(w: World, maker: Account, taker: Account, own: OwnOrders, id: nat, units: Int64,
                           mTrades: seq<TradeState>, tTrades: seq<TradeState>, o: OutPoint,
                           tNow: int, tLocked: set<OutPoint>, tEnv: Env, mNow: int, mLocked: set<OutPoint>, mEnv: Env,
                           tLocked': set<OutPoint>, tEnv': Env, mLocked': set<OutPoint>, mEnv': Env)
    requires maker != taker && IsOffered(own, id, maker, units) && own.orders[id].orderType == Some(Ask)
    requires NoDealing(mTrades, taker, maker, id) && NoDealing(tTrades, maker, maker, id)
    requires w.owner(o) == maker && SellerEnv(o, mLocked, mEnv)
    requires var t0 := TakenTrade(Identified(own.orders[id], maker, id), units, tNow);
      BuyerEnv(w, taker, Informed(t0, mEnv), o, tLocked', tEnv')
    requires mEnv'.decodes && mEnv'.signs && mEnv'.finalises && mEnv'.sends
    ensures var d0 := TakeStep(w, taker, tTrades, Identified(own.orders[id], maker, id), units, tNow, tLocked, tEnv);
      && d0.ok && d0.msg.Some?
      && var taking := Protocol.Received(Protocol.Packet(taker, maker, d0.msg.value));
      && taking.takingOrder.Some? && CanLock(own, taking.takingOrder.value.id) && !Refuses(maker, own, taking)
      && var d1 := DispatchStep(w, maker, mTrades + [Accepted(maker, own, taking, mNow)], taking, mLocked, mEnv);
      && d1.Dispatched? && d1.reply.Some? && d1.sent == []
      && var d2 := DispatchStep(w, taker, d0.trades, Protocol.Received(Protocol.Packet(maker, taker, d1.reply.value)), tLocked', tEnv');
      && d2.Dispatched? && d2.reply.Some? && d2.sent == []
      && var d3 := DispatchStep(w, maker, d1.trades, Protocol.Received(Protocol.Packet(taker, maker, d2.reply.value)), mLocked', mEnv');
      Settled(w, mTrades, d3, tTrades, d2.trades, maker, taker, id, units, mNow, tNow)
  {
    hide ReplyStep, EnvOk, BuyerSignStep, SellerSignStep, FinishStep, CreateSellerDataStep, BuyerTradeCheck, ConstructStep;
    hide DispatchStep, Complete;
    var m0, t0 := BothStart(w, maker, taker, own, id, units, tNow, mNow);
    var nothing := Payload(None, None);
    BuyerWaits(w, taker, t0, tLocked, tEnv);
    assert Deliver(maker, m0, nothing) == m0;
    DispatchReaches(w, maker, mTrades, m0, taker, t0, nothing, Some(TakingOrder(id, t0.units)), mLocked, mEnv);
    SellerAnswers(w, maker, m0, o, mLocked, mEnv);
    var m1 := ReplyStep(w, maker, m0, mLocked, mEnv);
    var t1 := Deliver(taker, t0, m1.reply.value.value);
    assert t1 == Informed(t0, mEnv);
    DispatchReaches(w, taker, tTrades, t0, maker, m0, m1.reply.value.value, None, tLocked', tEnv');
    SellTurns(w, maker, taker, m0, t0, o, mLocked, mEnv, tLocked', tEnv', mLocked', mEnv');
    var t2 := ReplyStep(w, taker, t1, tLocked', tEnv');
    DispatchReaches(w, maker, mTrades, m1.trade, taker, t1, t2.reply.value.value, None, mLocked', mEnv');
    var m2 := Deliver(maker, m1.trade, t2.reply.value.value);
    TurnKeepsDealing(w, taker, t1, tLocked', tEnv');
    TurnKeepsDealing(w, maker, m2, mLocked', mEnv');
  }

  /** A buyer without seller data waits. */
  lemma BuyerWaits(w: World, me: Account, t: TradeState, locked: set<OutPoint>, env: Env)
    requires Ready(me, t) && TypeOf(me, t) == Bid && t.state == Initiated && t.sellerData.None?
    ensures ReplyStep(w, me, t, locked, env) == Outcome(t, locked, Ok(None), None)
  {
  }

  /**
   A buy order: the taker sells, so its call of TakeOrder sends the addresses already;
   then the unsigned transaction, the taker's signature, and the maker's broadcast.
   */
  lemma BuyOrderCompletes(w: World, maker: Account, taker: Account, own: OwnOrders, id: nat, units: Int64,
                          mTrades: seq<TradeState>, tTrades: seq<TradeState>, o: OutPoint,
                          tNow: int, tLocked: set<OutPoint>, tEnv: Env, mNow: int, mLocked: set<OutPoint>, mEnv: Env,
                          tLocked': set<OutPoint>, tEnv': Env, mLocked': set<OutPoint>, mEnv': Env)
    requires maker != taker && IsOffered(own, id, maker, units) && own.orders[id].orderType == Some(Bid)
    requires NoDealing(mTrades, taker, maker, id) && NoDealing(tTrades, maker, maker, id)
    requires w.owner(o) == taker && SellerEnv(o, tLocked, tEnv)
    requires var t0 := TakenTrade(Identified(own.orders[id], maker, id), units, tNow);
      BuyerEnv(w, maker, Informed(NewTrade(t0.order, t0.units, taker, mNow), tEnv), o, mLocked, mEnv)
    requires tEnv'.decodes && tEnv'.signs && mEnv'.finalises && mEnv'.sends
    ensures var d0 := TakeStep(w, taker, tTrades, Identified(own.orders[id], maker, id), units, tNow, tLocked, tEnv);
      && d0.ok && d0.msg.Some?
      && var taking := Protocol.Received(Protocol.Packet(taker, maker, d0.msg.value));
      && taking.takingOrder.Some? && CanLock(own, taking.takingOrder.value.id) && !Refuses(maker, own, taking)
      && var d1 := DispatchStep(w, maker, mTrades + [Accepted(maker, own, taking, mNow)], taking, mLocked, mEnv);
      && d1.Dispatched? && d1.reply.Some? && d1.sent == []
      && var d2 := DispatchStep(w, taker, d0.trades, Protocol.Received(Protocol.Packet(maker, taker, d1.reply.value)), tLocked', tEnv');
      && d2.Dispatched? && d2.reply.Some? && d2.sent == []
      && var d3 := DispatchStep(w, maker, d1.trades, Protocol.Received(Protocol.Packet(taker, maker, d2.reply.value)), mLocked', mEnv');
      Settled(w, mTrades, d3, tTrades, d2.trades, maker, taker, id, units, mNow, tNow)
  {
    hide ReplyStep, EnvOk, BuyerSignStep, SellerSignStep, FinishStep, CreateSellerDataStep, BuyerTradeCheck, ConstructStep;
    hide DispatchStep, Complete;
    var m0, t0 := BothStart(w, maker, taker, own, id, units, tNow, mNow);
    SellerAnswers(w, taker, t0, o, tLocked, tEnv);
    var t1 := ReplyStep(w, taker, t0, tLocked, tEnv);
    var m1 := Deliver(maker, m0, t1.reply.value.value);
    assert m1 == Informed(m0, tEnv);
    DispatchReaches(w, maker, mTrades, m0, taker, t0, t1.reply.value.value, Some(TakingOrder(id, t0.units)), mLocked, mEnv);
    BuyTurns(w, maker, taker, m0, t0, o, tLocked, tEnv, mLocked, mEnv, tLocked', tEnv', mLocked', mEnv');
    var m2 := ReplyStep(w, maker, m1, mLocked, mEnv);
    DispatchReaches(w, taker, tTrades, t1.trade, maker, m1, m2.reply.value.value, None, tLocked', tEnv');
    var t2 := Deliver(taker, t1.trade, m2.reply.value.value);
    var t3 := ReplyStep(w, taker, t2, tLocked', tEnv');
    TurnKeepsDealing(w, maker, m1, mLocked, mEnv);
    DispatchReaches(w, maker, mTrades, m2.trade, taker, t2, t3.reply.value.value, None, mLocked', mEnv');
    var m3 := Deliver(maker, m2.trade, t3.reply.value.value);
    TurnKeepsDealing(w, taker, t2, tLocked', tEnv');
    TurnKeepsDealing(w, maker, m3, mLocked', mEnv');
  }

  /** A turn changes nothing about what is traded with whom since when. */
  lemma TurnKeepsDealing(w: World, me: Account, t: TradeState, locked: set<OutPoint>, env: Env)
    requires Ready(me, t)
    ensures var t' := ReplyStep(w, me, t, locked, env).trade;
      t'.order == t.order && t'.units == t.units && t'.counterparty == t.counterparty && t'.startTime == t.startTime
  {
    TurnFollows(w, me, t, locked, env);
    hide ReplyStep;
  }
}
