/**
 What the trade manager's entry points do to the list of trades, as functions: the
 periodic update with archiving and cleanup, and the dispatch of a message.
 */
module ManagerSteps {
  import opened Wrappers
  import opened Amounts
  import opened Proto
  import opened Psbts
  import opened Lifecycle
  import opened Identifiers
  import opened Orders
  import opened OwnOrderList
  import opened Collecting
  import opened TradeSteps
  import opened TradeRuns
  import opened Bookkeeping

  // ------------------------------------------------------------------- archiving

  /** All trades after one periodic update. */
  function Updated(cfg: Settings, trades: seq<TradeState>, now: int, obs: seq<Observation>): (r: seq<TradeState>)
    requires |obs| == |trades| && forall i :: 0 <= i < |trades| && trades[i].state == Pending ==> trades[i].ourPsbt.Some?
    ensures |r| == |trades|
  {
    seq(|trades|, i requires 0 <= i < |trades| => UpdateStep(cfg, trades[i], now, obs[i]))
  }

  /** All lookups of a periodic update work. */
  predicate AllSurvive(trades: seq<TradeState>, obs: seq<Rpc<Observation>>)
    requires |obs| == |trades|
  {
    forall i :: 0 <= i < |trades| ==> Survives(trades[i], obs[i])
  }

  function SeenAll(obs: seq<Rpc<Observation>>): (r: seq<Observation>)
    ensures |r| == |obs|
  {
    seq(|obs|, i requires 0 <= i < |obs| => Seen(obs[i]))
  }

  function ActiveOf(t: TradeState): seq<TradeState> {
    if IsFinalised(t) then [] else [t]
  }

  function FinalOf(t: TradeState): seq<TradeState> {
    if IsFinalised(t) then [t] else []
  }

  function Actives(trades: seq<TradeState>): seq<TradeState> {
    Collect(ActiveOf, trades)
  }

  function Finals(trades: seq<TradeState>): seq<TradeState> {
    Collect(FinalOf, trades)
  }

  lemma PartitionAppend(trades: seq<TradeState>, t: TradeState)
    ensures Actives(trades + [t]) == Actives(trades) + if IsFinalised(t) then [] else [t]
    ensures Finals(trades + [t]) == Finals(trades) + if IsFinalised(t) then [t] else []
  {
    CollectAppend(ActiveOf, trades, t);
    CollectAppend(FinalOf, trades, t);
  }

  function PublicInfos(me: Account, trades: seq<TradeState>): seq<PublicTrade> {
    seq(|trades|, i requires 0 <= i < |trades| => PublicInfo(me, trades[i]))
  }

  /** What the archive says of each trade. */
  lemma ArchivedExactly(me: Account, finals: seq<TradeState>, i: nat)
    requires i < |finals|
    ensures |PublicInfos(me, finals)| == |finals|
    ensures var t, info := finals[i], PublicInfos(me, finals)[i];
      && info.state == t.state && info.startTime == t.startTime && info.counterparty == t.counterparty
      && info.asset == t.order.asset && info.units == t.units && info.priceSat == t.order.priceSat
      && (info.role == Maker <==> t.order.account == me)
      && (info.orderType == t.order.orderType <==> t.order.account == me)
  {
  }

  /** The archives of the two sides of a trade tell the same story. */
  lemma ArchivesMirror(p: Account, t: TradeState, q: Account, u: TradeState)
    requires p != q && t.counterparty == q && u.counterparty == p
    requires t.order == u.order && t.units == u.units && t.order.account in {p, q}
    ensures var a, b := PublicInfo(p, t), PublicInfo(q, u);
      && a.counterparty == q && b.counterparty == p && a.role != b.role && a.orderType != b.orderType
      && a.asset == b.asset && a.units == b.units && a.priceSat == b.priceSat
      && (a.orderType == Ask <==> Seller(p, t) == p) && (a.role == Maker <==> t.order.account == p)
  {
  }

  lemma NothingArchived(me: Account, updated: seq<TradeState>)
    ensures Actives(updated[..0]) == [] && Finals(updated[..0]) == [] && PublicInfos(me, []) == []
  {
  }

  /** One more trade goes to one of the two lists, and to the archive if it is finalised. */
  lemma OneMoreArchived(me: Account, updated: seq<TradeState>, i: nat)
    requires i < |updated|
    ensures var before, t := updated[..i], updated[i];
      && Actives(updated[..i + 1]) == (if IsFinalised(t) then Actives(before) else Actives(before) + [t])
      && Finals(updated[..i + 1]) == (if IsFinalised(t) then Finals(before) + [t] else Finals(before))
      && PublicInfos(me, Finals(before) + [t]) == PublicInfos(me, Finals(before)) + [PublicInfo(me, t)]
  {
    assert updated[..i + 1] == updated[..i] + [updated[i]];
    PartitionAppend(updated[..i], updated[i]);
  }

  lemma {:induction false} ActivesAreActive(trades: seq<TradeState>)
    ensures forall i :: 0 <= i < |Actives(trades)| ==> !IsFinalised(Actives(trades)[i])
  {
    if trades != [] {
      var init, last := trades[..|trades| - 1], trades[|trades| - 1];
      ActivesAreActive(init);
      PartitionAppend(init, last);
      assert trades == init + [last];
    }
  }

  lemma {:induction false} FinalsAreFinal(trades: seq<TradeState>)
    ensures forall i :: 0 <= i < |Finals(trades)| ==> IsFinalised(Finals(trades)[i])
  {
    if trades != [] {
      var init, last := trades[..|trades| - 1], trades[|trades| - 1];
      FinalsAreFinal(init);
      PartitionAppend(init, last);
      assert trades == init + [last];
    }
  }

  lemma {:induction false} PartitionKeepsAll(trades: seq<TradeState>)
    ensures multiset(trades) == multiset(Actives(trades)) + multiset(Finals(trades))
  {
    if trades != [] {
      var init, last := trades[..|trades| - 1], trades[|trades| - 1];
      PartitionKeepsAll(init);
      PartitionAppend(init, last);
      assert trades == init + [last];
    }
  }

  /** Each trade goes to exactly one side, the right one. */
  lemma PartitionComplete(trades: seq<TradeState>)
    ensures multiset(trades) == multiset(Actives(trades)) + multiset(Finals(trades))
    ensures forall t :: t in Actives(trades) ==> t.state in {Initiated, Pending}
    ensures forall t :: t in Finals(trades) ==> t.state in {Success, Failed, Abandoned}
  {
    ActivesAreActive(trades);
    FinalsAreFinal(trades);
    PartitionKeepsAll(trades);
    forall t | t in Actives(trades)
      ensures t.state in {Initiated, Pending}
    {
      assert !IsFinalised(t);
      match t.state case Initiated => case Pending => case _ =>
    }
  }

  /** Both sides keep the order of the list. */
  lemma PartitionInOrder(a: seq<TradeState>, b: seq<TradeState>)
    ensures Actives(a + b) == Actives(a) + Actives(b)
    ensures Finals(a + b) == Finals(a) + Finals(b)
  {
    CollectConcat(ActiveOf, a, b);
    CollectConcat(FinalOf, a, b);
  }

  // --------------------------------------------------------------------- cleanup

  /** What happens to own orders for finalised trades, until a check fails. */
  function CleanOwn(me: Account, own: OwnOrders, trades: seq<TradeState>, valid: Order -> bool): Option<OwnOrders>
    decreases |trades|
  {
    if trades == [] then Some(own)
    else
      var n := |trades| - 1;
      match CleanOwn(me, own, trades[..n], valid)
      case None => None
      case Some(before) => CleanOne(me, before, trades[n], valid)
  }

  /** One call of HandleSuccess or HandleFailure, unless its check fails. */
  function CleanOne(me: Account, own: OwnOrders, t: TradeState, valid: Order -> bool): Option<OwnOrders> {
    if RoleOf(me, t) == Taker then Some(own)
    else if t.state == Success then
      var removed := RefreshStep(RemoveStep(own, t.order.id), valid);
      var reduced := Reduced(t.order, t.units);
      Some(if WorthKeeping(reduced) && valid(reduced) then RefreshStep(AddStep(removed, reduced), valid) else removed)
    else if CanUnlock(own, t.order.id) then Some(RefreshStep(UnlockStep(own, t.order.id), valid))
    else None
  }

  /**
   After a success of the maker, the remainder is listed under the next identifier,
   with everything but its units as in the order; unless nothing is left, or less
   than the minimum, or it is not valid: then no order is added.
   */
  lemma RemainderListed(me: Account, own: OwnOrders, t: TradeState, valid: Order -> bool)
    requires RoleOf(me, t) == Maker && t.state == Success && t.units <= t.order.maxUnits
    ensures var left := t.order.maxUnits - t.units;
      var rest := Order(None, None, Some(t.order.asset), t.order.minUnits, left, Some(t.order.orderType), Some(t.order.priceSat), false);
      var own' := CleanOne(me, own, t, valid).value;
      if left > 0 && (t.order.minUnits.Some? ==> left >= t.order.minUnits.value) && valid(rest) then
        && own.nextFreeId in own'.orders && own'.orders[own.nextFreeId] == rest
        && own'.nextFreeId == own.nextFreeId + 1
      else own'.nextFreeId == own.nextFreeId && own'.orders.Keys <= own.orders.Keys - {t.order.id}
  {
    assert Reduced(t.order, t.units).locked == false;
  }

  function CleanLock(me: Account, locked: set<OutPoint>, t: TradeState, failing: set<OutPoint>): set<OutPoint> {
    if t.state == Success then locked else FailureRelease(me, t, locked, failing)
  }

  /** The transaction to unlock, if there is one, can be decoded. */
  predicate CanClean(me: Account, t: TradeState, failing: Rpc<set<OutPoint>>) {
    t.state != Success && TypeOf(me, t) == Bid && t.ourPsbt.Some? ==> failing.Ok?
  }

  function FailingOf(failing: Rpc<set<OutPoint>>): set<OutPoint> {
    if failing.Ok? then failing.value else {}
  }

  /** The outputs that the cleanup of failed trades may unlock. */
  function Releasable(me: Account, trades: seq<TradeState>): set<OutPoint>
    decreases |trades|
  {
    if trades == [] then {}
    else
      var n := |trades| - 1;
      var t := trades[n];
      Releasable(me, trades[..n])
      + (if t.state != Success && t.sellerData.Some? && t.sellerData.value.nameOutput.Some?
         then {t.sellerData.value.nameOutput.value} else {})
      + (if t.state != Success && TypeOf(me, t) == Bid && t.ourPsbt.Some? then OutPointsOf(t.ourPsbt.value.tx) else {})
  }

  lemma ReleasableOne(me: Account, t: TradeState)
    ensures Releasable(me, [t]) ==
      (if t.state != Success && t.sellerData.Some? && t.sellerData.value.nameOutput.Some?
       then {t.sellerData.value.nameOutput.value} else {})
      + (if t.state != Success && TypeOf(me, t) == Bid && t.ourPsbt.Some? then OutPointsOf(t.ourPsbt.value.tx) else {})
  {
    assert [t][..0] == [];
  }

  lemma ReleasableMore(me: Account, trades: seq<TradeState>, i: nat)
    requires i < |trades|
    ensures Releasable(me, trades[..i + 1]) == Releasable(me, trades[..i]) + Releasable(me, [trades[i]])
  {
    assert trades[..i + 1][..i] == trades[..i];
    ReleasableOne(me, trades[i]);
  }

  lemma {:induction false} ReleasablePrefix(me: Account, trades: seq<TradeState>, n: nat)
    requires n <= |trades|
    ensures Releasable(me, trades[..n]) <= Releasable(me, trades)
    decreases |trades|
  {
    if n < |trades| {
      ReleasablePrefix(me, trades[..|trades| - 1], n);
      assert trades[..|trades| - 1][..n] == trades[..n];
    } else {
      assert trades[..n] == trades;
    }
  }

  /** What happens to wallet locks, if some outputs cannot be unlocked. */
  function CleanLocks(me: Account, locked: set<OutPoint>, trades: seq<TradeState>, failing: set<OutPoint>): set<OutPoint>
    decreases |trades|
  {
    if trades == [] then locked
    else
      var n := |trades| - 1;
      CleanLock(me, CleanLocks(me, locked, trades[..n], failing), trades[n], failing)
  }

  /** If all calls can be made, those for a prefix can. */
  lemma {:induction false} CleanPrefix(me: Account, own: OwnOrders, trades: seq<TradeState>, valid: Order -> bool, n: nat)
    requires n <= |trades|
    ensures CleanOwn(me, own, trades, valid).Some? ==> CleanOwn(me, own, trades[..n], valid).Some?
    decreases |trades|
  {
    if n < |trades| {
      CleanPrefix(me, own, trades[..|trades| - 1], valid, n);
      assert trades[..|trades| - 1][..n] == trades[..n];
    } else {
      assert trades[..n] == trades;
    }
  }

  // -------------------------------------------------------------- what trades need

  /** A trade that can be processed and updated. */
  predicate Processable(me: Account, t: TradeState) {
    Storable(me, t) && (t.state == Pending ==> t.ourPsbt.Some?)
  }

  predicate AllProcessable(me: Account, trades: seq<TradeState>) {
    forall i :: 0 <= i < |trades| ==> Processable(me, trades[i])
  }

  lemma HandleKeepsProcessable(me: Account, t: TradeState, msg: Message)
    requires Processable(me, t)
    ensures Processable(me, HandleMessageStep(me, t, msg))
  {
  }

  lemma TurnKeepsProcessable(w: World, me: Account, t: TradeState, locked: set<OutPoint>, env: Env)
    requires Processable(me, t) && TurnOrEnd(w, me, t, locked, env).Some?
    ensures Processable(me, TurnOrEnd(w, me, t, locked, env).value.trade)
  {
    hide SellerSignStep, BuyerSignStep, SignedAsBuyer, Complete, Combine;
  }

  lemma UpdateKeepsProcessable(cfg: Settings, me: Account, t: TradeState, now: int, obs: Observation)
    requires Processable(me, t)
    ensures Processable(me, UpdateStep(cfg, t, now, obs))
  {
    var t' := UpdateStep(cfg, t, now, obs);
    assert t' == t.(state := t'.state, conflictHeight := t'.conflictHeight);
  }

  lemma ActivesKeepProcessable(cfg: Settings, me: Account, trades: seq<TradeState>, now: int, obs: seq<Observation>)
    requires |obs| == |trades| && AllProcessable(me, trades)
    ensures AllProcessable(me, Actives(Updated(cfg, trades, now, obs)))
  {
    var updated := Updated(cfg, trades, now, obs);
    forall i | 0 <= i < |updated|
      ensures Processable(me, updated[i])
    {
      UpdateKeepsProcessable(cfg, me, trades[i], now, obs[i]);
    }
    ActivesSubset(updated);
    forall i | 0 <= i < |Actives(updated)|
      ensures Processable(me, Actives(updated)[i])
    {
      assert Actives(updated)[i] in updated;
    }
  }

  lemma UpdatedAt(cfg: Settings, trades: seq<TradeState>, now: int, obs: seq<Observation>, i: nat)
    requires |obs| == |trades| && i < |trades|
    requires forall j :: 0 <= j < |trades| && trades[j].state == Pending ==> trades[j].ourPsbt.Some?
    ensures Updated(cfg, trades, now, obs)[i] == UpdateStep(cfg, trades[i], now, obs[i])
  {
  }

  lemma {:induction false} ActivesSubset(trades: seq<TradeState>)
    ensures forall t :: t in Actives(trades) ==> t in trades
  {
    if trades != [] {
      var init, last := trades[..|trades| - 1], trades[|trades| - 1];
      ActivesSubset(init);
      PartitionAppend(init, last);
      assert trades == init + [last];
    }
  }

  // ------------------------------------------------------------------ taking an order

  /** A new trade has no use for its total yet, and broadcasts nothing. */
  lemma NewTradeTurn(w: World, me: Account, order: Terms, units: Uint64, counterparty: Account, now: int,
                     locked: set<OutPoint>, env: Env)
    requires counterparty != me && (order.account == me || order.account == counterparty)
    ensures var t := NewTrade(order, units, counterparty, now);
      && Answerable(me, t) && Processable(me, t)
      && TurnOrEnd(w, me, t, locked, env) == Some(ReplyStep(w, me, t, locked, env))
      && Processable(me, ReplyStep(w, me, t, locked, env).trade)
      && ReplyStep(w, me, t, locked, env).sent.None?
  {
    var t := NewTrade(order, units, counterparty, now);
    TurnKeepsProcessable(w, me, t, locked, env);
  }

  datatype Taken = Taken(ok: bool, trades: seq<TradeState>, locked: set<OutPoint>, msg: Option<Message>)

  /** Somebody else's order for fitting units is taken, unless the first turn throws. */
  ghost function TakeStep(w: World, me: Account, trades: seq<TradeState>, o: Order, units: Int64, now: int,
                          locked: set<OutPoint>, env: Env): Taken
  {
    if CheckOrder(o, units).None? || CheckOrder(o, units).value.account == me then Taken(false, trades, locked, None)
    else
      var t := TakenTrade(o, units, now);
      var r := ReplyStep(w, me, t, locked, env);
      if r.reply.Throws? then Taken(false, trades, r.locked, None)
      else
        var payload := if r.reply.value.Some? then r.reply.value.value else Payload(None, None);
        Taken(true, trades + [r.trade], r.locked, Some(ToMessage(t, payload, Some(TakingOrder(t.order.id, t.units)))))
  }

  lemma TakeKeepsProcessable(w: World, me: Account, trades: seq<TradeState>, o: Order, units: Int64, now: int,
                             locked: set<OutPoint>, env: Env)
    requires AllProcessable(me, trades)
    ensures AllProcessable(me, TakeStep(w, me, trades, o, units, now, locked, env).trades)
  {
    if CheckOrder(o, units).Some? && CheckOrder(o, units).value.account != me {
      var t := TakenTrade(o, units, now);
      NewTradeTurn(w, me, t.order, t.units, t.counterparty, now, locked, env);
      hide ReplyStep, Storable;
    }
  }

  // ------------------------------------------------------------ having one's order taken

  /** The order a message asks for, as TryLock hands it out. */
  function Wanted(me: Account, own: OwnOrders, msg: Message): Order
    requires msg.takingOrder.Some? && CanLock(own, msg.takingOrder.value.id)
  {
    Identified(own.orders[msg.takingOrder.value.id], me, msg.takingOrder.value.id)
  }

  /** The checks that OrderTaken makes. */
  predicate Refuses(me: Account, own: OwnOrders, msg: Message)
    requires msg.takingOrder.Some? && CanLock(own, msg.takingOrder.value.id)
  {
    CheckOrder(Wanted(me, own, msg), Wrap(msg.takingOrder.value.units)).None? || msg.counterparty == me
  }

  function Accepted(me: Account, own: OwnOrders, msg: Message, now: int): TradeState
    requires msg.takingOrder.Some? && CanLock(own, msg.takingOrder.value.id) && !Refuses(me, own, msg)
  {
    var units := Wrap(msg.takingOrder.value.units);
    NewTrade(CheckOrder(Wanted(me, own, msg), units).value, ToUint64(units), msg.counterparty, now)
  }

  /** The order list after locking the wanted order and refreshing. */
  function AfterLock(own: OwnOrders, msg: Message, valid: Order -> bool): OwnOrders
    requires msg.takingOrder.Some? && CanLock(own, msg.takingOrder.value.id)
  {
    RefreshStep(LockStep(own, msg.takingOrder.value.id), valid)
  }

  // -------------------------------------------------------------------- dispatch

  /** The first trade a message matches, or the length of the list. */
  function FirstMatch(trades: seq<TradeState>, msg: Message): (i: nat)
    ensures i <= |trades|
    ensures i < |trades| ==> Matches(trades[i], msg)
    ensures forall j :: 0 <= j < i ==> !Matches(trades[j], msg)
  {
    if trades == [] || Matches(trades[0], msg) then 0 else 1 + FirstMatch(trades[1..], msg)
  }

  lemma FirstMatchUnique(trades: seq<TradeState>, msg: Message, i: nat)
    requires i <= |trades| && (i < |trades| ==> Matches(trades[i], msg))
    requires forall j :: 0 <= j < i ==> !Matches(trades[j], msg)
    ensures FirstMatch(trades, msg) == i
  {
  }

  /** A trade handles a message and takes its turn, in one block. */
  ghost function Processed(w: World, me: Account, t: TradeState, msg: Message, locked: set<OutPoint>, env: Env): Option<Outcome> {
    TurnOrEnd(w, me, HandleMessageStep(me, t, msg), locked, env)
  }

  datatype Dispatched =
    | Ended
    | Dispatched(trades: seq<TradeState>, locked: set<OutPoint>, reply: Option<Message>, sent: seq<Psbt>)

  /** What one message does to the list: only the first matching trade is touched. */
  ghost function DispatchStep(w: World, me: Account, trades: seq<TradeState>, msg: Message, locked: set<OutPoint>, env: Env): Dispatched {
    var i := FirstMatch(trades, msg);
    if i == |trades| then Dispatched(trades, locked, None, []) else DispatchTo(w, me, trades, i, msg, locked, env)
  }

  ghost function DispatchTo(w: World, me: Account, trades: seq<TradeState>, i: nat, msg: Message, locked: set<OutPoint>,
                            env: Env): Dispatched
    requires i < |trades|
  {
    match Processed(w, me, trades[i], msg, locked, env)
    case None => Ended
    case Some(r) =>
      var reply :=
        if Replies(r) then Some(ToMessage(HandleMessageStep(me, trades[i], msg), r.reply.value.value, None)) else None;
      Dispatched(trades[i := r.trade], r.locked, reply, SentBy(r))
  }

  lemma DispatchIsTo(w: World, me: Account, trades: seq<TradeState>, i: nat, msg: Message, locked: set<OutPoint>, env: Env)
    requires i <= |trades| && (i < |trades| ==> Matches(trades[i], msg))
    requires forall j :: 0 <= j < i ==> !Matches(trades[j], msg)
    ensures DispatchStep(w, me, trades, msg, locked, env) ==
      if i == |trades| then Dispatched(trades, locked, None, []) else DispatchTo(w, me, trades, i, msg, locked, env)
  {
    FirstMatchUnique(trades, msg, i);
  }

  lemma DispatchKeepsProcessable(w: World, me: Account, trades: seq<TradeState>, msg: Message, locked: set<OutPoint>, env: Env)
    requires AllProcessable(me, trades) && DispatchStep(w, me, trades, msg, locked, env).Dispatched?
    ensures AllProcessable(me, DispatchStep(w, me, trades, msg, locked, env).trades)
  {
    var i := FirstMatch(trades, msg);
    if i < |trades| {
      HandleKeepsProcessable(me, trades[i], msg);
      TurnKeepsProcessable(w, me, HandleMessageStep(me, trades[i], msg), locked, env);
    }
  }

  /** The node keeps its contract with the trade that a message is for. */
  ghost predicate DispatchEnvOk(w: World, me: Account, trades: seq<TradeState>, msg: Message, locked: set<OutPoint>, env: Env) {
    var i := FirstMatch(trades, msg);
    i < |trades| ==> EnvOk(w, me, trades[i], locked, env)
  }
}
