/**
 The outputs that trades reserve in the wallet: always locked, never shared between
 two trades, and released by a failure without touching those of any other trade.
 */
module Reservations {
  import opened Wrappers
  import opened Proto
  import opened Psbts
  import opened Chain
  import opened Construction
  import opened Lifecycle
  import opened TradeSteps
  import opened TradeSafety
  import opened Bookkeeping

  /** A seller reserves the name output, a buyer the funded inputs of our PSBT. */
  function ReservedBy(w: World, me: Account, t: TradeState): set<OutPoint> {
    if TypeOf(me, t) == Ask then
      if t.sellerData.Some? && t.sellerData.value.nameOutput.Some? then {t.sellerData.value.nameOutput.value} else {}
    else if t.ourPsbt.Some? then
      set o | o in t.ourPsbt.value.tx.vin && w.nameOf(o).None?
    else {}
  }

  predicate HasTrade(p: Proc) {
    p.Live? || p.Failing? || p.Releasing? || p.Succeeding?
  }

  /** The outputs reserved by a trade that is active or awaits its cleanup. */
  function ReservedOf(w: World, me: Account, p: Proc): set<OutPoint> {
    if HasTrade(p) then ReservedBy(w, me, p.t) else {}
  }

  /** A seller's recorded output carries the seller's own name. */
  predicate RecordsOwnName(w: World, me: Account, t: TradeState) {
    t.sellerData.Some? && t.sellerData.value.nameOutput.Some? ==>
      w.nameOf(t.sellerData.value.nameOutput.value) == Some(XayaName(me))
  }

  ghost predicate TradeOk(w: World, me: Account, t: TradeState) {
    SafeTrade(w, me, t) && RecordsOwnName(w, me, t)
  }

  ghost predicate TradesOk(w: World, me: Account, b: Book) {
    forall i :: 0 <= i < |b.procs| && HasTrade(b.procs[i]) ==> TradeOk(w, me, b.procs[i].t)
  }

  predicate ReservedLocked(w: World, me: Account, b: Book) {
    forall i :: 0 <= i < |b.procs| ==> ReservedOf(w, me, b.procs[i]) <= b.locked
  }

  predicate ReservedDisjoint(w: World, me: Account, b: Book) {
    forall i, j :: 0 <= i < |b.procs| && 0 <= j < |b.procs| && i != j ==>
      ReservedOf(w, me, b.procs[i]) !! ReservedOf(w, me, b.procs[j])
  }

  ghost predicate WalletInv(w: World, me: Account, b: Book) {
    TradesOk(w, me, b) && ReservedLocked(w, me, b) && ReservedDisjoint(w, me, b)
  }

  /** What we reserve is nameless or carries our own name. */
  lemma ReservedNames(w: World, me: Account, p: Proc, o: OutPoint)
    requires HasTrade(p) ==> RecordsOwnName(w, me, p.t)
    requires o in ReservedOf(w, me, p)
    ensures w.nameOf(o).None? || w.nameOf(o) == Some(XayaName(me))
  {
  }

  // ------------------------------------------------------------- one trade's turn

  /** What one turn may do to the locks. */
  ghost predicate LocksMoved(w: World, me: Account, t: TradeState, locked: set<OutPoint>, t': TradeState, locked': set<OutPoint>) {
    && ReservedBy(w, me, t') <= locked'
    && (ReservedBy(w, me, t') - ReservedBy(w, me, t)) !! locked
    && RecordsOwnName(w, me, t')
    && (forall o :: o in locked && o !in locked' ==> w.nameOf(o) == Some(XayaName(t.counterparty)))
  }

  lemma BuyerLocks(w: World, me: Account, t: TradeState, locked: set<OutPoint>, env: Env)
    requires TradeOk(w, me, t) && EnvOk(w, me, t, locked, env)
    requires TypeOf(me, t) == Bid && t.sellerData.Some? && t.ourPsbt.None?
    ensures var b := BuyerSignStep(w, me, t, locked, env);
      && (forall o :: o in locked && o !in b.locked ==> w.nameOf(o) == Some(XayaName(t.counterparty)))
      && (b.result.Ok? && b.result.value.Some? ==>
            var reserved := set o | o in b.result.value.value.vin && w.nameOf(o).None?;
            reserved <= b.locked && reserved !! locked)
  {
    var check := BuyerTradeCheck(env.view);
    if check.Ok? && check.value.Some? {
      var nameInput := check.value.value;
      assert nameInput == env.view.nameShow.value;
      var c := ConstructStep(w, me, t, nameInput, locked, env);
      if c.result.Ok? {
        var tx := c.result.value;
        var funded := PartsOf(w, me, t, nameInput, locked, env, tx);
        JoinedElements(tx.vin, funded.vin, [nameInput]);
      }
    }
  }

  lemma SellerTurnLocks(w: World, me: Account, t: TradeState, locked: set<OutPoint>, env: Env)
    requires TradeOk(w, me, t) && EnvOk(w, me, t, locked, env) && ReservedBy(w, me, t) <= locked
    requires TypeOf(me, t) == Ask
    ensures var o := ReplyStep(w, me, t, locked, env);
      LocksMoved(w, me, t, locked, o.trade, o.locked)
  {
    SellerShape(w, me, t, locked, env);
  }

  lemma BuyerTurnLocks(w: World, me: Account, t: TradeState, locked: set<OutPoint>, env: Env)
    requires TradeOk(w, me, t) && EnvOk(w, me, t, locked, env) && ReservedBy(w, me, t) <= locked
    requires TypeOf(me, t) == Bid
    ensures var o := ReplyStep(w, me, t, locked, env);
      LocksMoved(w, me, t, locked, o.trade, o.locked)
  {
    BuyerShape(w, me, t, locked, env);
    if t.state == Initiated && t.sellerData.Some? && t.ourPsbt.None? {
      BuyerLocks(w, me, t, locked, env);
    }
  }

  lemma TurnLocks(w: World, me: Account, t: TradeState, locked: set<OutPoint>, env: Env)
    requires TradeOk(w, me, t) && EnvOk(w, me, t, locked, env) && ReservedBy(w, me, t) <= locked
    ensures var o := ReplyStep(w, me, t, locked, env);
      LocksMoved(w, me, t, locked, o.trade, o.locked)
  {
    if TypeOf(me, t) == Ask {
      SellerTurnLocks(w, me, t, locked, env);
    } else {
      BuyerTurnLocks(w, me, t, locked, env);
    }
  }

  // ---------------------------------------------------------------- system steps

  /** One trade moves along, with its locks; all others stay as they are. */
  lemma MoveKeepsWallet(w: World, me: Account, b: Book, b': Book, i: nat, t': TradeState)
    requires WalletInv(w, me, b) && IsLive(b, i)
    requires b'.procs == b.procs[i := Live(t')] && SafeTrade(w, me, t')
    requires LocksMoved(w, me, b.procs[i].t, b.locked, t', b'.locked)
    ensures WalletInv(w, me, b')
  {
    var t := b.procs[i].t;
    assert SafeTrade(w, me, t);
    forall j | 0 <= j < |b.procs| && j != i
      ensures ReservedOf(w, me, b'.procs[j]) <= b'.locked
      ensures ReservedOf(w, me, b'.procs[j]) !! ReservedBy(w, me, t')
    {
      forall o | o in ReservedOf(w, me, b.procs[j])
        ensures o in b'.locked && o !in ReservedBy(w, me, t')
      {
        assert o in b.locked && o !in ReservedOf(w, me, b.procs[i]);
        ReservedNames(w, me, b.procs[j], o);
      }
    }
  }

  /** A new trade comes in, with its locks. */
  lemma NewKeepsWallet(w: World, me: Account, b: Book, b': Book, t: TradeState, t': TradeState)
    requires WalletInv(w, me, b) && b'.procs == b.procs + [Live(t')]
    requires ReservedBy(w, me, t) == {} && TwoParties(me, t) && SafeTrade(w, me, t')
    requires LocksMoved(w, me, t, b.locked, t', b'.locked)
    ensures WalletInv(w, me, b')
  {
    hide SafeTrade;
    OthersStayLocked(w, me, b, t, b'.locked);
    assert forall j :: 0 <= j < |b.procs| ==> b'.procs[j] == b.procs[j];
    assert forall j :: 0 <= j < |b.procs| ==> ReservedOf(w, me, b.procs[j]) !! ReservedBy(w, me, t');
  }

  lemma OthersStayLocked(w: World, me: Account, b: Book, t: TradeState, locked': set<OutPoint>)
    requires TradesOk(w, me, b) && ReservedLocked(w, me, b) && TwoParties(me, t)
    requires forall o :: o in b.locked && o !in locked' ==> w.nameOf(o) == Some(XayaName(t.counterparty))
    ensures forall j :: 0 <= j < |b.procs| ==> ReservedOf(w, me, b.procs[j]) <= locked'
  {
    forall j, o | 0 <= j < |b.procs| && o in ReservedOf(w, me, b.procs[j])
      ensures o in locked'
    {
      ReservedNames(w, me, b.procs[j], o);
    }
  }

  /** A trade keeps or gives up its reservation without touching the locks. */
  lemma SettleKeepsWallet(w: World, me: Account, b: Book, b': Book, i: nat, p: Proc)
    requires WalletInv(w, me, b) && i < |b.procs| && b'.locked == b.locked
    requires b'.procs == b.procs[i := p]
    requires ReservedOf(w, me, p) <= ReservedOf(w, me, b.procs[i])
    requires HasTrade(p) ==> TradeOk(w, me, p.t)
    ensures WalletInv(w, me, b')
  {
  }

  /**
   What HandleFailure unlocks: of the trade's own reservation everything except the
   outputs for which the call fails, and nothing that another trade has reserved.
   */
  lemma FailureReleasesOwn(w: World, me: Account, b: Book, i: nat, failing: set<OutPoint>)
    requires WalletInv(w, me, b) && i < |b.procs| && b.procs[i].Releasing?
    ensures var locked' := FailureRelease(me, b.procs[i].t, b.locked, failing);
      && locked' * ReservedOf(w, me, b.procs[i]) == failing * ReservedOf(w, me, b.procs[i])
      && forall j :: 0 <= j < |b.procs| && j != i ==> ReservedOf(w, me, b.procs[j]) <= locked'
  {
    var t := b.procs[i].t;
    var locked' := FailureRelease(me, t, b.locked, failing);
    assert SafeTrade(w, me, t);
    forall o | o in b.locked && o !in locked'
      ensures o in ReservedBy(w, me, t) || w.nameOf(o) == Some(XayaName(t.counterparty))
    {
      if TypeOf(me, t) == Bid {
        var p := t.ourPsbt.value;
        var k :| SignedAllBut(w, me, p, k) && w.nameOf(p.tx.vin[k]) == Some(XayaName(t.counterparty));
        var m :| 0 <= m < |p.tx.vin| && p.tx.vin[m] == o;
        assert m != k ==> w.nameOf(p.tx.vin[m]).None?;
      }
    }
    forall j, o | 0 <= j < |b.procs| && j != i && o in ReservedOf(w, me, b.procs[j])
      ensures o in locked'
    {
      assert o !in ReservedOf(w, me, b.procs[i]);
      ReservedNames(w, me, b.procs[j], o);
    }
  }

  lemma CleanWalletKeepsInv(w: World, me: Account, b: Book, b': Book, i: nat, failing: set<OutPoint>)
    requires WalletInv(w, me, b) && i < |b.procs| && b.procs[i].Releasing?
    requires b'.procs == b.procs[i := Done] && b'.locked == FailureRelease(me, b.procs[i].t, b.locked, failing)
    ensures WalletInv(w, me, b')
  {
    FailureReleasesOwn(w, me, b, i, failing);
  }

  lemma OrderTakenKeepsWallet(w: World, cfg: Settings, me: Account, b: Book, a: Action)
    requires WalletInv(w, me, b) && Enabled(w, me, b, a) && a.OrderTaken?
    ensures WalletInv(w, me, Apply(w, cfg, me, b, a))
  {
    var b' := Apply(w, cfg, me, b, a);
    if !IsRefused(me, b.procs[a.i]) {
      var t := AcceptedTrade(b.procs[a.i], a.now);
      NewTradeIsSafe(w, me, t.order, t.units, t.counterparty, a.now);
      SettleKeepsWallet(w, me, b, b', a.i, Live(t));
    } else {
      SettleKeepsWallet(w, me, b, b', a.i, b'.procs[a.i]);
    }
  }

  /** A message changes nothing that is reserved. */
  lemma ReceiveLocks(w: World, me: Account, t: TradeState, locked: set<OutPoint>, msg: Message)
    requires RecordsOwnName(w, me, t) && ReservedBy(w, me, t) <= locked
    ensures LocksMoved(w, me, t, locked, HandleMessageStep(me, t, msg), locked)
  {
  }

  lemma ReceiveKeepsWallet(w: World, cfg: Settings, me: Account, b: Book, a: Action)
    requires WalletInv(w, me, b) && Enabled(w, me, b, a) && a.Receive?
    ensures WalletInv(w, me, Apply(w, cfg, me, b, a))
  {
    hide HandleMessageStep, SafeTrade, LocksMoved;
    var t := b.procs[a.i].t;
    ReceiveKeepsSafe(w, me, t, a.msg);
    assert ReservedOf(w, me, b.procs[a.i]) <= b.locked;
    ReceiveLocks(w, me, t, b.locked, a.msg);
    MoveKeepsWallet(w, me, b, Apply(w, cfg, me, b, a), a.i, HandleMessageStep(me, t, a.msg));
  }

  lemma TurnKeepsWallet(w: World, cfg: Settings, me: Account, b: Book, a: Action)
    requires WalletInv(w, me, b) && Enabled(w, me, b, a) && a.Turn?
    ensures WalletInv(w, me, Apply(w, cfg, me, b, a))
  {
    var t := b.procs[a.i].t;
    assert ReservedOf(w, me, b.procs[a.i]) <= b.locked;
    TurnKeepsSafe(w, me, t, b.locked, a.env);
    TurnLocks(w, me, t, b.locked, a.env);
    MoveKeepsWallet(w, me, b, Apply(w, cfg, me, b, a), a.i, ReplyStep(w, me, t, b.locked, a.env).trade);
  }

  lemma UpdateKeepsReservation(w: World, cfg: Settings, me: Account, t: TradeState, now: int, obs: Observation)
    requires t.state == Pending ==> t.ourPsbt.Some?
    ensures var t' := UpdateStep(cfg, t, now, obs);
      && ReservedBy(w, me, t') == ReservedBy(w, me, t)
      && (RecordsOwnName(w, me, t) ==> RecordsOwnName(w, me, t'))
  {
    var t' := UpdateStep(cfg, t, now, obs);
    assert t' == t.(state := t'.state, conflictHeight := t'.conflictHeight);
  }

  lemma UpdateKeepsWallet(w: World, cfg: Settings, me: Account, b: Book, a: Action)
    requires WalletInv(w, me, b) && Enabled(w, me, b, a) && a.Update?
    ensures WalletInv(w, me, Apply(w, cfg, me, b, a))
  {
    var t := b.procs[a.i].t;
    var t' := UpdateStep(cfg, t, a.now, a.obs);
    assert TradeOk(w, me, t') && ReservedBy(w, me, t') == ReservedBy(w, me, t) by {
      TickKeepsSafe(w, cfg, me, t, a.now, a.obs);
      UpdateKeepsReservation(w, cfg, me, t, a.now, a.obs);
    }
    SettleKeepsWallet(w, me, b, Apply(w, cfg, me, b, a), a.i, Finalise(t'));
  }

  lemma TakeOrderKeepsWallet(w: World, cfg: Settings, me: Account, b: Book, a: Action)
    requires WalletInv(w, me, b) && Enabled(w, me, b, a) && a.TakeOrder?
    ensures WalletInv(w, me, Apply(w, cfg, me, b, a))
  {
    hide ReplyStep, EnvOk, SafeTrade;
    var t := TakenTrade(a.order, a.units, a.now);
    NewTradeIsSafe(w, me, t.order, t.units, t.counterparty, a.now);
    TurnKeepsSafe(w, me, t, b.locked, a.env);
    TurnLocks(w, me, t, b.locked, a.env);
    var o := ReplyStep(w, me, t, b.locked, a.env);
    if o.reply.Ok? {
      NewKeepsWallet(w, me, b, Apply(w, cfg, me, b, a), t, o.trade);
    } else {
      OthersStayLocked(w, me, b, t, o.locked);
    }
  }

  lemma WalletInvKept(w: World, cfg: Settings, me: Account, b: Book, a: Action)
    requires WalletInv(w, me, b) && Enabled(w, me, b, a)
    ensures WalletInv(w, me, Apply(w, cfg, me, b, a))
  {
    hide ReplyStep, EnvOk, SafeTrade, LocksMoved;
    if MovesTrade(a) {
      match a
      case OrderTaken(i, now) => OrderTakenKeepsWallet(w, cfg, me, b, a);
      case Receive(i, msg) => ReceiveKeepsWallet(w, cfg, me, b, a);
      case Turn(i, env) => TurnKeepsWallet(w, cfg, me, b, a);
      case Update(i, now, obs) => UpdateKeepsWallet(w, cfg, me, b, a);
      case _ =>
    } else {
      var b' := Apply(w, cfg, me, b, a);
      match a
      case TakeOrder(order, units, now, env) => TakeOrderKeepsWallet(w, cfg, me, b, a);
      case Reject(i) => SettleKeepsWallet(w, me, b, b', i, Done);
      case CleanOrder(i) => SettleKeepsWallet(w, me, b, b', i, b'.procs[i]);
      case CleanWallet(i, failing) => CleanWalletKeepsInv(w, me, b, b', i, failing);
      case Recreate(i, valid) => SettleKeepsWallet(w, me, b, b', i, Done);
      case TryLock(id, units, taker) =>
        assert forall j :: 0 <= j < |b.procs| ==> b'.procs[j] == b.procs[j];
      case _ =>
    }
  }
}
