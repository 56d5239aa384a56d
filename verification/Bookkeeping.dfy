/**
 One daemon under concurrency: own orders, trades, finalised trades awaiting cleanup
 and wallet locks. Each action is one block under the state's mutex, or one cleanup
 call; actions of different threads interleave freely.
 */
module Bookkeeping {
  import opened Wrappers
  import opened Amounts
  import opened Proto
  import opened Psbts
  import opened Lifecycle
  import opened Identifiers
  import opened Orders
  import opened OwnOrderList
  import opened TradeSteps
  import opened TradeSafety

  // -------------------------------------------------------------------- states

  /** How far a trade, or the attempt to start one, has come. */
  datatype Proc =
    | Taking(order: Order, units: Int64, taker: Account)
    | Rejected(id: nat)
    | Live(t: TradeState)
    | Failing(t: TradeState)
    | Releasing(t: TradeState)
    | Succeeding(t: TradeState)
    | Recreating(order: Order)
    | Done

  datatype Book = Book(own: OwnOrders, procs: seq<Proc>, locked: set<OutPoint>)

  datatype Action =
    | AddOrder(order: Order, valid: bool)
    | CancelOrder(id: nat)
    | Refresh(keep: set<nat>)
    | TryLock(id: nat, units: Int64, taker: Account)
    | OrderTaken(i: nat, now: int)
    | Reject(i: nat)
    | TakeOrder(order: Order, units: Int64, now: int, env: Env)
    | Receive(i: nat, msg: Message)
    | Turn(i: nat, env: Env)
    | Update(i: nat, now: int, obs: Observation)
    | CleanOrder(i: nat)
    | CleanWallet(i: nat, failing: set<OutPoint>)
    | Recreate(i: nat, valid: bool)

  predicate IsLive(b: Book, i: nat) {
    i < |b.procs| && b.procs[i].Live?
  }

  /**
   HandleFailure: sellers unlock their name output, buyers all inputs, except those
   for which the call fails.
   */
  function FailureRelease(me: Account, t: TradeState, locked: set<OutPoint>, failing: set<OutPoint>): set<OutPoint> {
    var locked1 :=
      if t.sellerData.Some? && t.sellerData.value.nameOutput.Some?
      then AfterUnlock(locked, {t.sellerData.value.nameOutput.value}, failing) else locked;
    if TypeOf(me, t) == Bid && t.ourPsbt.Some?
    then AfterUnlock(locked1, OutPointsOf(t.ourPsbt.value.tx), failing) else locked1
  }

  function Finalise(t: TradeState): Proc {
    match t.state
    case Success => Succeeding(t)
    case Failed => Failing(t)
    case Abandoned => Failing(t)
    case _ => Live(t)
  }

  /** The trade that TakeOrder would start for an order of somebody else. */
  predicate CanTake(me: Account, order: Order, units: Int64, now: int) {
    && CheckOrder(order, units).Some?
    && CheckOrder(order, units).value.account != me
    && Ready(me, TakenTrade(order, units, now))
  }

  function TakenTrade(order: Order, units: Int64, now: int): TradeState
    requires CheckOrder(order, units).Some?
  {
    var terms := CheckOrder(order, units).value;
    NewTrade(terms, ToUint64(units), terms.account, now)
  }

  /** The trade that OrderTaken starts for one of our orders, unless it refuses. */
  predicate IsRefused(me: Account, p: Proc)
    requires p.Taking?
  {
    CheckOrder(p.order, p.units).None? || p.taker == me
  }

  function AcceptedTrade(p: Proc, now: int): TradeState
    requires p.Taking? && CheckOrder(p.order, p.units).Some?
  {
    NewTrade(CheckOrder(p.order, p.units).value, ToUint64(p.units), p.taker, now)
  }

  ghost predicate Enabled(w: World, me: Account, b: Book, a: Action) {
    match a
    case AddOrder(order, valid) => !order.locked
    case CancelOrder(id) => true
    case Refresh(keep) => true
    case TryLock(id, units, taker) => CanLock(b.own, id)
    case OrderTaken(i, now) =>
      && i < |b.procs| && b.procs[i].Taking?
      && (!IsRefused(me, b.procs[i]) ==> Ready(me, AcceptedTrade(b.procs[i], now)))
    case Reject(i) => i < |b.procs| && b.procs[i].Rejected? && CanUnlock(b.own, b.procs[i].id)
    case TakeOrder(order, units, now, env) =>
      CanTake(me, order, units, now) && EnvOk(w, me, TakenTrade(order, units, now), b.locked, env)
    case Receive(i, msg) => IsLive(b, i) && Matches(b.procs[i].t, msg)
    case Turn(i, env) => IsLive(b, i) && Ready(me, b.procs[i].t) && EnvOk(w, me, b.procs[i].t, b.locked, env)
    case Update(i, now, obs) =>
      IsLive(b, i) && (b.procs[i].t.state == Pending ==> b.procs[i].t.ourPsbt.Some?)
    case CleanOrder(i) =>
      && i < |b.procs|
      && (b.procs[i].Succeeding? ||
          (b.procs[i].Failing? &&
            (RoleOf(me, b.procs[i].t) == Maker ==> CanUnlock(b.own, b.procs[i].t.order.id))))
    case CleanWallet(i, failing) => i < |b.procs| && b.procs[i].Releasing?
    case Recreate(i, valid) => i < |b.procs| && b.procs[i].Recreating?
  }

  function SetProc(b: Book, i: nat, p: Proc): Book
    requires i < |b.procs|
  {
    b.(procs := b.procs[i := p])
  }

  /** HandleSuccess up to the re-creation of a reduced order. */
  function AfterSuccess(me: Account, t: TradeState): Proc {
    if RoleOf(me, t) == Maker && WorthKeeping(Reduced(t.order, t.units))
    then Recreating(Reduced(t.order, t.units)) else Done
  }

  ghost function Apply(w: World, cfg: Settings, me: Account, b: Book, a: Action): Book
    requires Enabled(w, me, b, a)
  {
    match a
    case AddOrder(order, valid) => if valid then b.(own := AddStep(b.own, order)) else b
    case CancelOrder(id) => b.(own := RemoveStep(b.own, id))
    case Refresh(keep) => b.(own := b.own.(orders := map id | id in b.own.orders && id in keep :: b.own.orders[id]))
    case TryLock(id, units, taker) =>
      b.(own := LockStep(b.own, id),
         procs := b.procs + [Taking(Identified(b.own.orders[id], me, id), units, taker)])
    case OrderTaken(i, now) =>
      if IsRefused(me, b.procs[i]) then SetProc(b, i, Rejected(if b.procs[i].order.id.Some? then b.procs[i].order.id.value else 0))
      else SetProc(b, i, Live(AcceptedTrade(b.procs[i], now)))
    case Reject(i) => SetProc(b, i, Done).(own := UnlockStep(b.own, b.procs[i].id))
    case TakeOrder(order, units, now, env) =>
      var o := ReplyStep(w, me, TakenTrade(order, units, now), b.locked, env);
      if o.reply.Throws? then b.(locked := o.locked)
      else b.(procs := b.procs + [Live(o.trade)], locked := o.locked)
    case Receive(i, msg) => SetProc(b, i, Live(HandleMessageStep(me, b.procs[i].t, msg)))
    case Turn(i, env) =>
      var o := ReplyStep(w, me, b.procs[i].t, b.locked, env);
      SetProc(b, i, Live(o.trade)).(locked := o.locked)
    case Update(i, now, obs) => SetProc(b, i, Finalise(UpdateStep(cfg, b.procs[i].t, now, obs)))
    case CleanOrder(i) =>
      var t := b.procs[i].t;
      if b.procs[i].Succeeding? then
        SetProc(b, i, AfterSuccess(me, t)).(own := if RoleOf(me, t) == Maker then RemoveStep(b.own, t.order.id) else b.own)
      else
        SetProc(b, i, Releasing(t)).(own := if RoleOf(me, t) == Maker then UnlockStep(b.own, t.order.id) else b.own)
    case CleanWallet(i, failing) =>
      SetProc(b, i, Done).(locked := FailureRelease(me, b.procs[i].t, b.locked, failing))
    case Recreate(i, valid) =>
      SetProc(b, i, Done).(own := if valid then AddStep(b.own, b.procs[i].order) else b.own)
  }

  predicate Initial(b: Book) {
    b.own == OwnOrders(map[], 0) && b.procs == []
  }

  // -------------------------------------------------------------- order locking

  /** The own order, if any, that is reserved for this trade or attempt. */
  function Claim(me: Account, p: Proc): Option<nat> {
    match p
    case Taking(order, _, _) => order.id
    case Rejected(id) => Some(id)
    case Live(t) => if RoleOf(me, t) == Maker then Some(t.order.id) else None
    case Failing(t) => if RoleOf(me, t) == Maker then Some(t.order.id) else None
    case Succeeding(t) => if RoleOf(me, t) == Maker then Some(t.order.id) else None
    case _ => None
  }

  /** Identifiers are below the next free one, and a claimed order is locked or gone. */
  predicate ClaimsLocked(me: Account, b: Book) {
    && (forall id :: id in b.own.orders ==> id < b.own.nextFreeId)
    && (forall i :: 0 <= i < |b.procs| ==> ClaimLocked(me, b, b.procs[i]))
  }

  predicate ClaimLocked(me: Account, b: Book, p: Proc) {
    && (p.Taking? ==> p.order.id.Some? && p.order.account == Some(me) && !p.order.locked)
    && (p.Recreating? ==> !p.order.locked)
    && (Claim(me, p).Some? ==>
          && Claim(me, p).value < b.own.nextFreeId
          && (Claim(me, p).value in b.own.orders ==> b.own.orders[Claim(me, p).value].locked))
  }

  /** No order is claimed twice. */
  predicate ClaimsDistinct(me: Account, b: Book) {
    forall i, j :: 0 <= i < j < |b.procs| && Claim(me, b.procs[i]).Some? ==>
      Claim(me, b.procs[i]) != Claim(me, b.procs[j])
  }

  /** A locked order is locked for somebody. */
  ghost predicate LocksClaimed(me: Account, b: Book) {
    forall id :: id in b.own.orders && b.own.orders[id].locked ==> IsClaimed(me, b, id)
  }

  ghost predicate IsClaimed(me: Account, b: Book, id: nat) {
    exists i :: 0 <= i < |b.procs| && Claim(me, b.procs[i]) == Some(id)
  }

  ghost predicate OrdersInv(me: Account, b: Book) {
    ClaimsLocked(me, b) && ClaimsDistinct(me, b) && LocksClaimed(me, b)
  }

  /** Steps that only move one trade along keep its claim. */
  lemma SameClaims(me: Account, b: Book, b': Book, i: nat, p: Proc)
    requires OrdersInv(me, b) && b'.own == b.own
    requires i < |b.procs| && b'.procs == b.procs[i := p]
    requires Claim(me, p) == Claim(me, b.procs[i]) && !p.Taking? && !p.Recreating?
    ensures OrdersInv(me, b')
  {
    forall id | id in b'.own.orders && b'.own.orders[id].locked
      ensures IsClaimed(me, b', id)
    {
      var j :| 0 <= j < |b.procs| && Claim(me, b.procs[j]) == Some(id);
      assert Claim(me, b'.procs[j]) == Some(id);
    }
  }

  /** Removing orders never hurts. */
  lemma FewerOrders(me: Account, b: Book, b': Book)
    requires OrdersInv(me, b) && b'.procs == b.procs && b'.own.nextFreeId == b.own.nextFreeId
    requires forall id :: id in b'.own.orders ==> id in b.own.orders && b'.own.orders[id] == b.own.orders[id]
    ensures OrdersInv(me, b')
  {
    forall id | id in b'.own.orders && b'.own.orders[id].locked
      ensures IsClaimed(me, b', id)
    {
      var j :| 0 <= j < |b.procs| && Claim(me, b.procs[j]) == Some(id);
      assert Claim(me, b'.procs[j]) == Some(id);
    }
  }

  /** A trade gives up its claim when its order is unlocked or removed. */
  lemma ClaimReleased(me: Account, b: Book, b': Book, i: nat, p: Proc)
    requires OrdersInv(me, b)
    requires i < |b.procs| && b'.procs == b.procs[i := p]
    requires Claim(me, p).None? && !p.Taking?
    requires p.Recreating? ==> !p.order.locked
    requires Claim(me, b.procs[i]).Some? ==>
      var id := Claim(me, b.procs[i]).value;
      b'.own == RemoveStep(b.own, id) || (CanUnlock(b.own, id) && b'.own == UnlockStep(b.own, id))
    requires Claim(me, b.procs[i]).None? ==> b'.own == b.own
    ensures OrdersInv(me, b')
  {
    forall j | 0 <= j < |b'.procs|
      ensures ClaimLocked(me, b', b'.procs[j])
    {
      if j != i {
        assert ClaimLocked(me, b, b.procs[j]);
        assert Claim(me, b.procs[j]).Some? ==> Claim(me, b.procs[j]) != Claim(me, b.procs[i]);
      }
    }
    forall id | id in b'.own.orders && b'.own.orders[id].locked
      ensures IsClaimed(me, b', id)
    {
      assert id in b.own.orders && b.own.orders[id].locked;
      var j :| 0 <= j < |b.procs| && Claim(me, b.procs[j]) == Some(id);
      assert j != i;
      assert Claim(me, b'.procs[j]) == Some(id);
    }
  }

  /** A fresh, unlocked order under the next identifier is claimed by nobody. */
  lemma OrderAdded(me: Account, b: Book, b': Book, o: Order)
    requires OrdersInv(me, b) && !o.locked
    requires b'.own == AddStep(b.own, o) && b'.procs == b.procs
    ensures OrdersInv(me, b')
  {
    forall id | id in b'.own.orders && b'.own.orders[id].locked
      ensures IsClaimed(me, b', id)
    {
      assert id in b.own.orders && b.own.orders[id].locked;
      var j :| 0 <= j < |b.procs| && Claim(me, b.procs[j]) == Some(id);
      assert Claim(me, b'.procs[j]) == Some(id);
    }
  }

  lemma OrderLocked(me: Account, b: Book, b': Book, id: nat, units: Int64, taker: Account)
    requires OrdersInv(me, b) && CanLock(b.own, id)
    requires b'.own == LockStep(b.own, id)
    requires b'.procs == b.procs + [Taking(Identified(b.own.orders[id], me, id), units, taker)]
    ensures OrdersInv(me, b')
  {
    var n := |b.procs|;
    assert Claim(me, b'.procs[n]) == Some(id);
    forall i | 0 <= i < n
      ensures ClaimLocked(me, b', b'.procs[i]) && Claim(me, b'.procs[i]) != Some(id)
    {
      assert ClaimLocked(me, b, b.procs[i]);
    }
    forall k | k in b'.own.orders && b'.own.orders[k].locked
      ensures IsClaimed(me, b', k)
    {
      if k != id {
        var j :| 0 <= j < n && Claim(me, b.procs[j]) == Some(k);
        assert Claim(me, b'.procs[j]) == Some(k);
      }
    }
  }

  lemma TakerAdded(me: Account, b: Book, b': Book, t: TradeState)
    requires OrdersInv(me, b) && b'.own == b.own && b'.procs == b.procs + [Live(t)]
    requires RoleOf(me, t) == Taker
    ensures OrdersInv(me, b')
  {
    forall id | id in b'.own.orders && b'.own.orders[id].locked
      ensures IsClaimed(me, b', id)
    {
      var j :| 0 <= j < |b.procs| && Claim(me, b.procs[j]) == Some(id);
      assert Claim(me, b'.procs[j]) == Some(id);
    }
  }

  /** A turn changes neither the order nor the units of a trade. */
  lemma TurnKeepsOrder(w: World, me: Account, t: TradeState, locked: set<OutPoint>, env: Env)
    requires Ready(me, t)
    ensures var t' := ReplyStep(w, me, t, locked, env).trade;
      t'.order == t.order && t'.units == t.units
  {
    TurnFollows(w, me, t, locked, env);
    hide ReplyStep;
  }

  /** Actions by which one trade or attempt moves along. */
  predicate MovesTrade(a: Action) {
    a.OrderTaken? || a.Receive? || a.Turn? || a.Update?
  }

  /** Such an action replaces one entry, which keeps its claim. */
  lemma MoveKeepsClaim(w: World, cfg: Settings, me: Account, b: Book, a: Action) returns (p: Proc)
    requires OrdersInv(me, b) && Enabled(w, me, b, a) && MovesTrade(a)
    ensures var b' := Apply(w, cfg, me, b, a);
      a.i < |b.procs| && b'.own == b.own && b'.procs == b.procs[a.i := p]
    ensures Claim(me, p) == Claim(me, b.procs[a.i]) && !p.Taking? && !p.Recreating?
  {
    hide ReplyStep, EnvOk;
    assert ClaimLocked(me, b, b.procs[a.i]);
    match a
    case OrderTaken(i, now) =>
      p := if IsRefused(me, b.procs[i]) then Rejected(b.procs[i].order.id.value) else Live(AcceptedTrade(b.procs[i], now));
    case Receive(i, msg) => p := Live(HandleMessageStep(me, b.procs[i].t, msg));
    case Turn(i, env) =>
      TurnKeepsOrder(w, me, b.procs[i].t, b.locked, env);
      p := Live(ReplyStep(w, me, b.procs[i].t, b.locked, env).trade);
    case Update(i, now, obs) => p := Finalise(UpdateStep(cfg, b.procs[i].t, now, obs));
    case _ =>
  }

  lemma MovesKeepOrdersInv(w: World, cfg: Settings, me: Account, b: Book, a: Action)
    requires OrdersInv(me, b) && Enabled(w, me, b, a) && MovesTrade(a)
    ensures OrdersInv(me, Apply(w, cfg, me, b, a))
  {
    var p := MoveKeepsClaim(w, cfg, me, b, a);
    hide Apply, Enabled;
    SameClaims(me, b, Apply(w, cfg, me, b, a), a.i, p);
  }

  /** Actions by which a trade or attempt gives its order back. */
  predicate GivesBack(a: Action) {
    a.Reject? || a.CleanOrder? || a.CleanWallet? || a.Recreate?
  }

  lemma GivingBackKeepsOrdersInv(w: World, cfg: Settings, me: Account, b: Book, a: Action)
    requires OrdersInv(me, b) && Enabled(w, me, b, a) && GivesBack(a)
    ensures OrdersInv(me, Apply(w, cfg, me, b, a))
  {
    var b' := Apply(w, cfg, me, b, a);
    match a
    case Reject(i) => ClaimReleased(me, b, b', i, Done);
    case CleanOrder(i) =>
      ClaimReleased(me, b, b', i, if b.procs[i].Succeeding? then AfterSuccess(me, b.procs[i].t) else Releasing(b.procs[i].t));
    case CleanWallet(i, failing) => ClaimReleased(me, b, b', i, Done);
    case Recreate(i, valid) =>
      assert ClaimLocked(me, b, b.procs[i]);
      ClaimReleased(me, b, SetProc(b, i, Done), i, Done);
      if valid {
        OrderAdded(me, SetProc(b, i, Done), b', b.procs[i].order);
      }
    case _ =>
  }

  lemma OrdersInvKept(w: World, cfg: Settings, me: Account, b: Book, a: Action)
    requires OrdersInv(me, b) && Enabled(w, me, b, a)
    ensures OrdersInv(me, Apply(w, cfg, me, b, a))
  {
    if MovesTrade(a) {
      MovesKeepOrdersInv(w, cfg, me, b, a);
    } else if GivesBack(a) {
      GivingBackKeepsOrdersInv(w, cfg, me, b, a);
    } else {
      var b' := Apply(w, cfg, me, b, a);
      match a
      case AddOrder(order, valid) =>
        if valid {
          OrderAdded(me, b, b', order);
        }
      case CancelOrder(id) => FewerOrders(me, b, b');
      case Refresh(keep) => FewerOrders(me, b, b');
      case TryLock(id, units, taker) => OrderLocked(me, b, b', id, units, taker);
      case TakeOrder(order, units, now, env) =>
        TurnKeepsOrder(w, me, TakenTrade(order, units, now), b.locked, env);
        var o := ReplyStep(w, me, TakenTrade(order, units, now), b.locked, env);
        if o.reply.Ok? {
          TakerAdded(me, b, b', o.trade);
        }
      case _ =>
    }
  }
}
