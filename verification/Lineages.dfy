/**
 Units under concurrency: through every interleaving of partial fills, failures,
 cancellations and re-creations, no unit of an own order is sold twice or lost.
 */
module Lineages {
  import opened Wrappers
  import opened Amounts
  import opened Proto
  import opened Psbts
  import opened Lifecycle
  import opened Orders
  import opened OwnOrderList
  import opened TradeSteps
  import opened Bookkeeping
  import opened BookRuns

  /**
   What an observer writes down: for each identifier the order it descends from, the
   size of that original order, the units sold by its successful maker trades, and
   the original of each order that is being re-created.
   */
  datatype Record = Record(origin: map<nat, nat>, size: map<nat, nat>, sold: map<nat, nat>, pending: map<nat, nat>)

  const EMPTY := Record(map[], map[], map[], map[])

  predicate Sells(me: Account, b: Book, a: Action) {
    a.CleanOrder? && a.i < |b.procs| && b.procs[a.i].Succeeding? && RoleOf(me, b.procs[a.i].t) == Maker
  }

  predicate Adds(a: Action) {
    a.AddOrder? && a.valid
  }

  predicate Recreates(a: Action) {
    a.Recreate? && a.valid
  }

  function Root(l: Record, id: nat): nat {
    if id in l.origin then l.origin[id] else id
  }

  function SoldOf(l: Record, root: nat): nat {
    if root in l.sold then l.sold[root] else 0
  }

  function Track(me: Account, b: Book, a: Action, l: Record): Record {
    var next := b.own.nextFreeId;
    if Adds(a) then
      l.(origin := l.origin[next := next], size := l.size[next := a.order.maxUnits], sold := l.sold[next := 0])
    else if Sells(me, b, a) then
      var t := b.procs[a.i].t;
      var root := Root(l, t.order.id);
      l.(sold := l.sold[root := SoldOf(l, root) + t.units], pending := l.pending[a.i := root])
    else if Recreates(a) && a.i in l.pending then
      l.(origin := l.origin[next := l.pending[a.i]])
    else l
  }

  // ----------------------------------------------------------------- the invariant

  /** A root with these many units left: sold and left make up the original size. */
  predicate Balanced(l: Record, root: nat, left: int, next: nat) {
    root < next && root in l.size && root in l.sold && l.sold[root] + left == l.size[root]
  }

  /** The units that a claiming trade or attempt is about. */
  predicate ClaimBalanced(me: Account, l: Record, p: Proc, next: nat) {
    match p
    case Taking(order, _, _) =>
      order.id.Some? ==>
        && order.id.value in l.origin
        && Balanced(l, l.origin[order.id.value], order.maxUnits, next)
        && MinUnits(order) <= order.maxUnits
    case Rejected(id) => id in l.origin && l.origin[id] < next
    case Live(t) => TradeBalanced(me, l, t, next)
    case Failing(t) => TradeBalanced(me, l, t, next)
    case Succeeding(t) => TradeBalanced(me, l, t, next)
    case _ => true
  }

  predicate TradeBalanced(me: Account, l: Record, t: TradeState, next: nat) {
    RoleOf(me, t) == Maker ==>
      && t.order.id in l.origin
      && Balanced(l, l.origin[t.order.id], t.order.maxUnits, next)
      && Minimum(t.order.minUnits) <= t.units <= t.order.maxUnits
  }

  /** A listed or claimed order. */
  ghost predicate IsActive(me: Account, b: Book, id: nat) {
    id in b.own.orders || IsClaimed(me, b, id)
  }

  predicate OrdersBalanced(b: Book, l: Record) {
    forall id :: id in b.own.orders ==>
      && id in l.origin
      && Balanced(l, l.origin[id], b.own.orders[id].maxUnits, b.own.nextFreeId)
      && MinUnits(b.own.orders[id]) <= b.own.orders[id].maxUnits
  }

  predicate ProcsBalanced(me: Account, b: Book, l: Record) {
    forall i :: 0 <= i < |b.procs| ==>
      && ClaimBalanced(me, l, b.procs[i], b.own.nextFreeId)
      && (b.procs[i].Recreating? ==> PendingBalanced(b, l, i))
  }

  predicate PendingBalanced(b: Book, l: Record, i: nat)
    requires i < |b.procs| && b.procs[i].Recreating?
  {
    && i in l.pending
    && Balanced(l, l.pending[i], b.procs[i].order.maxUnits, b.own.nextFreeId)
    && MinUnits(b.procs[i].order) <= b.procs[i].order.maxUnits
  }

  /** No two active orders, and no order and a re-creation, have the same original. */
  ghost predicate RootsDistinct(me: Account, b: Book, l: Record) {
    && (forall id, id' :: IsActive(me, b, id) && IsActive(me, b, id') && id != id' ==> Root(l, id) != Root(l, id'))
    && (forall id, i :: IsActive(me, b, id) && IsRecreating(b, i) && i in l.pending ==> Root(l, id) != l.pending[i])
    && (forall i, j :: IsRecreating(b, i) && IsRecreating(b, j) && i in l.pending && j in l.pending && i != j ==>
          l.pending[i] != l.pending[j])
  }

  predicate IsRecreating(b: Book, i: nat) {
    i < |b.procs| && b.procs[i].Recreating?
  }

  /** Never more is sold than there was. */
  predicate NeverOversold(b: Book, l: Record) {
    && (forall root :: root in l.size ==> root < b.own.nextFreeId && root in l.sold && l.sold[root] <= l.size[root])
    && (forall root :: root in l.sold ==> root in l.size)
    && (forall id :: id in l.origin ==> id < b.own.nextFreeId)
  }

  ghost predicate LineageInv(me: Account, b: Book, l: Record) {
    OrdersBalanced(b, l) && ProcsBalanced(me, b, l) && RootsDistinct(me, b, l) && NeverOversold(b, l)
  }

  /** Own orders are validated when they are added. */
  predicate Validated(a: Action) {
    Adds(a) ==> HasRange(a.order)
  }

  // -------------------------------------------------------------------- preserved

  /** Steps that neither list, sell nor re-create. */
  lemma QuietKeepsLineage(me: Account, b: Book, b': Book, l: Record)
    requires LineageInv(me, b, l) && b'.own.nextFreeId == b.own.nextFreeId
    requires |b.procs| <= |b'.procs|
    requires forall id :: id in b'.own.orders ==>
      id in b.own.orders && b'.own.orders[id].maxUnits == b.own.orders[id].maxUnits && b'.own.orders[id].minUnits == b.own.orders[id].minUnits
    requires forall i :: 0 <= i < |b'.procs| ==>
      && ClaimBalanced(me, l, b'.procs[i], b.own.nextFreeId)
      && (b'.procs[i].Recreating? ==> i < |b.procs| && b'.procs[i] == b.procs[i])
      && (Claim(me, b'.procs[i]).Some? ==> IsActive(me, b, Claim(me, b'.procs[i]).value))
    ensures LineageInv(me, b', l)
  {
    forall i | 0 <= i < |b'.procs| && b'.procs[i].Recreating?
      ensures PendingBalanced(b', l, i)
    {
      assert PendingBalanced(b, l, i);
    }
    forall id | IsActive(me, b', id)
      ensures IsActive(me, b, id)
    {
      if id !in b'.own.orders {
        var i :| 0 <= i < |b'.procs| && Claim(me, b'.procs[i]) == Some(id);
      }
    }
    assert forall i :: IsRecreating(b', i) ==> IsRecreating(b, i);
  }

  /** The record after a new order: one more original, nothing else. */
  predicate IsAddition(l: Record, l': Record, next: nat, size: Uint64) {
    l' == l.(origin := l.origin[next := next], size := l.size[next := size], sold := l.sold[next := 0])
  }

  lemma AddKeepsProcs(me: Account, b: Book, b': Book, l: Record, l': Record, o: Order)
    requires LineageInv(me, b, l) && b'.own == AddStep(b.own, o) && b'.procs == b.procs
    requires IsAddition(l, l', b.own.nextFreeId, o.maxUnits)
    ensures ProcsBalanced(me, b', l')
  {
    forall i | 0 <= i < |b'.procs|
      ensures ClaimBalanced(me, l', b'.procs[i], b'.own.nextFreeId)
      ensures b'.procs[i].Recreating? ==> PendingBalanced(b', l', i)
    {
      assert ClaimBalanced(me, l, b.procs[i], b.own.nextFreeId);
      assert b.procs[i].Recreating? ==> PendingBalanced(b, l, i);
    }
  }

  lemma AddKeepsRoots(me: Account, b: Book, b': Book, l: Record, l': Record, o: Order)
    requires LineageInv(me, b, l) && b'.own == AddStep(b.own, o) && b'.procs == b.procs
    requires IsAddition(l, l', b.own.nextFreeId, o.maxUnits)
    ensures RootsDistinct(me, b', l')
  {
    var next := b.own.nextFreeId;
    forall id | IsActive(me, b', id) && id != next
      ensures IsActive(me, b, id) && Root(l', id) == Root(l, id) && Root(l, id) < next
    {
      ActiveIsRooted(me, b, l, id);
    }
    forall i | IsRecreating(b', i)
      ensures IsRecreating(b, i) && i in l.pending && l.pending[i] < next
    {
      assert PendingBalanced(b, l, i);
    }
  }

  lemma AddKeepsLineage(me: Account, b: Book, b': Book, l: Record, l': Record, o: Order)
    requires LineageInv(me, b, l) && HasRange(o)
    requires b'.own == AddStep(b.own, o) && b'.procs == b.procs
    requires IsAddition(l, l', b.own.nextFreeId, o.maxUnits)
    ensures LineageInv(me, b', l')
  {
    AddKeepsProcs(me, b, b', l, l', o);
    AddKeepsRoots(me, b, b', l, l', o);
    hide ProcsBalanced, RootsDistinct;
  }

  /** Every active order has a root. */
  lemma ActiveIsRooted(me: Account, b: Book, l: Record, id: nat)
    requires OrdersBalanced(b, l) && ProcsBalanced(me, b, l) && IsActive(me, b, id)
    ensures id in l.origin && l.origin[id] < b.own.nextFreeId
  {
    if id !in b.own.orders {
      var i :| 0 <= i < |b.procs| && Claim(me, b.procs[i]) == Some(id);
      assert ClaimBalanced(me, l, b.procs[i], b.own.nextFreeId);
    }
  }

  // ----------------------------------------------------------------- a success

  /** A successful maker trade: its units are sold, and the rest may be re-created. */
  predicate IsSale(me: Account, b: Book, i: nat, b': Book, l: Record, l': Record)
    requires i < |b.procs| && b.procs[i].Succeeding?
  {
    var t := b.procs[i].t;
    var root := Root(l, t.order.id);
    && RoleOf(me, t) == Maker
    && b'.own == RemoveStep(b.own, t.order.id)
    && b'.procs == b.procs[i := AfterSuccess(me, t)]
    && l' == l.(sold := l.sold[root := SoldOf(l, root) + t.units], pending := l.pending[i := root])
  }

  /** After a sale the order is not active, and the others have other roots. */
  lemma SaleRetires(me: Account, b: Book, i: nat, b': Book, l: Record, l': Record, id: nat)
    requires LineageInv(me, b, l) && OrdersInv(me, b)
    requires i < |b.procs| && b.procs[i].Succeeding? && IsSale(me, b, i, b', l, l')
    requires IsActive(me, b', id)
    ensures IsActive(me, b, id) && id != b.procs[i].t.order.id && Root(l', id) == Root(l, id) != Root(l, b.procs[i].t.order.id)
  {
    var sold := b.procs[i].t.order.id;
    assert Claim(me, b.procs[i]) == Some(sold);
    assert IsClaimed(me, b, sold);
    if id !in b'.own.orders {
      var j :| 0 <= j < |b'.procs| && Claim(me, b'.procs[j]) == Some(id);
      assert j != i && Claim(me, b.procs[j]) == Some(id);
    }
    assert IsActive(me, b, id) && IsActive(me, b, sold);
  }

  lemma SaleKeepsOrders(me: Account, b: Book, i: nat, b': Book, l: Record, l': Record)
    requires LineageInv(me, b, l) && OrdersInv(me, b)
    requires i < |b.procs| && b.procs[i].Succeeding? && IsSale(me, b, i, b', l, l')
    ensures OrdersBalanced(b', l')
  {
    forall id | id in b'.own.orders
      ensures Balanced(l', l'.origin[id], b'.own.orders[id].maxUnits, b'.own.nextFreeId)
    {
      SaleRetires(me, b, i, b', l, l', id);
    }
  }

  lemma SaleKeepsOther(me: Account, b: Book, i: nat, b': Book, l: Record, l': Record, j: nat)
    requires LineageInv(me, b, l) && OrdersInv(me, b)
    requires i < |b.procs| && b.procs[i].Succeeding? && IsSale(me, b, i, b', l, l')
    requires j < |b.procs| && j != i
    ensures ClaimBalanced(me, l', b'.procs[j], b'.own.nextFreeId)
    ensures b'.procs[j].Recreating? ==> PendingBalanced(b', l', j)
  {
    var sold := b.procs[i].t.order.id;
    assert ClaimBalanced(me, l, b.procs[j], b.own.nextFreeId);
    if Claim(me, b.procs[j]).Some? {
      assert Claim(me, b'.procs[j]) == Claim(me, b.procs[j]);
      SaleRetires(me, b, i, b', l, l', Claim(me, b.procs[j]).value);
    }
    if b.procs[j].Recreating? {
      assert PendingBalanced(b, l, j);
      assert IsClaimed(me, b, sold) by { assert Claim(me, b.procs[i]) == Some(sold); }
      assert IsRecreating(b, j) && IsActive(me, b, sold);
    }
  }

  lemma SaleKeepsProcs(me: Account, b: Book, i: nat, b': Book, l: Record, l': Record)
    requires LineageInv(me, b, l) && OrdersInv(me, b)
    requires i < |b.procs| && b.procs[i].Succeeding? && IsSale(me, b, i, b', l, l')
    ensures ProcsBalanced(me, b', l')
  {
    assert TradeBalanced(me, l, b.procs[i].t, b.own.nextFreeId);
    forall j | 0 <= j < |b'.procs| && j != i
      ensures ClaimBalanced(me, l', b'.procs[j], b'.own.nextFreeId)
      ensures b'.procs[j].Recreating? ==> PendingBalanced(b', l', j)
    {
      SaleKeepsOther(me, b, i, b', l, l', j);
    }
  }

  lemma SaleKeepsRoots(me: Account, b: Book, i: nat, b': Book, l: Record, l': Record)
    requires LineageInv(me, b, l) && OrdersInv(me, b)
    requires i < |b.procs| && b.procs[i].Succeeding? && IsSale(me, b, i, b', l, l')
    ensures RootsDistinct(me, b', l')
  {
    var sold := b.procs[i].t.order.id;
    assert IsClaimed(me, b, sold) by { assert Claim(me, b.procs[i]) == Some(sold); }
    forall id | IsActive(me, b', id)
      ensures IsActive(me, b, id) && Root(l', id) == Root(l, id) != Root(l, sold)
    {
      SaleRetires(me, b, i, b', l, l', id);
    }
    forall j | IsRecreating(b', j) && j != i
      ensures IsRecreating(b, j) && j in l.pending && l.pending[j] != Root(l, sold)
    {
      assert PendingBalanced(b, l, j);
      assert IsActive(me, b, sold);
    }
  }

  lemma SaleKeepsLineage(me: Account, b: Book, i: nat, b': Book, l: Record, l': Record)
    requires LineageInv(me, b, l) && OrdersInv(me, b)
    requires i < |b.procs| && b.procs[i].Succeeding? && IsSale(me, b, i, b', l, l')
    ensures LineageInv(me, b', l')
  {
    SaleKeepsOrders(me, b, i, b', l, l');
    SaleKeepsProcs(me, b, i, b', l, l');
    SaleKeepsRoots(me, b, i, b', l, l');
    assert TradeBalanced(me, l, b.procs[i].t, b.own.nextFreeId);
  }

  // -------------------------------------------------------------- a re-creation

  /** The reduced order is listed under a new identifier with the old root. */
  predicate IsRecreation(b: Book, i: nat, b': Book, l: Record, l': Record)
    requires i < |b.procs| && b.procs[i].Recreating?
  {
    && i in l.pending
    && b'.own == AddStep(b.own, b.procs[i].order)
    && b'.procs == b.procs[i := Done]
    && l' == l.(origin := l.origin[b.own.nextFreeId := l.pending[i]])
  }

  lemma RecreationKeepsProcs(me: Account, b: Book, i: nat, b': Book, l: Record, l': Record)
    requires LineageInv(me, b, l)
    requires i < |b.procs| && b.procs[i].Recreating? && IsRecreation(b, i, b', l, l')
    ensures ProcsBalanced(me, b', l') && OrdersBalanced(b', l')
  {
    assert PendingBalanced(b, l, i);
    forall j | 0 <= j < |b'.procs|
      ensures ClaimBalanced(me, l', b'.procs[j], b'.own.nextFreeId)
      ensures b'.procs[j].Recreating? ==> PendingBalanced(b', l', j)
    {
      if j != i {
        assert ClaimBalanced(me, l, b.procs[j], b.own.nextFreeId);
        assert b.procs[j].Recreating? ==> PendingBalanced(b, l, j);
      }
    }
  }

  lemma RecreationKeepsRoots(me: Account, b: Book, i: nat, b': Book, l: Record, l': Record)
    requires LineageInv(me, b, l)
    requires i < |b.procs| && b.procs[i].Recreating? && IsRecreation(b, i, b', l, l')
    ensures RootsDistinct(me, b', l')
  {
    var next := b.own.nextFreeId;
    assert PendingBalanced(b, l, i) && IsRecreating(b, i);
    forall id | IsActive(me, b', id) && id != next
      ensures IsActive(me, b, id) && Root(l', id) == Root(l, id) && Root(l, id) != l.pending[i]
    {
      if id !in b'.own.orders {
        var j :| 0 <= j < |b'.procs| && Claim(me, b'.procs[j]) == Some(id);
        assert j != i && Claim(me, b.procs[j]) == Some(id);
      }
      assert IsActive(me, b, id);
    }
    forall j | IsRecreating(b', j)
      ensures IsRecreating(b, j) && j != i && j in l.pending && l.pending[j] != l.pending[i]
    {
      assert PendingBalanced(b, l, j);
    }
  }

  lemma RecreationKeepsLineage(me: Account, b: Book, i: nat, b': Book, l: Record, l': Record)
    requires LineageInv(me, b, l)
    requires i < |b.procs| && b.procs[i].Recreating? && IsRecreation(b, i, b', l, l')
    ensures LineageInv(me, b', l')
  {
    RecreationKeepsProcs(me, b, i, b', l, l');
    RecreationKeepsRoots(me, b, i, b', l, l');
  }

  // ------------------------------------------------------------------- all steps

  /** An accepted attempt becomes a trade for units within the order's bounds. */
  lemma AcceptedBalanced(me: Account, b: Book, l: Record, p: Proc, now: int)
    requires p.Taking? && !IsRefused(me, p) && ClaimLocked(me, b, p)
    requires ClaimBalanced(me, l, p, b.own.nextFreeId)
    ensures TradeBalanced(me, l, AcceptedTrade(p, now), b.own.nextFreeId)
    ensures Claim(me, Live(AcceptedTrade(p, now))) == Claim(me, p)
  {
    AcceptedInRange(p.order, p.units);
  }

  /** Moving a trade along keeps its units. */
  lemma MoveBalanced(w: World, cfg: Settings, me: Account, b: Book, a: Action, l: Record)
    requires ProcsBalanced(me, b, l) && OrdersInv(me, b) && Enabled(w, me, b, a) && MovesTrade(a)
    ensures var b' := Apply(w, cfg, me, b, a);
      a.i < |b.procs| && |b'.procs| == |b.procs| && ClaimBalanced(me, l, b'.procs[a.i], b.own.nextFreeId)
  {
    hide ReplyStep, EnvOk, OrdersInv;
    var i, p := a.i, b.procs[a.i];
    assert ClaimBalanced(me, l, p, b.own.nextFreeId);
    if a.OrderTaken? {
      assert ClaimLocked(me, b, p) by { TakingIsLocked(me, b, i); }
      if !IsRefused(me, p) {
        AcceptedBalanced(me, b, l, p, a.now);
      }
    } else if a.Turn? {
      TurnKeepsOrder(w, me, p.t, b.locked, a.env);
    }
  }

  lemma TakingIsLocked(me: Account, b: Book, i: nat)
    requires OrdersInv(me, b) && i < |b.procs|
    ensures ClaimLocked(me, b, b.procs[i])
  {
  }

  lemma MovesKeepLineage(w: World, cfg: Settings, me: Account, b: Book, a: Action, l: Record)
    requires LineageInv(me, b, l) && OrdersInv(me, b) && Enabled(w, me, b, a) && MovesTrade(a)
    ensures LineageInv(me, Apply(w, cfg, me, b, a), l)
  {
    var p' := MoveKeepsClaim(w, cfg, me, b, a);
    MoveBalanced(w, cfg, me, b, a, l);
    hide Apply, Enabled;
    OneMoved(me, b, Apply(w, cfg, me, b, a), l, a.i, p');
  }

  lemma OneMoved(me: Account, b: Book, b': Book, l: Record, i: nat, p': Proc)
    requires LineageInv(me, b, l) && i < |b.procs|
    requires b'.own == b.own && b'.procs == b.procs[i := p']
    requires ClaimBalanced(me, l, p', b.own.nextFreeId) && Claim(me, p') == Claim(me, b.procs[i]) && !p'.Recreating?
    ensures LineageInv(me, b', l)
  {
    ClaimsAreActive(me, b);
    QuietKeepsLineage(me, b, b', l);
  }

  lemma ClaimsAreActive(me: Account, b: Book)
    ensures forall i :: 0 <= i < |b.procs| && Claim(me, b.procs[i]).Some? ==> IsActive(me, b, Claim(me, b.procs[i]).value)
  {
    forall i | 0 <= i < |b.procs| && Claim(me, b.procs[i]).Some?
      ensures IsActive(me, b, Claim(me, b.procs[i]).value)
    {
      assert IsClaimed(me, b, Claim(me, b.procs[i]).value);
    }
  }

  /** A locked order, a taker's trade or a finished cleanup changes no units. */
  lemma OthersKeepLineage(w: World, cfg: Settings, me: Account, b: Book, a: Action, l: Record)
    requires LineageInv(me, b, l) && OrdersInv(me, b) && Enabled(w, me, b, a)
    requires !MovesTrade(a) && !Adds(a) && !Sells(me, b, a) && !Recreates(a)
    ensures LineageInv(me, Apply(w, cfg, me, b, a), l)
  {
    hide ReplyStep, EnvOk, RootsDistinct, NeverOversold, ClaimsDistinct, LocksClaimed;
    var b' := Apply(w, cfg, me, b, a);
    ClaimsAreActive(me, b);
    if a.TakeOrder? {
      TurnKeepsOrder(w, me, TakenTrade(a.order, a.units, a.now), b.locked, a.env);
    }
    forall i | 0 <= i < |b'.procs|
      ensures ClaimBalanced(me, l, b'.procs[i], b.own.nextFreeId)
      ensures b'.procs[i].Recreating? ==> i < |b.procs| && b'.procs[i] == b.procs[i]
      ensures Claim(me, b'.procs[i]).Some? ==> IsActive(me, b, Claim(me, b'.procs[i]).value)
    {
      if i < |b.procs| {
        assert ClaimBalanced(me, l, b.procs[i], b.own.nextFreeId);
      }
    }
    QuietKeepsLineage(me, b, b', l);
  }

  lemma LineageKept(w: World, cfg: Settings, me: Account, b: Book, a: Action, l: Record)
    requires LineageInv(me, b, l) && OrdersInv(me, b) && Enabled(w, me, b, a) && Validated(a)
    ensures LineageInv(me, Apply(w, cfg, me, b, a), Track(me, b, a, l))
  {
    hide ReplyStep, EnvOk, RootsDistinct, NeverOversold, OrdersBalanced, OrdersInv;
    var b', l' := Apply(w, cfg, me, b, a), Track(me, b, a, l);
    if MovesTrade(a) {
      MovesKeepLineage(w, cfg, me, b, a, l);
    } else if Adds(a) {
      AddKeepsLineage(me, b, b', l, l', a.order);
    } else if Sells(me, b, a) {
      SaleKeepsLineage(me, b, a.i, b', l, l');
    } else if Recreates(a) {
      assert PendingBalanced(b, l, a.i);
      RecreationKeepsLineage(me, b, a.i, b', l, l');
    } else {
      OthersKeepLineage(w, cfg, me, b, a, l);
    }
  }

  // ------------------------------------------------------------------ whole runs

  /** The record of a run, in which every added order was validated. */
  ghost predicate IsRecorded(me: Account, states: seq<Book>, actions: seq<Action>, records: seq<Record>) {
    && |records| == |states| == |actions| + 1
    && records[0] == EMPTY
    && forall i :: 0 <= i < |actions| ==>
         Validated(actions[i]) && records[i + 1] == Track(me, states[i], actions[i], records[i])
  }

  lemma {:induction false} RunKeepsLineage(w: World, cfg: Settings, me: Account, states: seq<Book>, actions: seq<Action>,
                                           records: seq<Record>, n: nat)
    requires IsRun(w, cfg, me, states, actions) && IsRecorded(me, states, actions, records) && n < |states|
    ensures LineageInv(me, states[n], records[n])
  {
    if n > 0 {
      hide Apply, LineageInv, OrdersInv;
      RunKeepsLineage(w, cfg, me, states, actions, records, n - 1);
      RunKeepsInv(w, cfg, me, states, actions, n - 1);
      LineageKept(w, cfg, me, states[n - 1], actions[n - 1], records[n - 1]);
    }
  }

  /**
   Conservation under every interleaving: a listed order has left exactly what its
   original had minus what the successful maker trades of its lineage sold; only one
   listed order descends from an original; and no original is ever oversold, even if
   orders were cancelled while they were being taken.
   */
  lemma UnitsConservedInRuns(w: World, cfg: Settings, me: Account, states: seq<Book>, actions: seq<Action>,
                             records: seq<Record>, n: nat)
    requires IsRun(w, cfg, me, states, actions) && IsRecorded(me, states, actions, records) && n < |states|
    ensures var b, l := states[n], records[n];
      && (forall id :: id in b.own.orders ==>
            && id in l.origin && l.origin[id] in l.size && l.origin[id] in l.sold
            && b.own.orders[id].maxUnits + l.sold[l.origin[id]] == l.size[l.origin[id]])
      && (forall id, id' :: id in b.own.orders && id' in b.own.orders && id != id' ==> Root(l, id) != Root(l, id'))
      && (forall root :: root in l.size ==> root in l.sold && l.sold[root] <= l.size[root])
  {
    RunKeepsLineage(w, cfg, me, states, actions, records, n);
    var b, l := states[n], records[n];
    assert forall id :: id in b.own.orders ==> IsActive(me, b, id);
  }

  /** Every maker trade is for an amount within the bounds then in force. */
  lemma FillsInRange(w: World, cfg: Settings, me: Account, states: seq<Book>, actions: seq<Action>,
                     records: seq<Record>, n: nat, i: nat)
    requires IsRun(w, cfg, me, states, actions) && IsRecorded(me, states, actions, records) && n < |states|
    requires IsMakerTrade(me, states[n], i)
    ensures var t := states[n].procs[i].t;
      Minimum(t.order.minUnits) <= t.units <= t.order.maxUnits
  {
    RunKeepsLineage(w, cfg, me, states, actions, records, n);
    assert ClaimBalanced(me, records[n], states[n].procs[i], states[n].own.nextFreeId);
  }
}
