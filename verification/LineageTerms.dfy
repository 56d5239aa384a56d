/**
 What stays the same along a lineage: through all partial fills of a run, every
 descendant of an own order has the asset, type, price and minimum of the original.
 */
module LineageTerms {
  import opened Wrappers
  import opened Proto
  import opened Psbts
  import opened Lifecycle
  import opened OwnOrderList
  import opened TradeSteps
  import opened Bookkeeping
  import opened BookRuns
  import opened Lineages

  predicate Inherits(o: Order, from: Order) {
    o.asset == from.asset && o.orderType == from.orderType && o.priceSat == from.priceSat && o.minUnits == from.minUnits
  }

  predicate Carries(t: Terms, from: Order) {
    && from.asset == Some(t.asset) && from.orderType == Some(t.orderType) && from.priceSat == Some(t.priceSat)
    && from.minUnits == t.minUnits
  }

  /** The original orders, as the user added them. */
  function TrackOriginals(b: Book, a: Action, originals: map<nat, Order>): map<nat, Order> {
    if Adds(a) then originals[b.own.nextFreeId := a.order] else originals
  }

  function Originals(states: seq<Book>, actions: seq<Action>, n: nat): map<nat, Order>
    requires n <= |actions| && |states| == |actions| + 1
  {
    if n == 0 then map[] else TrackOriginals(states[n - 1], actions[n - 1], Originals(states, actions, n - 1))
  }

  // ----------------------------------------------------------------- the invariant

  predicate EntryInherits(me: Account, l: Record, originals: map<nat, Order>, p: Proc) {
    match p
    case Taking(order, _, _) =>
      order.id.Some? && order.id.value in l.origin ==>
        l.origin[order.id.value] in originals && Inherits(order, originals[l.origin[order.id.value]])
    case Live(t) => TradeInherits(me, l, originals, t)
    case Failing(t) => TradeInherits(me, l, originals, t)
    case Succeeding(t) => TradeInherits(me, l, originals, t)
    case _ => true
  }

  predicate TradeInherits(me: Account, l: Record, originals: map<nat, Order>, t: TradeState) {
    RoleOf(me, t) == Maker && t.order.id in l.origin ==>
      l.origin[t.order.id] in originals && Carries(t.order, originals[l.origin[t.order.id]])
  }

  predicate RestInherits(l: Record, originals: map<nat, Order>, i: nat, p: Proc) {
    p.Recreating? && i in l.pending ==> l.pending[i] in originals && Inherits(p.order, originals[l.pending[i]])
  }

  predicate OrdersInherit(own: OwnOrders, l: Record, originals: map<nat, Order>) {
    forall id :: id in own.orders && id in l.origin ==>
      l.origin[id] in originals && Inherits(own.orders[id], originals[l.origin[id]])
  }

  predicate TermsInv(me: Account, b: Book, l: Record, originals: map<nat, Order>) {
    && OrdersInherit(b.own, l, originals)
    && (forall root :: root in originals ==> root < b.own.nextFreeId)
    && forall i :: 0 <= i < |b.procs| ==> EntryInherits(me, l, originals, b.procs[i]) && RestInherits(l, originals, i, b.procs[i])
  }

  // -------------------------------------------------------------------- preserved

  /** An entry that is moved along keeps what it inherited. */
  lemma MoveInherits(w: World, cfg: Settings, me: Account, b: Book, a: Action, l: Record, originals: map<nat, Order>)
    requires TermsInv(me, b, l, originals) && OrdersInv(me, b) && Enabled(w, me, b, a) && MovesTrade(a)
    ensures TermsInv(me, Apply(w, cfg, me, b, a), l, originals)
  {
    hide ReplyStep, EnvOk, OrdersInherit, UpdateStep, HandleMessageStep, ClaimsDistinct, LocksClaimed;
    var p := b.procs[a.i];
    assert EntryInherits(me, l, originals, p) && ClaimLocked(me, b, p);
    if a.Turn? {
      TurnKeepsOrder(w, me, p.t, b.locked, a.env);
    } else if a.Receive? {
      MessageKeepsOrder(me, p.t, a.msg);
    } else if a.Update? {
      UpdateKeepsOrder(cfg, p.t, a.now, a.obs);
    }
  }

  lemma MessageKeepsOrder(me: Account, t: TradeState, msg: Message)
    ensures HandleMessageStep(me, t, msg).order == t.order
  {
  }

  lemma UpdateKeepsOrder(cfg: Settings, t: TradeState, now: int, obs: Observation)
    requires t.state == Pending ==> t.ourPsbt.Some?
    ensures UpdateStep(cfg, t, now, obs).order == t.order
  {
  }

  lemma CleanOrdersInherit(w: World, cfg: Settings, me: Account, b: Book, a: Action, l: Record, originals: map<nat, Order>)
    requires TermsInv(me, b, l, originals) && LineageInv(me, b, l) && Enabled(w, me, b, a) && GivesBack(a)
    ensures OrdersInherit(Apply(w, cfg, me, b, a).own, Track(me, b, a, l), originals)
  {
    hide ReplyStep, EnvOk, RootsDistinct, NeverOversold, EntryInherits;
    assert RestInherits(l, originals, a.i, b.procs[a.i]);
  }

  /** An entry that a step leaves alone keeps what it inherited. */
  lemma EntryStays(me: Account, b: Book, l: Record, l': Record, originals: map<nat, Order>, i: nat)
    requires TermsInv(me, b, l, originals) && ProcsBalanced(me, b, l) && i < |b.procs|
    requires forall id :: id in l.origin && id < b.own.nextFreeId ==> id in l'.origin && l'.origin[id] == l.origin[id]
    requires forall id :: id in l'.origin && id !in l.origin ==> id >= b.own.nextFreeId
    requires i in l'.pending ==> i in l.pending && l'.pending[i] == l.pending[i]
    requires Claim(me, b.procs[i]).Some? ==> Claim(me, b.procs[i]).value < b.own.nextFreeId
    ensures EntryInherits(me, l', originals, b.procs[i]) && RestInherits(l', originals, i, b.procs[i])
  {
    assert EntryInherits(me, l, originals, b.procs[i]) && RestInherits(l, originals, i, b.procs[i]);
    assert ClaimBalanced(me, l, b.procs[i], b.own.nextFreeId);
  }

  /** What a successful trade leaves to be listed again inherits from its order. */
  lemma CleanedInherits(w: World, cfg: Settings, me: Account, b: Book, a: Action, l: Record, originals: map<nat, Order>)
    requires TermsInv(me, b, l, originals) && LineageInv(me, b, l) && Enabled(w, me, b, a) && GivesBack(a)
    ensures var p := Apply(w, cfg, me, b, a).procs[a.i];
      EntryInherits(me, Track(me, b, a, l), originals, p) && RestInherits(Track(me, b, a, l), originals, a.i, p)
  {
    hide ReplyStep, EnvOk, RootsDistinct, OrdersInherit, OrdersBalanced, NeverOversold;
    assert EntryInherits(me, l, originals, b.procs[a.i]);
    assert ClaimBalanced(me, l, b.procs[a.i], b.own.nextFreeId);
  }

  /** Such a step changes one entry, and the record only for it and for a new order. */
  lemma CleanChanges(w: World, cfg: Settings, me: Account, b: Book, a: Action, l: Record)
    requires Enabled(w, me, b, a) && GivesBack(a) && NeverOversold(b, l)
    ensures var b', l' := Apply(w, cfg, me, b, a), Track(me, b, a, l);
      && |b'.procs| == |b.procs| && b'.own.nextFreeId >= b.own.nextFreeId
      && (forall i :: 0 <= i < |b.procs| && i != a.i ==> b'.procs[i] == b.procs[i])
      && (forall id :: id in l.origin && id < b.own.nextFreeId ==> id in l'.origin && l'.origin[id] == l.origin[id])
      && (forall id :: id in l'.origin && id !in l.origin ==> id >= b.own.nextFreeId)
      && (forall i :: i in l'.pending && i != a.i ==> i in l.pending && l'.pending[i] == l.pending[i])
  {
    hide ReplyStep, EnvOk, FailureRelease;
  }

  lemma CleanInherits(w: World, cfg: Settings, me: Account, b: Book, a: Action, l: Record, originals: map<nat, Order>)
    requires TermsInv(me, b, l, originals) && LineageInv(me, b, l) && OrdersInv(me, b)
    requires Enabled(w, me, b, a) && GivesBack(a)
    ensures TermsInv(me, Apply(w, cfg, me, b, a), Track(me, b, a, l), originals)
  {
    var b', l' := Apply(w, cfg, me, b, a), Track(me, b, a, l);
    CleanOrdersInherit(w, cfg, me, b, a, l, originals);
    CleanedInherits(w, cfg, me, b, a, l, originals);
    CleanChanges(w, cfg, me, b, a, l);
    hide Apply, Enabled, Track, OrdersInherit, EntryInherits, RestInherits, ClaimBalanced;
    forall i | 0 <= i < |b'.procs| && i != a.i
      ensures EntryInherits(me, l', originals, b'.procs[i]) && RestInherits(l', originals, i, b'.procs[i])
    {
      assert ClaimLocked(me, b, b.procs[i]);
      EntryStays(me, b, l, l', originals, i);
    }
  }

  lemma AdditionInherits(w: World, cfg: Settings, me: Account, b: Book, a: Action, l: Record, originals: map<nat, Order>)
    requires TermsInv(me, b, l, originals) && LineageInv(me, b, l) && Enabled(w, me, b, a) && a.AddOrder?
    ensures TermsInv(me, Apply(w, cfg, me, b, a), Track(me, b, a, l), TrackOriginals(b, a, originals))
  {
    hide ReplyStep, EnvOk, RootsDistinct, OrdersBalanced;
    var b', l' := Apply(w, cfg, me, b, a), Track(me, b, a, l);
    forall i | 0 <= i < |b'.procs|
      ensures EntryInherits(me, l', TrackOriginals(b, a, originals), b'.procs[i])
      ensures RestInherits(l', TrackOriginals(b, a, originals), i, b'.procs[i])
    {
      assert EntryInherits(me, l, originals, b.procs[i]) && RestInherits(l, originals, i, b.procs[i]);
      assert ClaimBalanced(me, l, b.procs[i], b.own.nextFreeId);
    }
  }

  /** Locking, refreshing, cancelling, and taking somebody else's order. */
  lemma OthersInherit(w: World, cfg: Settings, me: Account, b: Book, a: Action, l: Record, originals: map<nat, Order>)
    requires TermsInv(me, b, l, originals) && Enabled(w, me, b, a)
    requires a.CancelOrder? || a.Refresh? || a.TryLock? || a.TakeOrder?
    ensures TermsInv(me, Apply(w, cfg, me, b, a), l, originals)
  {
    hide ReplyStep, EnvOk;
    if a.TakeOrder? {
      TurnKeepsOrder(w, me, TakenTrade(a.order, a.units, a.now), b.locked, a.env);
    }
  }

  lemma TermsKept(w: World, cfg: Settings, me: Account, b: Book, a: Action, l: Record, originals: map<nat, Order>)
    requires TermsInv(me, b, l, originals) && LineageInv(me, b, l) && OrdersInv(me, b) && Enabled(w, me, b, a)
    ensures TermsInv(me, Apply(w, cfg, me, b, a), Track(me, b, a, l), TrackOriginals(b, a, originals))
  {
    hide TermsInv, LineageInv, OrdersInv, Apply, Enabled;
    if MovesTrade(a) {
      MoveInherits(w, cfg, me, b, a, l, originals);
    } else if GivesBack(a) {
      CleanInherits(w, cfg, me, b, a, l, originals);
    } else if a.AddOrder? {
      AdditionInherits(w, cfg, me, b, a, l, originals);
    } else {
      OthersInherit(w, cfg, me, b, a, l, originals);
    }
  }

  // -------------------------------------------------------------------- whole runs

  lemma {:induction false} RunKeepsTerms(w: World, cfg: Settings, me: Account, states: seq<Book>, actions: seq<Action>,
                                         records: seq<Record>, n: nat)
    requires IsRun(w, cfg, me, states, actions) && IsRecorded(me, states, actions, records) && n < |states|
    ensures TermsInv(me, states[n], records[n], Originals(states, actions, n))
  {
    if n > 0 {
      hide Apply, LineageInv, OrdersInv, TermsInv;
      RunKeepsTerms(w, cfg, me, states, actions, records, n - 1);
      RunKeepsInv(w, cfg, me, states, actions, n - 1);
      RunKeepsLineage(w, cfg, me, states, actions, records, n - 1);
      TermsKept(w, cfg, me, states[n - 1], actions[n - 1], records[n - 1], Originals(states, actions, n - 1));
    }
  }

  /** The user added this order, and it got this identifier. */
  predicate IsAdding(states: seq<Book>, actions: seq<Action>, m: nat, id: nat)
    requires m < |actions| < |states|
  {
    Adds(actions[m]) && states[m].own.nextFreeId == id
  }

  lemma {:induction false} OriginalAdded(states: seq<Book>, actions: seq<Action>, n: nat, id: nat) returns (m: nat)
    requires n <= |actions| && |states| == |actions| + 1 && id in Originals(states, actions, n)
    ensures m < n && IsAdding(states, actions, m, id) && Originals(states, actions, n)[id] == actions[m].order
  {
    if IsAdding(states, actions, n - 1, id) {
      m := n - 1;
    } else {
      m := OriginalAdded(states, actions, n - 1, id);
    }
  }

  /**
   In every run, a listed order is, but for its units, the order that the user added
   as the original of its lineage.
   */
  lemma DescendantsInherit(w: World, cfg: Settings, me: Account, states: seq<Book>, actions: seq<Action>,
                           records: seq<Record>, n: nat, id: nat) returns (m: nat)
    requires IsRun(w, cfg, me, states, actions) && IsRecorded(me, states, actions, records) && n < |states|
    requires id in states[n].own.orders
    ensures m < n && id in records[n].origin && IsAdding(states, actions, m, records[n].origin[id])
    ensures var o, first := states[n].own.orders[id], actions[m].order;
      o.asset == first.asset && o.orderType == first.orderType && o.priceSat == first.priceSat && o.minUnits == first.minUnits
  {
    RunKeepsTerms(w, cfg, me, states, actions, records, n);
    RunKeepsLineage(w, cfg, me, states, actions, records, n);
    m := OriginalAdded(states, actions, n, records[n].origin[id]);
  }

  /** And so are the terms of every maker trade. */
  lemma MakerTradesInherit(w: World, cfg: Settings, me: Account, states: seq<Book>, actions: seq<Action>,
                           records: seq<Record>, n: nat, i: nat) returns (m: nat)
    requires IsRun(w, cfg, me, states, actions) && IsRecorded(me, states, actions, records) && n < |states|
    requires IsMakerTrade(me, states[n], i)
    ensures var t := states[n].procs[i].t.order;
      && m < n && t.id in records[n].origin && IsAdding(states, actions, m, records[n].origin[t.id])
      && var first := actions[m].order;
      && first.asset == Some(t.asset) && first.orderType == Some(t.orderType) && first.priceSat == Some(t.priceSat)
      && first.minUnits == t.minUnits
  {
    RunKeepsTerms(w, cfg, me, states, actions, records, n);
    RunKeepsLineage(w, cfg, me, states, actions, records, n);
    var t := states[n].procs[i].t;
    assert ClaimBalanced(me, records[n], states[n].procs[i], states[n].own.nextFreeId);
    assert EntryInherits(me, records[n], Originals(states, actions, n), states[n].procs[i]);
    m := OriginalAdded(states, actions, n, records[n].origin[t.order.id]);
  }
}
