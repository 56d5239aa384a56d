/**
 What the trades of a run have from the orders they are for: an identifier stands for
 one set of terms for ever, and the amounts that are accepted can be traded.
 */
module OrderTerms {
  import opened Wrappers
  import opened Amounts
  import opened Proto
  import opened Psbts
  import opened Lifecycle
  import opened Orders
  import opened TradeSteps
  import opened Bookkeeping
  import opened Reservations
  import opened BookRuns

  // ------------------------------------------------------------------- fixed orders

  /** The same order, except that it may be locked or not. */
  predicate SameOrder(a: Order, b: Order) {
    a == b.(locked := a.locked)
  }

  lemma StepKeepsOrder(w: World, cfg: Settings, me: Account, b: Book, a: Action, id: nat)
    requires OrdersInv(me, b) && Enabled(w, me, b, a) && id in b.own.orders
    ensures var b' := Apply(w, cfg, me, b, a);
      id in b'.own.orders ==> SameOrder(b'.own.orders[id], b.own.orders[id])
  {
    hide ReplyStep, EnvOk;
  }

  /** While an order is listed, nothing but its lock changes. */
  lemma {:induction false} OrderStays(w: World, cfg: Settings, me: Account, states: seq<Book>, actions: seq<Action>,
                                      m: nat, n: nat, id: nat)
    requires IsRun(w, cfg, me, states, actions) && m <= n < |states|
    requires id in states[m].own.orders && id in states[n].own.orders
    ensures SameOrder(states[n].own.orders[id], states[m].own.orders[id])
    decreases n - m
  {
    if m < n {
      RunKeepsInv(w, cfg, me, states, actions, m);
      StepKeepsOrder(w, cfg, me, states[m], actions[m], id);
      StepKeepsNextId(w, cfg, me, states[m], actions[m]);
      if id !in states[m + 1].own.orders {
        IdsNeverReused(w, cfg, me, states, actions, m + 1, n, id);
      } else {
        OrderStays(w, cfg, me, states, actions, m + 1, n, id);
      }
    }
  }

  lemma StepKeepsNextId(w: World, cfg: Settings, me: Account, b: Book, a: Action)
    requires Enabled(w, me, b, a)
    ensures Apply(w, cfg, me, b, a).own.nextFreeId >= b.own.nextFreeId
  {
  }

  // ---------------------------------------------------------------- trades and orders

  /** The entry is a maker trade, in whatever state, or an attempt to start one. */
  predicate IsForOwnOrder(me: Account, p: Proc) {
    p.Taking? || (HasTrade(p) && RoleOf(me, p.t) == Maker)
  }

  /** Its order, or its terms, are those listed in the given state. */
  predicate StemsFrom(me: Account, b: Book, p: Proc)
    requires IsForOwnOrder(me, p)
  {
    if p.Taking? then
      p.order.id.Some? && p.order.id.value in b.own.orders
        && SameOrder(p.order, Identified(b.own.orders[p.order.id.value], me, p.order.id.value))
    else
      p.t.order.id in b.own.orders
        && var listed := Identified(b.own.orders[p.t.order.id], me, p.t.order.id);
        && IsComplete(listed) && TermsOf(listed) == p.t.order
  }

  /** After a step, an entry stems from what it stemmed from, or was just locked. */
  lemma StepKeepsStem(w: World, cfg: Settings, me: Account, b: Book, a: Action, i: nat, origin: Book)
    requires OrdersInv(me, b) && Enabled(w, me, b, a)
    requires i < |Apply(w, cfg, me, b, a).procs| && IsForOwnOrder(me, Apply(w, cfg, me, b, a).procs[i])
    requires i < |b.procs| && IsForOwnOrder(me, b.procs[i]) ==> StemsFrom(me, origin, b.procs[i])
    ensures var p := Apply(w, cfg, me, b, a).procs[i];
      if a.TryLock? && i == |b.procs| then StemsFrom(me, b, p)
      else i < |b.procs| && IsForOwnOrder(me, b.procs[i]) && StemsFrom(me, origin, p)
  {
    hide ReplyStep, EnvOk;
    if a.Turn? {
      TurnKeepsOrder(w, me, b.procs[a.i].t, b.locked, a.env);
    } else if a.TakeOrder? {
      TurnKeepsOrder(w, me, TakenTrade(a.order, a.units, a.now), b.locked, a.env);
    } else if a.OrderTaken? {
      assert ClaimLocked(me, b, b.procs[a.i]);
    }
  }

  lemma {:induction false} RunStems(w: World, cfg: Settings, me: Account, states: seq<Book>, actions: seq<Action>,
                                    n: nat, i: nat) returns (m: nat)
    requires IsRun(w, cfg, me, states, actions) && n < |states|
    requires i < |states[n].procs| && IsForOwnOrder(me, states[n].procs[i])
    ensures m <= n && StemsFrom(me, states[m], states[n].procs[i])
  {
    m := n;
    if n > 0 {
      var b, a := states[n - 1], actions[n - 1];
      RunKeepsInv(w, cfg, me, states, actions, n - 1);
      hide Apply, Enabled, OrdersInv, WalletInv, StemsFrom;
      m := n - 1;
      if i < |b.procs| && IsForOwnOrder(me, b.procs[i]) {
        m := RunStems(w, cfg, me, states, actions, n - 1, i);
      }
      StepKeepsStem(w, cfg, me, b, a, i, states[m]);
      if a.TryLock? && i == |b.procs| {
        m := n - 1;
      }
    }
  }

  /**
   In every run, whenever they were started and whatever has become of them, any two
   maker trades for one identifier have the same terms.
   */
  lemma OneOrderPerIdInRuns(w: World, cfg: Settings, me: Account, states: seq<Book>, actions: seq<Action>,
                            n: nat, i: nat, n': nat, i': nat)
    requires IsRun(w, cfg, me, states, actions) && n < |states| && n' < |states|
    requires i < |states[n].procs| && HasTrade(states[n].procs[i]) && RoleOf(me, states[n].procs[i].t) == Maker
    requires i' < |states[n'].procs| && HasTrade(states[n'].procs[i']) && RoleOf(me, states[n'].procs[i'].t) == Maker
    requires states[n].procs[i].t.order.id == states[n'].procs[i'].t.order.id
    ensures states[n].procs[i].t.order == states[n'].procs[i'].t.order
  {
    var m := RunStems(w, cfg, me, states, actions, n, i);
    var m' := RunStems(w, cfg, me, states, actions, n', i');
    var id := states[n].procs[i].t.order.id;
    if m <= m' {
      OrderStays(w, cfg, me, states, actions, m, m', id);
    } else {
      OrderStays(w, cfg, me, states, actions, m', m, id);
    }
  }

  // ------------------------------------------------------------------ amounts of trades

  /** What it takes for one amount of an own order to be traded. */
  lemma TradableAmount(me: Account, o: Order, units: Uint64, taker: Account, now: int)
    requires IsComplete(o) && o.account == Some(me)
    ensures Tradable(me, NewTrade(TermsOf(o), units, taker, now)) <==>
      && 0 < units < TWO_63 && o.priceSat.value < TWO_63
      && (o.orderType == Some(Bid) ==> o.priceSat.value * units < TWO_63)
  {
  }

  /** If the largest accepted amount can be traded, then all positive ones can. */
  lemma LargestIsTradable(me: Account, o: Order, units: Int64, taker: Account, now: int)
    requires IsComplete(o) && o.account == Some(me) && o.maxUnits < TWO_63
    requires AcceptsUnits(o, units) && units > 0
    requires Tradable(me, NewTrade(TermsOf(o), o.maxUnits, taker, now))
    ensures Tradable(me, NewTrade(TermsOf(o), ToUint64(units), taker, now))
  {
    TradableAmount(me, o, o.maxUnits, taker, now);
    TradableAmount(me, o, ToUint64(units), taker, now);
    hide Tradable;
    MulMonotone(o.priceSat.value, ToUint64(units), o.maxUnits);
  }

  /**
   For a validated own order: everything that is accepted can be traded exactly if
   nothing can be accepted at all (the maximum is negative as a signed number, the
   minimum is not), or there is a minimum, the maximum and the price are not negative
   as signed numbers, and for a bid the whole order can be paid.
   */
  lemma AcceptedTradableExactly(me: Account, o: Order, taker: Account, now: int)
    requires HasRange(o) && o.minUnits != Some(0) && IsComplete(o) && o.account == Some(me)
    ensures
      (forall units: Int64 :: AcceptsUnits(o, units) ==> Tradable(me, NewTrade(TermsOf(o), ToUint64(units), taker, now)))
      <==>
        || MinUnits(o) < TWO_63 <= o.maxUnits
        || (&& o.minUnits.Some? && o.maxUnits < TWO_63 && o.priceSat.value < TWO_63
            && (o.orderType == Some(Bid) ==> o.priceSat.value * o.maxUnits < TWO_63))
  {
    hide Tradable;
    if o.maxUnits < TWO_63 {
      assert AcceptsUnits(o, o.maxUnits) && ToUint64(o.maxUnits) == o.maxUnits;
      TradableAmount(me, o, o.maxUnits, taker, now);
      if o.minUnits.None? {
        assert AcceptsUnits(o, 0) && ToUint64(0) == 0;
        TradableAmount(me, o, 0, taker, now);
      } else if Tradable(me, NewTrade(TermsOf(o), o.maxUnits, taker, now)) {
        forall units: Int64 | AcceptsUnits(o, units)
          ensures Tradable(me, NewTrade(TermsOf(o), ToUint64(units), taker, now))
        {
          LargestIsTradable(me, o, units, taker, now);
        }
      }
    } else if MinUnits(o) >= TWO_63 {
      var units := Wrap(MinUnits(o));
      assert AcceptsUnits(o, units) && ToUint64(units) >= TWO_63;
      TradableAmount(me, o, ToUint64(units), taker, now);
    }
  }

  lemma MulMonotone(a: nat, b: nat, c: nat)
    requires b <= c
    ensures a * b <= a * c
  {
  }
}
