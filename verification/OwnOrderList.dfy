/** The orders owned by the local user: identifiers, locks and refreshing. */
module OwnOrderList {
  import opened Wrappers
  import opened Proto
  import opened Orders

  /** The part of the global state about own orders. */
  datatype OwnOrders = OwnOrders(orders: map<nat, Order>, nextFreeId: nat)

  function AddStep(s: OwnOrders, o: Order): OwnOrders {
    OwnOrders(s.orders[s.nextFreeId := o.(account := None, id := None)], s.nextFreeId + 1)
  }

  function RemoveStep(s: OwnOrders, id: nat): OwnOrders {
    s.(orders := s.orders - {id})
  }

  predicate CanLock(s: OwnOrders, id: nat) {
    id in s.orders && !s.orders[id].locked
  }

  function LockStep(s: OwnOrders, id: nat): OwnOrders
    requires CanLock(s, id)
  {
    s.(orders := s.orders[id := s.orders[id].(locked := true)])
  }

  /** The checks of Unlock: where they fail, the process ends. */
  predicate CanUnlock(s: OwnOrders, id: nat) {
    id in s.orders && s.orders[id].locked
  }

  function UnlockStep(s: OwnOrders, id: nat): OwnOrders
    requires CanUnlock(s, id)
  {
    s.(orders := s.orders[id := s.orders[id].(locked := false)])
  }

  /** Drops the orders that are not (or no longer) valid. */
  function RefreshStep(s: OwnOrders, valid: Order -> bool): OwnOrders {
    s.(orders := map id | id in s.orders && valid(s.orders[id]) :: s.orders[id])
  }

  /** The orders to broadcast. */
  function Unlocked(orders: map<nat, Order>): map<nat, Order> {
    map id | id in orders && !orders[id].locked :: orders[id]
  }

  class MyOrders {
    const account: Account
    var own: OwnOrders
    /** The last set of orders handed to UpdateOrders. */
    var broadcast: map<nat, Order>

    constructor (account: Account)
      ensures this.account == account && own == OwnOrders(map[], 0) && broadcast == map[]
    {
      this.account := account;
      own, broadcast := OwnOrders(map[], 0), map[];
    }

    method RunRefresh(valid: Order -> bool)
      modifies this
      ensures own == RefreshStep(old(own), valid)
      ensures broadcast == Unlocked(own.orders)
      ensures forall id :: id in broadcast <==>
        id in old(own).orders && valid(old(own).orders[id]) && !old(own).orders[id].locked
      ensures forall id :: id in broadcast ==> broadcast[id] == old(own).orders[id]
    {
      var updated: map<nat, Order> := map[];
      var rest := own.orders.Keys;
      while rest != {}
        invariant rest <= own.orders.Keys && own == old(own)
        invariant updated == map id | id in own.orders && id !in rest && valid(own.orders[id]) :: own.orders[id]
        decreases |rest|
      {
        var id :| id in rest;
        if valid(own.orders[id]) {
          updated := updated[id := own.orders[id]];
        }
        rest := rest - {id};
      }
      own := own.(orders := updated);
      broadcast := InternalGetOrders(false);
    }

    function InternalGetOrders(includeLocked: bool): map<nat, Order>
      reads this
    {
      map id | id in own.orders && (includeLocked || !own.orders[id].locked) :: own.orders[id]
    }

    method Add(o: Order, valid: Order -> bool) returns (added: bool)
      modifies this
      ensures added == valid(o)
      ensures own == if added then RefreshStep(AddStep(old(own), o), valid) else old(own)
      ensures broadcast == if added then Unlocked(own.orders) else old(broadcast)
      ensures added && !o.locked && valid(o.(account := None, id := None)) ==>
        old(own).nextFreeId in broadcast && broadcast[old(own).nextFreeId] == o.(account := None, id := None)
    {
      if !valid(o) {
        return false;
      }
      var id := own.nextFreeId;
      own := OwnOrders(own.orders[id := o.(account := None, id := None)], id + 1);
      RunRefresh(valid);
      return true;
    }

    method RemoveById(id: nat, valid: Order -> bool)
      modifies this
      ensures own == RefreshStep(RemoveStep(old(own), id), valid)
      ensures broadcast == Unlocked(own.orders) && id !in broadcast
    {
      own := own.(orders := own.orders - {id});
      RunRefresh(valid);
    }

    /** Locks an order and returns it as it was before, with its identity. */
    method TryLock(id: nat, valid: Order -> bool) returns (res: bool, out: Option<Order>)
      modifies this
      ensures res == CanLock(old(own), id)
      ensures out == if res then Some(Identified(old(own).orders[id], account, id)) else None
      ensures own == if res then RefreshStep(LockStep(old(own), id), valid) else old(own)
      ensures broadcast == if res then Unlocked(own.orders) else old(broadcast)
      ensures res ==> id !in broadcast
    {
      if id !in own.orders {
        return false, None;
      }
      if own.orders[id].locked {
        return false, None;
      }
      out := Some(Identified(own.orders[id], account, id));
      own := own.(orders := own.orders[id := own.orders[id].(locked := true)]);
      RunRefresh(valid);
      return true, out;
    }

    method Unlock(id: nat, valid: Order -> bool)
      requires CanUnlock(own, id)
      modifies this
      ensures own == RefreshStep(UnlockStep(old(own), id), valid)
      ensures broadcast == Unlocked(own.orders)
      ensures id in broadcast <==> valid(old(own).orders[id].(locked := false))
    {
      own := own.(orders := own.orders[id := own.orders[id].(locked := false)]);
      RunRefresh(valid);
    }
  }
}
