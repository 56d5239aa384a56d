/** The order book of all other accounts: expiry by a lazy queue, listing by asset. */
module OrderBooks {
  import opened Wrappers
  import opened Proto
  import opened OrderSorting

  datatype AccountOrders = AccountOrders(orders: map<nat, Order>, lastUpdate: int)

  datatype UpdateEvent = UpdateEvent(account: Account, time: int)

  type Book = map<Account, AccountOrders>

  // --------------------------------------------------------------- plain expiry

  /** What happened to the book, with the time that was read for it. */
  datatype Op = Updated(account: Account, orders: map<nat, Order>, time: int) | Ticked(time: int)

  /** Plain expiry: a tick deletes exactly the accounts whose last update is too old. */
  function EagerStep(timeout: int, book: Book, op: Op): Book {
    match op
    case Updated(account, orders, time) =>
      if orders == map[] then book - {account} else book[account := AccountOrders(orders, time)]
    case Ticked(time) =>
      map a | a in book && book[a].lastUpdate >= time - timeout :: book[a]
  }

  function EagerRun(timeout: int, history: seq<Op>): Book {
    if history == [] then map[]
    else
      var n := |history| - 1;
      EagerStep(timeout, EagerRun(timeout, history[..n]), history[n])
  }

  /**
   Number i is the update that still stands for the account: nothing after it
   replaces it, and no tick after it finds it older than the timeout.
   */
  predicate Stands(timeout: int, history: seq<Op>, account: Account, i: nat) {
    && i < |history|
    && history[i].Updated? && history[i].account == account && history[i].orders != map[]
    && forall j :: i < j < |history| ==>
         if history[j].Updated? then history[j].account != account
         else history[i].time >= history[j].time - timeout
  }

  /** The book lists exactly the accounts with a standing update, with its orders. */
  lemma {:induction false} EagerRunExact(timeout: int, history: seq<Op>, account: Account)
    ensures account in EagerRun(timeout, history) <==> exists i: nat :: Stands(timeout, history, account, i)
    ensures forall i: nat :: Stands(timeout, history, account, i) ==>
      account in EagerRun(timeout, history) &&
      EagerRun(timeout, history)[account] == AccountOrders(history[i].orders, history[i].time)
  {
    if history != [] {
      var n := |history| - 1;
      var init, last := history[..n], history[n];
      EagerRunExact(timeout, init, account);
      forall i: nat | Stands(timeout, history, account, i) && i < n
        ensures Stands(timeout, init, account, i)
      {
      }
      if account in EagerRun(timeout, history) {
        if last.Updated? && last.account == account {
          assert Stands(timeout, history, account, n);
        } else {
          var i: nat :| Stands(timeout, init, account, i);
          assert EagerRun(timeout, init)[account].lastUpdate == history[i].time;
          assert Stands(timeout, history, account, i);
        }
      }
      forall i: nat | Stands(timeout, history, account, i)
        ensures account in EagerRun(timeout, history)
        ensures EagerRun(timeout, history)[account] == AccountOrders(history[i].orders, history[i].time)
      {
        if i < n {
          assert Stands(timeout, init, account, i);
        }
      }
    }
  }

  // -------------------------------------------------------------- listing by asset

  datatype ForAsset = ForAsset(asset: string, bids: seq<Order>, asks: seq<Order>)

  /** Orders are stored with asset, type and price. */
  predicate AllComplete(orders: map<nat, Order>) {
    forall id :: id in orders ==> orders[id].asset.Some? && orders[id].orderType.Some? && orders[id].priceSat.Some?
  }

  predicate BookComplete(book: Book) {
    forall a :: a in book ==> AllComplete(book[a].orders)
  }

  /** The stored orders, optionally of one asset only. */
  function KeysFor(book: Book, asset: Option<string>): set<(Account, nat)> {
    set a, id | a in book && id in book[a].orders && (asset.None? || book[a].orders[id].asset == asset) :: (a, id)
  }

  function Stored(book: Book, k: (Account, nat)): Order
    requires k in KeysFor(book, None)
  {
    book[k.0].orders[k.1]
  }

  /** How a stored order is listed. */
  function Entry(book: Book, k: (Account, nat)): Order
    requires k in KeysFor(book, None)
  {
    Stored(book, k).(account := Some(k.0), id := Some(k.1), asset := None, orderType := None)
  }

  function EntriesOf(book: Book, keys: set<(Account, nat)>, asset: string, orderType: OrderType): set<Order>
    requires keys <= KeysFor(book, None)
  {
    set k | k in keys && Stored(book, k).asset == Some(asset) && Stored(book, k).orderType == Some(orderType) :: Entry(book, k)
  }

  /** Every order under its own asset and side, exactly once, and nothing else. */
  ghost predicate Grouped(book: Book, keys: set<(Account, nat)>, res: map<string, ForAsset>)
    requires keys <= KeysFor(book, None)
  {
    && (forall a :: a in res <==> exists k :: k in keys && Stored(book, k).asset == Some(a))
    && (forall a :: a in res ==> IsGroup(book, keys, a, res[a]))
  }

  predicate IsGroup(book: Book, keys: set<(Account, nat)>, a: string, g: ForAsset)
    requires keys <= KeysFor(book, None)
  {
    && g.asset == a
    && Elements(g.asks) == EntriesOf(book, keys, a, Ask) && DistinctKeys(g.asks)
    && Elements(g.bids) == EntriesOf(book, keys, a, Bid) && DistinctKeys(g.bids)
  }

  predicate Sorted(g: ForAsset) {
    Ascending(g.asks) && Descending(g.bids)
  }

  /** The canonical listing of the stored orders under the given keys. */
  ghost predicate IsListing(book: Book, keys: set<(Account, nat)>, res: map<string, ForAsset>)
    requires keys <= KeysFor(book, None)
  {
    Grouped(book, keys, res) && forall a :: a in res ==> Sorted(res[a])
  }

  /** Whatever order the maps are iterated in, there is only one result. */
  lemma ListingUnique(book: Book, keys: set<(Account, nat)>, r: map<string, ForAsset>, r': map<string, ForAsset>)
    requires keys <= KeysFor(book, None)
    requires IsListing(book, keys, r) && IsListing(book, keys, r')
    ensures r == r'
  {
    assert r.Keys == r'.Keys;
    forall a | a in r
      ensures r[a] == r'[a]
    {
      GroupUnique(book, keys, a, r[a], r'[a]);
    }
  }

  lemma GroupUnique(book: Book, keys: set<(Account, nat)>, a: string, g: ForAsset, g': ForAsset)
    requires keys <= KeysFor(book, None)
    requires IsGroup(book, keys, a, g) && IsGroup(book, keys, a, g') && Sorted(g) && Sorted(g')
    ensures g == g'
  {
    AscendingUnique(g.asks, g'.asks);
    DescendingUnique(g.bids, g'.bids);
  }

  /** In a listing the asks of an asset start with the cheapest, its bids with the highest. */
  lemma ListedByPrice(book: Book, keys: set<(Account, nat)>, res: map<string, ForAsset>, a: string, i: nat, j: nat)
    requires BookComplete(book) && keys <= KeysFor(book, None) && IsListing(book, keys, res) && a in res && i < j
    ensures j < |res[a].asks| ==> IsPriced(res[a].asks[i], res[a].asks[j])
    ensures j < |res[a].bids| ==> IsPriced(res[a].bids[j], res[a].bids[i])
  {
    if j < |res[a].asks| {
      EntryHasKey(book, keys, a, Ask, res[a].asks, i);
      EntryHasKey(book, keys, a, Ask, res[a].asks, j);
      SortedByPrice(res[a].asks, i, j);
    }
    if j < |res[a].bids| {
      EntryHasKey(book, keys, a, Bid, res[a].bids, i);
      EntryHasKey(book, keys, a, Bid, res[a].bids, j);
      assert Ascending([res[a].bids[j], res[a].bids[i]]);
      SortedByPrice([res[a].bids[j], res[a].bids[i]], 0, 1);
    }
  }

  predicate IsPriced(cheap: Order, dear: Order) {
    && cheap.priceSat.Some? && dear.priceSat.Some? && cheap.priceSat.value <= dear.priceSat.value
    && (cheap.priceSat == dear.priceSat && cheap.account == dear.account ==>
          cheap.id.Some? && dear.id.Some? && cheap.id.value < dear.id.value)
  }

  lemma EntryHasKey(book: Book, keys: set<(Account, nat)>, a: string, t: OrderType, s: seq<Order>, i: nat)
    requires BookComplete(book) && keys <= KeysFor(book, None)
    requires Elements(s) == EntriesOf(book, keys, a, t) && i < |s|
    ensures HasKey(s[i])
  {
    assert s[i] in Elements(s);
    var k :| k in keys && Entry(book, k) == s[i];
    assert k in KeysFor(book, None);
  }

  lemma SameEntries(book: Book, asset: string, t: OrderType)
    ensures EntriesOf(book, KeysFor(book, Some(asset)), asset, t) == EntriesOf(book, KeysFor(book, None), asset, t)
  {
    assert forall k :: k in KeysFor(book, Some(asset)) <==> k in KeysFor(book, None) && Stored(book, k).asset == Some(asset);
  }

  /** The listing of one asset is the listing of everything, restricted to it. */
  lemma OneAssetIsRestriction(book: Book, asset: string, one: map<string, ForAsset>, all: map<string, ForAsset>)
    requires IsListing(book, KeysFor(book, Some(asset)), one) && IsListing(book, KeysFor(book, None), all)
    ensures one.Keys <= {asset}
    ensures asset in one <==> asset in all
    ensures asset in one ==> one[asset] == all[asset]
  {
    var some, every := KeysFor(book, Some(asset)), KeysFor(book, None);
    assert forall k :: k in some <==> k in every && Stored(book, k).asset == Some(asset);
    assert asset in one <==> asset in all;
    if asset in one {
      SameEntries(book, asset, Ask);
      SameEntries(book, asset, Bid);
      assert IsGroup(book, every, asset, one[asset]);
      GroupUnique(book, every, asset, one[asset], all[asset]);
    }
  }

  /** Adds an order, not in sorted position, to the side and asset it belongs to. */
  function AddOrderForAsset(res: map<string, ForAsset>, o: Order): map<string, ForAsset>
    requires o.asset.Some? && o.orderType.Some?
  {
    var a := o.asset.value;
    var g := if a in res then res[a] else ForAsset(a, [], []);
    var e := o.(asset := None, orderType := None);
    res[a := match o.orderType.value
             case Ask => g.(asks := g.asks + [e])
             case Bid => g.(bids := g.bids + [e])]
  }

  lemma KeysOfEntries(book: Book, keys: set<(Account, nat)>, a: string, t: OrderType, k: (Account, nat), s: seq<Order>)
    requires keys <= KeysFor(book, None) && k in KeysFor(book, None) && k !in keys
    requires Elements(s) == EntriesOf(book, keys, a, t)
    ensures forall x :: x in s ==> KeyOf(x) != KeyOf(Entry(book, k))
  {
    forall x | x in s
      ensures KeyOf(x) != KeyOf(Entry(book, k))
    {
      assert x in Elements(s);
      var k' :| k' in keys && Entry(book, k') == x;
    }
  }

  lemma GroupGrows(book: Book, keys: set<(Account, nat)>, k: (Account, nat), a: string, t: OrderType, s: seq<Order>)
    requires keys <= KeysFor(book, None) && k in KeysFor(book, None) && k !in keys
    requires Elements(s) == EntriesOf(book, keys, a, t) && DistinctKeys(s)
    ensures var o := Stored(book, k);
      if o.asset == Some(a) && o.orderType == Some(t) then
        && Elements(s + [Entry(book, k)]) == EntriesOf(book, keys + {k}, a, t)
        && DistinctKeys(s + [Entry(book, k)])
      else EntriesOf(book, keys + {k}, a, t) == EntriesOf(book, keys, a, t)
  {
    var o := Stored(book, k);
    if o.asset == Some(a) && o.orderType == Some(t) {
      KeysOfEntries(book, keys, a, t, k, s);
      assert Elements(s + [Entry(book, k)]) == Elements(s) + {Entry(book, k)};
      assert EntriesOf(book, keys + {k}, a, t) == EntriesOf(book, keys, a, t) + {Entry(book, k)};
    } else {
      assert EntriesOf(book, keys + {k}, a, t) == EntriesOf(book, keys, a, t);
    }
  }

  lemma AddKeepsAssets(book: Book, keys: set<(Account, nat)>, k: (Account, nat), res: map<string, ForAsset>, a: string)
    requires BookComplete(book) && keys <= KeysFor(book, None) && k in KeysFor(book, None)
    requires Grouped(book, keys, res)
    ensures a in res || Stored(book, k).asset == Some(a) <==> exists k' :: k' in keys + {k} && Stored(book, k').asset == Some(a)
  {
    if a in res {
      var k' :| k' in keys && Stored(book, k').asset == Some(a);
      assert k' in keys + {k};
    } else if Stored(book, k).asset == Some(a) {
      assert k in keys + {k};
    } else {
      assert forall k' :: k' in keys + {k} ==> k' in keys || k' == k;
    }
  }

  lemma AddKeepsGroup(book: Book, keys: set<(Account, nat)>, k: (Account, nat), res: map<string, ForAsset>, a: string)
    requires BookComplete(book) && keys <= KeysFor(book, None) && k in KeysFor(book, None) && k !in keys
    requires Grouped(book, keys, res)
    ensures var o := Stored(book, k).(account := Some(k.0), id := Some(k.1));
      var res' := AddOrderForAsset(res, o);
      a in res' ==> IsGroup(book, keys + {k}, a, res'[a])
  {
    var g := if a in res then res[a] else ForAsset(a, [], []);
    if a !in res {
      assert EntriesOf(book, keys, a, Ask) == {} && EntriesOf(book, keys, a, Bid) == {};
    }
    GroupGrows(book, keys, k, a, Ask, g.asks);
    GroupGrows(book, keys, k, a, Bid, g.bids);
    hide EntriesOf, Elements, DistinctKeys, KeysFor, Grouped;
  }

  lemma AddKeepsGrouped(book: Book, keys: set<(Account, nat)>, k: (Account, nat), res: map<string, ForAsset>)
    requires BookComplete(book) && keys <= KeysFor(book, None) && k in KeysFor(book, None) && k !in keys
    requires Grouped(book, keys, res)
    ensures var o := Stored(book, k).(account := Some(k.0), id := Some(k.1));
      Grouped(book, keys + {k}, AddOrderForAsset(res, o))
  {
    var res' := AddOrderForAsset(res, Stored(book, k).(account := Some(k.0), id := Some(k.1)));
    forall a
      ensures a in res' <==> exists k' :: k' in keys + {k} && Stored(book, k').asset == Some(a)
      ensures a in res' ==> IsGroup(book, keys + {k}, a, res'[a])
    {
      AddKeepsAssets(book, keys, k, res, a);
      AddKeepsGroup(book, keys, k, res, a);
    }
  }

  // ------------------------------------------------------------------ the queue

  /** The last update of every listed account is in the queue. */
  predicate Covered(book: Book, updates: seq<UpdateEvent>) {
    forall a :: a in book ==> UpdateEvent(a, book[a].lastUpdate) in updates
  }

  predicate InOrder(updates: seq<UpdateEvent>) {
    forall i, j :: 0 <= i < j < |updates| ==> updates[i].time <= updates[j].time
  }

  /** The part of the old book that may still be there, without what was erased. */
  predicate Erased(start: Book, book: Book, before: int) {
    && (forall a :: a in book ==> a in start && book[a] == start[a])
    && (forall a :: a in start && a !in book ==> start[a].lastUpdate < before)
  }

  function PopStep(book: Book, front: UpdateEvent, before: int): Book {
    if front.account in book && book[front.account].lastUpdate < before then book - {front.account} else book
  }

  /** Popping a stale entry keeps the accounts that remain covered. */
  lemma PopKeepsCovered(start: Book, book: Book, updates: seq<UpdateEvent>, before: int)
    requires updates != [] && updates[0].time < before
    requires Covered(book, updates) && InOrder(updates) && Erased(start, book, before)
    ensures var book' := PopStep(book, updates[0], before);
      Covered(book', updates[1..]) && InOrder(updates[1..]) && Erased(start, book', before)
  {
    var book' := PopStep(book, updates[0], before);
    forall a | a in book'
      ensures UpdateEvent(a, book'[a].lastUpdate) in updates[1..]
    {
      var i :| 0 <= i < |updates| && updates[i] == UpdateEvent(a, book[a].lastUpdate);
      assert i > 0;
      assert updates[1..][i - 1] == updates[i];
    }
  }

  /** When the queue's front is fresh, exactly the stale accounts have been erased. */
  lemma QueueDrained(timeout: int, start: Book, book: Book, updates: seq<UpdateEvent>, now: int)
    requires updates == [] || updates[0].time >= now - timeout
    requires Covered(book, updates) && InOrder(updates) && Erased(start, book, now - timeout)
    ensures book == EagerStep(timeout, start, Ticked(now))
  {
    forall a | a in book
      ensures book[a].lastUpdate >= now - timeout
    {
      var i :| 0 <= i < |updates| && updates[i] == UpdateEvent(a, book[a].lastUpdate);
    }
  }

  /** Sorts both sides of one asset. */
  method SortGroup(ghost book: Book, ghost keys: set<(Account, nat)>, ghost a: string, g: ForAsset) returns (r: ForAsset)
    requires keys <= KeysFor(book, None) && IsGroup(book, keys, a, g)
    ensures IsGroup(book, keys, a, r) && Sorted(r)
  {
    var asks := Sort(g.asks);
    var bids := Sort(g.bids);
    AscendingDistinct(asks);
    AscendingDistinct(bids);
    r := g.(asks := asks, bids := Reversed(bids));
  }

  /** All groups are right, and those of finished assets are sorted. */
  ghost predicate SortedExcept(book: Book, keys: set<(Account, nat)>, res: map<string, ForAsset>, rest: set<string>)
    requires keys <= KeysFor(book, None)
  {
    forall a :: a in res ==> IsGroup(book, keys, a, res[a]) && (a !in rest ==> Sorted(res[a]))
  }

  /** Sorts the bids and asks of all assets. */
  method SortByPrices(ghost book: Book, ghost keys: set<(Account, nat)>, res: map<string, ForAsset>)
    returns (sorted: map<string, ForAsset>)
    requires keys <= KeysFor(book, None) && SortedExcept(book, keys, res, res.Keys)
    ensures sorted.Keys == res.Keys && SortedExcept(book, keys, sorted, {})
  {
    sorted := res;
    var rest := res.Keys;
    while rest != {}
      invariant rest <= res.Keys && sorted.Keys == res.Keys
      invariant SortedExcept(book, keys, sorted, rest)
      decreases |rest|
    {
      var a :| a in rest;
      sorted := SortAsset(book, keys, sorted, rest, a);
      rest := rest - {a};
    }
  }

  lemma NoneSortedYet(book: Book, keys: set<(Account, nat)>, res: map<string, ForAsset>)
    requires keys <= KeysFor(book, None) && Grouped(book, keys, res)
    ensures SortedExcept(book, keys, res, res.Keys)
  {
  }

  /** Sorts one asset and leaves the others. */
  method SortAsset(ghost book: Book, ghost keys: set<(Account, nat)>, res: map<string, ForAsset>, ghost rest: set<string>, a: string)
    returns (res': map<string, ForAsset>)
    requires keys <= KeysFor(book, None) && SortedExcept(book, keys, res, rest) && a in res
    ensures res'.Keys == res.Keys && SortedExcept(book, keys, res', rest - {a})
  {
    var g := SortGroup(book, keys, a, res[a]);
    GroupReplaced(book, keys, res, rest, a, g);
    res' := res[a := g];
  }

  lemma GroupReplaced(book: Book, keys: set<(Account, nat)>, res: map<string, ForAsset>, rest: set<string>, a: string, g: ForAsset)
    requires keys <= KeysFor(book, None) && SortedExcept(book, keys, res, rest)
    requires IsGroup(book, keys, a, g) && Sorted(g)
    ensures SortedExcept(book, keys, res[a := g], rest - {a})
  {
  }

  lemma SortedIsListing(book: Book, keys: set<(Account, nat)>, res: map<string, ForAsset>, sorted: map<string, ForAsset>)
    requires keys <= KeysFor(book, None) && Grouped(book, keys, res)
    requires sorted.Keys == res.Keys && SortedExcept(book, keys, sorted, {})
    ensures IsListing(book, keys, sorted)
  {
    assert forall a :: a in sorted <==> a in res;
  }

  lemma EagerRunAppend(timeout: int, history: seq<Op>, op: Op)
    ensures EagerRun(timeout, history + [op]) == EagerStep(timeout, EagerRun(timeout, history), op)
  {
    assert (history + [op])[..|history|] == history;
  }

  lemma AppendKeepsCovered(book: Book, updates: seq<UpdateEvent>, account: Account, upd: map<nat, Order>, now: int)
    requires Covered(book, updates) && InOrder(updates)
    requires forall i :: 0 <= i < |updates| ==> updates[i].time <= now
    ensures var updates' := updates + [UpdateEvent(account, now)];
      && InOrder(updates')
      && Covered(book[account := AccountOrders(upd, now)], updates')
      && forall i :: 0 <= i < |updates'| ==> updates'[i].time <= now
  {
    var updates' := updates + [UpdateEvent(account, now)];
    assert updates'[|updates|] == UpdateEvent(account, now);
    assert forall e :: e in updates ==> e in updates';
  }

  class OrderBook {
    const timeout: int
    var orders: Book
    var updates: seq<UpdateEvent>
    /** Everything that was done to the book, and the last time that was read. */
    ghost var history: seq<Op>
    ghost var clock: int

    /**
     The queue is ordered by time, contains the last update of every account (and
     possibly stale entries), and the book is what plain expiry makes of the history.
     */
    ghost predicate Valid()
      reads this
    {
      && timeout >= 0
      && InOrder(updates)
      && (forall i :: 0 <= i < |updates| ==> updates[i].time <= clock)
      && Covered(orders, updates)
      && BookComplete(orders)
      && orders == EagerRun(timeout, history)
    }

    constructor (timeout: int, now: int)
      requires timeout >= 0
      ensures Valid() && this.timeout == timeout && history == [] && clock == now
    {
      this.timeout := timeout;
      orders, updates := map[], [];
      history, clock := [], now;
    }

    method RunTimeout(now: int)
      requires Valid() && now >= clock
      modifies this
      ensures Valid() && clock == now && history == old(history) + [Ticked(now)]
      ensures orders == EagerStep(timeout, old(orders), Ticked(now))
    {
      var timeoutBefore := now - timeout;
      while updates != [] && updates[0].time < timeoutBefore
        invariant history == old(history) && clock == old(clock)
        invariant forall i :: 0 <= i < |updates| ==> updates[i].time <= clock
        invariant InOrder(updates) && Covered(orders, updates) && Erased(old(orders), orders, timeoutBefore)
        decreases |updates|
      {
        PopKeepsCovered(old(orders), orders, updates, timeoutBefore);
        var account := updates[0].account;
        updates := updates[1..];
        if account !in orders { continue; }
        if orders[account].lastUpdate < timeoutBefore {
          orders := orders - {account};
        }
      }
      QueueDrained(timeout, old(orders), orders, updates, now);
      assert BookComplete(orders);
      EagerRunAppend(timeout, history, Ticked(now));
      history := history + [Ticked(now)];
      clock := now;
    }

    method UpdateOrders(account: Account, upd: map<nat, Order>, now: int)
      requires Valid() && now >= clock && AllComplete(upd)
      modifies this
      ensures Valid() && clock == now && history == old(history) + [Updated(account, upd, now)]
      ensures orders == EagerStep(timeout, old(orders), Updated(account, upd, now))
    {
      EagerRunAppend(timeout, history, Updated(account, upd, now));
      history := history + [Updated(account, upd, now)];
      clock := now;
      if upd == map[] {
        orders := orders - {account};
        return;
      }
      AppendKeepsCovered(orders, updates, account, upd, now);
      updates := updates + [UpdateEvent(account, now)];
      orders := orders[account := AccountOrders(upd, now)];
    }

    /** Adds the orders of one account, in any order, leaving out other assets. */
    method AddAccount(res: map<string, ForAsset>, acc: Account, asset: Option<string>, ghost keys: set<(Account, nat)>)
      returns (res': map<string, ForAsset>, ghost keys': set<(Account, nat)>)
      requires Valid() && acc in orders
      requires keys <= KeysFor(orders, None) && Grouped(orders, keys, res)
      requires forall k :: k in keys ==> k.0 != acc
      ensures keys' <= KeysFor(orders, None) && Grouped(orders, keys', res')
      ensures forall k :: k in keys' <==> k in keys || (k in KeysFor(orders, asset) && k.0 == acc)
    {
      res', keys' := res, keys;
      var ids := orders[acc].orders.Keys;
      while ids != {}
        invariant ids <= orders[acc].orders.Keys && keys' <= KeysFor(orders, None)
        invariant forall k :: k in keys' <==> k in keys || (k in KeysFor(orders, asset) && k.0 == acc && k.1 !in ids)
        invariant Grouped(orders, keys', res')
        decreases |ids|
      {
        var id :| id in ids;
        ids := ids - {id};
        var o := orders[acc].orders[id];
        if asset.Some? && o.asset != asset { continue; }
        assert (acc, id) in KeysFor(orders, asset) && (acc, id) in KeysFor(orders, None);
        AddKeepsGrouped(orders, keys', (acc, id), res');
        res' := AddOrderForAsset(res', o.(account := Some(acc), id := Some(id)));
        keys' := keys' + {(acc, id)};
      }
    }

    method InternalGetByAsset(asset: Option<string>) returns (res: map<string, ForAsset>)
      requires Valid()
      ensures IsListing(orders, KeysFor(orders, asset), res)
    {
      res := map[];
      ghost var keys: set<(Account, nat)> := {};
      var accounts := orders.Keys;
      while accounts != {}
        invariant accounts <= orders.Keys && keys <= KeysFor(orders, None)
        invariant forall k :: k in keys <==> k in KeysFor(orders, asset) && k.0 !in accounts
        invariant Grouped(orders, keys, res)
        decreases |accounts|
      {
        var acc :| acc in accounts;
        res, keys := AddAccount(res, acc, asset, keys);
        accounts := accounts - {acc};
      }
      assert keys == KeysFor(orders, asset);
      NoneSortedYet(orders, keys, res);
      var sorted := SortByPrices(orders, keys, res);
      SortedIsListing(orders, keys, res, sorted);
      res := sorted;
    }

    method GetByAsset() returns (res: map<string, ForAsset>)
      requires Valid()
      ensures IsListing(orders, KeysFor(orders, None), res)
    {
      res := InternalGetByAsset(None);
    }

    /** The entry of GetByAsset for this asset, or an empty one. */
    method GetForAsset(asset: string) returns (res: ForAsset)
      requires Valid()
      ensures forall all: map<string, ForAsset> :: IsListing(orders, KeysFor(orders, None), all) ==>
        res == if asset in all then all[asset] else ForAsset(asset, [], [])
    {
      var allAssets := InternalGetByAsset(Some(asset));
      forall all: map<string, ForAsset> | IsListing(orders, KeysFor(orders, None), all)
        ensures allAssets.Keys <= {asset} && (asset in allAssets <==> asset in all)
        ensures asset in allAssets ==> allAssets[asset] == all[asset]
      {
        OneAssetIsRestriction(orders, asset, allAssets, all);
      }
      if asset !in allAssets {
        return ForAsset(asset, [], []);
      }
      return allAssets[asset];
    }
  }
}
