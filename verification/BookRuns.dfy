/** Whole runs of one daemon under every interleaving, and where its checks can fail. */
module BookRuns {
  import opened Wrappers
  import opened Proto
  import opened Psbts
  import opened Chain
  import opened Checker
  import opened Construction
  import opened Lifecycle
  import opened Identifiers
  import opened OwnOrderList
  import opened TradeSteps
  import opened TradeSafety
  import opened Bookkeeping
  import opened Reservations

  /** The states of a run: it starts empty and every step is an enabled action. */
  ghost predicate IsRun(w: World, cfg: Settings, me: Account, states: seq<Book>, actions: seq<Action>) {
    && |states| == |actions| + 1
    && Initial(states[0])
    && forall i :: 0 <= i < |actions| ==>
         Enabled(w, me, states[i], actions[i]) && states[i + 1] == Apply(w, cfg, me, states[i], actions[i])
  }

  lemma {:induction false} RunKeepsInv(w: World, cfg: Settings, me: Account, states: seq<Book>, actions: seq<Action>, n: nat)
    requires IsRun(w, cfg, me, states, actions) && n < |states|
    ensures OrdersInv(me, states[n]) && WalletInv(w, me, states[n])
  {
    if n > 0 {
      RunKeepsInv(w, cfg, me, states, actions, n - 1);
      OrdersInvKept(w, cfg, me, states[n - 1], actions[n - 1]);
      WalletInvKept(w, cfg, me, states[n - 1], actions[n - 1]);
    }
  }

  // ----------------------------------------------------------- one trade per order

  predicate IsMakerTrade(me: Account, b: Book, i: nat) {
    i < |b.procs| && HasTrade(b.procs[i]) && !b.procs[i].Releasing? && RoleOf(me, b.procs[i].t) == Maker
  }

  /**
   Under every interleaving: two different maker trades that are active or not yet
   cleaned up are for different orders, and the order of each is locked or gone.
   */
  lemma OneLiveTradePerOrder(w: World, cfg: Settings, me: Account, states: seq<Book>, actions: seq<Action>, n: nat, i: nat, j: nat)
    requires IsRun(w, cfg, me, states, actions) && n < |states|
    requires IsMakerTrade(me, states[n], i) && IsMakerTrade(me, states[n], j)
    ensures var b := states[n];
      var id := b.procs[i].t.order.id;
      && (i != j ==> id != b.procs[j].t.order.id)
      && (id in b.own.orders ==> b.own.orders[id].locked)
      && id < b.own.nextFreeId
  {
    RunKeepsInv(w, cfg, me, states, actions, n);
    var b := states[n];
    assert ClaimLocked(me, b, b.procs[i]);
    assert Claim(me, b.procs[i]) == Some(b.procs[i].t.order.id);
    assert Claim(me, b.procs[j]) == Some(b.procs[j].t.order.id);
  }

  /** In every reachable state a message is meant for at most one maker trade. */
  lemma DispatchUnique(w: World, cfg: Settings, me: Account, states: seq<Book>, actions: seq<Action>, n: nat, i: nat, j: nat, msg: Message)
    requires IsRun(w, cfg, me, states, actions) && n < |states|
    requires IsLive(states[n], i) && IsLive(states[n], j)
    requires Matches(states[n].procs[i].t, msg) && Matches(states[n].procs[j].t, msg)
    requires RoleOf(me, states[n].procs[i].t) == Maker
    ensures i == j
  {
    RunKeepsInv(w, cfg, me, states, actions, n);
    var t, t' := states[n].procs[i].t, states[n].procs[j].t;
    assert SafeTrade(w, me, t) && SafeTrade(w, me, t');
    DispatchUnambiguous(me, t, t', msg);
    assert Claim(me, states[n].procs[i]) == Claim(me, states[n].procs[j]);
  }

  lemma RetiredStaysRetired(w: World, cfg: Settings, me: Account, b: Book, a: Action, id: nat)
    requires Enabled(w, me, b, a) && id < b.own.nextFreeId && id !in b.own.orders
    ensures var b' := Apply(w, cfg, me, b, a);
      id < b'.own.nextFreeId && id !in b'.own.orders
  {
  }

  /** An identifier whose order is gone never denotes an order again. */
  lemma {:induction false} IdsNeverReused(w: World, cfg: Settings, me: Account, states: seq<Book>, actions: seq<Action>, m: nat, n: nat, id: nat)
    requires IsRun(w, cfg, me, states, actions) && m <= n < |states|
    requires id < states[m].own.nextFreeId && id !in states[m].own.orders
    ensures id < states[n].own.nextFreeId && id !in states[n].own.orders
    decreases n - m
  {
    if m < n {
      RetiredStaysRetired(w, cfg, me, states[m], actions[m], id);
      IdsNeverReused(w, cfg, me, states, actions, m + 1, n, id);
    }
  }

  // ------------------------------------------------------------- reserved outputs

  /**
   In every reachable state, the outputs reserved by any two trades that are active
   or await cleanup are locked and disjoint; and the cleanup of a failed trade frees
   its own, as far as the unlocking works, and leaves all others locked.
   */
  lemma ReservedNeverOverlap(w: World, cfg: Settings, me: Account, states: seq<Book>, actions: seq<Action>,
                             n: nat, i: nat, j: nat, failing: set<OutPoint>)
    requires IsRun(w, cfg, me, states, actions) && n < |states|
    requires i < |states[n].procs| && j < |states[n].procs| && i != j
    ensures var b := states[n];
      var mine, other := ReservedOf(w, me, b.procs[i]), ReservedOf(w, me, b.procs[j]);
      && mine <= b.locked && other <= b.locked && mine !! other
      && (b.procs[i].Releasing? ==>
            var locked' := FailureRelease(me, b.procs[i].t, b.locked, failing);
            locked' * mine == failing * mine && other <= locked')
  {
    RunKeepsInv(w, cfg, me, states, actions, n);
    if states[n].procs[i].Releasing? {
      FailureReleasesOwn(w, me, states[n], i, failing);
    }
  }

  // --------------------------------------------------------- locks without a trade

  /** The turn locks an output that the trade does not reserve afterwards. */
  ghost predicate LeaksLock(w: World, me: Account, t: TradeState, locked: set<OutPoint>, o: Outcome) {
    exists x :: x in o.locked && x !in locked && x !in ReservedBy(w, me, o.trade)
  }

  /**
   A seller's turn leaves a lock behind exactly if the name output was locked and
   then an address could not be had.
   */
  lemma SellerLeakExact(w: World, me: Account, t: TradeState, locked: set<OutPoint>, env: Env)
    requires Ready(me, t) && TypeOf(me, t) == Ask
    ensures LeaksLock(w, me, t, locked, ReplyStep(w, me, t, locked, env)) <==>
      && t.state == Initiated && t.sellerData.None?
      && env.nameShow.Ok? && env.lockWorks && env.nameShow.value !in locked
      && (env.newNameAddress.Throws? || env.newChiAddress.Throws?)
  {
    SellerShape(w, me, t, locked, env);
    var o := ReplyStep(w, me, t, locked, env);
    if t.state == Initiated && t.sellerData.None? && env.nameShow.Ok? && env.lockWorks && env.nameShow.value !in locked {
      assert env.nameShow.value in o.locked;
    }
  }

  /**
   A buyer's turn that has funded the payment comes to nothing, and funded inputs
   stay locked: the transaction cannot be made, signed or read again; or it is
   refused, because the name is in our own wallet, and an unlocking fails.
   */
  ghost predicate LosesFunding(w: World, me: Account, t: TradeState, nameInput: OutPoint, funded: Tx, env: Env)
    requires CanConstruct(me, t)
  {
    || !env.makesNamePart || env.join(funded, NamePart(w, me, t, nameInput)).Throws?
    || !env.signs || !env.decodes
    || (w.owner(nameInput) == me && (env.unlocks.Throws? || exists o :: o in funded.vin && o in env.unlocks.value))
  }

  /** The signing step, with its check replaced by what that means: is the name ours? */
  lemma SigningShape(w: World, me: Account, t: TradeState, nameInput: OutPoint, locked: set<OutPoint>, env: Env)
    requires CanConstruct(me, t) && EnvOk(w, me, t, locked, env)
    requires BuyerTradeCheck(env.view) == Ok(Some(nameInput))
    ensures var b, c := BuyerSignStep(w, me, t, locked, env), ConstructStep(w, me, t, nameInput, locked, env);
      if c.result.Throws? || !env.signs || !env.decodes then b == BuyerSigned(c.locked, Throws)
      else if w.owner(nameInput) != me then b == BuyerSigned(c.locked, Ok(Some(c.result.value)))
      else if env.unlocks.Throws? then b == BuyerSigned(c.locked, Throws)
      else b == BuyerSigned(AfterUnlock(c.locked, OutPointsOf(c.result.value), env.unlocks.value), Ok(None))
  {
    var c := ConstructStep(w, me, t, nameInput, locked, env);
    if c.result.Ok? {
      var funded := PartsOf(w, me, t, nameInput, locked, env, c.result.value);
      hide EnvOk, ConstructStep, NamePart, PaymentRequest;
      BuyerNeverSignsName(w, me, c.result.value, funded.vin, nameInput);
    }
    hide EnvOk, ConstructStep;
  }

  /** What the funding locks was not locked before, and is spent by the transaction. */
  lemma FundingLocks(w: World, me: Account, t: TradeState, nameInput: OutPoint, locked: set<OutPoint>, env: Env)
    requires CanConstruct(me, t) && EnvOk(w, me, t, locked, env)
    requires env.fund(PaymentRequest(w, me, t)).Ok?
    ensures var funded, c := env.fund(PaymentRequest(w, me, t)).value, ConstructStep(w, me, t, nameInput, locked, env);
      && (forall o :: o in c.locked && o !in locked <==> o in funded.vin)
      && (forall o :: o in funded.vin ==> w.nameOf(o).None?)
      && (c.result.Ok? ==> forall o :: o in funded.vin ==> o in c.result.value.vin)
  {
    var funded, c := env.fund(PaymentRequest(w, me, t)).value, ConstructStep(w, me, t, nameInput, locked, env);
    assert FundedOk(w, me, locked, PaymentRequest(w, me, t), funded);
    if c.result.Ok? {
      var parts := PartsOf(w, me, t, nameInput, locked, env, c.result.value);
      JoinedElements(c.result.value.vin, funded.vin, [nameInput]);
    }
  }

  /** The signing step leaves such locks exactly if something was funded and that happens. */
  lemma SigningLeak(w: World, me: Account, t: TradeState, nameInput: OutPoint, locked: set<OutPoint>, env: Env)
    requires CanConstruct(me, t) && EnvOk(w, me, t, locked, env)
    requires BuyerTradeCheck(env.view) == Ok(Some(nameInput))
    ensures var b := BuyerSignStep(w, me, t, locked, env);
      var funded := env.fund(PaymentRequest(w, me, t));
      var loses := funded.Ok? && LosesFunding(w, me, t, nameInput, funded.value, env);
      if b.result.Ok? && b.result.value.Some? then
        !loses && forall o :: o in b.locked && o !in locked ==> o in b.result.value.value.vin && w.nameOf(o).None?
      else
        (exists o :: o in b.locked && o !in locked) <==> loses && funded.value.vin != []
  {
    SigningShape(w, me, t, nameInput, locked, env);
    hide EnvOk, BuyerSignStep, NamePart, PaymentRequest;
    if env.fund(PaymentRequest(w, me, t)).Ok? {
      FundingLocks(w, me, t, nameInput, locked, env);
      var funded := env.fund(PaymentRequest(w, me, t)).value;
      assert funded.vin != [] ==> funded.vin[0] in funded.vin;
    }
  }

  /** A buyer's turn leaves a lock behind exactly in those cases. */
  lemma BuyerLeakExact(w: World, me: Account, t: TradeState, locked: set<OutPoint>, env: Env)
    requires Ready(me, t) && TypeOf(me, t) == Bid && EnvOk(w, me, t, locked, env)
    ensures LeaksLock(w, me, t, locked, ReplyStep(w, me, t, locked, env)) <==>
      && t.state == Initiated && t.sellerData.Some? && t.ourPsbt.None?
      && BuyerTradeCheck(env.view).Ok? && BuyerTradeCheck(env.view).value.Some?
      && var funded := env.fund(PaymentRequest(w, me, t));
      && funded.Ok? && funded.value.vin != []
      && LosesFunding(w, me, t, BuyerTradeCheck(env.view).value.value, funded.value, env)
  {
    BuyerShape(w, me, t, locked, env);
    var check := BuyerTradeCheck(env.view);
    if t.state == Initiated && t.sellerData.Some? && t.ourPsbt.None? && check.Ok? && check.value.Some? {
      SigningLeak(w, me, t, check.value.value, locked, env);
    }
    hide ReplyStep, EnvOk, LosesFunding;
  }

  const COIN := OutPoint("coin", 0)
  const NAME := OutPoint("name", 0)

  /** A wallet that owns everything, also the name of the seller it buys from. */
  function SharedWallet(): World {
    World(o => "alice", o => if o == NAME then Some(XayaName("bob")) else None,
          (seller, buyer, asset, units) => "move", a => Script(Some([a]), None), a => "alice")
  }

  /** A node that funds everything with one coin, and then fails to join or to unlock. */
  function FailingNode(joins: bool): Env {
    Env(Throws, false, Throws, Throws,
        ChainView(true, true, Ok(NAME), Ok(Some("tip")), Some("tip"), map[]),
        (outs: seq<TxOut>) => Ok(Tx([COIN], outs)), true,
        (a: Tx, b: Tx) => if joins then Ok(Tx(a.vin + b.vin, a.vout + b.vout)) else Throws,
        true, true, Ok({COIN}), true, true)
  }

  function SmallPurchase(): TradeState {
    NewTrade(Terms("bob", 0, "gold", None, 1, Ask, 5), 1, "bob", 0)
      .(sellerData := Some(SellerData(Some("for the name"), Some("for the coins"), None)))
  }

  lemma FailingNodeKeepsContract(joins: bool)
    ensures EnvOk(SharedWallet(), "alice", SmallPurchase(), {}, FailingNode(joins))
    ensures BuyerTradeCheck(FailingNode(joins).view) == Ok(Some(NAME))
  {
    var view := FailingNode(joins).view;
    assert IsBlockAncestor(view.headers, "tip", "tip", MAX_BLOCK_ANCESTORS_CHECKED) == Ok(true);
  }

  /**
   Such turns exist: the buyer has the seller's name in the own wallet, and a single
   call fails, either the joining or the unlocking of the funded coin.
   */
  lemma LeakingPurchase(joins: bool)
    ensures var w, t, env := SharedWallet(), SmallPurchase(), FailingNode(joins);
      && Ready("alice", t) && EnvOk(w, "alice", t, {}, env)
      && LeaksLock(w, "alice", t, {}, ReplyStep(w, "alice", t, {}, env))
  {
    var w, t, env := SharedWallet(), SmallPurchase(), FailingNode(joins);
    FailingNodeKeepsContract(joins);
    hide ReplyStep, EnvOk, BuyerTradeCheck, LeaksLock;
    BuyerLeakExact(w, "alice", t, {}, env);
    assert env.fund(PaymentRequest(w, "alice", t)).value.vin[0] == COIN;
  }

  /** A node that locks what it is asked to, and then has no address. */
  function AddresslessNode(): Env {
    Env(Ok(NAME), true, Throws, Throws, ChainView(false, false, Throws, Throws, None, map[]),
        (outs: seq<TxOut>) => Throws, true, (a: Tx, b: Tx) => Throws, true, true, Ok({}), true, true)
  }

  function SmallSale(): TradeState {
    NewTrade(Terms("bob", 0, "gold", None, 1, Ask, 5), 1, "alice", 0)
  }

  /** A seller's turn that leaks the lock of its name. */
  lemma LeakingSale()
    ensures var w, t, env := SharedWallet(), SmallSale(), AddresslessNode();
      && Ready("bob", t) && EnvOk(w, "bob", t, {}, env)
      && LeaksLock(w, "bob", t, {}, ReplyStep(w, "bob", t, {}, env))
  {
    SellerLeakExact(SharedWallet(), "bob", SmallSale(), {}, AddresslessNode());
    hide ReplyStep, LeaksLock;
  }

  /** After such a leak the sale is stuck for as long as the name stays where it is. */
  lemma LeakedSaleIsStuck(w: World, me: Account, t: TradeState, locked: set<OutPoint>, env: Env)
    requires Ready(me, t) && TypeOf(me, t) == Ask && t.state == Initiated && t.sellerData.None?
    requires env.nameShow.Ok? && env.nameShow.value in locked
    ensures ReplyStep(w, me, t, locked, env) == Outcome(t, locked, Ok(None), None)
  {
  }

  // ----------------------------------------------------------- the checks of Unlock

  /** The trade or attempt is about to unlock its order. */
  predicate WillUnlock(me: Account, p: Proc) {
    p.Rejected? || (p.Failing? && RoleOf(me, p.t) == Maker)
  }

  /** An order is never found unlocked; the check fails exactly if it is gone. */
  lemma UnlockFailsExactly(w: World, cfg: Settings, me: Account, states: seq<Book>, actions: seq<Action>, n: nat, i: nat)
    requires IsRun(w, cfg, me, states, actions) && n < |states|
    requires i < |states[n].procs| && WillUnlock(me, states[n].procs[i])
    ensures CanUnlock(states[n].own, Claim(me, states[n].procs[i]).value) <==>
      Claim(me, states[n].procs[i]).value in states[n].own.orders
  {
    RunKeepsInv(w, cfg, me, states, actions, n);
    assert ClaimLocked(me, states[n], states[n].procs[i]);
  }

  /** The step takes a locked order away: the user cancels it, or a refresh drops it. */
  predicate DropsLocked(b: Book, a: Action, id: nat) {
    && id in b.own.orders && b.own.orders[id].locked
    && ((a.CancelOrder? && a.id == id) || (a.Refresh? && id !in a.keep))
  }

  ghost predicate WasDropped(states: seq<Book>, actions: seq<Action>, n: nat, id: nat)
    requires n < |states| == |actions| + 1
  {
    exists m: nat :: m < n && DropsLocked(states[m], actions[m], id)
  }

  /** Every claimed order is there, or was taken away while it was locked. */
  ghost predicate ClaimsTraced(me: Account, states: seq<Book>, actions: seq<Action>, n: nat)
    requires n < |states| == |actions| + 1
  {
    forall i :: 0 <= i < |states[n].procs| && Claim(me, states[n].procs[i]).Some? ==>
      var id := Claim(me, states[n].procs[i]).value;
      id in states[n].own.orders || WasDropped(states, actions, n, id)
  }

  /** A claim after a step is that of the same entry before it, or of an order just locked. */
  lemma ClaimsComeFrom(w: World, cfg: Settings, me: Account, b: Book, a: Action, i: nat)
    requires OrdersInv(me, b) && Enabled(w, me, b, a)
    requires i < |Apply(w, cfg, me, b, a).procs| && Claim(me, Apply(w, cfg, me, b, a).procs[i]).Some?
    ensures var b' := Apply(w, cfg, me, b, a);
      var id := Claim(me, b'.procs[i]).value;
      || (a.TryLock? && id in b'.own.orders)
      || (i < |b.procs| && Claim(me, b.procs[i]) == Some(id))
  {
    hide ReplyStep, EnvOk;
    if MovesTrade(a) {
      var p := MoveKeepsClaim(w, cfg, me, b, a);
    } else if a.TakeOrder? {
      TurnKeepsOrder(w, me, TakenTrade(a.order, a.units, a.now), b.locked, a.env);
    }
  }

  /** A claimed order goes only by being dropped, as long as its claim is not settled. */
  lemma ClaimedGoes(w: World, cfg: Settings, me: Account, b: Book, a: Action, i: nat)
    requires OrdersInv(me, b) && Enabled(w, me, b, a)
    requires i < |b.procs| && Claim(me, b.procs[i]).Some? && Claim(me, b.procs[i]).value in b.own.orders
    requires i < |Apply(w, cfg, me, b, a).procs| && Claim(me, Apply(w, cfg, me, b, a).procs[i]) == Claim(me, b.procs[i])
    ensures Claim(me, b.procs[i]).value in Apply(w, cfg, me, b, a).own.orders || DropsLocked(b, a, Claim(me, b.procs[i]).value)
  {
    hide ReplyStep, EnvOk;
    assert ClaimLocked(me, b, b.procs[i]);
    if a.CleanOrder? && a.i != i {
      assert Claim(me, b.procs[a.i]) != Claim(me, b.procs[i]);
    }
  }

  lemma {:induction false} RunTracesClaims(w: World, cfg: Settings, me: Account, states: seq<Book>, actions: seq<Action>, n: nat)
    requires IsRun(w, cfg, me, states, actions) && n < |states|
    ensures ClaimsTraced(me, states, actions, n)
  {
    if n > 0 {
      RunTracesClaims(w, cfg, me, states, actions, n - 1);
      RunKeepsInv(w, cfg, me, states, actions, n - 1);
      var b, a := states[n - 1], actions[n - 1];
      hide Apply, Enabled, OrdersInv, WalletInv;
      forall i | 0 <= i < |states[n].procs| && Claim(me, states[n].procs[i]).Some?
        ensures Claim(me, states[n].procs[i]).value in states[n].own.orders
             || WasDropped(states, actions, n, Claim(me, states[n].procs[i]).value)
      {
        var id := Claim(me, states[n].procs[i]).value;
        ClaimsComeFrom(w, cfg, me, b, a, i);
        if id !in states[n].own.orders {
          if id in b.own.orders {
            ClaimedGoes(w, cfg, me, b, a, i);
            assert DropsLocked(states[n - 1], actions[n - 1], id);
          } else {
            var m: nat :| m < n - 1 && DropsLocked(states[m], actions[m], id);
          }
        }
      }
    }
  }

  /**
   In every run, when an order is about to be unlocked: the check fails exactly if the
   user cancelled the order, or a refresh dropped it, while it was locked.
   */
  lemma UnlockFailsIfDropped(w: World, cfg: Settings, me: Account, states: seq<Book>, actions: seq<Action>, n: nat, i: nat)
    requires IsRun(w, cfg, me, states, actions) && n < |states|
    requires i < |states[n].procs| && WillUnlock(me, states[n].procs[i])
    ensures !CanUnlock(states[n].own, Claim(me, states[n].procs[i]).value) <==>
      WasDropped(states, actions, n, Claim(me, states[n].procs[i]).value)
  {
    var id := Claim(me, states[n].procs[i]).value;
    UnlockFailsExactly(w, cfg, me, states, actions, n, i);
    RunTracesClaims(w, cfg, me, states, actions, n);
    if m: nat :| m < n && DropsLocked(states[m], actions[m], id) {
      RunKeepsInv(w, cfg, me, states, actions, m);
      assert states[m + 1] == Apply(w, cfg, me, states[m], actions[m]);
      IdsNeverReused(w, cfg, me, states, actions, m + 1, n, id);
    }
  }

  /** Cancelling and refreshing leave locked orders alone. */
  predicate IsGentle(b: Book, a: Action) {
    && (a.CancelOrder? && a.id in b.own.orders ==> !b.own.orders[a.id].locked)
    && (a.Refresh? ==> forall id :: id in b.own.orders && b.own.orders[id].locked ==> id in a.keep)
  }

  /** Every claimed order is still there. */
  predicate ClaimsPresent(me: Account, b: Book) {
    forall i :: 0 <= i < |b.procs| && Claim(me, b.procs[i]).Some? ==> Claim(me, b.procs[i]).value in b.own.orders
  }

  lemma ClaimedStays(me: Account, b: Book, a: Action)
    requires OrdersInv(me, b) && ClaimsPresent(me, b) && IsGentle(b, a)
    ensures forall i :: 0 <= i < |b.procs| && Claim(me, b.procs[i]).Some? ==>
      && !(a.CancelOrder? && a.id == Claim(me, b.procs[i]).value)
      && !(a.Refresh? && Claim(me, b.procs[i]).value !in a.keep)
  {
    forall i | 0 <= i < |b.procs| && Claim(me, b.procs[i]).Some?
      ensures b.own.orders[Claim(me, b.procs[i]).value].locked
    {
      assert ClaimLocked(me, b, b.procs[i]);
    }
  }

  lemma MoveKeepsClaimsPresent(w: World, cfg: Settings, me: Account, b: Book, a: Action)
    requires OrdersInv(me, b) && ClaimsPresent(me, b) && Enabled(w, me, b, a) && MovesTrade(a)
    ensures ClaimsPresent(me, Apply(w, cfg, me, b, a))
  {
    var p := MoveKeepsClaim(w, cfg, me, b, a);
    hide Apply, Enabled, OrdersInv;
  }

  lemma GentleStepKeepsClaims(w: World, cfg: Settings, me: Account, b: Book, a: Action)
    requires OrdersInv(me, b) && ClaimsPresent(me, b)
    requires Enabled(w, me, b, a) && IsGentle(b, a)
    ensures ClaimsPresent(me, Apply(w, cfg, me, b, a))
  {
    hide ReplyStep, EnvOk;
    if MovesTrade(a) {
      MoveKeepsClaimsPresent(w, cfg, me, b, a);
    } else {
      ClaimedStays(me, b, a);
      if a.TakeOrder? {
        TurnKeepsOrder(w, me, TakenTrade(a.order, a.units, a.now), b.locked, a.env);
      } else if a.CleanOrder? {
        assert forall j :: 0 <= j < |b.procs| && j != a.i && Claim(me, b.procs[a.i]).Some? ==>
          Claim(me, b.procs[a.i]) != Claim(me, b.procs[j]);
      }
    }
  }

  lemma {:induction false} GentleRunKeepsClaims(w: World, cfg: Settings, me: Account, states: seq<Book>, actions: seq<Action>, n: nat)
    requires IsRun(w, cfg, me, states, actions) && n < |states|
    requires forall k :: 0 <= k < |actions| ==> IsGentle(states[k], actions[k])
    ensures ClaimsPresent(me, states[n])
  {
    if n > 0 {
      GentleRunKeepsClaims(w, cfg, me, states, actions, n - 1);
      RunKeepsInv(w, cfg, me, states, actions, n - 1);
      GentleStepKeepsClaims(w, cfg, me, states[n - 1], actions[n - 1]);
    }
  }

  /** If no locked order is cancelled or dropped, the checks of Unlock never fail. */
  lemma GentleRunsNeverFail(w: World, cfg: Settings, me: Account, states: seq<Book>, actions: seq<Action>, n: nat, i: nat)
    requires IsRun(w, cfg, me, states, actions) && n < |states|
    requires forall k :: 0 <= k < |actions| ==> IsGentle(states[k], actions[k])
    requires i < |states[n].procs| && WillUnlock(me, states[n].procs[i])
    ensures CanUnlock(states[n].own, Claim(me, states[n].procs[i]).value)
  {
    GentleRunKeepsClaims(w, cfg, me, states, actions, n);
    UnlockFailsExactly(w, cfg, me, states, actions, n, i);
  }

  /** A run that fails the check: the user cancels an order that is being taken. */
  lemma CancelledOrderFailsUnlock(w: World, cfg: Settings, me: Account, order: Order, taker: Account)
    returns (states: seq<Book>, actions: seq<Action>)
    requires !order.locked && order.maxUnits == 5 && order.minUnits == Some(2)
    ensures IsRun(w, cfg, me, states, actions)
    ensures |states| == 5 && |states[4].procs| == 1 && WillUnlock(me, states[4].procs[0])
    ensures !CanUnlock(states[4].own, Claim(me, states[4].procs[0]).value)
  {
    var b0 := Book(OwnOrders(map[], 0), [], {});
    var a0 := AddOrder(order, true);
    var b1 := Apply(w, cfg, me, b0, a0);
    var a1 := TryLock(0, 1, taker);
    var b2 := Apply(w, cfg, me, b1, a1);
    assert b2.procs[0].order.minUnits == Some(2);
    assert IsRefused(me, b2.procs[0]);
    var a2 := OrderTaken(0, 0);
    var b3 := Apply(w, cfg, me, b2, a2);
    var a3 := CancelOrder(0);
    var b4 := Apply(w, cfg, me, b3, a3);
    states, actions := [b0, b1, b2, b3, b4], [a0, a1, a2, a3];
  }
}
