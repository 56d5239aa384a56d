/** The buyer's check of the chain, carried through the whole life of a purchase. */
module ChainRuns {
  import opened Wrappers
  import opened Proto
  import opened Psbts
  import opened Chain
  import opened Lifecycle
  import opened TradeSteps
  import opened TradeSafety
  import opened TradeRuns

  /** On every chain through the block on which the output is unspent, the sale is possible. */
  ghost predicate SellableWhileUnspent(l: Ledger, block: Hash, o: OutPoint) {
    forall top, n: nat :: Predecessor(l.headers, top, n) == Some(block) && l.unspent(top, o) ==> l.sellable(top)
  }

  /** The buyer's check has approved the output, with the game at the given block. */
  ghost predicate ApprovedAt(w: World, l: Ledger, seller: Account, block: Hash, o: OutPoint) {
    exists v :: Faithful(w, l, v, seller) && BuyerTradeCheck(v) == Ok(Some(o)) && v.canSell == Some(block)
  }

  /** That holds of the one input we did not sign, the seller's name, at the approved block. */
  ghost predicate Deliverable(w: World, l: Ledger, me: Account, seller: Account, psbt: Psbt) {
    exists k, block ::
      && SignedAllBut(w, me, psbt, k)
      && ApprovedAt(w, l, seller, block, psbt.tx.vin[k])
      && SellableWhileUnspent(l, block, psbt.tx.vin[k])
  }

  /** What the node and the game answer during a run agrees with one ledger. */
  ghost predicate RunFaithful(w: World, l: Ledger, seller: Account, events: seq<Event>) {
    forall i :: 0 <= i < |events| && events[i].Turn? ==> Faithful(w, l, events[i].env.view, seller)
  }

  lemma SignedIsDeliverable(w: World, l: Ledger, me: Account, t: TradeState, locked: set<OutPoint>, env: Env, tx: Tx)
    requires CanConstruct(me, t) && EnvOk(w, me, t, locked, env)
    requires SpendingIsFinal(l) && SalesNeedMoves(w, l, t.counterparty) && Faithful(w, l, env.view, t.counterparty)
    requires BuyerSignStep(w, me, t, locked, env).result == Ok(Some(tx))
    ensures Deliverable(w, l, me, t.counterparty, SignedAsBuyer(w, me, tx))
  {
    var nameInput := ApprovedInput(w, me, t, locked, env, tx);
    BuyerInputs(w, me, t, nameInput, locked, env, tx);
    var k :| SignedAllBut(w, me, SignedAsBuyer(w, me, tx), k) && tx.vin[k] == nameInput;
    var block := env.view.canSell.value;
    forall top, n: nat | Predecessor(l.headers, top, n) == Some(block) && l.unspent(top, nameInput)
      ensures l.sellable(top)
    {
      BuyerChainSafety(w, l, env.view, t.counterparty, top, n);
    }
    assert ApprovedAt(w, l, t.counterparty, block, nameInput) && SellableWhileUnspent(l, block, nameInput);
  }

  lemma StepKeepsDeliverable(w: World, cfg: Settings, l: Ledger, me: Account, t: TradeState, e: Event)
    requires SafeTrade(w, me, t) && EventOk(w, me, t, e) && TypeOf(me, t) == Bid
    requires SpendingIsFinal(l) && SalesNeedMoves(w, l, t.counterparty)
    requires e.Turn? ==> Faithful(w, l, e.env.view, t.counterparty)
    requires t.ourPsbt.Some? ==> Deliverable(w, l, me, t.counterparty, t.ourPsbt.value)
    ensures var t' := TradeStep(w, cfg, me, t, e);
      t'.ourPsbt.Some? ==> Deliverable(w, l, me, t.counterparty, t'.ourPsbt.value)
  {
    hide ReplyStep, BuyerSignStep, Deliverable, SpendingIsFinal, SalesNeedMoves, Faithful;
    if e.Turn? {
      BuyerShape(w, me, t, e.locked, e.env);
      if t.state == Initiated && t.sellerData.Some? && t.ourPsbt.None? {
        var b := BuyerSignStep(w, me, t, e.locked, e.env);
        if b.result.Ok? && b.result.value.Some? {
          SignedIsDeliverable(w, l, me, t, e.locked, e.env, b.result.value.value);
        }
      }
    }
  }

  /**
   In every reachable state of a purchase, against arbitrary messages: once we have
   signed, on every chain through the block at which the sale was approved, on which
   the name input is still unspent, the seller can deliver.
   */
  lemma {:induction false} PurchaseIsDeliverable(w: World, cfg: Settings, l: Ledger, me: Account, t: TradeState, events: seq<Event>)
    requires SafeTrade(w, me, t) && RunOk(w, cfg, me, t, events) && TypeOf(me, t) == Bid
    requires SpendingIsFinal(l) && SalesNeedMoves(w, l, t.counterparty) && RunFaithful(w, l, t.counterparty, events)
    requires t.ourPsbt.Some? ==> Deliverable(w, l, me, t.counterparty, t.ourPsbt.value)
    ensures var r := Run(w, cfg, me, t, events).trade;
      r.ourPsbt.Some? ==> Deliverable(w, l, me, t.counterparty, r.ourPsbt.value)
    decreases |events|
  {
    if events != [] {
      hide TradeStep, SafeTrade, EventOk, Deliverable, SpendingIsFinal, SalesNeedMoves, Faithful, Releases;
      StepKeepsSafe(w, cfg, me, t, events[0]);
      StepFollows(w, cfg, me, t, events[0]);
      StepKeepsDeliverable(w, cfg, l, me, t, events[0]);
      PurchaseIsDeliverable(w, cfg, l, me, TradeStep(w, cfg, me, t, events[0]), events[1..]);
    }
  }
}
