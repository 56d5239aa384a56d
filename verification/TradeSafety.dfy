/**
 What holds of one honest party's trade in every reachable state, whatever messages
 arrive and however the RPC interface and the chain answer.
 */
module TradeSafety {
  import opened Wrappers
  import opened Amounts
  import opened Proto
  import opened Psbts
  import opened Chain
  import opened Checker
  import opened Construction
  import opened Lifecycle
  import opened TradeSteps

  // ------------------------------------------------------------------ one trade

  /** Something that happens to a trade: a message, a turn to reply, an update. */
  datatype Event =
    | Receive(msg: Message)
    | Turn(locked: set<OutPoint>, env: Env)
    | Tick(now: int, obs: Observation)

  /** Messages are arbitrary; only the local node keeps its contract. */
  ghost predicate EventOk(w: World, me: Account, t: TradeState, e: Event)
    requires Ready(me, t)
  {
    e.Turn? ==> EnvOk(w, me, t, e.locked, e.env)
  }

  ghost function TradeStep(w: World, cfg: Settings, me: Account, t: TradeState, e: Event): TradeState
    requires SafeTrade(w, me, t)
  {
    match e
    case Receive(msg) => HandleMessageStep(me, t, msg)
    case Turn(locked, env) => ReplyStep(w, me, t, locked, env).trade
    case Tick(now, obs) => UpdateStep(cfg, t, now, obs)
  }

  // ----------------------------------------------------------------- invariants

  /**
   The seller's protection: the signed transaction is the one received, it moves our
   name as agreed to our address, another output pays us the true total, and our
   signature changed no slot but that of our recorded name output.
   */
  ghost predicate SellerSafe(w: World, me: Account, t: TradeState)
    requires t.ourPsbt.Some?
  {
    var tx, total := t.ourPsbt.value.tx, t.order.priceSat * t.units;
    && t.theirPsbt.Some? && t.theirPsbt.value.Encoded?
    && t.theirPsbt.value.psbt.tx == tx
    && t.sellerData.Some? && HasAddresses(t.sellerData.value) && t.sellerData.value.nameOutput.Some?
    && (exists i :: 0 <= i < |tx.vout| && MovesOurName(w, me, t, tx.vout[i]))
    && (total == 0 || exists j :: 0 <= j < |tx.vout| && PaysUs(t, tx.vout[j]))
    && (exists k: nat ::
          && IsFirstSpend(tx, t.sellerData.value.nameOutput.value, k)
          && OnlySlotChanged(t.theirPsbt.value.psbt.inputs, t.ourPsbt.value.inputs, k)
          && t.ourPsbt.value.inputs[k] in {Sig(me), t.theirPsbt.value.psbt.inputs[k]})
    && (Complete(w, t.ourPsbt.value) <==> RoleOf(me, t) == Maker)
  }

  predicate MovesOurName(w: World, me: Account, t: TradeState, out: TxOut)
    requires t.sellerData.Some? && HasAddresses(t.sellerData.value)
  {
    && out.nameOp == Some(NameOp("name_update", "p/" + me, w.transferValue(me, t.counterparty, t.order.asset, t.units)))
    && PaysOnly(out.script, t.sellerData.value.nameAddress.value)
  }

  /** A payment is never at the same time the name output. */
  predicate PaysUs(t: TradeState, out: TxOut)
    requires t.sellerData.Some? && HasAddresses(t.sellerData.value)
  {
    && out.nameOp.None?
    && PaysOnly(out.script, t.sellerData.value.chiAddress.value)
    && out.value >= t.order.priceSat * t.units
  }

  /**
   The buyer's protection: one input is foreign and unsigned, namely the seller's
   name; we signed all others; the only name output is the agreed update; and all
   other outputs pay the agreed total to the seller, or return to us.
   */
  ghost predicate BuyerSafe(w: World, me: Account, t: TradeState)
    requires t.ourPsbt.Some? && Tradable(me, t)
  {
    var tx := t.ourPsbt.value.tx;
    && t.sellerData.Some? && HasAddresses(t.sellerData.value)
    && (exists k :: SignedAllBut(w, me, t.ourPsbt.value, k) && w.nameOf(tx.vin[k]) == Some(XayaName(t.counterparty)))
    && (exists i :: 0 <= i < |tx.vout| && tx.vout[i].nameOp.Some?)
    && (forall i :: 0 <= i < |tx.vout| && tx.vout[i].nameOp.Some? ==> IsNamePart(w, me, t, tx.vout[i]))
    && (exists i :: 0 <= i < |tx.vout| && IsExactPayment(t, tx.vout[i]))
    && (forall i :: 0 <= i < |tx.vout| && tx.vout[i].nameOp.None? ==>
          IsExactPayment(t, tx.vout[i]) || ReturnsTo(w, me, tx.vout[i]))
  }

  /** The output by which the buyer pays: the total, to the seller's address. */
  ghost predicate IsExactPayment(t: TradeState, out: TxOut)
    requires t.sellerData.Some? && HasAddresses(t.sellerData.value)
  {
    && out.nameOp.None?
    && IsScriptOf(out.script, t.sellerData.value.chiAddress.value)
    && out.value == t.order.priceSat * t.units
  }

  /** Input k is foreign and unsigned; all others are ours, nameless and signed. */
  ghost predicate SignedAllBut(w: World, me: Account, p: Psbt, k: int) {
    && IsOnlyForeign(w, me, p.tx.vin, k)
    && p.inputs[k] == Unsigned
    && forall i :: 0 <= i < |p.inputs| && i != k ==> p.inputs[i] == Sig(me) && w.nameOf(p.tx.vin[i]).None?
  }

  /** When our PSBT is set: for a taker, exactly if our signatures have left. */
  predicate PsbtMatchesState(me: Account, t: TradeState) {
    && (RoleOf(me, t) == Taker ==> (t.ourPsbt.Some? <==> HasCommitted(t)))
    && (RoleOf(me, t) == Maker && HasCommitted(t) ==> t.ourPsbt.Some? && t.theirPsbt.Some?)
    && (t.conflictHeight.Some? ==> t.state in {Pending, Success, Failed})
  }

  /** A seller's recorded addresses are the seller's own. */
  predicate OwnAddresses(w: World, me: Account, t: TradeState) {
    TypeOf(me, t) == Ask && t.sellerData.Some? && HasAddresses(t.sellerData.value) ==>
      && w.holder(t.sellerData.value.nameAddress.value) == me
      && w.holder(t.sellerData.value.chiAddress.value) == me
  }

  ghost predicate SafeTrade(w: World, me: Account, t: TradeState) {
    && Ready(me, t)
    && PsbtMatchesState(me, t)
    && OwnAddresses(w, me, t)
    && (t.ourPsbt.Some? ==> if TypeOf(me, t) == Ask then SellerSafe(w, me, t) else BuyerSafe(w, me, t))
  }

  lemma NewTradeIsSafe(w: World, me: Account, order: Terms, units: Uint64, counterparty: Account, now: int)
    requires Ready(me, NewTrade(order, units, counterparty, now))
    ensures SafeTrade(w, me, NewTrade(order, units, counterparty, now))
  {
  }

  // ------------------------------------------------------- what a step may change

  /** The write-once fields and the state machine's edges. */
  predicate Follows(t: TradeState, t': TradeState) {
    && t'.order == t.order && t'.units == t.units
    && t'.counterparty == t.counterparty && t'.startTime == t.startTime
    && (t.sellerData.Some? ==> t'.sellerData == t.sellerData)
    && (t.ourPsbt.Some? ==> t'.ourPsbt == t.ourPsbt)
    && (t.theirPsbt.Some? ==> t'.theirPsbt == t.theirPsbt)
    && (t'.state != t.state ==>
          || (t.state == Initiated && t'.state in {Pending, Abandoned})
          || (t.state == Pending && t'.state in {Success, Failed}))
  }

  lemma FinishFollows(w: World, me: Account, t: TradeState, locked: set<OutPoint>, env: Env)
    requires t.ourPsbt.Some? && t.state == Initiated
    ensures Follows(t, FinishStep(w, me, t, locked, env).trade)
  {
    hide Complete, Combine;
  }

  lemma TurnFollows(w: World, me: Account, t: TradeState, locked: set<OutPoint>, env: Env)
    requires Answerable(me, t)
    ensures Follows(t, ReplyStep(w, me, t, locked, env).trade)
  {
    hide SellerSignStep, BuyerSignStep, SignedAsBuyer, FinishStep;
    if t.state == Initiated && t.sellerData.Some? {
      if t.ourPsbt.Some? {
        FinishFollows(w, me, t, locked, env);
      } else if TypeOf(me, t) == Ask {
        if t.theirPsbt.Some? && SellerSignStep(w, me, t, env).Ok? && SellerSignStep(w, me, t, env).value.Some? {
          FinishFollows(w, me, t.(ourPsbt := SellerSignStep(w, me, t, env).value), locked, env);
        }
      } else {
        var b := BuyerSignStep(w, me, t, locked, env);
        if b.result.Ok? && b.result.value.Some? {
          FinishFollows(w, me, t.(ourPsbt := Some(SignedAsBuyer(w, me, b.result.value.value))), b.locked, env);
        }
      }
    }
  }

  lemma StepFollows(w: World, cfg: Settings, me: Account, t: TradeState, e: Event)
    requires SafeTrade(w, me, t)
    ensures Follows(t, TradeStep(w, cfg, me, t, e))
  {
    hide ReplyStep, BuyerSafe, SellerSafe;
    if e.Turn? {
      TurnFollows(w, me, t, e.locked, e.env);
    }
  }

  // --------------------------------------------------------- invariants are kept

  /** The buyer's protection mentions neither the state nor the other side's PSBT. */
  lemma BuyerSafeStays(w: World, me: Account, t: TradeState, t': TradeState)
    requires Ready(me, t) && t.ourPsbt.Some? && TypeOf(me, t) == Bid && BuyerSafe(w, me, t)
    requires t' == t.(state := t'.state, conflictHeight := t'.conflictHeight, theirPsbt := t'.theirPsbt)
    ensures BuyerSafe(w, me, t')
  {
    var tx := t.ourPsbt.value.tx;
    assert CheckerFor(w, me, t) == CheckerFor(w, me, t');
    assert forall i :: 0 <= i < |tx.vout| ==> IsNamePart(w, me, t, tx.vout[i]) == IsNamePart(w, me, t', tx.vout[i]);
    assert forall i :: 0 <= i < |tx.vout| ==> IsExactPayment(t, tx.vout[i]) == IsExactPayment(t', tx.vout[i]);
  }

  /** Once we have signed, a message can at most bring the buyer the seller's PSBT. */
  lemma ReceiveSigned(w: World, me: Account, t: TradeState, msg: Message)
    requires SafeTrade(w, me, t) && t.ourPsbt.Some?
    ensures var t' := HandleMessageStep(me, t, msg);
      if TypeOf(me, t) == Ask then t' == t else t' == t.(theirPsbt := t'.theirPsbt)
    ensures HasCommitted(t) ==> HandleMessageStep(me, t, msg) == t
  {
    assert t.sellerData.Some? && (TypeOf(me, t) == Ask ==> t.theirPsbt.Some?);
    hide SellerSafe, BuyerSafe;
  }

  lemma ReceiveUnsigned(w: World, me: Account, t: TradeState, msg: Message)
    requires SafeTrade(w, me, t) && t.ourPsbt.None?
    ensures SafeTrade(w, me, HandleMessageStep(me, t, msg))
  {
    hide SellerSafe, BuyerSafe;
  }

  lemma ReceiveKeepsSafe(w: World, me: Account, t: TradeState, msg: Message)
    requires SafeTrade(w, me, t)
    ensures SafeTrade(w, me, HandleMessageStep(me, t, msg))
  {
    hide HandleMessageStep, SellerSafe, BuyerSafe;
    if t.ourPsbt.None? {
      ReceiveUnsigned(w, me, t, msg);
    } else {
      ReceiveSigned(w, me, t, msg);
      if TypeOf(me, t) == Bid {
        BuyerSafeStays(w, me, t, HandleMessageStep(me, t, msg));
      }
    }
  }

  lemma TickKeepsSafe(w: World, cfg: Settings, me: Account, t: TradeState, now: int, obs: Observation)
    requires SafeTrade(w, me, t)
    ensures SafeTrade(w, me, UpdateStep(cfg, t, now, obs))
  {
    var t' := UpdateStep(cfg, t, now, obs);
    SafeIgnoresState(w, me, t, t');
  }

  /** The protections do not mention the state or the conflict height. */
  lemma SafeIgnoresState(w: World, me: Account, t: TradeState, t': TradeState)
    requires Ready(me, t)
    requires t' == t.(state := t'.state, conflictHeight := t'.conflictHeight)
    ensures Ready(me, t')
    ensures t.ourPsbt.Some? && TypeOf(me, t) == Ask && SellerSafe(w, me, t) ==> SellerSafe(w, me, t')
    ensures t.ourPsbt.Some? && TypeOf(me, t) == Bid && BuyerSafe(w, me, t) ==> BuyerSafe(w, me, t')
  {
    if t.ourPsbt.Some? && TypeOf(me, t) == Ask && SellerSafe(w, me, t) {
      var tx := t.ourPsbt.value.tx;
      assert forall i :: 0 <= i < |tx.vout| ==> MovesOurName(w, me, t, tx.vout[i]) == MovesOurName(w, me, t', tx.vout[i]);
      assert forall i :: 0 <= i < |tx.vout| ==> PaysUs(t, tx.vout[i]) == PaysUs(t', tx.vout[i]);
    }
    if t.ourPsbt.Some? && TypeOf(me, t) == Bid && BuyerSafe(w, me, t) {
      BuyerSafeStays(w, me, t, t');
    }
  }

  lemma FinishKeepsSafe(w: World, me: Account, t: TradeState, locked: set<OutPoint>, env: Env)
    requires Ready(me, t) && OwnAddresses(w, me, t)
    requires t.ourPsbt.Some? && t.state == Initiated && t.conflictHeight.None?
    requires if TypeOf(me, t) == Ask then SellerSafe(w, me, t) else BuyerSafe(w, me, t)
    ensures SafeTrade(w, me, FinishStep(w, me, t, locked, env).trade)
  {
    SafeIgnoresState(w, me, t, FinishStep(w, me, t, locked, env).trade);
  }

  /** A PSBT that passed the seller's checks gives the seller's protection. */
  lemma SellerSignedIsSafe(w: World, me: Account, t: TradeState, env: Env, psbt: Psbt)
    requires Ready(me, t) && TypeOf(me, t) == Ask && t.sellerData.Some? && t.theirPsbt.Some?
    requires SellerSignStep(w, me, t, env) == Ok(Some(psbt))
    ensures Ready(me, t.(ourPsbt := Some(psbt))) && SellerSafe(w, me, t.(ourPsbt := Some(psbt)))
  {
    var t' := t.(ourPsbt := Some(psbt));
    var c := CheckerFor(w, me, t);
    var before, sd := t.theirPsbt.value.psbt, t.sellerData.value;
    assert psbt.tx == before.tx;
    var i :| 0 <= i < |before.tx.vout| && c.IsNameUpdate(before.tx.vout[i], sd.nameAddress.value);
    assert MovesOurName(w, me, t', before.tx.vout[i]);
    if c.price * c.units != 0 {
      var j :| 0 <= j < |before.tx.vout| && c.IsPayment(before.tx.vout[j], sd.chiAddress.value);
      assert PaysUs(t', before.tx.vout[j]);
    }
  }

  /** The parts from which the buyer's transaction was joined. */
  lemma PartsOf(w: World, me: Account, t: TradeState, nameInput: OutPoint, locked: set<OutPoint>, env: Env, tx: Tx) returns (funded: Tx)
    requires CanConstruct(me, t) && EnvOk(w, me, t, locked, env)
    requires ConstructStep(w, me, t, nameInput, locked, env).result == Ok(tx)
    ensures env.fund(PaymentRequest(w, me, t)) == Ok(funded)
    ensures FundedOk(w, me, locked, PaymentRequest(w, me, t), funded)
    ensures JoinedOk(funded, NamePart(w, me, t, nameInput), tx)
    ensures SpendsAlso(w, me, tx, funded.vin, nameInput)
  {
    funded := env.fund(PaymentRequest(w, me, t)).value;
    assert env.join(funded, NamePart(w, me, t, nameInput)) == Ok(tx);
  }

  /** The outputs we asked for are there: one name update, and the payment. */
  lemma BuyerOutputs(w: World, me: Account, t: TradeState, nameInput: OutPoint, locked: set<OutPoint>, env: Env, tx: Tx)
    requires CanConstruct(me, t) && EnvOk(w, me, t, locked, env)
    requires ConstructStep(w, me, t, nameInput, locked, env).result == Ok(tx)
    ensures exists i :: 0 <= i < |tx.vout| && tx.vout[i].nameOp.Some?
    ensures forall i :: 0 <= i < |tx.vout| && tx.vout[i].nameOp.Some? ==> IsNamePart(w, me, t, tx.vout[i])
    ensures exists i :: 0 <= i < |tx.vout| && IsExactPayment(t, tx.vout[i])
    ensures forall i :: 0 <= i < |tx.vout| && tx.vout[i].nameOp.None? ==>
      IsExactPayment(t, tx.vout[i]) || ReturnsTo(w, me, tx.vout[i])
  {
    var funded := PartsOf(w, me, t, nameInput, locked, env, tx);
    var payment, update := PaymentRequest(w, me, t)[0], NamePart(w, me, t, nameInput).vout[0];
    JoinedElements(tx.vout, funded.vout, [update]);
    RequestedOutputs(w, me, t, nameInput);
    assert forall out :: out in funded.vout ==> out == payment || ReturnsTo(w, me, out);
    assert payment in PaymentRequest(w, me, t);
    assert payment in funded.vout && update in [update];
    assert payment in tx.vout && update in tx.vout;
    hide IsNamePart, IsScriptOf, EnvOk, ConstructStep, JoinedOk, FundedOk, NamePart;
    assert update.nameOp.Some? && payment.nameOp.None?;
    var p :| 0 <= p < |tx.vout| && tx.vout[p] == payment;
    var q :| 0 <= q < |tx.vout| && tx.vout[q] == update;
    assert IsExactPayment(t, tx.vout[p]);
    forall i | 0 <= i < |tx.vout|
      ensures tx.vout[i] == update || tx.vout[i] == payment || ReturnsTo(w, me, tx.vout[i])
    {
      assert tx.vout[i] in tx.vout;
    }
  }

  /** The two outputs we ask for, in terms of what was agreed. */
  lemma RequestedOutputs(w: World, me: Account, t: TradeState, nameInput: OutPoint)
    requires CanConstruct(me, t) && ScriptsMatch(w)
    ensures NamePart(w, me, t, nameInput).vin == [nameInput] && |NamePart(w, me, t, nameInput).vout| == 1
    ensures IsNamePart(w, me, t, NamePart(w, me, t, nameInput).vout[0]) && NamePart(w, me, t, nameInput).vout[0].nameOp.Some?
    ensures |PaymentRequest(w, me, t)| == 1 && IsExactPayment(t, PaymentRequest(w, me, t)[0])
  {
    assert IsScriptOf(w.scriptOf(t.sellerData.value.nameAddress.value), t.sellerData.value.nameAddress.value);
    assert IsScriptOf(w.scriptOf(t.sellerData.value.chiAddress.value), t.sellerData.value.chiAddress.value);
  }

  /** The inputs: all ours and signed, except the seller's name. */
  lemma BuyerInputs(w: World, me: Account, t: TradeState, nameInput: OutPoint, locked: set<OutPoint>, env: Env, tx: Tx)
    requires CanConstruct(me, t) && EnvOk(w, me, t, locked, env)
    requires ConstructStep(w, me, t, nameInput, locked, env).result == Ok(tx)
    requires w.owner(nameInput) != me
    ensures exists k :: SignedAllBut(w, me, SignedAsBuyer(w, me, tx), k) && tx.vin[k] == nameInput
  {
    var funded := PartsOf(w, me, t, nameInput, locked, env, tx);
    BuyerNeverSignsName(w, me, tx, funded.vin, nameInput);
    var psbt := SignedAsBuyer(w, me, tx);
    var k :| IsOnlyForeign(w, me, tx.vin, k) && tx.vin[k] == nameInput && psbt.inputs[k] == Unsigned;
    RestIsFunded(tx.vin, funded.vin, nameInput, k);
    assert SignedAllBut(w, me, psbt, k);
  }

  /** The name input of a transaction we signed as buyer: approved, and not ours. */
  lemma ApprovedInput(w: World, me: Account, t: TradeState, locked: set<OutPoint>, env: Env, tx: Tx) returns (nameInput: OutPoint)
    requires CanConstruct(me, t) && EnvOk(w, me, t, locked, env)
    requires BuyerSignStep(w, me, t, locked, env).result == Ok(Some(tx))
    ensures BuyerTradeCheck(env.view) == Ok(Some(nameInput))
    ensures ConstructStep(w, me, t, nameInput, locked, env).result == Ok(tx)
    ensures w.nameOf(nameInput) == Some(XayaName(t.counterparty)) && w.owner(nameInput) != me
  {
    nameInput := BuyerTradeCheck(env.view).value.value;
    assert nameInput == env.view.nameShow.value;
    var funded := PartsOf(w, me, t, nameInput, locked, env, tx);
    BuyerNeverSignsName(w, me, tx, funded.vin, nameInput);
  }

  /** A PSBT we constructed and signed as buyer gives the buyer's protection. */
  lemma BuyerSignedIsSafe(w: World, me: Account, t: TradeState, locked: set<OutPoint>, env: Env, tx: Tx)
    requires Ready(me, t) && TypeOf(me, t) == Bid && t.sellerData.Some? && EnvOk(w, me, t, locked, env)
    requires BuyerSignStep(w, me, t, locked, env).result == Ok(Some(tx))
    ensures Ready(me, t.(ourPsbt := Some(SignedAsBuyer(w, me, tx))))
    ensures BuyerSafe(w, me, t.(ourPsbt := Some(SignedAsBuyer(w, me, tx))))
  {
    var t' := t.(ourPsbt := Some(SignedAsBuyer(w, me, tx)));
    var nameInput := ApprovedInput(w, me, t, locked, env, tx);
    hide BuyerSignStep, ConstructStep, BuyerTradeCheck, EnvOk;
    BuyerOutputs(w, me, t, nameInput, locked, env, tx);
    BuyerInputs(w, me, t, nameInput, locked, env, tx);
    assert forall i :: 0 <= i < |tx.vout| ==> IsNamePart(w, me, t, tx.vout[i]) == IsNamePart(w, me, t', tx.vout[i]);
    assert forall i :: 0 <= i < |tx.vout| ==> IsExactPayment(t, tx.vout[i]) == IsExactPayment(t', tx.vout[i]);
  }

  /** The addresses a seller records come from its own wallet. */
  lemma CreationKeepsOwn(w: World, me: Account, t: TradeState, locked: set<OutPoint>, env: Env)
    requires OwnAddresses(w, me, t) && EnvOk(w, me, t, locked, env)
    ensures OwnAddresses(w, me, CreateSellerDataStep(me, t, locked, env).trade)
  {
  }

  lemma TurnKeepsSafe(w: World, me: Account, t: TradeState, locked: set<OutPoint>, env: Env)
    requires SafeTrade(w, me, t) && EnvOk(w, me, t, locked, env)
    ensures SafeTrade(w, me, ReplyStep(w, me, t, locked, env).trade)
  {
    hide FinishStep, SellerSignStep, BuyerSignStep, SignedAsBuyer, EnvOk;
    CreationKeepsOwn(w, me, t, locked, env);
    if t.state == Initiated && t.sellerData.Some? {
      if t.ourPsbt.Some? {
        FinishKeepsSafe(w, me, t, locked, env);
      } else if TypeOf(me, t) == Ask {
        if t.theirPsbt.Some? && SellerSignStep(w, me, t, env).Ok? && SellerSignStep(w, me, t, env).value.Some? {
          var psbt := SellerSignStep(w, me, t, env).value.value;
          SellerSignedIsSafe(w, me, t, env, psbt);
          FinishKeepsSafe(w, me, t.(ourPsbt := Some(psbt)), locked, env);
        }
      } else {
        var b := BuyerSignStep(w, me, t, locked, env);
        if b.result.Ok? && b.result.value.Some? {
          BuyerSignedIsSafe(w, me, t, locked, env, b.result.value.value);
          FinishKeepsSafe(w, me, t.(ourPsbt := Some(SignedAsBuyer(w, me, b.result.value.value))), b.locked, env);
        }
      }
    }
  }

  // ------------------------------------------------------------ the shape of a turn

  /** A seller's turn: only the creation of the seller data moves locks. */
  lemma SellerShape(w: World, me: Account, t: TradeState, locked: set<OutPoint>, env: Env)
    requires Ready(me, t) && TypeOf(me, t) == Ask
    ensures var o := ReplyStep(w, me, t, locked, env);
      var c := if t.state == Initiated then CreateSellerDataStep(me, t, locked, env) else Created(t, locked, Ok(false));
      o.trade.sellerData == c.trade.sellerData && o.locked == c.locked && o.trade.order == t.order
  {
  }

  /** A buyer's turn: only the construction of the transaction moves locks. */
  lemma BuyerShape(w: World, me: Account, t: TradeState, locked: set<OutPoint>, env: Env)
    requires Ready(me, t) && TypeOf(me, t) == Bid
    ensures var o := ReplyStep(w, me, t, locked, env);
      && o.trade.sellerData == t.sellerData && o.trade.order == t.order
      && if t.state == Initiated && t.sellerData.Some? && t.ourPsbt.None? then
           var b := BuyerSignStep(w, me, t, locked, env);
           && o.locked == b.locked
           && o.trade.ourPsbt == if b.result.Ok? && b.result.value.Some?
                                 then Some(SignedAsBuyer(w, me, b.result.value.value)) else None
         else o.locked == locked && o.trade.ourPsbt == t.ourPsbt
  {
  }

  lemma StepKeepsSafe(w: World, cfg: Settings, me: Account, t: TradeState, e: Event)
    requires SafeTrade(w, me, t) && EventOk(w, me, t, e)
    ensures SafeTrade(w, me, TradeStep(w, cfg, me, t, e))
  {
    match e
    case Receive(msg) => ReceiveKeepsSafe(w, me, t, msg);
    case Turn(locked, env) => TurnKeepsSafe(w, me, t, locked, env);
    case Tick(now, obs) => TickKeepsSafe(w, cfg, me, t, now, obs);
  }
}
