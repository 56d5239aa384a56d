/**
 What one trade does with a message and with its turn to reply, as functions of the
 trade, the wallet's locks and the answers of the RPC interface.
 */
module TradeSteps {
  import opened Wrappers
  import opened Amounts
  import opened Proto
  import opened Psbts
  import opened Chain
  import opened Checker
  import opened Construction
  import opened Identifiers

  // -------------------------------------------------------------- environment

  /**
   The answers the RPC interface gives during one call of HasReply: funding and
   joining answer what they are asked, unlocking fails for some outputs (or
   altogether, if the transaction to unlock cannot be decoded), and the flags say
   whether the other calls work.
   */
  datatype Env = Env(
    nameShow: Rpc<OutPoint>,
    lockWorks: bool,
    newNameAddress: Rpc<string>,
    newChiAddress: Rpc<string>,
    view: ChainView,
    fund: seq<TxOut> -> Rpc<Tx>,
    makesNamePart: bool,
    join: (Tx, Tx) -> Rpc<Tx>,
    signs: bool,
    decodes: bool,
    unlocks: Rpc<set<OutPoint>>,
    finalises: bool,
    sends: bool)

  /** The parts of a reply besides the counterparty and the identifier. */
  datatype Payload = Payload(sellerData: Option<SellerData>, psbt: Option<Psbt>)

  /** The result of a turn: new trade, new locks, the reply, and a broadcast. */
  datatype Outcome = Outcome(
    trade: TradeState,
    locked: set<OutPoint>,
    reply: Rpc<Option<Payload>>,
    sent: Option<Psbt>)

  /** The message that carries a payload for a trade. */
  function ToMessage(t: TradeState, payload: Payload, taking: Option<TakingOrder>): Message {
    Message(t.counterparty, IdentifierOf(t), taking, payload.sellerData,
            if payload.psbt.Some? then Some(Encoded(payload.psbt.value)) else None)
  }

  /** The broadcasts of a turn. */
  function SentBy(o: Outcome): seq<Psbt> {
    if o.sent.Some? then [o.sent.value] else []
  }

  predicate HasAddresses(sd: SellerData) {
    sd.nameAddress.Some? && sd.chiAddress.Some?
  }

  /** The hypotheses under which a trade's amounts are computed. */
  predicate Tradable(me: Account, t: TradeState) {
    && 0 < t.units < TWO_63
    && t.order.priceSat < TWO_63
    && (TypeOf(me, t) == Bid ==> t.order.priceSat * t.units < TWO_63)
  }

  /** Nobody trades with themselves, and one of the two made the order. */
  predicate TwoParties(me: Account, t: TradeState) {
    && t.counterparty != me
    && (t.order.account == me || t.order.account == t.counterparty)
  }

  /** The stored seller data has the shape our role needs. */
  predicate SellerDataOk(me: Account, t: TradeState) {
    t.sellerData.Some? ==>
      && HasAddresses(t.sellerData.value)
      && (TypeOf(me, t) == Ask <==> t.sellerData.value.nameOutput.Some?)
      && (TypeOf(me, t) == Bid ==> t.sellerData.value.nameAddress != t.sellerData.value.chiAddress)
  }

  predicate Ready(me: Account, t: TradeState) {
    Tradable(me, t) && TwoParties(me, t) && SellerDataOk(me, t)
  }

  /** A turn computes amounts only once there is seller data. */
  predicate Answerable(me: Account, t: TradeState) {
    t.state == Initiated && t.sellerData.Some? ==> Ready(me, t)
  }

  function CheckerFor(w: World, me: Account, t: TradeState): (c: TradeChecker)
    requires Tradable(me, t)
    ensures c.Valid()
  {
    TradeChecker(w, Buyer(me, t), Seller(me, t), t.order.asset, t.order.priceSat, t.units)
  }

  // ------------------------------------------------------- the buyer's transaction

  /** What ConstructTransaction checks and uses. */
  predicate CanConstruct(me: Account, t: TradeState) {
    Tradable(me, t) && TypeOf(me, t) == Bid && t.sellerData.Some? && HasAddresses(t.sellerData.value)
  }

  /** The outputs to fund: the total, to the seller's address. */
  function PaymentRequest(w: World, me: Account, t: TradeState): seq<TxOut>
    requires CanConstruct(me, t)
  {
    [Payment(w, t.sellerData.value.chiAddress.value, t.order.priceSat * t.units)]
  }

  /** The part with the seller's name: its current output in, the update out. */
  function NamePart(w: World, me: Account, t: TradeState, nameInput: OutPoint): Tx
    requires CanConstruct(me, t)
  {
    var plain := CreatePsbt([nameInput], [Payment(w, t.sellerData.value.nameAddress.value, NAME_VALUE)]);
    NamePsbt(plain, 0, NameOp("name_update", XayaName(t.counterparty), CheckerFor(w, me, t).GetNameUpdateValue()))
  }

  /** The agreed update of the seller's name. */
  ghost predicate IsNamePart(w: World, me: Account, t: TradeState, out: TxOut)
    requires t.sellerData.Some? && HasAddresses(t.sellerData.value)
  {
    && out.value == 1_000_000
    && out.nameOp == Some(NameOp("name_update", "p/" + t.counterparty,
                                 w.transferValue(t.counterparty, me, t.order.asset, t.units)))
    && IsScriptOf(out.script, t.sellerData.value.nameAddress.value)
  }

  /** The contract of the RPC boundary for one call, for whatever it is asked. */
  ghost predicate EnvOk(w: World, me: Account, t: TradeState, locked: set<OutPoint>, env: Env) {
    && ScriptsMatch(w)
    && (env.nameShow.Ok? ==> w.nameOf(env.nameShow.value) == Some(XayaName(me)))
    && (env.newNameAddress.Ok? ==> w.holder(env.newNameAddress.value) == me)
    && (env.newChiAddress.Ok? ==> w.holder(env.newChiAddress.value) == me)
    && (env.view.nameShow.Ok? ==> w.nameOf(env.view.nameShow.value) == Some(XayaName(t.counterparty)))
    && (forall request :: env.fund(request).Ok? ==> FundedOk(w, me, locked, request, env.fund(request).value))
    && (forall a, b :: env.join(a, b).Ok? ==> JoinedOk(a, b, env.join(a, b).value))
  }

  // ------------------------------------------------------------------ messages

  /** The seller data is complete, for two distinct addresses, without an output. */
  predicate AcceptableSellerData(sd: SellerData) {
    && HasAddresses(sd)
    && sd.nameOutput.None?
    && sd.nameAddress != sd.chiAddress
  }

  function MergeSellerDataStep(me: Account, t: TradeState, sd: SellerData): TradeState {
    if TypeOf(me, t) == Ask || t.sellerData.Some? || !AcceptableSellerData(sd) then t
    else t.(sellerData := Some(sd))
  }

  function MergePsbtStep(t: TradeState, psbt: PsbtText): TradeState {
    if t.theirPsbt.Some? then t else t.(theirPsbt := Some(psbt))
  }

  function HandleMessageStep(me: Account, t: TradeState, msg: Message): TradeState {
    if t.state != Initiated then t
    else
      var t1 := if msg.sellerData.Some? then MergeSellerDataStep(me, t, msg.sellerData.value) else t;
      if msg.psbt.Some? then MergePsbtStep(t1, msg.psbt.value) else t1
  }

  // ------------------------------------------------------------------- replies

  datatype Created = Created(trade: TradeState, locked: set<OutPoint>, result: Rpc<bool>)

  /**
   Locks our name output and asks for two addresses. If an address cannot be had
   after the output was locked, the lock stays.
   */
  function CreateSellerDataStep(me: Account, t: TradeState, locked: set<OutPoint>, env: Env): Created {
    if TypeOf(me, t) != Ask || t.sellerData.Some? then Created(t, locked, Ok(false))
    else if env.nameShow.Throws? then Created(t, locked, Throws)
    else
      var o := env.nameShow.value;
      if !env.lockWorks || o in locked then Created(t, locked, Ok(false))
      else if env.newNameAddress.Throws? || env.newChiAddress.Throws? then Created(t, locked + {o}, Throws)
      else
        var sd := SellerData(Some(env.newNameAddress.value), Some(env.newChiAddress.value), Some(o));
        Created(t.(sellerData := Some(sd)), locked + {o}, Ok(true))
  }

  /** As seller with the buyer's PSBT: our signed PSBT, or a refusal. */
  ghost function SellerSignStep(w: World, me: Account, t: TradeState, env: Env): Rpc<Option<Psbt>>
    requires Ready(me, t) && TypeOf(me, t) == Ask && t.sellerData.Some? && t.theirPsbt.Some?
  {
    match t.theirPsbt.value
    case Garbage(_) => Throws
    case Encoded(before) =>
      var sd := t.sellerData.value;
      if !env.decodes then Throws
      else if !CheckerFor(w, me, t).SellerOutputsOk(before.tx, sd.nameAddress.value, sd.chiAddress.value) then Ok(None)
      else if !env.signs then Throws
      else
        var after := Sign(w, me, before);
        if !SellerSignatureOk(before, after, sd.nameOutput.value) then Ok(None)
        else if RoleOf(me, t) == Maker && !Complete(w, after) then Ok(None)
        else if RoleOf(me, t) == Taker && Complete(w, after) then Ok(None)
        else Ok(Some(after))
  }

  datatype Constructed = Constructed(locked: set<OutPoint>, result: Rpc<Tx>)

  /** Funds the payment, which locks the chosen outputs, and joins the name part. */
  function ConstructStep(w: World, me: Account, t: TradeState, nameInput: OutPoint, locked: set<OutPoint>, env: Env): Constructed
    requires CanConstruct(me, t)
  {
    match env.fund(PaymentRequest(w, me, t))
    case Throws => Constructed(locked, Throws)
    case Ok(funded) =>
      Constructed(locked + OutPointsOf(funded),
                  if env.makesNamePart then env.join(funded, NamePart(w, me, t, nameInput)) else Throws)
  }

  datatype BuyerSigned = BuyerSigned(locked: set<OutPoint>, result: Rpc<Option<Tx>>)

  /** As buyer: the constructed transaction, after our inputs were signed. */
  function BuyerSignStep(w: World, me: Account, t: TradeState, locked: set<OutPoint>, env: Env): BuyerSigned
    requires CanConstruct(me, t)
  {
    match BuyerTradeCheck(env.view)
    case Throws => BuyerSigned(locked, Throws)
    case Ok(None) => BuyerSigned(locked, Ok(None))
    case Ok(Some(nameInput)) =>
      var c := ConstructStep(w, me, t, nameInput, locked, env);
      if c.result.Throws? || !env.signs || !env.decodes then BuyerSigned(c.locked, Throws)
      else
        var before := UnsignedPsbt(c.result.value);
        if DiffCount(before.inputs, Sign(w, me, before).inputs) + 1 == |before.inputs|
        then BuyerSigned(c.locked, Ok(Some(before.tx)))
        else if env.unlocks.Throws? then BuyerSigned(c.locked, Throws)
        else BuyerSigned(AfterUnlock(c.locked, OutPointsOf(before.tx), env.unlocks.value), Ok(None))
  }

  function SignedAsBuyer(w: World, me: Account, tx: Tx): Psbt {
    Sign(w, me, UnsignedPsbt(tx))
  }

  /** With our own PSBT in place: hand it over as taker, or finish as maker. */
  function FinishStep(w: World, me: Account, t: TradeState, locked: set<OutPoint>, env: Env): Outcome
    requires t.ourPsbt.Some?
  {
    if RoleOf(me, t) == Taker then
      Outcome(t.(state := Pending), locked, Ok(Some(Payload(None, t.ourPsbt))), None)
    else if t.theirPsbt.None? then Outcome(t, locked, Ok(None), None)
    else
      var final :=
        if TypeOf(me, t) == Ask then t.ourPsbt
        else if t.theirPsbt.value.Garbage? || t.theirPsbt.value.psbt.tx != t.ourPsbt.value.tx then None
        else Some(Combine(t.theirPsbt.value.psbt, t.ourPsbt.value));
      if final.None? || !env.finalises then Outcome(t, locked, Throws, None)
      else if !Complete(w, final.value) then Outcome(t, locked, Ok(None), None)
      else if !env.sends then Outcome(t, locked, Throws, None)
      else Outcome(t.(state := Pending), locked, Ok(None), final)
  }

  /** Trade::HasReply as a function. */
  ghost function ReplyStep(w: World, me: Account, t: TradeState, locked: set<OutPoint>, env: Env): Outcome
    requires Answerable(me, t)
  {
    if t.state != Initiated then Outcome(t, locked, Ok(None), None)
    else
      var c := CreateSellerDataStep(me, t, locked, env);
      if c.result.Throws? then Outcome(c.trade, c.locked, Throws, None)
      else if c.result.value then
        var sd := c.trade.sellerData.value.(nameOutput := None);
        Outcome(c.trade, c.locked, Ok(Some(Payload(Some(sd), None))), None)
      else if t.sellerData.None? then Outcome(t, locked, Ok(None), None)
      else if t.ourPsbt.Some? then
        if TypeOf(me, t) == Ask && t.theirPsbt.None? then Outcome(t, locked, Ok(None), None)
        else FinishStep(w, me, t, locked, env)
      else if TypeOf(me, t) == Ask then SellerTurn(w, me, t, locked, env)
      else BuyerTurn(w, me, t, locked, env)
  }

  ghost function SellerTurn(w: World, me: Account, t: TradeState, locked: set<OutPoint>, env: Env): Outcome
    requires Ready(me, t) && TypeOf(me, t) == Ask && t.sellerData.Some?
  {
    if t.theirPsbt.None? then Outcome(t, locked, Ok(None), None)
    else match SellerSignStep(w, me, t, env)
      case Throws => Outcome(t, locked, Throws, None)
      case Ok(None) => Outcome(t, locked, Ok(None), None)
      case Ok(Some(psbt)) => FinishStep(w, me, t.(ourPsbt := Some(psbt)), locked, env)
  }

  ghost function BuyerTurn(w: World, me: Account, t: TradeState, locked: set<OutPoint>, env: Env): Outcome
    requires CanConstruct(me, t)
  {
    var b := BuyerSignStep(w, me, t, locked, env);
    match b.result
    case Throws => Outcome(t, b.locked, Throws, None)
    case Ok(None) => Outcome(t, b.locked, Ok(None), None)
    case Ok(Some(tx)) =>
      var t1 := t.(ourPsbt := Some(SignedAsBuyer(w, me, tx)));
      if RoleOf(me, t) == Maker
      then Outcome(t1, b.locked, Ok(Some(Payload(None, Some(UnsignedPsbt(tx))))), None)
      else FinishStep(w, me, t1, b.locked, env)
  }

  // ------------------------------------------------- trades whose total is no amount

  /** What holds of every trade that is stored, whatever its price and units. */
  predicate Storable(me: Account, t: TradeState) {
    TwoParties(me, t) && SellerDataOk(me, t) && (t.ourPsbt.Some? ==> Tradable(me, t))
  }

  /** The price times the units, as signed numbers, is a signed 64-bit number. */
  predicate TotalIsAmount(t: TradeState) {
    -TWO_63 <= Wrap(t.order.priceSat) * Wrap(t.units) < TWO_63
  }

  /**
   A turn ends the process: it needs the total of a trade that cannot be traded, and
   the units are not positive, or the total is negative for the seller, or it does not
   fit for the buyer.
   */
  predicate EndsProcess(me: Account, t: TradeState, env: Env) {
    && !Answerable(me, t)
    && match TypeOf(me, t)
       case Ask => t.theirPsbt.Some? && t.theirPsbt.value.Encoded? && env.decodes && (Wrap(t.units) <= 0 || TotalIsAmount(t))
       case Bid => (BuyerTradeCheck(env.view).Ok? && BuyerTradeCheck(env.view).value.Some?
                    && (Wrap(t.units) <= 0 || !TotalIsAmount(t)))
  }

  /** Such a turn throws before or after it computes the total, but does nothing. */
  predicate UntradedThrows(me: Account, t: TradeState, env: Env) {
    match TypeOf(me, t)
    case Ask => t.theirPsbt.Some? && (t.theirPsbt.value.Garbage? || !env.decodes)
    case Bid => BuyerTradeCheck(env.view).Throws? || BuyerTradeCheck(env.view).value.Some?
  }

  /** A turn of any stored trade, unless it ends the process. */
  ghost function TurnOrEnd(w: World, me: Account, t: TradeState, locked: set<OutPoint>, env: Env): Option<Outcome> {
    if Answerable(me, t) then Some(ReplyStep(w, me, t, locked, env))
    else if EndsProcess(me, t, env) then None
    else Some(Outcome(t, locked, if UntradedThrows(me, t, env) then Throws else Ok(None), None))
  }
}
