/** The records exchanged and stored by the daemon: orders, trades and messages. */
module Proto {
  import opened Wrappers
  import opened Amounts

  type Account = string
  type Hash = string

  // ------------------------------------------------------------- transactions

  datatype OutPoint = OutPoint(hash: Hash, n: nat)

  datatype NameOp = NameOp(op: string, name: string, value: string)

  /** A decoded scriptPubKey: either form in which the node reports addresses. */
  datatype Script = Script(addresses: Option<seq<string>>, address: Option<string>)

  datatype TxOut = TxOut(value: Int64, script: Script, nameOp: Option<NameOp>)

  /** A transaction without any signatures. */
  datatype Tx = Tx(vin: seq<OutPoint>, vout: seq<TxOut>)

  /** What a PSBT holds for one input; the signer is identified by its wallet. */
  datatype Slot = Unsigned | Sig(signer: Account) | Other(data: string)

  datatype PsbtRecord = PsbtOf(tx: Tx, inputs: seq<Slot>)

  /** A partially signed transaction has one slot for each input. */
  type Psbt = p: PsbtRecord | |p.inputs| == |p.tx.vin| witness PsbtOf(Tx([], []), [])

  /** PSBT text as received: anything that decodepsbt rejects is garbage. */
  datatype PsbtText = Garbage(text: string) | Encoded(psbt: Psbt)

  // ------------------------------------------------------------------- orders

  datatype OrderType = Ask | Bid

  /** An order as it travels, with every field optional as in the schema. */
  datatype Order = Order(
    account: Option<Account>,
    id: Option<nat>,
    asset: Option<string>,
    minUnits: Option<Uint64>,
    maxUnits: Uint64,
    orderType: Option<OrderType>,
    priceSat: Option<Uint64>,
    locked: bool)

  /** An order all of whose mandatory fields are present. */
  datatype Terms = Terms(
    account: Account,
    id: nat,
    asset: string,
    minUnits: Option<Uint64>,
    maxUnits: Uint64,
    orderType: OrderType,
    priceSat: Uint64)

  // ------------------------------------------------------------------- trades

  datatype State = Initiated | Pending | Success | Failed | Abandoned

  datatype Role = Maker | Taker

  datatype SellerData = SellerData(
    nameAddress: Option<string>,
    chiAddress: Option<string>,
    nameOutput: Option<OutPoint>)

  datatype TradeState = TradeState(
    order: Terms,
    units: Uint64,
    counterparty: Account,
    startTime: int,
    state: State,
    sellerData: Option<SellerData>,
    ourPsbt: Option<Psbt>,
    theirPsbt: Option<PsbtText>,
    conflictHeight: Option<nat>)

  /** The public summary of a trade, kept in the archive. */
  datatype PublicTrade = PublicTrade(
    state: State,
    startTime: int,
    counterparty: Account,
    orderType: OrderType,
    asset: string,
    units: Uint64,
    priceSat: Uint64,
    role: Role)

  function NewTrade(order: Terms, units: Uint64, counterparty: Account, now: int): TradeState {
    TradeState(order, units, counterparty, now, Initiated, None, None, None, None)
  }

  function RoleOf(me: Account, t: TradeState): Role {
    if t.order.account == me then Maker else Taker
  }

  /** The type of the order from our point of view: Ask if we are the seller. */
  function TypeOf(me: Account, t: TradeState): OrderType {
    if RoleOf(me, t) == Maker then t.order.orderType
    else match t.order.orderType case Ask => Bid case Bid => Ask
  }

  function Buyer(me: Account, t: TradeState): Account {
    if TypeOf(me, t) == Bid then me else t.counterparty
  }

  function Seller(me: Account, t: TradeState): Account {
    if TypeOf(me, t) == Bid then t.counterparty else me
  }

  predicate IsFinalised(t: TradeState) {
    t.state in {Abandoned, Success, Failed}
  }

  /** The states in which our signatures have left this process. */
  predicate HasCommitted(t: TradeState) {
    t.state in {Pending, Success, Failed}
  }

  function PublicInfo(me: Account, t: TradeState): PublicTrade {
    PublicTrade(t.state, t.startTime, t.counterparty, TypeOf(me, t), t.order.asset,
                t.units, t.order.priceSat, RoleOf(me, t))
  }

  // ----------------------------------------------------------------- messages

  datatype TakingOrder = TakingOrder(id: nat, units: Uint64)

  /** A processing message; the counterparty is its sender on receipt. */
  datatype Message = Message(
    counterparty: Account,
    identifier: string,
    takingOrder: Option<TakingOrder>,
    sellerData: Option<SellerData>,
    psbt: Option<PsbtText>)
}
