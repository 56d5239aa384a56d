# Democrit, verified

Democrit trades in-game assets of a Xaya game for CHI without a trusted third
party. A maker publishes orders; a taker takes one; the two daemons exchange a
partially signed transaction (PSBT) until the maker can broadcast it, and each
then follows the transaction to its confirmation or double spend. This project
models that logic in Dafny and proves what it is for: the parties agree on one
transaction, nobody signs away more than was agreed, coins reserved for one
trade are never touched by another, and no unit of an order is lost or sold
twice.

`dafny verify dfyconfig.toml` checks everything.

## How the model is laid out

| files | what they model |
|---|---|
| `Amounts`, `Proto`, `Psbts` | 64-bit amounts, the protocol messages and trade state, PSBTs as (transaction, one signature slot per input), signing and combining |
| `Chain`, `Checker` | the checks before anybody signs (`src/checker.cpp`) |
| `Construction` | what the buyer asks the node for, and what the node promises about its answers |
| `TradeSteps`, `Trades` | one trade: each entry point as a function, and the class `Trade` whose methods update its state in place and are proved equal to those functions |
| `TradeSafety`, `TradeRuns`, `ChainRuns`, `Lifecycle` | one honest party against arbitrary messages, over all runs; deliverability of what was bought; confirmation depth over all observation histories |
| `Protocol`, `SellerDataRuns`, `Exchange` | any number of honest parties and an adversary on a network that loses, repeats and reorders; agreement on transaction, terms and addresses; a lossless exchange through both trade managers runs to its end |
| `Orders`, `OwnOrderList`, `Identifiers` | taking and filling orders, the list of own orders, matching messages to trades |
| `Bookkeeping`, `Reservations`, `BookRuns`, `LockRuns`, `OrderTerms`, `Lineages`, `LineageTerms` | the daemon as a machine whose steps are the blocks run under the state lock, in every interleaving: order locks, wallet locks, ids and terms of orders, conservation of units and of terms along a lineage |
| `Collecting`, `ManagerSteps`, `ManagerRuns`, `PartyRuns`, `TradeManagement` | the trade manager's entry points as functions, the proofs that each is a run of that machine and of an honest party in the network, and the class `TradeManager` |
| `OrderSorting`, `OrderBooks` | the order book: expiry queue and regrouping |
| `Authentication` | XMPP user name decoding on bytes |
| `Gsp` | the trade status query of the game state processor |

Objects that the source updates in place (`Trade`, `MyOrders`, `TradeManager`,
`OrderBook`, `Authenticator`, the wallet behind the RPC interface, the game's
table of trades) are classes whose methods are proved against functions on the
old state; the theorems are about those functions and about runs built from them.

## What the model takes as given

These are the facts the code relies on and cannot check itself. They appear in
the model as preconditions of the events of a run, never as facts about results.

- In a run, a started trade has `1 <= units < 2^63` and `price_sat < 2^63`; when we
  are the buyer, price times units fits in 63 bits (`TradeSteps.Ready`).
  `CheckOrder` does not ensure this for our own orders: a counterparty can ask for
  zero units of an order without `min_units`, and can choose units of our bid whose
  total does not fit. `Orders.AcceptedPositiveExactly` and
  `OrderTerms.AcceptedTradableExactly` say exactly for which orders this can happen.
  The classes `Trade` and `TradeManager` do not need it: they store every accepted
  trade, and a turn that needs the total of a trade without one ends the process
  exactly as `TradeSteps.EndsProcess` says (`src/checker.cpp:99`,
  `src/trades.cpp:335`); asking the node to fund a negative amount throws.
- An order and its trade involve two different accounts.
- An RPC call that throws had no effect; any call may throw. Wallet locks change
  only through RPC calls made by this daemon.
- `walletcreatefundedpsbt` selects unlocked outputs of our wallet that carry no
  name, keeps the outputs it was asked for, and adds only nameless ones;
  `joinpsbts` keeps all inputs and outputs of its parts in some order; `createpsbt`
  and `namepsbt` make what they are asked for; the script of an address is decoded
  to exactly that address, in each form the node uses. A new address belongs to our wallet, and so do the
  addresses that get change. These are contracts on the calls for arbitrary arguments
  (`TradeSteps.EnvOk`); which arguments the buyer passes is computed by the model.
- Signing fills exactly the slots of owned inputs; combining and finalising follow
  the mock server (`src/mockxaya.cpp:219-247`, `src/mockxaya.cpp:409-471`) and the
  Signer, Combiner and Input Finalizer roles of BIP 174.
- In the network model, the sender of a message is authentic, and a slot with an
  honest party's signature is only ever filled by that party or copied from
  something it released.
- Orders passed to `Add` are unlocked, and for the conservation theorems have
  passed order validation (minimum at most maximum). Time does not run backwards.
- Whether an account can sell at a later block changes only in blocks that spend
  its current name output (`Chain.SalesNeedMoves`), as `src/assetspec.hpp`
  demands of asset specifications.

## Where the code and the expectation differ

- *Locked if and only if reserved* does not hold. A reserved output is always
  locked, but a lock can outlive its reservation. `LockRuns.SpareExactly` says
  which steps of a run do this, and starting with nothing locked the property holds
  throughout a run exactly if no step of it is one of these
  (`LockRuns.LockedIffReserved`):
  a turn as seller in which an address request throws after the name output was
  locked (`BookRuns.SellerLeakExact`, `BookRuns.LeakingSale`), after which the sale
  cannot continue on that output (`BookRuns.LeakedSaleIsStuck`);
  a turn as buyer in which, after funding, the transaction cannot be made, joined,
  signed or decoded, or is refused because the name is in our own wallet and
  unlocking then fails for a funded input (`BookRuns.BuyerLeakExact`,
  `BookRuns.LeakingPurchase`), and a first turn that locks and then throws, so that
  there is no trade;
  the success of a trade, whose outputs are spent and are never unlocked
  (`src/trades.cpp:756-777`); and the cleanup of a failed trade for exactly those
  of its outputs whose unlocking fails (`Reservations.FailureReleasesOwn`).
  Without failing calls, every locked output was locked at the start, is reserved,
  or belonged to a trade that succeeded (`LockRuns.LocksAccounted`).
- The subtraction of filled units in `HandleSuccess` is on unsigned numbers. It
  never wraps for any accepted fill if and only if the order does not have
  `max_units < 2^63 <= min_units` (`Orders.SubtractionExact`); `CheckOrder` alone
  does not exclude such an order (`Orders.OverfillExample`), order validation does.
- `Unlock` ends the process if the order is gone. Over every run and for each
  order, that happens exactly if the user cancelled it or a refresh dropped it
  while it was locked (`BookRuns.UnlockFailsIfDropped`,
  `BookRuns.CancelledOrderFailsUnlock`).
- The comment in `gsp/game.cpp` argues that a trade's status is as good as an
  atomic answer if no block is detached. That is right for the status
  (`Gsp.StatusLinearizable`), and `Gsp.StatusExact` says exactly when it fails
  otherwise (`Gsp.DetachBreaksStatus` is such a history). The pair of status and
  block height need not be the answer of an atomic check at any moment between the
  reads, even without detached blocks (`Gsp.HeightOfAnotherBlock`);
  `Gsp.AnswerLinearizableExactly` says when it is.

## Model

| member | source | states |
|---|---|---|
| Amounts.TotalSatExact | src/checker.cpp:95-107 | For every signed 64-bit price and positive units, the division test on the wrapped product passes if and only if the true product fits in 64 bits, and then the total is the true product |
| Chain.IsBlockAncestorExact | src/checker.cpp:117-145 | The walk over block headers answers yes if and only if the ancestor is at most n parents behind the child |
| Chain.BuyerTradeCheckExact | src/checker.cpp:149-230 | The buyer's check returns an outpoint exactly if the asset exists, the buyer may buy, the outpoint is the seller's current name, and it exists in a block at most three parents behind the block at which the game said that the seller can sell |
| Chain.BuyerTradeCheckThrows | src/checker.cpp:149-230 | It throws exactly if asset and buyer are fine and the name or its output cannot be looked up, or one of the first three headers back from the game's block is not known before the output's block is found |
| Chain.BuyerChainSafety | src/checker.cpp:149-230 | On every chain through the game's block on which the returned outpoint is still unspent, the seller can still sell the units |
| Checker.TradeChecker.GetTotalSat | src/checker.cpp:95-107 | Succeeds exactly if the true total fits, and then yields it |
| Checker.TradeChecker.CheckForSellerOutputs | src/checker.cpp:301-394 | The loop accepts exactly if one output is the agreed name update to the seller's name address alone and another, nameless one pays the CHI address alone at least the true total (unless that is zero); alone means that the form of the script that matched has this one address and no other |
| Checker.MatchedIsUnshared | src/checker.cpp:281-297 | A script that matches an address lists nobody else, if the node's two forms of it agree |
| Checker.TradeChecker.CheckForBuyerSignature | src/checker.cpp:232-272 | Accepts exactly if signing changed all input slots but one |
| Checker.TradeChecker.CheckForSellerSignature | src/checker.cpp:396-466 | Accepts exactly if no slot changed except that of the first input spending the recorded name output, which must exist |
| Checker.OwnedCountForeign | src/checker.cpp:232-272 | Counting the owned inputs of a transaction, the count is one short exactly if a single input is foreign |
| Checker.BuyerNeverSignsName | src/trades.cpp:526-546 | For a transaction of our funded inputs and the name input in any order, the buyer's check passes exactly if the name input is not ours; then the untouched slot is the name input and the PSBT is never complete, so the `CHECK` cannot fire |
| Trades.XayaRpc.LockUnspent | src/trades.cpp:46-73 | Succeeds and moves the lock only if the output was in the other state; failure changes nothing |
| Trades.XayaRpc.UnlockPsbtInputs | src/trades.cpp:75-91 | Exactly the inputs of the transaction for which the unlock call works end up unlocked; failures of single calls are ignored |
| Trades.Trade.HandleMessage | src/trades.cpp:279-294 | Only an initiated trade changes, and only its missing fields, from acceptable data |
| Trades.Trade.CreateSellerData | src/trades.cpp:296-318 | The trade's data, the wallet lock and the answer for each outcome of the node's calls, including a lock that stays when an address request throws |
| Trades.Trade.ConstructTransaction | src/trades.cpp:320-405 | Asks for the true total to the CHI address, and for one input, the given name output, with one output that updates the seller's name as agreed; the funded inputs are locked also when a later call throws |
| Trades.Trade.SignAsSeller | src/trades.cpp:465-513 | Our PSBT is set only if outputs, signatures and completeness for our role all pass |
| Trades.Trade.SignAsBuyer | src/trades.cpp:515-546 | Our PSBT is set only if all but one slot was signed; otherwise the joined inputs are unlocked, as far as that works |
| Trades.Trade.Finish | src/trades.cpp:561-624 | The taker hands over its PSBT and becomes pending; the maker broadcasts only a complete transaction and becomes pending with it |
| Trades.Trade.HasReply | src/trades.cpp:433-625 | For every stored trade, whatever its price and units: state, wallet locks, reply and broadcast after a turn are those of the step function that all run theorems use, for all four roles and all early exits; the process ends exactly if the turn needs a total that is not an amount |
| Trades.Trade.Update | src/trades.cpp:627-754 | The new state is that of the step function used by the confirmation and timeout theorems; an update of a pending trade whose lookups throw, or that sees a confirmation in the future, ends the process and changes nothing |
| Lifecycle.WatchExact | src/trades.cpp:650-753 | Over every observation history a pending trade succeeds or fails exactly at its first deciding observation: success needs confirmed depth; failure needs an unbroken streak of at least two conflicts that is deep enough from its start. While pending, `conflict_height` is the height at the start of the current streak |
| TradeSafety.StepFollows | src/trades.cpp:222-294 | `seller_data`, `our_psbt` and `their_psbt` are written once, terms never change, and the state moves only along INITIATED to PENDING or ABANDONED, PENDING to SUCCESS or FAILED |
| TradeSafety.StepKeepsSafe | src/trades.cpp:433-754 | Every message, turn and update keeps the seller's or buyer's protection and ties `our_psbt` to the state |
| TradeSafety.SellerSignedIsSafe | src/trades.cpp:465-513 | A PSBT that passed the seller's checks moves our name with the agreed value to our address alone, pays us the true total in another output to our address alone, carries a new signature at most on our recorded name output, and is complete exactly if we are the maker |
| TradeSafety.BuyerOutputs | src/trades.cpp:320-405 | From what was asked of the node and the contracts of its calls: the joined transaction has a name output, only the agreed one, and an output that pays exactly the total, and all other outputs return to our own wallet |
| TradeSafety.BuyerSignedIsSafe | src/trades.cpp:320-405 | A PSBT the buyer signed leaves exactly the seller's name input unsigned, its only name output is the agreed update, it pays exactly the total, and everything else returns to us |
| TradeRuns.SignaturesLeaveOnCommit | src/trades.cpp:548-625 | A turn releases our signature or broadcasts only by going from INITIATED to PENDING; any PSBT sent before has no signatures at all; a broadcast is complete and is the transaction of our own PSBT, and only the maker makes it |
| TradeRuns.RunInvariant | src/trades.cpp:433-754 | Over every event sequence: protection holds, replies are paid from a decreasing budget, broadcasts happen exactly when a maker commits, signatures imply commitment, finalised states stay |
| TradeRuns.BoundedReleases | src/trades.cpp:433-625 | Whatever messages arrive, a trade sends at most one reply, two for a selling taker, and at most one broadcast; an initiated or abandoned trade never released a signature |
| TradeRuns.AbandonedExactly | src/trades.cpp:633-648 | Over every sequence of messages, turns and updates: a trade that does not get to commit is abandoned exactly if some update came more than the timeout (in milliseconds) after its start (in seconds), and is still initiated otherwise |
| TradeRuns.FinalisedRunsStop | src/trades.cpp:433-754 | Once a trade is abandoned, successful or failed, no sequence of messages, turns and updates changes it or makes it send anything |
| TradeRuns.SellerSafety | src/trades.cpp:465-513 | In every reachable state of a sale, against arbitrary messages, the signed transaction gives the seller's protection |
| TradeRuns.BuyerSafety | src/trades.cpp:515-573 | In every reachable state of a purchase, against arbitrary messages, the signed transaction gives the buyer's protection |
| ChainRuns.PurchaseIsDeliverable | src/checker.cpp:149-230 | In every reachable state of a purchase that we signed, against arbitrary messages: on every chain through the block at which the sale was approved, on which the name input is unspent, the seller can still deliver |
| Protocol.ActionKeepsInv | src/trades.cpp:433-625 | Every step of the network (take, accept, turn, update, delivery of any old packet, injection by the adversary) keeps the invariant of the two-party protocol |
| Protocol.Agreement | src/trades.cpp:575-625 | In every run, a broadcast is complete, is by the maker's side of a trade, and is the unsigned transaction in the maker's own PSBT; an honest counterparty has the taker's side of that trade, committed to the same transaction |
| Protocol.SignatureProvenance | src/trades.cpp:548-573 | In every run, an honest party's signature on a transaction is visible anywhere only if that party has a committed trade with it, for which its protection holds |
| Protocol.AbandonedByTaker | src/trades.cpp:633-648 | In every run, if all that an honest counterparty has for the maker's order are abandoned or uncommitted trades, there is no broadcast for the maker's trade |
| Protocol.SameTransfer | src/checker.cpp:75-93 | If seller and buyer are committed to one transaction, both have agreed to the same asset transfer |
| Protocol.NotBothBuy | src/checker.cpp:232-272 | Two parties are never both committed as buyers to one transaction |
| Protocol.BuyingMaker | src/trades.cpp:548-573 | A selling taker that has signed got the transaction from a trade of the maker on the same order in which the maker buys |
| Protocol.CommittedIsSameDeal | src/checker.cpp:301-394 | If seller and buyer are committed to one transaction, they have agreed to the same asset transfer and the same name address, the buyer pays at least what the seller asks, and unless that is zero, to the same CHI address |
| Protocol.AgreementOnTerms | src/trades.cpp:575-625 | In every run in which an order id means one order to the maker, the two honest sides of a broadcast took opposite sides of the order, each has its protection, and they have the same deal: transfer, name address, a total of the buyer that is at least the seller's, and the CHI address |
| SellerDataRuns.OutputStaysPrivate | src/trades.cpp:447-455 | In every run, no message of an honest party tells its locked name output, and the addresses in it are recorded in one of its sales |
| SellerDataRuns.AddressesAgree | src/trades.cpp:222-261 | In every run, the addresses an honest buyer uses are those that its honest counterparty has recorded in a sale of the same order |
| Exchange.SellOrderCompletes | src/trades.cpp:943-1093 | Through both managers' lists: the taker's call of TakeOrder and three messages, each of which is dispatched to the right trade among all others, end with one new trade in each list, on the same order and units, pending with one transaction, which the maker has broadcast |
| Exchange.BuyOrderCompletes | src/trades.cpp:943-1093 | The same for a buy order, with the extra hop of the unsigned transaction |
| Exchange.DispatchReaches | src/trades.cpp:1064-1093 | What one side sends for its trade is processed by the other side's trade on the same order, whatever other trades are in the list, if none of them is another dealing on that order with the same party |
| Exchange.OfferedIsUndealt | src/myorders.cpp:100-131 | In a run, a manager has no such trade on an own order that can be locked |
| Protocol.MatchesExactly | src/trades.cpp:215-220 | What is sent for a trade, with or without seller data, PSBT or taking order, matches on arrival exactly the trades whose counterparty is the sender and that are on the same order of the same maker |
| Identifiers.GetIdentifierInjective | src/trades.cpp:121-131 | Identifiers of different accounts or order ids differ, for all strings and numbers |
| Identifiers.DecimalExact | src/trades.cpp:121-131 | The id is written in decimal digits without leading zeros |
| Identifiers.DispatchUnambiguous | src/trades.cpp:215-220 | A message never matches trades on two different orders, nor both a maker and a taker trade |
| Orders.SubtractionExact | src/trades.cpp:756-777 | For 64-bit minimum and maximum, no accepted fill exceeds the maximum if and only if not `max < 2^63 <= min` |
| Orders.AcceptedFits | src/trades.cpp:918-939 | For one accepted order and amount, the subtraction wraps exactly if the amount is negative as a signed number and the maximum is below 2^63 |
| Orders.AcceptedExactly | src/trades.cpp:918-939 | For all unsigned fields and amounts, an order is accepted exactly if it has all fields and the amount is between minimum and maximum when both are below 2^63 or both are not; with only the minimum above, at most the maximum or at least the minimum; with only the maximum above, never. The trade gets the fields of the order |
| Orders.OverfillExample | src/trades.cpp:918-939 | A concrete accepted order whose remainder grows |
| Orders.AcceptedPositiveExactly | src/trades.cpp:918-939 | For a validated order, all accepted amounts are positive as signed numbers if and only if it is not one without minimum and with a maximum below 2^63, nor one with a minimum of 2^63 or more |
| OrderTerms.AcceptedTradableExactly | src/trades.cpp:320-340 | For a validated own order: all amounts that can be accepted have a total that is an amount, if and only if nothing can be accepted, or it has a minimum, its maximum and price are below 2^63, and for a bid so is the price of the whole order |
| Orders.UnitsConserved | src/trades.cpp:756-777 | Through any number of partial fills, the original maximum is the sum of the fills plus the remainder, and every fill is within the limits then in force |
| Orders.RetiredRemainder | src/trades.cpp:765-776 | No descendant is created exactly if everything was sold or less than the minimum remains |
| OwnOrderList.MyOrders.RunRefresh | src/myorders.cpp:35-55 | Exactly the orders that are not valid any more are dropped, and exactly the valid unlocked ones are published, as they are |
| OwnOrderList.MyOrders.Add | src/myorders.cpp:57-86 | A valid order gets the next free id and is published; another one changes nothing |
| OwnOrderList.MyOrders.RemoveById | src/myorders.cpp:88-98 | The order is gone, locked or not, and not published any more, and the rest is refreshed |
| OwnOrderList.MyOrders.TryLock | src/myorders.cpp:100-131 | Succeeds exactly for an unlocked existing order, which is then not published; the copy handed out is unlocked and carries account and id |
| OwnOrderList.MyOrders.Unlock | src/myorders.cpp:133-146 | A locked order is unlocked, and published again exactly if it is still valid |
| Bookkeeping.OrdersInvKept | src/trades.cpp:998-1093 | Every step of every interleaving keeps order locks, ids and claims of trades consistent |
| Reservations.FailureReleasesOwn | src/trades.cpp:779-803 | After the cleanup of a failed trade, what is still locked of its reservation is exactly what could not be unlocked, and the reservation of every other trade is still locked |
| Reservations.WalletInvKept | src/trades.cpp:296-405 | Every step of every interleaving keeps reservations locked and pairwise disjoint, of active trades and of finalised ones that await cleanup, successful ones included |
| BookRuns.OneLiveTradePerOrder | src/myorders.cpp:100-131 | In every run at most one live maker trade, active or not yet cleaned up (also after success), exists per order id, and its order is locked or gone |
| BookRuns.DispatchUnique | src/trades.cpp:215-220 | In every run no message matches a live maker trade and any other live trade |
| BookRuns.IdsNeverReused | src/myorders.cpp:57-86 | An id that was given out and is gone is never given out again |
| OrderTerms.OneOrderPerIdInRuns | src/trades.cpp:998-1031 | In every run, any two maker trades ever started for one id, in whatever states of the run and whatever became of them, have the same terms |
| BookRuns.ReservedNeverOverlap | src/trades.cpp:75-91 | In every run the reserved outputs of any two trades, active or finalised and awaiting cleanup, are locked and disjoint; failure of one unlocks its own, except what cannot be unlocked, and leaves the other's locked |
| BookRuns.SellerLeakExact | src/trades.cpp:296-318 | A seller's turn leaves a lock without reservation exactly if the output was locked and an address request throws |
| BookRuns.LeakingSale | src/trades.cpp:296-318 | A concrete seller's turn that does |
| BookRuns.BuyerLeakExact | src/trades.cpp:515-546 | A buyer's turn leaves a lock without reservation exactly if funding worked and the transaction could not be made, joined, signed or decoded, or was refused because the name is ours and a funded input could not be unlocked |
| BookRuns.LeakingPurchase | src/trades.cpp:531-538 | Concrete turns that do: a single call fails, the joining or the unlocking of one coin |
| BookRuns.LeakedSaleIsStuck | src/trades.cpp:296-318 | With its name output already locked, a sale changes nothing on any turn |
| LockRuns.SpareExactly | src/trades.cpp:756-803 | A step of any interleaving makes an output locked for no trade exactly if it is a turn or a taking that leaks it, the cleanup of a successful trade that had it reserved, or the cleanup of a failed one that cannot unlock it |
| LockRuns.LockedIffReserved | src/trades.cpp:75-91 | Over every run that starts with nothing locked: in all its states exactly the reserved outputs are locked, if and only if no step of the run lets an output go in that way |
| LockRuns.LocksAccounted | src/trades.cpp:756-803 | In every run without failing calls, each locked output was locked at the start, is reserved by a trade, or belonged to a trade that succeeded |
| BookRuns.UnlockFailsExactly | src/myorders.cpp:133-146 | In every run, when an order is about to be unlocked, the `CHECK`s hold exactly if it still exists |
| BookRuns.UnlockFailsIfDropped | src/myorders.cpp:133-146 | In every run, when an order is about to be unlocked, a `CHECK` fails exactly if that order was, at some step of the run, cancelled or dropped by a refresh while it was locked |
| BookRuns.GentleRunsNeverFail | src/myorders.cpp:133-146 | If no locked order is cancelled or dropped by a refresh, the `CHECK`s of `Unlock` never fail |
| BookRuns.CancelledOrderFailsUnlock | src/myorders.cpp:88-98 | A run with one cancellation that ends in a failing `CHECK` |
| Lineages.UnitsConservedInRuns | src/trades.cpp:756-777 | In every run of the whole daemon, for each order's lineage: units sold by its successful trades plus the remainder of its one open descendant equal the size of the original order, and sales never exceed it |
| Lineages.FillsInRange | src/trades.cpp:918-939 | In every run each maker trade is within the limits of the order it fills |
| LineageTerms.DescendantsInherit | src/trades.cpp:756-777 | In every run, each listed order has asset, type, price and minimum of the order that the user added as the original of its lineage |
| LineageTerms.MakerTradesInherit | src/trades.cpp:998-1031 | In every run, so does the order of each maker trade |
| ManagerSteps.PartitionComplete | src/trades.cpp:818-871 | Archiving neither loses nor doubles a trade: those initiated or pending and those successful, failed or abandoned together are all trades |
| ManagerSteps.PartitionInOrder | src/trades.cpp:818-871 | Archiving keeps the order of trades |
| ManagerSteps.ArchivesMirror | src/trades.cpp:200-213 | The two sides' archive entries for a trade name each other, have opposite roles and types, and the same asset, units and price; ask means selling, maker means owning the order |
| ManagerSteps.ArchivedExactly | src/trades.cpp:200-213 | Each archive entry has state, start time, counterparty, asset, units and price of its trade, and the type seen from our side |
| TradeManagement.TradeManager.UpdateAndArchiveTrades | src/trades.cpp:818-871 | Active trades stay, each finalised trade is appended to the archive once and cleaned up once, in order, with success or failure handling by its state; it ends the process exactly if a lookup throws, a `CHECK` of `Unlock` fails or a transaction to unlock cannot be decoded, and also then lists and archive are updated once the lookups worked, and only outputs of failed trades are unlocked; and it keeps the manager's state that of a run |
| TradeManagement.TradeManager.HandleSuccess | src/trades.cpp:756-777 | The maker's order is removed; what is left of it, unless it is nothing, less than the minimum or not valid, is listed under the next id with asset, type, price and minimum of the order; a taker's success changes nothing |
| TradeManagement.TradeManager.HandleFailure | src/trades.cpp:779-803 | The maker's order is unlocked and exactly the trade's own name output or transaction inputs are unlocked in the wallet, as far as the calls work; the process ends exactly if the order is gone (or not locked) or our own transaction cannot be decoded |
| TradeManagement.TradeManager.TakeOrder | src/trades.cpp:943-996 | Accepts exactly an order with fitting units by somebody else whose first turn does not throw; then one trade is added and the first message names order and units; whatever the amounts |
| TradeManagement.TradeManager.OrderTaken | src/trades.cpp:998-1031 | Adds exactly one trade, whatever the amounts, unless the units do not fit or the taker is the maker; it is initiated now with the order's fields, the units and the taker |
| TradeManagement.TradeManager.Dispatch | src/trades.cpp:1064-1093 | Only the first matching trade gets the message and replies, or ends the process exactly if its turn needs a total that is not an amount; all trades stay processable, and the manager's state stays that of a run |
| TradeManagement.TradeManager.ProcessMessage | src/trades.cpp:1033-1093 | Locks the taken order and, if it is refused, gives it back, or ends the process exactly if a refresh dropped it in between; an accepted trade goes on either way, whatever its amounts; then the message is dispatched |
| ManagerRuns.TakeReached | src/trades.cpp:943-996 | Taking an order leads from a state of a run of the interleaving machine to another one |
| ManagerRuns.AcceptanceReached | src/trades.cpp:998-1031 | So does locking and accepting one of our orders, whether or not the refresh in between keeps it |
| ManagerRuns.RefusalReached | src/trades.cpp:1050-1058 | So does locking, refusing and unlocking one |
| ManagerRuns.DispatchReached | src/trades.cpp:1064-1093 | So does dispatching a message |
| ManagerRuns.UpdateReached | src/trades.cpp:818-843 | So does the update of all trades, with the finalised ones awaiting cleanup in order |
| ManagerRuns.CleanAllReached | src/trades.cpp:845-871 | So does cleaning up after them |
| ManagerRuns.AddReached | src/myorders.cpp:57-86 | So does adding an order |
| ManagerRuns.RemoveReached | src/myorders.cpp:88-98 | So does removing one, locked or not |
| ManagerRuns.ListsAreSafe | src/trades.cpp:1064-1093 | Hence in the manager's own list: reservations are locked and disjoint, maker trades are on different orders that are locked or gone, and no message matches a maker trade and another one |
| PartyRuns.DispatchInNetwork | src/trades.cpp:1064-1093 | If the manager's list is that of an honest party in a reachable state of the network, then after dispatching a delivered message it still is: the new list, the reply and the broadcast are those of a delivery and a turn of that party |
| PartyRuns.AcceptInNetwork | src/trades.cpp:998-1031 | The same for accepting the order that a message asks for |
| PartyRuns.TakeInNetwork | src/trades.cpp:943-996 | The same for taking one: list and message of the manager's step, also if the order is refused or the first turn throws |
| PartyRuns.UpdateInNetwork | src/trades.cpp:818-871 | The same for updating all trades and dropping the finalised ones from the list |
| PartyRuns.ManagerAgrees | src/trades.cpp:575-625 | Hence what such a manager broadcasts is complete and is the transaction of one of its trades, and an honest counterparty has the other side of it, committed to the same transaction |
| OrderSorting.AscendingUnique | src/orderbook.cpp:133-159 | A list sorted strictly by price, account and id is determined by its set of orders |
| OrderSorting.Sort | src/orderbook.cpp:133-159 | Sorting yields exactly the same orders, strictly ascending |
| OrderSorting.SortedByPrice | src/orderbook.cpp:133-159 | In a sorted list prices rise; for equal prices the account that is smaller at the first difference, or a prefix, comes first; for the same account the smaller id |
| OrderBooks.EagerRunExact | src/orderbook.cpp:37-60 | An account is in the plainly expired book exactly if its last update is young enough at every later tick, with the orders of that update |
| OrderBooks.QueueDrained | src/orderbook.cpp:37-60 | When the queue's head is young enough, the lazily expired book is exactly the plainly expired one, despite stale entries |
| OrderBooks.PopKeepsCovered | src/orderbook.cpp:37-60 | Popping an old entry, stale or not, keeps the queue covering all accounts and erases only expired ones |
| OrderBooks.OrderBook.RunTimeout | src/orderbook.cpp:37-60 | The loop over the queue equals one plain expiry tick |
| OrderBooks.OrderBook.UpdateOrders | src/orderbook.cpp:62-88 | The account's orders are replaced, or removed if there are none |
| OrderBooks.AddKeepsGrouped | src/orderbook.cpp:101-131 | Adding one order to the regrouped book puts it exactly once under its asset and side, whatever the order of additions |
| OrderBooks.ListingUnique | src/orderbook.cpp:163-186 | The regrouped and sorted book is determined by the stored orders: it does not depend on map iteration order |
| OrderBooks.ListedByPrice | src/orderbook.cpp:133-159 | In a listing the asks of an asset have rising prices and its bids falling ones, ties broken by id within an account |
| OrderBooks.OneAssetIsRestriction | src/orderbook.cpp:188-209 | The book regrouped for one asset is the full one restricted to that asset |
| OrderBooks.OrderBook.InternalGetByAsset | src/orderbook.cpp:163-186 | Every stored order appears exactly once with its account and id under its own asset and side, asks strictly ascending and bids strictly descending |
| OrderBooks.OrderBook.GetByAsset | src/orderbook.cpp:211-215 | The same over all assets |
| OrderBooks.OrderBook.GetForAsset | src/orderbook.cpp:188-209 | The entry of the full book for that asset, or an empty one |
| Authentication.EncodeInjective | src/authenticator.cpp:85-91 | Two accounts never have the same XMPP name |
| Authentication.SimpleStays | src/authenticator.cpp:56-91 | A non-empty word of digits and lower-case letters is its own encoding |
| Authentication.OthersAreHex | src/authenticator.cpp:56-91 | Any other name is encoded as `x-` and two lower-case hexadecimal digits for each byte, the higher half first |
| Authentication.DecodeHexPart | src/authenticator.cpp:113-143 | The loop over hex digits accepts exactly lower-case hex, inverts hex encoding, and notes whether hex was needed |
| Authentication.DecodeName | src/authenticator.cpp:85-160 | An accepted name is the encoding of the result; a rejected name is no account's encoding |
| Authentication.DecodingIsBijective | src/authenticator.cpp:85-160 | A name is the encoding of an account exactly if decoding accepts it with that account |
| Authentication.Authenticator.Authenticate | src/authenticator.cpp:172-184 | Accepts exactly encodings from trusted servers, and remembers the JID for the account |
| Gsp.DemGame.UpdateState | gsp/game.cpp:81-104 | Each trade of the block is recorded at the block's height, and earlier trades stay as they are |
| Gsp.ConfirmedStays | gsp/game.cpp:81-104 | Without detached blocks a confirmed trade keeps its height and the chain's height never falls |
| Gsp.StatusMeaning | gsp/game.cpp:126-195 | Over every history without detached blocks from an empty one, the status is confirmed at exactly the height of the block with the trade, otherwise pending exactly if it was at the first read, and otherwise unknown |
| Gsp.StatusExact | gsp/game.cpp:126-195 | For any two reads, also across detached blocks, the status is that of neither exactly if the trade lost its confirmation and its pending move came or went |
| Gsp.StatusLinearizable | gsp/game.cpp:126-195 | For any pending additions, clears and attached blocks between the two reads, the status is that of an atomic query at the first or the second |
| Gsp.AnswerLinearizableExactly | gsp/game.cpp:126-195 | Over all histories without detached blocks, status and height together are the answer of an atomic check at some moment between the reads exactly if the trade is confirmed at the second read, or at some moment with the final height it was as pending as at the first read |
| Gsp.HeightOfAnotherBlock | gsp/game.cpp:126-195 | A history without detached blocks whose answer is that of no moment between the reads: the old status with the new height |
| Gsp.DetachBreaksStatus | gsp/game.cpp:126-195 | A history with a detached block whose answer was never the case |

## Left out

- Trades.Trade.HasReply: its body is split into the methods for signing as seller, signing as buyer and finishing; answers of the node are one record per turn, so one flag says whether the decoding calls of the checks work.
- OrderSorting.Sort: `std::sort` is modelled by an insertion sort; keys are distinct, so every sort gives the same result.
- Authentication.DecodeName: bit shifts on a byte are written as arithmetic.
- OwnOrderList.MyOrders.Add: ids are unbounded; the wrap-around of `next_free_id` after 2^64 orders is not modelled.
- Exchange.SellOrderCompletes: delivery of the messages and success of the node's calls are hypotheses, and that the taker has no other trade on the same order (for the maker, see `Exchange.OfferedIsUndealt`); a lost message ends in abandonment by timeout.
- Protocol.AgreementOnTerms: that the maker accepts takers of one id on one order only is a hypothesis about the accepting events of the network; for the daemon it is `OrderTerms.OneOrderPerIdInRuns`.
- PartyRuns.UpdateInNetwork: the archive and the cleanup of finalised trades are no part of the network model.
- In `Protocol` a party may take a turn at any time, not only after a message, and the wallet's locks are arbitrary at each turn; both only add runs.
- The wallet is identified with the account; several accounts on one wallet are not modelled, except that a wallet may hold outputs with any name.
- Scripts, keys, signatures and PSBT bytes: abstract slots. Fees and change outputs: the funded transaction is any that keeps the contract above.
- The asset specification: its answers are parameters, its move is an abstract function of seller, buyer, asset and units.
- The XMPP chat room, message stanzas, RPC servers, JSON conversion, the daemon's wiring and interval jobs: transport and plumbing; timers are nondeterministic steps.
- SQLite storage of the game state processor; a detached block removes the trades it confirmed, how the storage undoes it is not part of this model.
- `LookupJid` and the parsing of the server list: too simple to add anything.
