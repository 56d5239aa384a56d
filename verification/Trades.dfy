/** A single trade, updated in place by messages, replies and periodic checks. */
module Trades {
  import opened Wrappers
  import opened Amounts
  import opened Proto
  import opened Psbts
  import opened Chain
  import opened Checker
  import opened Construction
  import opened Lifecycle
  import opened TradeSteps

  /** The wallet's RPC connection: its output locks and the broadcasts it made. */
  class XayaRpc {
    const w: World
    const wallet: Account
    var locked: set<OutPoint>
    var sent: seq<Psbt>

    constructor (w: World, wallet: Account)
      ensures this.w == w && this.wallet == wallet && locked == {} && sent == []
    {
      this.w, this.wallet := w, wallet;
      locked, sent := {}, [];
    }

    /** Locks or unlocks one output; an exception of lockunspent becomes false. */
    method LockUnspent(lock: bool, o: OutPoint, works: bool) returns (ok: bool)
      modifies this`locked
      ensures ok <==> works && (lock <==> o !in old(locked))
      ensures locked == if !ok then old(locked) else if lock then old(locked) + {o} else old(locked) - {o}
    {
      ok := works && (lock <==> o !in locked);
      if ok {
        locked := if lock then locked + {o} else locked - {o};
      }
    }

    /**
     Unlocks all inputs of a transaction. The result of each call is ignored, so
     inputs that are not locked, or whose unlocking fails, are left as they are.
     */
    method UnlockPsbtInputs(tx: Tx, failing: set<OutPoint>)
      modifies this`locked
      ensures locked == AfterUnlock(old(locked), OutPointsOf(tx), failing)
    {
      for i := 0 to |tx.vin|
        invariant locked == AfterUnlock(old(locked), set j | 0 <= j < i :: tx.vin[j], failing)
      {
        var _ := LockUnspent(false, tx.vin[i], tx.vin[i] !in failing);
      }
    }

    /** Funds the requested outputs and locks what it spends, unless it throws. */
    method WalletCreateFundedPsbt(outputs: seq<TxOut>, fund: seq<TxOut> -> Rpc<Tx>) returns (r: Rpc<Tx>)
      modifies this`locked
      ensures r == fund(outputs)
      ensures locked == if r.Ok? then old(locked) + OutPointsOf(r.value) else old(locked)
    {
      r := fund(outputs);
      if r.Ok? {
        locked := locked + OutPointsOf(r.value);
      }
    }

    method WalletProcessPsbt(psbt: Psbt) returns (signedPsbt: Psbt, complete: bool)
      ensures signedPsbt == Sign(w, wallet, psbt) && (complete <==> Complete(w, signedPsbt))
    {
      signedPsbt := Sign(w, wallet, psbt);
      complete := Complete(w, signedPsbt);
    }

    method SendRawTransaction(psbt: Psbt)
      modifies this`sent
      ensures sent == old(sent) + [psbt]
    {
      sent := sent + [psbt];
    }
  }

  class Trade {
    const cfg: Settings
    const account: Account
    const rpc: XayaRpc
    var pb: TradeState

    constructor (cfg: Settings, rpc: XayaRpc, pb: TradeState)
      ensures this.cfg == cfg && account == rpc.wallet && this.rpc == rpc && this.pb == pb
    {
      this.cfg, account, this.rpc, this.pb := cfg, rpc.wallet, rpc, pb;
    }

    // ---------------------------------------------------------------- messages

    method MergeSellerData(sd: SellerData)
      modifies this`pb
      ensures pb == MergeSellerDataStep(account, old(pb), sd)
    {
      if TypeOf(account, pb) == Ask {
        return;
      }
      if pb.sellerData.Some? {
        return;
      }
      if sd.nameAddress.None? || sd.chiAddress.None? || sd.nameOutput.Some? {
        return;
      }
      if sd.nameAddress == sd.chiAddress {
        return;
      }
      pb := pb.(sellerData := Some(sd));
    }

    method MergePsbt(psbt: PsbtText)
      modifies this`pb
      ensures pb == MergePsbtStep(old(pb), psbt)
    {
      if pb.theirPsbt.Some? {
        return;
      }
      pb := pb.(theirPsbt := Some(psbt));
    }

    method HandleMessage(msg: Message)
      modifies this`pb
      ensures pb == HandleMessageStep(account, old(pb), msg)
    {
      if pb.state != Initiated {
        return;
      }
      if msg.sellerData.Some? {
        MergeSellerData(msg.sellerData.value);
      }
      if msg.psbt.Some? {
        MergePsbt(msg.psbt.value);
      }
    }

    // ----------------------------------------------------------------- replies

    method CreateSellerData(env: Env) returns (r: Rpc<bool>)
      requires account == rpc.wallet
      modifies this`pb, rpc`locked
      ensures Created(pb, rpc.locked, r) == CreateSellerDataStep(account, old(pb), old(rpc.locked), env)
    {
      if TypeOf(account, pb) != Ask {
        return Ok(false);
      }
      if pb.sellerData.Some? {
        return Ok(false);
      }
      if env.nameShow.Throws? {
        return Throws;
      }
      var nameOutput := env.nameShow.value;
      var ok := rpc.LockUnspent(true, nameOutput, env.lockWorks);
      if !ok {
        return Ok(false);
      }
      if env.newNameAddress.Throws? || env.newChiAddress.Throws? {
        return Throws;
      }
      pb := pb.(sellerData := Some(SellerData(
        Some(env.newNameAddress.value), Some(env.newChiAddress.value), Some(nameOutput))));
      return Ok(true);
    }

    /**
     Lets the wallet fund the payment to the seller, makes the part with the update
     of the seller's name, and joins the two.
     */
    method ConstructTransaction(checker: TradeChecker, nameInput: OutPoint, env: Env) returns (r: Rpc<Psbt>)
      requires CanConstruct(account, pb) && checker == CheckerFor(rpc.w, account, pb)
      modifies rpc`locked
      ensures var c := ConstructStep(rpc.w, account, pb, nameInput, old(rpc.locked), env);
        && rpc.locked == c.locked
        && r == (match c.result case Ok(tx) => Ok(UnsignedPsbt(tx)) case Throws => Throws)
    {
      var sd, sellerName := pb.sellerData.value, pb.counterparty;
      var ok, total := checker.GetTotalSat();
      assert ok;
      var chiPart := rpc.WalletCreateFundedPsbt([Payment(rpc.w, sd.chiAddress.value, total)], env.fund);
      if chiPart.Throws? {
        return Throws;
      }
      if !env.makesNamePart {
        return Throws;
      }
      var namePart := CreatePsbt([nameInput], [Payment(rpc.w, sd.nameAddress.value, NAME_VALUE)]);
      namePart := NamePsbt(namePart, 0, NameOp("name_update", XayaName(sellerName), checker.GetNameUpdateValue()));
      var joined := env.join(chiPart.value, namePart);
      if joined.Throws? {
        return Throws;
      }
      return Ok(UnsignedPsbt(joined.value));
    }

    /** Signs the counterparty's transaction as seller. */
    method SignAsSeller(env: Env) returns (r: Rpc<bool>)
      requires account == rpc.wallet && Ready(account, pb) && TypeOf(account, pb) == Ask
      requires pb.sellerData.Some? && pb.theirPsbt.Some? && pb.ourPsbt.None?
      modifies this`pb
      ensures match SellerSignStep(rpc.w, account, old(pb), env)
        case Throws => r == Throws && pb == old(pb)
        case Ok(None) => r == Ok(false) && pb == old(pb)
        case Ok(psbt) => r == Ok(true) && pb == old(pb).(ourPsbt := psbt)
    {
      if pb.theirPsbt.value.Garbage? {
        return Throws;
      }
      if !env.decodes {
        return Throws;
      }
      var checker := CheckerFor(rpc.w, account, pb);
      var before, sd := pb.theirPsbt.value.psbt, pb.sellerData.value;
      var outputsOk := checker.CheckForSellerOutputs(before, sd.nameAddress.value, sd.chiAddress.value);
      if !outputsOk {
        return Ok(false);
      }
      if !env.signs {
        return Throws;
      }
      var psbt, complete := rpc.WalletProcessPsbt(before);
      var signatureOk := checker.CheckForSellerSignature(before, psbt, sd.nameOutput.value);
      if !signatureOk {
        return Ok(false);
      }
      match RoleOf(account, pb) {
        case Maker =>
          if !complete { return Ok(false); }
        case Taker =>
          if complete { return Ok(false); }
      }
      pb := pb.(ourPsbt := Some(psbt));
      return Ok(true);
    }

    /** Constructs and signs the transaction as buyer; returns it unsigned. */
    method SignAsBuyer(env: Env) returns (r: Rpc<Option<Psbt>>)
      requires account == rpc.wallet && CanConstruct(account, pb) && pb.ourPsbt.None?
      modifies this`pb, rpc`locked
      ensures var b := BuyerSignStep(rpc.w, account, old(pb), old(rpc.locked), env);
        && rpc.locked == b.locked
        && match b.result
           case Throws => r == Throws && pb == old(pb)
           case Ok(None) => r == Ok(None) && pb == old(pb)
           case Ok(Some(tx)) =>
             (r == Ok(Some(UnsignedPsbt(tx))) && pb == old(pb).(ourPsbt := Some(SignedAsBuyer(rpc.w, account, tx))))
    {
      var check := BuyerTradeCheck(env.view);
      if check.Throws? {
        return Throws;
      }
      if check.value.None? {
        return Ok(None);
      }
      var checker := CheckerFor(rpc.w, account, pb);
      var constructed := ConstructTransaction(checker, check.value.value, env);
      if constructed.Throws? || !env.signs || !env.decodes {
        return Throws;
      }
      var unsignedPsbt := constructed.value;
      var signedPsbt, complete := rpc.WalletProcessPsbt(unsignedPsbt);
      var signatureOk := checker.CheckForBuyerSignature(unsignedPsbt, signedPsbt);
      if !signatureOk {
        if env.unlocks.Throws? {
          return Throws;
        }
        rpc.UnlockPsbtInputs(signedPsbt.tx, env.unlocks.value);
        return Ok(None);
      }
      assert !complete by {
        SomeSlotUntouched(unsignedPsbt.inputs, signedPsbt.inputs);
      }
      pb := pb.(ourPsbt := Some(signedPsbt));
      return Ok(Some(unsignedPsbt));
    }

    /** The last part of a turn, with our own PSBT in place. */
    method Finish(env: Env) returns (reply: Rpc<Option<Payload>>)
      requires account == rpc.wallet && pb.ourPsbt.Some?
      modifies this`pb, rpc`sent
      ensures var o := FinishStep(rpc.w, account, old(pb), old(rpc.locked), env);
        && pb == o.trade
        && rpc.locked == o.locked
        && reply == o.reply
        && rpc.sent == old(rpc.sent) + SentBy(o)
    {
      if RoleOf(account, pb) == Taker {
        reply := Ok(Some(Payload(None, pb.ourPsbt)));
        pb := pb.(state := Pending);
        return;
      }
      if pb.theirPsbt.None? {
        return Ok(None);
      }
      var finalPsbt := pb.ourPsbt.value;
      if TypeOf(account, pb) == Bid {
        if pb.theirPsbt.value.Garbage? || pb.theirPsbt.value.psbt.tx != finalPsbt.tx {
          return Throws;
        }
        finalPsbt := Combine(pb.theirPsbt.value.psbt, finalPsbt);
      }
      if !env.finalises {
        return Throws;
      }
      if !Complete(rpc.w, finalPsbt) {
        return Ok(None);
      }
      if !env.sends {
        return Throws;
      }
      rpc.SendRawTransaction(finalPsbt);
      pb := pb.(state := Pending);
      return Ok(None);
    }

    /** A turn that needs the total of a trade whose total is no amount. */
    method UntradedTurn(env: Env) returns (alive: bool, reply: Rpc<Option<Payload>>)
      requires Storable(account, pb) && !Answerable(account, pb)
      ensures alive <==> !EndsProcess(account, pb, env)
      ensures alive ==> reply == if UntradedThrows(account, pb, env) then Throws else Ok(None)
    {
      var price, units := Wrap(pb.order.priceSat), Wrap(pb.units);
      match TypeOf(account, pb) {
        case Ask =>
          if pb.theirPsbt.None? {
            return true, Ok(None);
          }
          if pb.theirPsbt.value.Garbage? || !env.decodes {
            return true, Throws;
          }
          if units <= 0 {
            return false, Throws;
          }
          TotalSatExact(price, units);
          return !TotalSat(price, units).0, Ok(None);
        case Bid =>
          var check := BuyerTradeCheck(env.view);
          if check.Throws? {
            return true, Throws;
          }
          if check.value.None? {
            return true, Ok(None);
          }
          if units <= 0 {
            return false, Throws;
          }
          TotalSatExact(price, units);
          return TotalSat(price, units).0, Throws;
      }
    }

    method HasReply(env: Env) returns (alive: bool, reply: Rpc<Option<Payload>>)
      requires account == rpc.wallet && Storable(account, pb)
      modifies this`pb, rpc
      ensures match TurnOrEnd(rpc.w, account, old(pb), old(rpc.locked), env)
        case None => !alive
        case Some(o) =>
          && alive
          && pb == o.trade
          && rpc.locked == o.locked
          && reply == o.reply
          && rpc.sent == old(rpc.sent) + SentBy(o)
    {
      if Answerable(account, pb) {
        alive := true;
        reply := TradableTurn(env);
      } else {
        alive, reply := UntradedTurn(env);
      }
    }

    /** The turn of a trade whose total, as far as it is needed, is an amount. */
    method TradableTurn(env: Env) returns (reply: Rpc<Option<Payload>>)
      requires account == rpc.wallet && Answerable(account, pb)
      modifies this`pb, rpc
      ensures var o := ReplyStep(rpc.w, account, old(pb), old(rpc.locked), env);
        && pb == o.trade
        && rpc.locked == o.locked
        && reply == o.reply
        && rpc.sent == old(rpc.sent) + SentBy(o)
    {
      hide SellerSignStep, BuyerSignStep, FinishStep;
      if pb.state != Initiated {
        return Ok(None);
      }
      var created := CreateSellerData(env);
      if created.Throws? {
        return Throws;
      }
      if created.value {
        return Ok(Some(Payload(Some(pb.sellerData.value.(nameOutput := None)), None)));
      }
      if pb.sellerData.None? {
        return Ok(None);
      }
      if TypeOf(account, pb) == Ask && pb.theirPsbt.None? {
        return Ok(None);
      }
      if TypeOf(account, pb) == Ask && pb.ourPsbt.None? {
        var ok := SignAsSeller(env);
        if ok.Throws? {
          return Throws;
        }
        if !ok.value {
          return Ok(None);
        }
      }
      if TypeOf(account, pb) == Bid && pb.ourPsbt.None? {
        var unsignedPsbt := SignAsBuyer(env);
        if unsignedPsbt.Throws? {
          return Throws;
        }
        if unsignedPsbt.value.None? {
          return Ok(None);
        }
        if RoleOf(account, pb) == Maker {
          return Ok(Some(Payload(None, unsignedPsbt.value)));
        }
      }
      reply := Finish(env);
    }

    // ----------------------------------------------------------------- updates

    method Update(now: int, answer: Rpc<Observation>) returns (alive: bool)
      requires pb.state == Pending ==> pb.ourPsbt.Some?
      modifies this`pb
      ensures alive <==> Survives(old(pb), answer)
      ensures alive <==>
        || old(pb).state != Pending
        || (answer.Ok? && (answer.value.gsp.Confirmed? ==> answer.value.gsp.height <= answer.value.curHeight))
      ensures pb == if alive then UpdateStep(cfg, old(pb), now, Seen(answer)) else old(pb)
    {
      alive := true;
      if pb.state == Initiated {
        if TimedOut(cfg, pb, now) {
          pb := pb.(state := Abandoned);
        }
        return;
      }
      if pb.state != Pending {
        return;
      }
      if answer.Throws? {
        return false;
      }
      var obs := answer.value;
      if obs.gsp.Confirmed? {
        if obs.gsp.height > obs.curHeight {
          return false;
        }
        if obs.gsp.height + cfg.confirmations <= obs.curHeight + 1 {
          pb := pb.(state := Success);
          return;
        }
      }
      if obs.gsp != Unknown {
        pb := pb.(conflictHeight := None);
        return;
      }
      var vin := pb.ourPsbt.value.tx.vin;
      var conflicted := false;
      for i := 0 to |vin|
        invariant !conflicted
        invariant forall j :: 0 <= j < i ==> vin[j] in obs.available
      {
        if vin[i] !in obs.available {
          conflicted := true;
          break;
        }
      }
      if !conflicted {
        pb := pb.(conflictHeight := None);
        return;
      }
      if pb.conflictHeight.None? {
        pb := pb.(conflictHeight := Some(obs.curHeight));
        return;
      }
      if pb.conflictHeight.value + cfg.confirmations <= obs.curHeight + 1 {
        pb := pb.(state := Failed);
      }
    }
  }
}
