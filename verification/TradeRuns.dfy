/** Whole runs of one honest party's trade: what it releases, and how often. */
module TradeRuns {
  import opened Wrappers
  import opened Proto
  import opened Psbts
  import opened Lifecycle
  import opened TradeSteps
  import opened TradeSafety

  // ------------------------------------------------------------- single releases

  predicate Replies(o: Outcome) {
    o.reply.Ok? && o.reply.value.Some?
  }

  /** The reply or the broadcast of a turn contains a signature of ours. */
  predicate ReleasesSignature(me: Account, o: Outcome) {
    || (Replies(o) && o.reply.value.value.psbt.Some? && SignedBy(o.reply.value.value.psbt.value, me))
    || o.sent.Some?
  }

  /**
   A turn releases our signature only when the trade goes from INITIATED to PENDING;
   what an INITIATED trade shares is entirely unsigned. Only a maker broadcasts, and
   then a complete transaction: the one in our own PSBT.
   */
  lemma SignaturesLeaveOnCommit(w: World, me: Account, t: TradeState, locked: set<OutPoint>, env: Env)
    requires SafeTrade(w, me, t)
    ensures var o := ReplyStep(w, me, t, locked, env);
      && (ReleasesSignature(me, o) ==> t.state == Initiated && o.trade.state == Pending)
      && (o.trade.state == Initiated && Replies(o) && o.reply.value.value.psbt.Some? ==>
            forall i :: 0 <= i < |o.reply.value.value.psbt.value.inputs| ==>
              o.reply.value.value.psbt.value.inputs[i] == Unsigned)
      && (o.sent.Some? ==>
            && RoleOf(me, t) == Maker
            && Complete(w, o.sent.value)
            && o.trade.ourPsbt.Some? && o.sent.value.tx == o.trade.ourPsbt.value.tx)
  {
    hide SellerSignStep, BuyerSignStep, SellerSafe, BuyerSafe, Complete, Combine;
  }

  /** The seller data in a reply never names the locked output. */
  lemma RepliesHideNameOutput(w: World, me: Account, t: TradeState, locked: set<OutPoint>, env: Env)
    requires Ready(me, t)
    ensures var o := ReplyStep(w, me, t, locked, env);
      Replies(o) && o.reply.value.value.sellerData.Some? ==>
        && o.reply.value.value.sellerData.value.nameOutput.None?
        && o.trade.sellerData == Some(o.reply.value.value.sellerData.value.(nameOutput := o.trade.sellerData.value.nameOutput))
  {
    hide SellerSignStep, BuyerSignStep, Complete, Combine;
  }

  // ------------------------------------------------------------------------ runs

  /** What a run leaves behind. */
  datatype Tally = Tally(trade: TradeState, replies: nat, broadcasts: nat, released: bool)

  /** What one event releases: replies, broadcasts, and whether we signed any. */
  ghost function Releases(w: World, me: Account, t: TradeState, e: Event): (nat, nat, bool)
    requires SafeTrade(w, me, t)
  {
    if !e.Turn? then (0, 0, false)
    else
      var o := ReplyStep(w, me, t, e.locked, e.env);
      (if Replies(o) then 1 else 0, if o.sent.Some? then 1 else 0, ReleasesSignature(me, o))
  }

  ghost predicate RunOk(w: World, cfg: Settings, me: Account, t: TradeState, events: seq<Event>)
    requires SafeTrade(w, me, t)
    decreases |events|
  {
    events == [] ||
    (EventOk(w, me, t, events[0]) &&
      (StepKeepsSafe(w, cfg, me, t, events[0]);
       RunOk(w, cfg, me, TradeStep(w, cfg, me, t, events[0]), events[1..])))
  }

  /** Runs all events and adds up what was released on the way. */
  ghost function Run(w: World, cfg: Settings, me: Account, t: TradeState, events: seq<Event>): Tally
    requires SafeTrade(w, me, t) && RunOk(w, cfg, me, t, events)
    decreases |events|
  {
    if events == [] then Tally(t, 0, 0, false)
    else
      StepKeepsSafe(w, cfg, me, t, events[0]);
      var rest := Run(w, cfg, me, TradeStep(w, cfg, me, t, events[0]), events[1..]);
      var now := Releases(w, me, t, events[0]);
      Tally(rest.trade, rest.replies + now.0, rest.broadcasts + now.1, rest.released || now.2)
  }

  /** How many replies a trade can still make. */
  function Budget(me: Account, t: TradeState): nat {
    if t.state != Initiated then 0
    else if TypeOf(me, t) == Ask then
      (if t.sellerData.None? then 1 else 0) + (if RoleOf(me, t) == Taker then 1 else 0)
    else if t.ourPsbt.None? then 1 else 0
  }

  /** Whether the trade may still broadcast: a maker before it commits. */
  function MayBroadcast(me: Account, t: TradeState): nat {
    if t.state == Initiated && RoleOf(me, t) == Maker then 1 else 0
  }

  /** A turn's reply is paid for by what the trade can still release. */
  lemma TurnPaysReply(w: World, me: Account, t: TradeState, locked: set<OutPoint>, env: Env)
    requires SafeTrade(w, me, t)
    ensures var o := ReplyStep(w, me, t, locked, env);
      Budget(me, o.trade) + (if Replies(o) then 1 else 0) <= Budget(me, t)
  {
    hide SellerSignStep, BuyerSignStep, SignedAsBuyer, SellerSafe, BuyerSafe, Complete, Combine;
  }

  /** A turn broadcasts exactly if a maker commits. */
  lemma TurnSendsOnce(w: World, me: Account, t: TradeState, locked: set<OutPoint>, env: Env)
    requires SafeTrade(w, me, t)
    ensures var o := ReplyStep(w, me, t, locked, env);
      o.sent.Some? <==> MayBroadcast(me, t) == 1 && HasCommitted(o.trade)
  {
    hide SellerSignStep, BuyerSignStep, SignedAsBuyer, SellerSafe, BuyerSafe, Complete, Combine;
  }

  lemma StepSpends(w: World, cfg: Settings, me: Account, t: TradeState, e: Event)
    requires SafeTrade(w, me, t)
    ensures var t', r := TradeStep(w, cfg, me, t, e), Releases(w, me, t, e);
      && Budget(me, t') + r.0 <= Budget(me, t)
      && r.1 == (if MayBroadcast(me, t) == 1 && HasCommitted(t') then 1 else 0)
      && (r.2 ==> t.state == Initiated && HasCommitted(t'))
  {
    hide ReplyStep, SellerSafe, BuyerSafe;
    if e.Turn? {
      TurnPaysReply(w, me, t, e.locked, e.env);
      TurnSendsOnce(w, me, t, e.locked, e.env);
      SignaturesLeaveOnCommit(w, me, t, e.locked, e.env);
    }
  }

  lemma {:induction false} RunInvariant(w: World, cfg: Settings, me: Account, t: TradeState, events: seq<Event>)
    requires SafeTrade(w, me, t) && RunOk(w, cfg, me, t, events)
    ensures var r := Run(w, cfg, me, t, events);
      && SafeTrade(w, me, r.trade)
      && r.replies + Budget(me, r.trade) <= Budget(me, t)
      && r.broadcasts == (if MayBroadcast(me, t) == 1 && HasCommitted(r.trade) then 1 else 0)
      && (r.released ==> t.state == Initiated && HasCommitted(r.trade))
      && (HasCommitted(t) ==> HasCommitted(r.trade))
      && (IsFinalised(t) ==> r.trade.state == t.state)
      && r.trade.order == t.order
    decreases |events|
  {
    if events != [] {
      hide TradeStep, Releases, SafeTrade, EventOk, Budget;
      var e := events[0];
      StepKeepsSafe(w, cfg, me, t, e);
      StepFollows(w, cfg, me, t, e);
      StepSpends(w, cfg, me, t, e);
      RunInvariant(w, cfg, me, TradeStep(w, cfg, me, t, e), events[1..]);
    }
  }

  /**
   From a new trade, whatever arrives: at most one reply, or two for a taker who
   sells; one broadcast exactly if we are the maker and committed; no signature is
   ever released by a trade that is still INITIATED or ends ABANDONED.
   */
  lemma BoundedReleases(w: World, cfg: Settings, me: Account, t: TradeState, events: seq<Event>)
    requires t == NewTrade(t.order, t.units, t.counterparty, t.startTime) && Ready(me, t)
    requires SafeTrade(w, me, t) && RunOk(w, cfg, me, t, events)
    ensures var r := Run(w, cfg, me, t, events);
      && r.replies <= (if RoleOf(me, t) == Taker && TypeOf(me, t) == Ask then 2 else 1)
      && (r.broadcasts == 1 <==> RoleOf(me, t) == Maker && HasCommitted(r.trade))
      && r.broadcasts <= 1
      && (r.trade.state in {Initiated, Abandoned} ==> !r.released)
  {
    RunInvariant(w, cfg, me, t, events);
  }

  /** A decided trade is over: no event changes it or makes it release anything. */
  lemma {:induction false} FinalisedRunsStop(w: World, cfg: Settings, me: Account, t: TradeState, events: seq<Event>)
    requires SafeTrade(w, me, t) && RunOk(w, cfg, me, t, events) && IsFinalised(t)
    ensures Run(w, cfg, me, t, events) == Tally(t, 0, 0, false)
    decreases |events|
  {
    if events != [] {
      hide SafeTrade, EventOk;
      assert TradeStep(w, cfg, me, t, events[0]) == t && Releases(w, me, t, events[0]) == (0, 0, false);
      FinalisedRunsStop(w, cfg, me, t, events[1..]);
    }
  }

  /** A waiting trade is abandoned by late updates, and by nothing else. */
  lemma WaitingStep(w: World, cfg: Settings, me: Account, t: TradeState, e: Event)
    requires SafeTrade(w, me, t) && t.state == Initiated
    ensures var t' := TradeStep(w, cfg, me, t, e);
      && t'.state in {Initiated, Pending, Abandoned} && t'.startTime == t.startTime
      && (t'.state == Abandoned <==> e.Tick? && e.now * 1000 > t.startTime * 1000 + cfg.timeoutMs)
  {
    StepFollows(w, cfg, me, t, e);
    if e.Turn? {
      hide SellerSignStep, BuyerSignStep, SignedAsBuyer, SellerSafe, BuyerSafe, Complete, Combine;
    } else {
      hide ReplyStep, SafeTrade;
    }
  }

  /**
   The timeout, over all events: a trade that does not get to commit is abandoned
   exactly if some update came more than the timeout after its start (in seconds,
   while the timeout is in milliseconds), and is still waiting otherwise.
   */
  lemma {:induction false} AbandonedExactly(w: World, cfg: Settings, me: Account, t: TradeState, events: seq<Event>)
    requires SafeTrade(w, me, t) && RunOk(w, cfg, me, t, events) && t.state == Initiated
    ensures var r := Run(w, cfg, me, t, events).trade;
      r.state in {Initiated, Abandoned} ==>
        (r.state == Abandoned <==>
          exists k :: 0 <= k < |events| && events[k].Tick? && events[k].now * 1000 > t.startTime * 1000 + cfg.timeoutMs)
    decreases |events|
  {
    if events != [] {
      hide Releases, SafeTrade, EventOk, TradeStep;
      var e := events[0];
      var t1 := TradeStep(w, cfg, me, t, e);
      StepKeepsSafe(w, cfg, me, t, e);
      WaitingStep(w, cfg, me, t, e);
      if t1.state == Initiated {
        AbandonedExactly(w, cfg, me, t1, events[1..]);
        assert forall k :: 0 < k < |events| ==> events[1..][k - 1] == events[k];
        assert forall k :: 0 <= k < |events| - 1 ==> events[1..][k] == events[k + 1];
      } else if t1.state == Abandoned {
        FinalisedRunsStop(w, cfg, me, t1, events[1..]);
        assert events[0] == e;
      } else {
        RunInvariant(w, cfg, me, t1, events[1..]);
      }
    }
  }

  /** Seller safety in every reachable state, against arbitrary messages. */
  lemma SellerSafety(w: World, cfg: Settings, me: Account, t: TradeState, events: seq<Event>)
    requires t == NewTrade(t.order, t.units, t.counterparty, t.startTime) && Ready(me, t)
    requires SafeTrade(w, me, t) && RunOk(w, cfg, me, t, events) && TypeOf(me, t) == Ask
    ensures var r := Run(w, cfg, me, t, events).trade;
      r.ourPsbt.Some? ==> SellerSafe(w, me, r)
  {
    RunInvariant(w, cfg, me, t, events);
  }

  /** Buyer safety in every reachable state, against arbitrary messages. */
  lemma BuyerSafety(w: World, cfg: Settings, me: Account, t: TradeState, events: seq<Event>)
    requires t == NewTrade(t.order, t.units, t.counterparty, t.startTime) && Ready(me, t)
    requires SafeTrade(w, me, t) && RunOk(w, cfg, me, t, events) && TypeOf(me, t) == Bid
    ensures var r := Run(w, cfg, me, t, events).trade;
      r.ourPsbt.Some? ==> Tradable(me, r) && BuyerSafe(w, me, r)
  {
    RunInvariant(w, cfg, me, t, events);
  }
}
