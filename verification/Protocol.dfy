/**
 The distributed system: any number of honest parties with any number of trades,
 any other senders, and a network that loses, duplicates and reorders. Nobody can
 invent a signature of an honest party that has not been released.
 */
module Protocol {
  import opened Wrappers
  import opened Amounts
  import opened Proto
  import opened Psbts
  import opened Construction
  import opened Lifecycle
  import opened Identifiers
  import opened TradeSteps
  import opened TradeSafety
  import opened TradeRuns

  // -------------------------------------------------------------------- states

  /** A message in transit; the network vouches for its sender. */
  datatype Packet = Packet(sender: Account, receiver: Account, body: Message)

  /** A transaction sent to the chain by one of our parties, for one of its trades. */
  datatype Broadcast = Broadcast(maker: Account, index: nat, psbt: Psbt)

  /** All trades of the honest parties, and everything ever sent. */
  datatype Net = Net(trades: map<Account, seq<TradeState>>, packets: set<Packet>, broadcasts: set<Broadcast>)

  predicate IsHonest(s: Net, p: Account) {
    p in s.trades
  }

  predicate IsTrade(s: Net, p: Account, i: int) {
    p in s.trades && 0 <= i < |s.trades[p]|
  }

  /** A message as its receiver sees it: the counterparty is the sender. */
  function Received(packet: Packet): Message {
    packet.body.(counterparty := packet.sender)
  }

  function ReplyPacket(me: Account, t: TradeState, payload: Payload, taking: Option<TakingOrder>): Packet {
    Packet(me, t.counterparty, ToMessage(t, payload, taking))
  }

  /**
   What is sent for a trade matches, on arrival, exactly the trades that its sender is
   the counterparty of and that are about the same order of the same maker.
   */
  lemma MatchesExactly(p: Account, t: TradeState, u: TradeState, payload: Payload, taking: Option<TakingOrder>)
    ensures Matches(u, Received(ReplyPacket(p, t, payload, taking))) <==>
      u.counterparty == p && u.order.account == t.order.account && u.order.id == t.order.id
  {
    if IdentifierOf(u) == IdentifierOf(t) {
      GetIdentifierInjective(u.order.account, u.order.id, t.order.account, t.order.id);
    }
  }

  // -------------------------------------------------------------------- actions

  datatype Action =
    | Take(p: Account, order: Terms, units: Uint64, now: int, locked: set<OutPoint>, env: Env)
    | Accept(p: Account, order: Terms, units: Uint64, taker: Account, now: int)
    | Deliver(p: Account, i: nat, packet: Packet)
    | Reply(p: Account, i: nat, locked: set<OutPoint>, env: Env)
    | Update(p: Account, i: nat, now: int, obs: Observation)
    | Inject(packet: Packet)

  /** Somebody who listens has seen q's signature on the transaction. */
  ghost predicate Exposed(s: Net, q: Account, tx: Tx) {
    || (exists m :: m in s.packets && ShowsSignature(m, q, tx))
    || (exists b :: b in s.broadcasts && b.psbt.tx == tx && SignedBy(b.psbt, q))
  }

  predicate ShowsSignature(m: Packet, q: Account, tx: Tx) {
    && m.body.psbt.Some? && m.body.psbt.value.Encoded?
    && m.body.psbt.value.psbt.tx == tx
    && SignedBy(m.body.psbt.value.psbt, q)
  }

  ghost predicate Enabled(w: World, s: Net, a: Action) {
    match a
    case Take(p, order, units, now, locked, env) =>
      && IsHonest(s, p) && order.account != p
      && Ready(p, NewTrade(order, units, order.account, now))
      && EnvOk(w, p, NewTrade(order, units, order.account, now), locked, env)
    case Accept(p, order, units, taker, now) =>
      && IsHonest(s, p) && order.account == p && taker != p
      && Ready(p, NewTrade(order, units, taker, now))
    case Deliver(p, i, packet) =>
      && IsTrade(s, p, i) && packet in s.packets && packet.receiver == p
      && Matches(s.trades[p][i], Received(packet))
    case Reply(p, i, locked, env) =>
      && IsTrade(s, p, i) && Ready(p, s.trades[p][i])
      && EnvOk(w, p, s.trades[p][i], locked, env)
    case Update(p, i, now, obs) =>
      && IsTrade(s, p, i)
      && (s.trades[p][i].state == Pending ==> s.trades[p][i].ourPsbt.Some?)
    case Inject(packet) =>
      && !IsHonest(s, packet.sender)
      && (forall q, tx :: IsHonest(s, q) && ShowsSignature(packet, q, tx) ==> Exposed(s, q, tx))
  }

  function WithTrade(s: Net, p: Account, i: nat, t: TradeState): Net
    requires IsTrade(s, p, i)
  {
    s.(trades := s.trades[p := s.trades[p][i := t]])
  }

  function WithNewTrade(s: Net, p: Account, t: TradeState): Net
    requires IsHonest(s, p)
  {
    s.(trades := s.trades[p := s.trades[p] + [t]])
  }

  ghost function Apply(w: World, cfg: Settings, s: Net, a: Action): Net
    requires Enabled(w, s, a)
  {
    match a
    case Take(p, order, units, now, locked, env) =>
      var t := NewTrade(order, units, order.account, now);
      var o := ReplyStep(w, p, t, locked, env);
      if o.reply.Throws? then s
      else
        var payload := if Replies(o) then o.reply.value.value else Payload(None, None);
        var packet := ReplyPacket(p, t, payload, Some(TakingOrder(order.id, units)));
        WithNewTrade(s, p, o.trade).(packets := s.packets + {packet})
    case Accept(p, order, units, taker, now) =>
      WithNewTrade(s, p, NewTrade(order, units, taker, now))
    case Deliver(p, i, packet) =>
      WithTrade(s, p, i, HandleMessageStep(p, s.trades[p][i], Received(packet)))
    case Reply(p, i, locked, env) =>
      var t := s.trades[p][i];
      var o := ReplyStep(w, p, t, locked, env);
      var s1 := WithTrade(s, p, i, o.trade);
      s1.(packets := s1.packets + (if Replies(o) then {ReplyPacket(p, t, o.reply.value.value, None)} else {}),
          broadcasts := s1.broadcasts + (if o.sent.Some? then {Broadcast(p, i, o.sent.value)} else {}))
    case Update(p, i, now, obs) =>
      WithTrade(s, p, i, UpdateStep(cfg, s.trades[p][i], now, obs))
    case Inject(packet) => s.(packets := s.packets + {packet})
  }

  predicate Initial(s: Net) {
    && (forall p :: p in s.trades ==> s.trades[p] == [])
    && s.packets == {} && s.broadcasts == {}
  }

  // ----------------------------------------------------------------- invariants

  /** q has a trade past INITIATED, not abandoned, with this transaction. */
  ghost predicate CommittedTo(s: Net, q: Account, tx: Tx) {
    exists i :: IsTrade(s, q, i) && CommittedWith(s.trades[q][i], tx)
  }

  predicate CommittedWith(t: TradeState, tx: Tx) {
    HasCommitted(t) && t.ourPsbt.Some? && t.ourPsbt.value.tx == tx
  }

  /** Trade t of the packet's sender stands behind the PSBT in the packet. */
  predicate StandsBehind(t: TradeState, m: Packet)
    requires m.body.psbt.Some?
  {
    && m.body.identifier == IdentifierOf(t)
    && m.receiver == t.counterparty
    && t.ourPsbt.Some?
    && (RoleOf(m.sender, t) == Taker ==> HasCommitted(t) && m.body.psbt.value == Encoded(t.ourPsbt.value))
    && (RoleOf(m.sender, t) == Maker ==> TypeOf(m.sender, t) == Bid && m.body.psbt.value == Encoded(UnsignedPsbt(t.ourPsbt.value.tx)))
  }

  /** The packet from which a trade has the counterparty's PSBT. */
  predicate Delivered(p: Account, t: TradeState, m: Packet) {
    && m.sender == t.counterparty && m.receiver == p
    && m.body.identifier == IdentifierOf(t)
    && m.body.psbt == t.theirPsbt
  }

  /** The broadcast is complete and is the transaction both PSBTs of the trade have. */
  predicate IsFinal(w: World, t: TradeState, b: Broadcast) {
    && RoleOf(b.maker, t) == Maker
    && Complete(w, b.psbt)
    && CommittedWith(t, b.psbt.tx)
    && t.theirPsbt.Some? && t.theirPsbt.value.Encoded? && t.theirPsbt.value.psbt.tx == b.psbt.tx
  }

  ghost predicate TradesSafe(w: World, s: Net) {
    forall p, i :: IsTrade(s, p, i) ==> SafeTrade(w, p, s.trades[p][i])
  }

  ghost predicate PacketsBacked(s: Net) {
    forall m :: m in s.packets && IsHonest(s, m.sender) && m.body.psbt.Some? ==>
      exists i :: IsTrade(s, m.sender, i) && StandsBehind(s.trades[m.sender][i], m)
  }

  ghost predicate PsbtsDelivered(s: Net) {
    forall p, i :: IsTrade(s, p, i) && s.trades[p][i].theirPsbt.Some? ==>
      exists m :: m in s.packets && Delivered(p, s.trades[p][i], m)
  }

  /** Every exposed signature belongs to a trade its owner has committed to. */
  ghost predicate Provenance(s: Net) {
    forall q, tx :: IsHonest(s, q) && Exposed(s, q, tx) ==> CommittedTo(s, q, tx)
  }

  ghost predicate BroadcastsFinal(w: World, s: Net) {
    forall b :: b in s.broadcasts ==> IsTrade(s, b.maker, b.index) && IsFinal(w, s.trades[b.maker][b.index], b)
  }

  ghost predicate NetInv(w: World, s: Net) {
    TradesSafe(w, s) && PacketsBacked(s) && PsbtsDelivered(s) && Provenance(s) && BroadcastsFinal(w, s)
  }

  lemma InitialInv(w: World, s: Net)
    requires Initial(s)
    ensures NetInv(w, s)
  {
  }

  // ---------------------------------------------------------------- monotonicity

  /** Nothing that was sent or committed to is ever taken back. */
  ghost predicate Extends(s: Net, s': Net) {
    && s'.trades.Keys == s.trades.Keys
    && s.packets <= s'.packets && s.broadcasts <= s'.broadcasts
    && forall p, i :: IsTrade(s, p, i) ==> IsTrade(s', p, i) && Follows(s.trades[p][i], s'.trades[p][i])
  }

  lemma ActionExtends(w: World, cfg: Settings, s: Net, a: Action)
    requires TradesSafe(w, s) && Enabled(w, s, a)
    ensures Extends(s, Apply(w, cfg, s, a))
  {
    hide ReplyStep, EnvOk, SafeTrade;
    match a
    case Deliver(p, i, packet) =>
      StepFollows(w, cfg, p, s.trades[p][i], Receive(Received(packet)));
    case Reply(p, i, locked, env) =>
      StepFollows(w, cfg, p, s.trades[p][i], Turn(locked, env));
    case Update(p, i, now, obs) =>
      StepFollows(w, cfg, p, s.trades[p][i], Tick(now, obs));
    case _ =>
  }

  lemma CommittedPersists(s: Net, s': Net, q: Account, tx: Tx)
    requires Extends(s, s') && CommittedTo(s, q, tx)
    ensures CommittedTo(s', q, tx)
  {
    var i :| IsTrade(s, q, i) && CommittedWith(s.trades[q][i], tx);
    assert Follows(s.trades[q][i], s'.trades[q][i]);
    assert CommittedWith(s'.trades[q][i], tx);
  }

  lemma BackedPersists(s: Net, s': Net, m: Packet)
    requires Extends(s, s') && m.body.psbt.Some?
    requires exists i :: IsTrade(s, m.sender, i) && StandsBehind(s.trades[m.sender][i], m)
    ensures exists i :: IsTrade(s', m.sender, i) && StandsBehind(s'.trades[m.sender][i], m)
  {
    var i :| IsTrade(s, m.sender, i) && StandsBehind(s.trades[m.sender][i], m);
    assert Follows(s.trades[m.sender][i], s'.trades[m.sender][i]);
    assert StandsBehind(s'.trades[m.sender][i], m);
  }

  // ------------------------------------------------------------- single releases

  /** Foreign signatures in our own PSBT came with the counterparty's. */
  lemma ForeignSignatures(w: World, me: Account, t: TradeState, q: Account)
    requires SafeTrade(w, me, t) && t.ourPsbt.Some? && SignedBy(t.ourPsbt.value, q) && q != me
    ensures t.theirPsbt.Some? && t.theirPsbt.value.Encoded?
    ensures t.theirPsbt.value.psbt.tx == t.ourPsbt.value.tx && SignedBy(t.theirPsbt.value.psbt, q)
  {
    var ours := t.ourPsbt.value;
    var i :| 0 <= i < |ours.inputs| && ours.inputs[i] == Sig(q);
    assert TypeOf(me, t) == Ask ==> t.theirPsbt.value.psbt.inputs[i] == Sig(q);
  }

  lemma TurnFollowsTheirs(w: World, me: Account, t: TradeState, locked: set<OutPoint>, env: Env)
    requires Ready(me, t)
    ensures ReplyStep(w, me, t, locked, env).trade.theirPsbt == t.theirPsbt
  {
    hide SellerSignStep, BuyerSignStep, SignedAsBuyer;
  }

  /** The PSBT in a reply, in terms of the trade after the turn. */
  lemma ReplyIsBacked(w: World, me: Account, t: TradeState, locked: set<OutPoint>, env: Env)
    requires SafeTrade(w, me, t) && EnvOk(w, me, t, locked, env)
    ensures var o := ReplyStep(w, me, t, locked, env);
      Replies(o) && o.reply.value.value.psbt.Some? ==>
        StandsBehind(o.trade, ReplyPacket(me, t, o.reply.value.value, None))
  {
    hide SellerSignStep, BuyerSignStep, EnvOk, SellerSafe, BuyerSafe, Complete, Combine;
  }

  /** The broadcast of a turn, in terms of the trade after the turn. */
  lemma SentIsFinal(w: World, me: Account, t: TradeState, locked: set<OutPoint>, env: Env, i: nat)
    requires SafeTrade(w, me, t) && EnvOk(w, me, t, locked, env)
    ensures var o := ReplyStep(w, me, t, locked, env);
      o.sent.Some? ==>
        && IsFinal(w, o.trade, Broadcast(me, i, o.sent.value))
        && o.trade.theirPsbt == t.theirPsbt
        && forall q :: q != me && SignedBy(o.sent.value, q) ==> SignedBy(t.theirPsbt.value.psbt, q)
  {
    var o := ReplyStep(w, me, t, locked, env);
    if o.sent.Some? {
      TurnKeepsSafe(w, me, t, locked, env);
      SignaturesLeaveOnCommit(w, me, t, locked, env);
      SentIsCombined(w, me, t, locked, env);
      hide ReplyStep, EnvOk, SafeTrade, Complete;
      forall q | q != me && SignedBy(o.sent.value, q)
        ensures SignedBy(t.theirPsbt.value.psbt, q)
      {
        if SignedBy(o.trade.ourPsbt.value, q) {
          ForeignSignatures(w, me, o.trade, q);
        } else {
          var j :| 0 <= j < |o.sent.value.inputs| && o.sent.value.inputs[j] == Sig(q);
          assert t.theirPsbt.value.psbt.inputs[j] == Sig(q);
        }
      }
    }
  }

  /** What a turn sends is our own PSBT, or its combination with the counterparty's. */
  lemma SentIsCombined(w: World, me: Account, t: TradeState, locked: set<OutPoint>, env: Env)
    requires SafeTrade(w, me, t) && EnvOk(w, me, t, locked, env)
    ensures var o := ReplyStep(w, me, t, locked, env);
      o.sent.Some? ==>
        && o.trade.ourPsbt.Some? && t.theirPsbt.Some? && t.theirPsbt.value.Encoded?
        && o.trade.theirPsbt == t.theirPsbt
        && t.theirPsbt.value.psbt.tx == o.trade.ourPsbt.value.tx
        && o.sent.value in {o.trade.ourPsbt.value, Combine(t.theirPsbt.value.psbt, o.trade.ourPsbt.value)}
  {
    hide SignedAsBuyer, BuyerSignStep, EnvOk, BuyerSafe, Complete, Combine;
  }

  // ------------------------------------------------------------ invariants kept

  lemma TradesStaySafe(w: World, cfg: Settings, s: Net, a: Action)
    requires TradesSafe(w, s) && Enabled(w, s, a)
    ensures TradesSafe(w, Apply(w, cfg, s, a))
  {
    hide ReplyStep, EnvOk, SafeTrade;
    match a
    case Take(p, order, units, now, locked, env) =>
      var t := NewTrade(order, units, order.account, now);
      NewTradeIsSafe(w, p, order, units, order.account, now);
      TurnKeepsSafe(w, p, t, locked, env);
    case Accept(p, order, units, taker, now) =>
      NewTradeIsSafe(w, p, order, units, taker, now);
    case Deliver(p, i, packet) =>
      ReceiveKeepsSafe(w, p, s.trades[p][i], Received(packet));
    case Reply(p, i, locked, env) =>
      TurnKeepsSafe(w, p, s.trades[p][i], locked, env);
    case Update(p, i, now, obs) =>
      TickKeepsSafe(w, cfg, p, s.trades[p][i], now, obs);
    case Inject(packet) =>
  }

  /** A new packet that one of the sender's trades stands behind, if it is honest. */
  ghost predicate NewPacketBacked(s: Net, s': Net) {
    forall m :: m in s'.packets && m !in s.packets && IsHonest(s', m.sender) && m.body.psbt.Some? ==>
      exists i :: IsTrade(s', m.sender, i) && StandsBehind(s'.trades[m.sender][i], m)
  }

  lemma PacketsStayBacked(s: Net, s': Net)
    requires Extends(s, s') && PacketsBacked(s) && NewPacketBacked(s, s')
    ensures PacketsBacked(s')
  {
    forall m | m in s'.packets && IsHonest(s', m.sender) && m.body.psbt.Some?
      ensures exists i :: IsTrade(s', m.sender, i) && StandsBehind(s'.trades[m.sender][i], m)
    {
      if m in s.packets {
        BackedPersists(s, s', m);
      }
    }
  }

  /** Each trade either keeps its counterparty's PSBT or has just got it delivered. */
  ghost predicate NewPsbtsDelivered(s: Net, s': Net) {
    forall p, i :: IsTrade(s', p, i) && s'.trades[p][i].theirPsbt.Some? ==>
      || (IsTrade(s, p, i) && s'.trades[p][i].theirPsbt == s.trades[p][i].theirPsbt)
      || (exists m :: m in s'.packets && Delivered(p, s'.trades[p][i], m))
  }

  lemma PsbtsStayDelivered(s: Net, s': Net)
    requires Extends(s, s') && PsbtsDelivered(s) && NewPsbtsDelivered(s, s')
    ensures PsbtsDelivered(s')
  {
    forall p, i | IsTrade(s', p, i) && s'.trades[p][i].theirPsbt.Some?
      ensures exists m :: m in s'.packets && Delivered(p, s'.trades[p][i], m)
    {
      if IsTrade(s, p, i) && s'.trades[p][i].theirPsbt == s.trades[p][i].theirPsbt {
        assert Follows(s.trades[p][i], s'.trades[p][i]);
        var m :| m in s.packets && Delivered(p, s.trades[p][i], m);
        assert m in s'.packets && Delivered(p, s'.trades[p][i], m);
      }
    }
  }

  /** New exposures are of signatures already exposed, or of committed trades. */
  ghost predicate NewExposuresBacked(s: Net, s': Net) {
    forall q, tx :: IsHonest(s', q) && Exposed(s', q, tx) ==> Exposed(s, q, tx) || CommittedTo(s', q, tx)
  }

  lemma ProvenanceStays(s: Net, s': Net)
    requires Extends(s, s') && Provenance(s) && NewExposuresBacked(s, s')
    ensures Provenance(s')
  {
    forall q, tx | IsHonest(s', q) && Exposed(s', q, tx)
      ensures CommittedTo(s', q, tx)
    {
      if Exposed(s, q, tx) {
        CommittedPersists(s, s', q, tx);
      }
    }
  }

  lemma BroadcastsStayFinal(w: World, s: Net, s': Net)
    requires Extends(s, s') && BroadcastsFinal(w, s)
    requires forall b :: b in s'.broadcasts && b !in s.broadcasts ==>
      IsTrade(s', b.maker, b.index) && IsFinal(w, s'.trades[b.maker][b.index], b)
    ensures BroadcastsFinal(w, s')
  {
    forall b | b in s'.broadcasts
      ensures IsTrade(s', b.maker, b.index) && IsFinal(w, s'.trades[b.maker][b.index], b)
    {
      if b in s.broadcasts {
        assert Follows(s.trades[b.maker][b.index], s'.trades[b.maker][b.index]);
      }
    }
  }

  /** A delivered PSBT that shows a signature was seen by everybody who listens. */
  lemma TheirsIsExposed(s: Net, p: Account, i: int, q: Account)
    requires PsbtsDelivered(s) && IsTrade(s, p, i)
    requires s.trades[p][i].theirPsbt.Some? && s.trades[p][i].theirPsbt.value.Encoded?
    requires SignedBy(s.trades[p][i].theirPsbt.value.psbt, q)
    ensures Exposed(s, q, s.trades[p][i].theirPsbt.value.psbt.tx)
  {
    var m :| m in s.packets && Delivered(p, s.trades[p][i], m);
    assert ShowsSignature(m, q, s.trades[p][i].theirPsbt.value.psbt.tx);
  }

  /** A fresh trade's first turn can at most produce seller data. */
  lemma FirstTurn(w: World, me: Account, t: TradeState, locked: set<OutPoint>, env: Env)
    requires Ready(me, t) && t.state == Initiated && t.sellerData.None? && t.theirPsbt.None?
    ensures var o := ReplyStep(w, me, t, locked, env);
      o.sent.None? && o.trade.theirPsbt.None? && (Replies(o) ==> o.reply.value.value.psbt.None?)
  {
  }

  lemma TakeKeepsInv(w: World, cfg: Settings, s: Net, a: Action)
    requires NetInv(w, s) && Enabled(w, s, a) && a.Take?
    ensures NetInv(w, Apply(w, cfg, s, a))
  {
    var s' := Apply(w, cfg, s, a);
    ActionExtends(w, cfg, s, a);
    TradesStaySafe(w, cfg, s, a);
    FirstTurn(w, a.p, NewTrade(a.order, a.units, a.order.account, a.now), a.locked, a.env);
    PacketsStayBacked(s, s');
    PsbtsStayDelivered(s, s');
    forall q, tx | IsHonest(s', q) && Exposed(s', q, tx)
      ensures Exposed(s, q, tx)
    {
      if m :| m in s'.packets && ShowsSignature(m, q, tx) {
        assert m in s.packets;
      }
    }
    ProvenanceStays(s, s');
    BroadcastsStayFinal(w, s, s');
  }

  lemma QuietPsbts(w: World, cfg: Settings, s: Net, a: Action)
    requires TradesSafe(w, s) && Enabled(w, s, a) && (a.Accept? || a.Deliver? || a.Update?)
    ensures NewPsbtsDelivered(s, Apply(w, cfg, s, a))
  {
    if a.Deliver? {
      var t := s.trades[a.p][a.i];
      var t' := HandleMessageStep(a.p, t, Received(a.packet));
      assert t'.theirPsbt == t.theirPsbt || Delivered(a.p, t', a.packet);
    }
  }

  lemma QuietKeepsInv(w: World, cfg: Settings, s: Net, a: Action)
    requires NetInv(w, s) && Enabled(w, s, a) && (a.Accept? || a.Deliver? || a.Update?)
    ensures NetInv(w, Apply(w, cfg, s, a))
  {
    var s' := Apply(w, cfg, s, a);
    ActionExtends(w, cfg, s, a);
    assert s'.packets == s.packets && s'.broadcasts == s.broadcasts;
    assert TradesSafe(w, s') by { TradesStaySafe(w, cfg, s, a); }
    assert PacketsBacked(s') by { PacketsStayBacked(s, s'); }
    assert PsbtsDelivered(s') by {
      QuietPsbts(w, cfg, s, a);
      PsbtsStayDelivered(s, s');
    }
    assert Provenance(s') by {
      assert forall q, tx :: Exposed(s', q, tx) == Exposed(s, q, tx);
      ProvenanceStays(s, s');
    }
    assert BroadcastsFinal(w, s') by { BroadcastsStayFinal(w, s, s'); }
  }

  lemma InjectKeepsInv(w: World, cfg: Settings, s: Net, a: Action)
    requires NetInv(w, s) && Enabled(w, s, a) && a.Inject?
    ensures NetInv(w, Apply(w, cfg, s, a))
  {
    var s' := Apply(w, cfg, s, a);
    ActionExtends(w, cfg, s, a);
    PacketsStayBacked(s, s');
    PsbtsStayDelivered(s, s');
    forall q, tx | IsHonest(s', q) && Exposed(s', q, tx)
      ensures Exposed(s, q, tx)
    {
      if m :| m in s'.packets && ShowsSignature(m, q, tx) {
        assert m in s.packets || m == a.packet;
      }
    }
    ProvenanceStays(s, s');
    BroadcastsStayFinal(w, s, s');
  }

  /** A PSBT that a turn releases, with somebody's signature in it. */
  predicate IsReleased(o: Outcome, psbt: Psbt) {
    o.sent == Some(psbt) || (Replies(o) && o.reply.value.value.psbt == Some(psbt))
  }

  /** The counterparty's PSBT has q's signature on the transaction. */
  predicate TheirsShows(t: TradeState, tx: Tx, q: Account) {
    && t.theirPsbt.Some? && t.theirPsbt.value.Encoded?
    && t.theirPsbt.value.psbt.tx == tx
    && SignedBy(t.theirPsbt.value.psbt, q)
  }

  lemma ReleasedSignatures(w: World, me: Account, t: TradeState, locked: set<OutPoint>, env: Env, psbt: Psbt, q: Account)
    requires SafeTrade(w, me, t) && EnvOk(w, me, t, locked, env)
    requires IsReleased(ReplyStep(w, me, t, locked, env), psbt) && SignedBy(psbt, q)
    ensures var t' := ReplyStep(w, me, t, locked, env).trade;
      && t'.theirPsbt == t.theirPsbt
      && CommittedWith(t', psbt.tx)
      && (q != me ==> TheirsShows(t, psbt.tx, q))
  {
    var o := ReplyStep(w, me, t, locked, env);
    TurnKeepsSafe(w, me, t, locked, env);
    assert o.trade.theirPsbt == t.theirPsbt by { TurnFollowsTheirs(w, me, t, locked, env); }
    hide ReplyStep, EnvOk, SafeTrade;
    if o.sent == Some(psbt) {
      SentIsFinal(w, me, t, locked, env, 0);
    } else {
      SignaturesLeaveOnCommit(w, me, t, locked, env);
      ReplyIsBacked(w, me, t, locked, env);
      if q != me {
        ForeignSignatures(w, me, o.trade, q);
      }
    }
  }

  /** A release is of the sender's own commitment, or of something already seen. */
  lemma ReleaseExposure(s: Net, s': Net, p: Account, i: nat, psbt: Psbt, q: Account)
    requires PsbtsDelivered(s) && IsTrade(s, p, i) && IsTrade(s', p, i)
    requires CommittedWith(s'.trades[p][i], psbt.tx)
    requires q != p ==> TheirsShows(s.trades[p][i], psbt.tx, q)
    ensures Exposed(s, q, psbt.tx) || CommittedTo(s', q, psbt.tx)
  {
    if q != p {
      TheirsIsExposed(s, p, i, q);
    }
  }

  lemma ReplyExposures(w: World, cfg: Settings, s: Net, a: Action)
    requires NetInv(w, s) && Enabled(w, s, a) && a.Reply?
    ensures NewExposuresBacked(s, Apply(w, cfg, s, a))
  {
    var s' := Apply(w, cfg, s, a);
    var p, t := a.p, s.trades[a.p][a.i];
    var o := ReplyStep(w, p, t, a.locked, a.env);
    assert s'.trades[p][a.i] == o.trade && IsTrade(s', p, a.i);
    forall q, tx | IsHonest(s', q) && Exposed(s', q, tx) && !Exposed(s, q, tx)
      ensures CommittedTo(s', q, tx)
    {
      var psbt := NewlyShown(w, cfg, s, a, q, tx);
      ReleasedSignatures(w, p, t, a.locked, a.env, psbt, q);
      ReleaseExposure(s, s', p, a.i, psbt, q);
    }
  }

  /** What a turn newly shows is in the PSBT it releases. */
  lemma NewlyShown(w: World, cfg: Settings, s: Net, a: Action, q: Account, tx: Tx) returns (psbt: Psbt)
    requires Enabled(w, s, a) && a.Reply?
    requires Exposed(Apply(w, cfg, s, a), q, tx) && !Exposed(s, q, tx)
    ensures IsReleased(ReplyStep(w, a.p, s.trades[a.p][a.i], a.locked, a.env), psbt)
    ensures SignedBy(psbt, q) && psbt.tx == tx
  {
    var s' := Apply(w, cfg, s, a);
    if m :| m in s'.packets && ShowsSignature(m, q, tx) {
      assert m !in s.packets;
      psbt := m.body.psbt.value.psbt;
    } else {
      var b :| b in s'.broadcasts && b.psbt.tx == tx && SignedBy(b.psbt, q);
      assert b !in s.broadcasts;
      psbt := b.psbt;
    }
  }

  lemma ReplyPackets(w: World, cfg: Settings, s: Net, a: Action)
    requires TradesSafe(w, s) && Enabled(w, s, a) && a.Reply?
    ensures NewPacketBacked(s, Apply(w, cfg, s, a))
  {
    var s' := Apply(w, cfg, s, a);
    var t := s.trades[a.p][a.i];
    var o := ReplyStep(w, a.p, t, a.locked, a.env);
    ReplyIsBacked(w, a.p, t, a.locked, a.env);
    assert s'.trades[a.p][a.i] == o.trade && IsTrade(s', a.p, a.i);
  }

  lemma ReplyBroadcasts(w: World, cfg: Settings, s: Net, a: Action)
    requires TradesSafe(w, s) && Enabled(w, s, a) && a.Reply?
    ensures var s' := Apply(w, cfg, s, a);
      forall b :: b in s'.broadcasts && b !in s.broadcasts ==>
        IsTrade(s', b.maker, b.index) && IsFinal(w, s'.trades[b.maker][b.index], b)
  {
    SentIsFinal(w, a.p, s.trades[a.p][a.i], a.locked, a.env, a.i);
  }

  lemma ReplyPsbts(w: World, cfg: Settings, s: Net, a: Action)
    requires TradesSafe(w, s) && Enabled(w, s, a) && a.Reply?
    ensures NewPsbtsDelivered(s, Apply(w, cfg, s, a))
  {
    assert ReplyStep(w, a.p, s.trades[a.p][a.i], a.locked, a.env).trade.theirPsbt == s.trades[a.p][a.i].theirPsbt;
  }

  lemma ReplyKeepsInv(w: World, cfg: Settings, s: Net, a: Action)
    requires NetInv(w, s) && Enabled(w, s, a) && a.Reply?
    ensures NetInv(w, Apply(w, cfg, s, a))
  {
    var s' := Apply(w, cfg, s, a);
    ActionExtends(w, cfg, s, a);
    assert TradesSafe(w, s') by { TradesStaySafe(w, cfg, s, a); }
    assert PacketsBacked(s') by {
      ReplyPackets(w, cfg, s, a);
      PacketsStayBacked(s, s');
    }
    assert PsbtsDelivered(s') by {
      ReplyPsbts(w, cfg, s, a);
      PsbtsStayDelivered(s, s');
    }
    assert Provenance(s') by {
      ReplyExposures(w, cfg, s, a);
      ProvenanceStays(s, s');
    }
    assert BroadcastsFinal(w, s') by {
      ReplyBroadcasts(w, cfg, s, a);
      BroadcastsStayFinal(w, s, s');
    }
  }

  lemma ActionKeepsInv(w: World, cfg: Settings, s: Net, a: Action)
    requires NetInv(w, s) && Enabled(w, s, a)
    ensures NetInv(w, Apply(w, cfg, s, a))
  {
    match a
    case Take(_, _, _, _, _, _) => TakeKeepsInv(w, cfg, s, a);
    case Reply(_, _, _, _) => ReplyKeepsInv(w, cfg, s, a);
    case Inject(_) => InjectKeepsInv(w, cfg, s, a);
    case _ => QuietKeepsInv(w, cfg, s, a);
  }

  // ---------------------------------------------------------------- whole runs

  /** The states of a run: it starts empty and every step is an enabled action. */
  ghost predicate IsRun(w: World, cfg: Settings, states: seq<Net>, actions: seq<Action>) {
    && |states| == |actions| + 1
    && Initial(states[0])
    && forall i :: 0 <= i < |actions| ==> Enabled(w, states[i], actions[i]) && states[i + 1] == Apply(w, cfg, states[i], actions[i])
  }

  lemma {:induction false} RunKeepsInv(w: World, cfg: Settings, states: seq<Net>, actions: seq<Action>, n: nat)
    requires IsRun(w, cfg, states, actions) && n < |states|
    ensures NetInv(w, states[n])
  {
    if n == 0 {
      InitialInv(w, states[0]);
    } else {
      RunKeepsInv(w, cfg, states, actions, n - 1);
      ActionKeepsInv(w, cfg, states[n - 1], actions[n - 1]);
    }
  }

  /**
   Two-party agreement: whatever a maker has broadcast is complete and is the
   transaction in its own PSBT; if the counterparty is honest, it holds a trade for
   the same order as taker, past INITIATED and not abandoned, with that transaction.
   */
  lemma Agreement(w: World, cfg: Settings, states: seq<Net>, actions: seq<Action>, n: nat, b: Broadcast)
    requires IsRun(w, cfg, states, actions) && n < |states| && b in states[n].broadcasts
    ensures var s := states[n];
      && IsTrade(s, b.maker, b.index)
      && var t := s.trades[b.maker][b.index];
      && RoleOf(b.maker, t) == Maker
      && Complete(w, b.psbt)
      && CommittedWith(t, b.psbt.tx)
      && (IsHonest(s, t.counterparty) ==>
            exists i :: IsTrade(s, t.counterparty, i) && IsOtherSide(b.maker, t, s.trades[t.counterparty][i], b.psbt.tx))
  {
    var s := states[n];
    RunKeepsInv(w, cfg, states, actions, n);
    var t := s.trades[b.maker][b.index];
    if IsHonest(s, t.counterparty) {
      OtherSideExists(w, s, b.maker, b.index);
    }
  }

  /** u is the taker's trade for the maker's trade t, committed to the transaction. */
  predicate IsOtherSide(maker: Account, t: TradeState, u: TradeState, tx: Tx) {
    && u.order.account == maker && u.order.id == t.order.id
    && u.counterparty == maker
    && CommittedWith(u, tx)
  }

  lemma OtherSideExists(w: World, s: Net, maker: Account, index: int)
    requires NetInv(w, s) && IsTrade(s, maker, index)
    requires var t := s.trades[maker][index];
      && RoleOf(maker, t) == Maker && IsHonest(s, t.counterparty)
      && t.theirPsbt.Some? && t.theirPsbt.value.Encoded?
    ensures var t := s.trades[maker][index];
      exists i :: IsTrade(s, t.counterparty, i)
        && IsOtherSide(maker, t, s.trades[t.counterparty][i], t.theirPsbt.value.psbt.tx)
  {
    var t := s.trades[maker][index];
    var m :| m in s.packets && Delivered(maker, t, m);
    var i :| IsTrade(s, m.sender, i) && StandsBehind(s.trades[m.sender][i], m);
    var u := s.trades[m.sender][i];
    GetIdentifierInjective(t.order.account, t.order.id, u.order.account, u.order.id);
    assert RoleOf(m.sender, u) == Taker;
    assert IsOtherSide(maker, t, u, t.theirPsbt.value.psbt.tx);
  }

  /**
   Signature provenance against any adversary: whoever sees an honest party's
   signature on a transaction, that party has committed to the transaction in some
   trade, and that trade gives it its protection as seller or as buyer.
   */
  lemma SignatureProvenance(w: World, cfg: Settings, states: seq<Net>, actions: seq<Action>, n: nat, q: Account, tx: Tx)
    requires IsRun(w, cfg, states, actions) && n < |states|
    requires IsHonest(states[n], q) && Exposed(states[n], q, tx)
    ensures exists i ::
      (IsTrade(states[n], q, i) && CommittedWith(states[n].trades[q][i], tx) && SafeTrade(w, q, states[n].trades[q][i]))
  {
    RunKeepsInv(w, cfg, states, actions, n);
    var s := states[n];
    assert CommittedTo(s, q, tx);
    var i :| IsTrade(s, q, i) && CommittedWith(s.trades[q][i], tx);
    assert SafeTrade(w, q, s.trades[q][i]);
  }

  /** u is somebody's trade for the maker's order that t is about. */
  predicate IsForOrder(maker: Account, t: TradeState, u: TradeState) {
    u.order.account == maker && u.order.id == t.order.id
  }

  /**
   A trade that the taker abandoned is never broadcast: as long as all that an honest
   counterparty has for the order are abandoned trades, or ones that it has not
   committed to, the maker has made no broadcast for its trade.
   */
  lemma AbandonedByTaker(w: World, cfg: Settings, states: seq<Net>, actions: seq<Action>, n: nat, maker: Account, index: nat)
    requires IsRun(w, cfg, states, actions) && n < |states| && IsTrade(states[n], maker, index)
    requires var s, t := states[n], states[n].trades[maker][index];
      && IsHonest(s, t.counterparty)
      && forall i :: IsTrade(s, t.counterparty, i) && IsForOrder(maker, t, s.trades[t.counterparty][i]) ==>
           s.trades[t.counterparty][i].state in {Abandoned, Initiated}
    ensures forall b :: b in states[n].broadcasts ==> !(b.maker == maker && b.index == index)
  {
    forall b | b in states[n].broadcasts && b.maker == maker && b.index == index
      ensures false
    {
      Agreement(w, cfg, states, actions, n, b);
    }
  }

  /**
   Agreement on the terms: if one side sells and the other buys, two committed trades
   with the same transaction stand for literally the same transfer.
   */
  lemma SameTransfer(w: World, seller: Account, t: TradeState, buyer: Account, u: TradeState, tx: Tx)
    requires SafeTrade(w, seller, t) && SafeTrade(w, buyer, u)
    requires TypeOf(seller, t) == Ask && TypeOf(buyer, u) == Bid
    requires t.counterparty == buyer && u.counterparty == seller
    requires CommittedWith(t, tx) && CommittedWith(u, tx)
    ensures w.transferValue(seller, buyer, t.order.asset, t.units) == w.transferValue(seller, buyer, u.order.asset, u.units)
  {
    var i :| 0 <= i < |tx.vout| && MovesOurName(w, seller, t, tx.vout[i]);
    assert IsNamePart(w, buyer, u, tx.vout[i]);
  }

  /** The maker never has trades on two versions of one order. */
  ghost predicate OneOrderPerId(s: Net, maker: Account) {
    forall i, j :: IsTrade(s, maker, i) && IsTrade(s, maker, j)
      && RoleOf(maker, s.trades[maker][i]) == Maker && RoleOf(maker, s.trades[maker][j]) == Maker
      && s.trades[maker][i].order.id == s.trades[maker][j].order.id
      ==> s.trades[maker][i].order == s.trades[maker][j].order
  }

  /** In a run, a party always means the same order by an identifier of its own. */
  predicate AcceptsConsistently(actions: seq<Action>, maker: Account) {
    forall k, l :: 0 <= k < |actions| && 0 <= l < |actions|
      && actions[k].Accept? && actions[l].Accept? && actions[k].p == maker && actions[l].p == maker
      && actions[k].order.id == actions[l].order.id
      ==> actions[k].order == actions[l].order
  }

  /** A maker trade after a step was one before, or was just accepted. */
  lemma MakerTradesComeFrom(w: World, cfg: Settings, s: Net, a: Action, p: Account, i: int)
    requires TradesSafe(w, s) && Enabled(w, s, a)
    requires IsTrade(Apply(w, cfg, s, a), p, i) && RoleOf(p, Apply(w, cfg, s, a).trades[p][i]) == Maker
    ensures var t := Apply(w, cfg, s, a).trades[p][i];
      || (a.Accept? && a.p == p && a.order == t.order)
      || (IsTrade(s, p, i) && RoleOf(p, s.trades[p][i]) == Maker && s.trades[p][i].order == t.order)
  {
    ActionExtends(w, cfg, s, a);
    if a.Take? {
      TurnFollows(w, a.p, NewTrade(a.order, a.units, a.order.account, a.now), a.locked, a.env);
    }
    hide ReplyStep, EnvOk, SafeTrade;
    if IsTrade(s, p, i) {
      assert Follows(s.trades[p][i], Apply(w, cfg, s, a).trades[p][i]);
    }
  }

  /** So every maker trade is for an order that was accepted. */
  lemma {:induction false} MakerTradesAccepted(w: World, cfg: Settings, states: seq<Net>, actions: seq<Action>, n: nat, p: Account, i: int)
    returns (k: nat)
    requires IsRun(w, cfg, states, actions) && n < |states|
    requires IsTrade(states[n], p, i) && RoleOf(p, states[n].trades[p][i]) == Maker
    ensures k < |actions| && actions[k].Accept? && actions[k].p == p && actions[k].order == states[n].trades[p][i].order
  {
    hide Enabled, Apply, NetInv, RoleOf;
    k := n - 1;
    RunKeepsInv(w, cfg, states, actions, k);
    StepMakerTrades(w, cfg, states[k], actions[k], p, i);
    if !(actions[k].Accept? && actions[k].p == p && actions[k].order == states[n].trades[p][i].order) {
      k := MakerTradesAccepted(w, cfg, states, actions, n - 1, p, i);
    }
  }

  lemma StepMakerTrades(w: World, cfg: Settings, s: Net, a: Action, p: Account, i: int)
    requires NetInv(w, s) && Enabled(w, s, a)
    requires IsTrade(Apply(w, cfg, s, a), p, i) && RoleOf(p, Apply(w, cfg, s, a).trades[p][i]) == Maker
    ensures var t := Apply(w, cfg, s, a).trades[p][i];
      || (a.Accept? && a.p == p && a.order == t.order)
      || (IsTrade(s, p, i) && RoleOf(p, s.trades[p][i]) == Maker && s.trades[p][i].order == t.order)
  {
    MakerTradesComeFrom(w, cfg, s, a, p, i);
  }

  lemma OneOrderInRun(w: World, cfg: Settings, states: seq<Net>, actions: seq<Action>, n: nat, maker: Account)
    requires IsRun(w, cfg, states, actions) && n < |states| && AcceptsConsistently(actions, maker)
    ensures OneOrderPerId(states[n], maker)
  {
    forall i, j | IsTrade(states[n], maker, i) && IsTrade(states[n], maker, j)
      && RoleOf(maker, states[n].trades[maker][i]) == Maker && RoleOf(maker, states[n].trades[maker][j]) == Maker
      && states[n].trades[maker][i].order.id == states[n].trades[maker][j].order.id
      ensures states[n].trades[maker][i].order == states[n].trades[maker][j].order
    {
      var k := MakerTradesAccepted(w, cfg, states, actions, n, maker, i);
      var l := MakerTradesAccepted(w, cfg, states, actions, n, maker, j);
    }
  }

  /** The only name that a buyer's transaction spends is the seller's. */
  lemma SpendsSellersName(w: World, me: Account, t: TradeState)
    requires SafeTrade(w, me, t) && TypeOf(me, t) == Bid && t.ourPsbt.Some?
    ensures var vin := t.ourPsbt.value.tx.vin;
      && (exists i :: 0 <= i < |vin| && w.nameOf(vin[i]).Some?)
      && (forall i :: 0 <= i < |vin| && w.nameOf(vin[i]).Some? ==> w.nameOf(vin[i]) == Some(XayaName(t.counterparty)))
  {
  }

  /** So two parties cannot both be committed as buyers to one transaction. */
  lemma NotBothBuy(w: World, p: Account, t: TradeState, q: Account, u: TradeState, tx: Tx)
    requires SafeTrade(w, p, t) && SafeTrade(w, q, u) && p != q
    requires t.counterparty == q && u.counterparty == p
    requires CommittedWith(t, tx) && CommittedWith(u, tx) && TypeOf(p, t) == Bid
    ensures TypeOf(q, u) == Ask
  {
    SpendsSellersName(w, p, t);
    hide SafeTrade;
    if TypeOf(q, u) == Bid {
      SpendsSellersName(w, q, u);
    }
  }

  /** A selling taker commits only to what it got from a trade of the maker that buys. */
  lemma BuyingMaker(w: World, s: Net, maker: Account, q: Account, i: int) returns (j: int)
    requires NetInv(w, s) && IsHonest(s, maker) && IsTrade(s, q, i)
    requires var u := s.trades[q][i];
      u.order.account == maker && u.counterparty == maker && TypeOf(q, u) == Ask && u.ourPsbt.Some?
    ensures IsTrade(s, maker, j)
    ensures var v := s.trades[maker][j];
      RoleOf(maker, v) == Maker && v.order.id == s.trades[q][i].order.id && TypeOf(maker, v) == Bid
  {
    var u := s.trades[q][i];
    assert SafeTrade(w, q, u);
    var m :| m in s.packets && Delivered(q, u, m);
    j :| IsTrade(s, m.sender, j) && StandsBehind(s.trades[m.sender][j], m);
    var v := s.trades[maker][j];
    GetIdentifierInjective(u.order.account, u.order.id, v.order.account, v.order.id);
  }

  /**
   A sale and a purchase stand for the same deal: the same asset transfer, the buyer
   pays at least what the seller asks, and to the seller's addresses.
   */
  predicate SameDeal(w: World, seller: Account, sale: TradeState, buyer: Account, purchase: TradeState) {
    && w.transferValue(seller, buyer, sale.order.asset, sale.units)
         == w.transferValue(seller, buyer, purchase.order.asset, purchase.units)
    && TotalOf(sale) <= TotalOf(purchase)
    && sale.sellerData.Some? && purchase.sellerData.Some?
    && sale.sellerData.value.nameAddress == purchase.sellerData.value.nameAddress
    && (TotalOf(sale) > 0 ==> sale.sellerData.value.chiAddress == purchase.sellerData.value.chiAddress)
  }

  lemma CommittedIsSameDeal(w: World, seller: Account, t: TradeState, buyer: Account, u: TradeState, tx: Tx)
    requires SafeTrade(w, seller, t) && SafeTrade(w, buyer, u) && seller != buyer
    requires TypeOf(seller, t) == Ask && TypeOf(buyer, u) == Bid
    requires t.counterparty == buyer && u.counterparty == seller
    requires CommittedWith(t, tx) && CommittedWith(u, tx)
    ensures SameDeal(w, seller, t, buyer, u)
  {
    SameTransfer(w, seller, t, buyer, u, tx);
    var i :| 0 <= i < |tx.vout| && MovesOurName(w, seller, t, tx.vout[i]);
    assert IsNamePart(w, buyer, u, tx.vout[i]);
    if TotalOf(t) > 0 {
      var j :| 0 <= j < |tx.vout| && PaysUs(t, tx.vout[j]);
      assert IsExactPayment(u, tx.vout[j]) || ReturnsTo(w, buyer, tx.vout[j]);
      assert w.holder(t.sellerData.value.chiAddress.value) == seller;
    }
  }

  /** The true total of a trade. */
  function TotalOf(t: TradeState): nat {
    t.order.priceSat * t.units
  }

  /**
   In every run, the two honest sides of a broadcast took opposite sides of the order,
   agree on the transfer and on the addresses, the buyer pays at least what the seller
   asks, and each has its own protection on the transaction.
   */
  lemma AgreementOnTerms(w: World, cfg: Settings, states: seq<Net>, actions: seq<Action>, n: nat, b: Broadcast, i: int)
    requires IsRun(w, cfg, states, actions) && n < |states| && b in states[n].broadcasts
    requires IsTrade(states[n], b.maker, b.index) && AcceptsConsistently(actions, b.maker)
    requires var t := states[n].trades[b.maker][b.index];
      && IsTrade(states[n], t.counterparty, i)
      && IsOtherSide(b.maker, t, states[n].trades[t.counterparty][i], b.psbt.tx)
    ensures var t := states[n].trades[b.maker][b.index];
      var q, u := t.counterparty, states[n].trades[t.counterparty][i];
      var seller, buyer := Seller(b.maker, t), Buyer(b.maker, t);
      && seller == Seller(q, u) && buyer == Buyer(q, u)
      && SafeTrade(w, b.maker, t) && SafeTrade(w, q, u)
      && (if TypeOf(b.maker, t) == Ask then SameDeal(w, seller, t, buyer, u) else SameDeal(w, seller, u, buyer, t))
  {
    RunKeepsInv(w, cfg, states, actions, n);
    OneOrderInRun(w, cfg, states, actions, n, b.maker);
    var t := states[n].trades[b.maker][b.index];
    var q, u := t.counterparty, states[n].trades[t.counterparty][i];
    assert IsFinal(w, t, b) && SafeTrade(w, b.maker, t) && SafeTrade(w, q, u);
    if TypeOf(q, u) == Ask {
      var j := BuyingMaker(w, states[n], b.maker, q, i);
    }
    if TypeOf(b.maker, t) == Ask {
      CommittedIsSameDeal(w, b.maker, t, q, u, b.psbt.tx);
    } else {
      NotBothBuy(w, b.maker, t, q, u, b.psbt.tx);
      CommittedIsSameDeal(w, q, u, b.maker, t, b.psbt.tx);
    }
  }
}
