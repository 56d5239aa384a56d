/**
 The seller's addresses across the network: a buyer with an honest counterparty pays
 to, and moves the name to, the addresses that the seller itself has recorded.
 */
module SellerDataRuns {
  import opened Wrappers
  import opened Proto
  import opened Psbts
  import opened Lifecycle
  import opened Identifiers
  import opened TradeSteps
  import opened TradeSafety
  import opened TradeRuns
  import opened Protocol

  /** What a seller tells of its data: everything but the output. */
  function Published(sd: SellerData): SellerData {
    sd.(nameOutput := None)
  }

  /** Trade u of q, in which q sells, has recorded this data. */
  predicate Recorded(q: Account, u: TradeState, buyer: Account, identifier: string, sd: SellerData) {
    && TypeOf(q, u) == Ask && u.counterparty == buyer && IdentifierOf(u) == identifier
    && u.sellerData.Some? && Published(u.sellerData.value) == sd
  }

  ghost predicate IsRecorded(s: Net, q: Account, buyer: Account, identifier: string, sd: SellerData) {
    exists i :: IsTrade(s, q, i) && Recorded(q, s.trades[q][i], buyer, identifier, sd)
  }

  /** The packet from which a buyer has the seller's data. */
  predicate Brings(m: Packet, buyer: Account, t: TradeState) {
    && m.sender == t.counterparty && m.receiver == buyer
    && m.body.identifier == IdentifierOf(t) && m.body.sellerData == t.sellerData
  }

  /** Every honest packet tells what its sender has recorded. */
  ghost predicate PacketsTell(s: Net) {
    forall m :: m in s.packets && IsHonest(s, m.sender) && m.body.sellerData.Some? ==>
      IsRecorded(s, m.sender, m.receiver, m.body.identifier, m.body.sellerData.value)
  }

  /** Every buyer's data came in a packet. */
  ghost predicate BuyersHeard(s: Net) {
    forall p, i :: IsTrade(s, p, i) && TypeOf(p, s.trades[p][i]) == Bid && s.trades[p][i].sellerData.Some? ==>
      exists m :: m in s.packets && Brings(m, p, s.trades[p][i])
  }

  // ------------------------------------------------------------------- preserved

  lemma RecordedPersists(s: Net, s': Net, q: Account, buyer: Account, identifier: string, sd: SellerData)
    requires Extends(s, s') && IsRecorded(s, q, buyer, identifier, sd)
    ensures IsRecorded(s', q, buyer, identifier, sd)
  {
    var i :| IsTrade(s, q, i) && Recorded(q, s.trades[q][i], buyer, identifier, sd);
    assert Follows(s.trades[q][i], s'.trades[q][i]);
    assert Recorded(q, s'.trades[q][i], buyer, identifier, sd);
  }

  /** A turn's reply tells what the trade has recorded by then. */
  lemma ReplyTells(w: World, me: Account, t: TradeState, locked: set<OutPoint>, env: Env, taking: Option<TakingOrder>)
    requires SafeTrade(w, me, t)
    ensures var o := ReplyStep(w, me, t, locked, env);
      Replies(o) && o.reply.value.value.sellerData.Some? ==>
        var m := ReplyPacket(me, t, o.reply.value.value, taking);
        Recorded(me, o.trade, m.receiver, m.body.identifier, m.body.sellerData.value)
  {
    RepliesHideNameOutput(w, me, t, locked, env);
    TurnFollows(w, me, t, locked, env);
    OnlySellersTell(w, me, t, locked, env);
    hide ReplyStep, SafeTrade;
  }

  lemma OnlySellersTell(w: World, me: Account, t: TradeState, locked: set<OutPoint>, env: Env)
    requires Ready(me, t)
    ensures var o := ReplyStep(w, me, t, locked, env);
      && (Replies(o) && o.reply.value.value.sellerData.Some? ==> TypeOf(me, t) == Ask)
      && (TypeOf(me, t) == Bid ==> o.trade.sellerData == t.sellerData)
  {
    hide SellerSignStep, BuyerSignStep, SignedAsBuyer, Complete, Combine;
  }

  /** New packets tell what was recorded, and new data was brought by a packet. */
  ghost predicate NewDataOk(s: Net, s': Net) {
    && (forall m :: m in s'.packets && m !in s.packets && IsHonest(s', m.sender) && m.body.sellerData.Some? ==>
          IsRecorded(s', m.sender, m.receiver, m.body.identifier, m.body.sellerData.value))
    && (forall p, i :: IsTrade(s', p, i) && TypeOf(p, s'.trades[p][i]) == Bid && s'.trades[p][i].sellerData.Some? ==>
          || (IsTrade(s, p, i) && s'.trades[p][i].sellerData == s.trades[p][i].sellerData)
          || (exists m :: m in s'.packets && Brings(m, p, s'.trades[p][i])))
  }

  lemma DataStaysOk(s: Net, s': Net)
    requires Extends(s, s') && PacketsTell(s) && BuyersHeard(s) && NewDataOk(s, s')
    ensures PacketsTell(s') && BuyersHeard(s')
  {
    forall m | m in s'.packets && IsHonest(s', m.sender) && m.body.sellerData.Some?
      ensures IsRecorded(s', m.sender, m.receiver, m.body.identifier, m.body.sellerData.value)
    {
      if m in s.packets {
        RecordedPersists(s, s', m.sender, m.receiver, m.body.identifier, m.body.sellerData.value);
      }
    }
    forall p, i | IsTrade(s', p, i) && TypeOf(p, s'.trades[p][i]) == Bid && s'.trades[p][i].sellerData.Some?
      ensures exists m :: m in s'.packets && Brings(m, p, s'.trades[p][i])
    {
      if IsTrade(s, p, i) && s'.trades[p][i].sellerData == s.trades[p][i].sellerData {
        assert Follows(s.trades[p][i], s'.trades[p][i]);
        var m :| m in s.packets && Brings(m, p, s.trades[p][i]);
        assert Brings(m, p, s'.trades[p][i]);
      }
    }
  }

  lemma TurnDataOk(w: World, cfg: Settings, s: Net, a: Action)
    requires NetInv(w, s) && Enabled(w, s, a) && (a.Take? || a.Reply?)
    ensures NewDataOk(s, Apply(w, cfg, s, a))
  {
    var s' := Apply(w, cfg, s, a);
    var t := if a.Take? then NewTrade(a.order, a.units, a.order.account, a.now) else s.trades[a.p][a.i];
    var i := if a.Take? then |s.trades[a.p]| else a.i;
    if a.Take? {
      NewTradeIsSafe(w, a.p, a.order, a.units, a.order.account, a.now);
    }
    var o := ReplyStep(w, a.p, t, a.locked, a.env);
    ReplyTells(w, a.p, t, a.locked, a.env, if a.Take? then Some(TakingOrder(a.order.id, a.units)) else None);
    OnlySellersTell(w, a.p, t, a.locked, a.env);
    TurnFollows(w, a.p, t, a.locked, a.env);
    hide ReplyStep, EnvOk, SafeTrade;
    assert s' != s ==> IsTrade(s', a.p, i) && s'.trades[a.p][i] == o.trade;
  }

  lemma ActionDataOk(w: World, cfg: Settings, s: Net, a: Action)
    requires NetInv(w, s) && Enabled(w, s, a)
    ensures NewDataOk(s, Apply(w, cfg, s, a))
  {
    hide Apply, Enabled, NetInv, NewDataOk;
    if a.Take? || a.Reply? {
      TurnDataOk(w, cfg, s, a);
    } else {
      QuietDataOk(w, cfg, s, a);
    }
  }

  /** Only a message brings a buyer new data. */
  lemma QuietDataOk(w: World, cfg: Settings, s: Net, a: Action)
    requires Enabled(w, s, a) && !a.Take? && !a.Reply?
    ensures NewDataOk(s, Apply(w, cfg, s, a))
  {
    hide ReplyStep, EnvOk;
    if a.Deliver? {
      var t := s.trades[a.p][a.i];
      var t' := HandleMessageStep(a.p, t, Received(a.packet));
      assert t'.sellerData == t.sellerData || Brings(a.packet, a.p, t');
    }
  }

  lemma SafeExtends(w: World, cfg: Settings, s: Net, a: Action)
    requires NetInv(w, s) && Enabled(w, s, a)
    ensures Extends(s, Apply(w, cfg, s, a))
  {
    ActionExtends(w, cfg, s, a);
  }

  lemma {:induction false} RunDataOk(w: World, cfg: Settings, states: seq<Net>, actions: seq<Action>, n: nat)
    requires IsRun(w, cfg, states, actions) && n < |states|
    ensures PacketsTell(states[n]) && BuyersHeard(states[n])
  {
    if n > 0 {
      hide Apply, Enabled, NetInv, PacketsTell, BuyersHeard, NewDataOk, Extends;
      RunDataOk(w, cfg, states, actions, n - 1);
      RunKeepsInv(w, cfg, states, actions, n - 1);
      ActionDataOk(w, cfg, states[n - 1], actions[n - 1]);
      SafeExtends(w, cfg, states[n - 1], actions[n - 1]);
      DataStaysOk(states[n - 1], states[n]);
    }
  }

  // ------------------------------------------------------------------ whole runs

  /**
   In every run: a message of an honest party never tells the output it has locked,
   and the addresses in it are those that one of its sales has recorded.
   */
  lemma OutputStaysPrivate(w: World, cfg: Settings, states: seq<Net>, actions: seq<Action>, n: nat, m: Packet)
    requires IsRun(w, cfg, states, actions) && n < |states|
    requires m in states[n].packets && IsHonest(states[n], m.sender) && m.body.sellerData.Some?
    ensures m.body.sellerData.value.nameOutput.None?
    ensures IsRecorded(states[n], m.sender, m.receiver, m.body.identifier, m.body.sellerData.value)
  {
    RunDataOk(w, cfg, states, actions, n);
  }

  /**
   In every run: the addresses with which an honest buyer builds its transaction are
   those that its counterparty, if honest too, has recorded in a sale of that order.
   */
  lemma AddressesAgree(w: World, cfg: Settings, states: seq<Net>, actions: seq<Action>, n: nat, p: Account, i: int)
    requires IsRun(w, cfg, states, actions) && n < |states| && IsTrade(states[n], p, i)
    requires var t := states[n].trades[p][i];
      TypeOf(p, t) == Bid && t.sellerData.Some? && IsHonest(states[n], t.counterparty)
    ensures var t := states[n].trades[p][i];
      exists j :: IsTrade(states[n], t.counterparty, j)
        && var u := states[n].trades[t.counterparty][j];
        && TypeOf(t.counterparty, u) == Ask && u.counterparty == p
        && u.order.account == t.order.account && u.order.id == t.order.id
        && u.sellerData.Some? && Published(u.sellerData.value) == t.sellerData.value
  {
    RunDataOk(w, cfg, states, actions, n);
    var s := states[n];
    var t := s.trades[p][i];
    var m :| m in s.packets && Brings(m, p, t);
    var j :| IsTrade(s, m.sender, j) && Recorded(m.sender, s.trades[m.sender][j], p, m.body.identifier, t.sellerData.value);
    var u := s.trades[m.sender][j];
    GetIdentifierInjective(t.order.account, t.order.id, u.order.account, u.order.id);
  }
}
