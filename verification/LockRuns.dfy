/**
 When locked and reserved are the same: over every run of the daemon, which steps
 leave an output locked that no trade reserves any more.
 */
module LockRuns {
  import opened Proto
  import opened Psbts
  import opened Lifecycle
  import opened TradeSteps
  import opened TradeSafety
  import opened Bookkeeping
  import opened Reservations
  import opened BookRuns

  ghost predicate IsReserved(w: World, me: Account, b: Book, o: OutPoint) {
    exists i :: 0 <= i < |b.procs| && o in ReservedOf(w, me, b.procs[i])
  }

  /** Locked, but not for any trade. */
  ghost predicate IsSpare(w: World, me: Account, b: Book, o: OutPoint) {
    o in b.locked && !IsReserved(w, me, b, o)
  }

  /**
   The steps after which an output is locked for nobody: a turn that leaks it, taking
   an order that leaks it or comes to nothing, the cleanup of a successful trade
   (whose outputs are spent, and are never unlocked), and a cleanup that fails to
   unlock it.
   */
  ghost predicate LetsGo(w: World, me: Account, b: Book, a: Action, o: OutPoint)
    requires Enabled(w, me, b, a)
  {
    match a
    case Turn(i, env) =>
      var r := ReplyStep(w, me, b.procs[i].t, b.locked, env);
      o in r.locked && o !in b.locked && o !in ReservedBy(w, me, r.trade)
    case TakeOrder(order, units, now, env) =>
      var r := ReplyStep(w, me, TakenTrade(order, units, now), b.locked, env);
      o in r.locked && o !in b.locked && (r.reply.Throws? || o !in ReservedBy(w, me, r.trade))
    case CleanOrder(i) => b.procs[i].Succeeding? && o in ReservedOf(w, me, b.procs[i])
    case CleanWallet(i, failing) => o in failing && o in ReservedOf(w, me, b.procs[i])
    case _ => false
  }

  // ------------------------------------------------------------------- single steps

  /** What a trade has reserved it keeps, whatever happens to it. */
  lemma ReservationGrows(w: World, me: Account, t: TradeState, t': TradeState)
    requires Follows(t, t')
    ensures ReservedBy(w, me, t) <= ReservedBy(w, me, t')
  {
  }

  /** One entry changes, and keeps at least its reservation; no other changes. */
  lemma EntryMoves(w: World, me: Account, b: Book, b': Book, i: nat, p: Proc, o: OutPoint)
    requires i < |b.procs| && b'.procs == b.procs[i := p]
    requires ReservedOf(w, me, b.procs[i]) <= ReservedOf(w, me, p)
    requires ReservedLocked(w, me, b)
    requires o in b.locked && o !in b'.locked ==> !IsReserved(w, me, b, o)
    ensures IsSpare(w, me, b', o) && !IsSpare(w, me, b, o) <==>
      o in b'.locked && o !in b.locked && o !in ReservedOf(w, me, p)
  {
    if IsReserved(w, me, b, o) {
      var j :| 0 <= j < |b.procs| && o in ReservedOf(w, me, b.procs[j]);
      assert o in ReservedOf(w, me, b'.procs[j]);
    }
    if o in ReservedOf(w, me, p) {
      assert b'.procs[i] == p;
    }
    if IsReserved(w, me, b', o) && o !in ReservedOf(w, me, p) {
      var j :| 0 <= j < |b'.procs| && o in ReservedOf(w, me, b'.procs[j]);
      assert o in ReservedOf(w, me, b.procs[j]);
    }
  }

  /** One entry gives up its whole reservation. */
  lemma EntryEnds(w: World, me: Account, b: Book, b': Book, i: nat, p: Proc, o: OutPoint)
    requires WalletInv(w, me, b) && i < |b.procs| && b'.procs == b.procs[i := p]
    requires ReservedOf(w, me, p) == {} && b'.locked <= b.locked
    ensures IsSpare(w, me, b', o) && !IsSpare(w, me, b, o) <==> o in b'.locked && o in ReservedOf(w, me, b.procs[i])
  {
    if IsReserved(w, me, b', o) {
      var j :| 0 <= j < |b'.procs| && o in ReservedOf(w, me, b'.procs[j]);
      assert j != i && o in ReservedOf(w, me, b.procs[j]);
    }
    if IsReserved(w, me, b, o) {
      var j :| 0 <= j < |b.procs| && o in ReservedOf(w, me, b.procs[j]);
      assert j != i ==> o in ReservedOf(w, me, b'.procs[j]);
    }
  }

  /** A new entry comes in, or none. */
  lemma EntryComes(w: World, me: Account, b: Book, b': Book, more: seq<Proc>, o: OutPoint)
    requires b'.procs == b.procs + more && |more| <= 1
    requires ReservedLocked(w, me, b)
    ensures IsSpare(w, me, b', o) && !IsSpare(w, me, b, o) <==>
      o in b'.locked && o !in b.locked && (more != [] ==> o !in ReservedOf(w, me, more[0]))
  {
    if IsReserved(w, me, b, o) {
      var j :| 0 <= j < |b.procs| && o in ReservedOf(w, me, b.procs[j]);
      assert o in ReservedOf(w, me, b'.procs[j]);
    }
    assert forall j :: 0 <= j < |b.procs| ==> b'.procs[j] == b.procs[j];
    assert more != [] ==> b'.procs[|b.procs|] == more[0];
  }

  lemma TurnLetsGo(w: World, cfg: Settings, me: Account, b: Book, a: Action, o: OutPoint)
    requires WalletInv(w, me, b) && Enabled(w, me, b, a) && a.Turn?
    ensures IsSpare(w, me, Apply(w, cfg, me, b, a), o) && !IsSpare(w, me, b, o) <==> LetsGo(w, me, b, a, o)
  {
    hide ReplyStep, EnvOk;
    var t := b.procs[a.i].t;
    var r := ReplyStep(w, me, t, b.locked, a.env);
    TurnFollows(w, me, t, b.locked, a.env);
    ReservationGrows(w, me, t, r.trade);
    assert ReservedOf(w, me, b.procs[a.i]) <= b.locked;
    TurnLocks(w, me, t, b.locked, a.env);
    TurnKeepsReserved(w, me, b, a.i, r, o);
    EntryMoves(w, me, b, Apply(w, cfg, me, b, a), a.i, Live(r.trade), o);
  }

  /** What a turn unlocks, if anything, was reserved by nobody. */
  lemma TurnKeepsReserved(w: World, me: Account, b: Book, i: nat, r: Outcome, o: OutPoint)
    requires WalletInv(w, me, b) && IsLive(b, i)
    requires LocksMoved(w, me, b.procs[i].t, b.locked, r.trade, r.locked)
    ensures o in b.locked && o !in r.locked ==> !IsReserved(w, me, b, o)
  {
    assert TradeOk(w, me, b.procs[i].t);
    OthersStayLocked(w, me, b, b.procs[i].t, r.locked);
  }

  lemma TakeLetsGo(w: World, cfg: Settings, me: Account, b: Book, a: Action, o: OutPoint)
    requires WalletInv(w, me, b) && Enabled(w, me, b, a) && a.TakeOrder?
    ensures IsSpare(w, me, Apply(w, cfg, me, b, a), o) && !IsSpare(w, me, b, o) <==> LetsGo(w, me, b, a, o)
  {
    hide ReplyStep, EnvOk;
    var r := ReplyStep(w, me, TakenTrade(a.order, a.units, a.now), b.locked, a.env);
    EntryComes(w, me, b, Apply(w, cfg, me, b, a), if r.reply.Throws? then [] else [Live(r.trade)], o);
  }

  /** Messages, updates and acceptances change neither locks nor reservations. */
  lemma MoveLetsGo(w: World, cfg: Settings, me: Account, b: Book, a: Action, o: OutPoint)
    requires WalletInv(w, me, b) && Enabled(w, me, b, a) && (a.OrderTaken? || a.Receive? || a.Update?)
    ensures !(IsSpare(w, me, Apply(w, cfg, me, b, a), o) && !IsSpare(w, me, b, o))
  {
    hide ReplyStep, EnvOk;
    var b' := Apply(w, cfg, me, b, a);
    if a.Receive? {
      StepFollows(w, cfg, me, b.procs[a.i].t, Event.Receive(a.msg));
      ReservationGrows(w, me, b.procs[a.i].t, b'.procs[a.i].t);
    } else if a.Update? {
      UpdateKeepsReservation(w, cfg, me, b.procs[a.i].t, a.now, a.obs);
    }
    EntryMoves(w, me, b, b', a.i, b'.procs[a.i], o);
  }

  lemma CleanLetsGo(w: World, cfg: Settings, me: Account, b: Book, a: Action, o: OutPoint)
    requires WalletInv(w, me, b) && Enabled(w, me, b, a) && (a.CleanOrder? || a.CleanWallet?)
    ensures IsSpare(w, me, Apply(w, cfg, me, b, a), o) && !IsSpare(w, me, b, o) <==> LetsGo(w, me, b, a, o)
  {
    hide ReplyStep, EnvOk, SafeTrade;
    var b' := Apply(w, cfg, me, b, a);
    assert ReservedOf(w, me, b.procs[a.i]) <= b.locked;
    if a.CleanWallet? {
      FailureReleasesOwn(w, me, b, a.i, a.failing);
      EntryEnds(w, me, b, b', a.i, Done, o);
    } else if b.procs[a.i].Succeeding? {
      EntryEnds(w, me, b, b', a.i, b'.procs[a.i], o);
    } else {
      EntryMoves(w, me, b, b', a.i, b'.procs[a.i], o);
    }
  }

  /** Exactly those steps make an output locked for nobody. */
  lemma SpareExactly(w: World, cfg: Settings, me: Account, b: Book, a: Action, o: OutPoint)
    requires WalletInv(w, me, b) && Enabled(w, me, b, a)
    ensures IsSpare(w, me, Apply(w, cfg, me, b, a), o) && !IsSpare(w, me, b, o) <==> LetsGo(w, me, b, a, o)
  {
    hide ReplyStep, EnvOk, WalletInv, IsSpare;
    match a
    case Turn(_, _) => TurnLetsGo(w, cfg, me, b, a, o);
    case TakeOrder(_, _, _, _) => TakeLetsGo(w, cfg, me, b, a, o);
    case OrderTaken(_, _) => MoveLetsGo(w, cfg, me, b, a, o);
    case Receive(_, _) => MoveLetsGo(w, cfg, me, b, a, o);
    case Update(_, _, _) => MoveLetsGo(w, cfg, me, b, a, o);
    case CleanOrder(_) => CleanLetsGo(w, cfg, me, b, a, o);
    case CleanWallet(_, _) => CleanLetsGo(w, cfg, me, b, a, o);
    case _ => QuietLetsGo(w, cfg, me, b, a, o);
  }

  /** Steps about own orders only. */
  lemma QuietLetsGo(w: World, cfg: Settings, me: Account, b: Book, a: Action, o: OutPoint)
    requires WalletInv(w, me, b) && Enabled(w, me, b, a)
    requires a.AddOrder? || a.CancelOrder? || a.Refresh? || a.TryLock? || a.Reject? || a.Recreate?
    ensures !(IsSpare(w, me, Apply(w, cfg, me, b, a), o) && !IsSpare(w, me, b, o))
  {
    hide ReplyStep, EnvOk, SafeTrade;
    var b' := Apply(w, cfg, me, b, a);
    if a.Reject? || a.Recreate? {
      EntryMoves(w, me, b, b', a.i, Done, o);
    } else if a.TryLock? {
      EntryComes(w, me, b, b', [b'.procs[|b.procs|]], o);
    } else {
      assert b'.procs == b.procs + [];
      EntryComes(w, me, b, b', [], o);
    }
  }

  // -------------------------------------------------------------------- whole runs

  /** In a run, every output that is locked for nobody was so at the start, or was let go. */
  lemma {:induction false} SpareHasCause(w: World, cfg: Settings, me: Account, states: seq<Book>, actions: seq<Action>,
                                         n: nat, o: OutPoint)
    requires IsRun(w, cfg, me, states, actions) && n < |states| && IsSpare(w, me, states[n], o)
    ensures o in states[0].locked || exists m: nat :: m < n && LetsGo(w, me, states[m], actions[m], o)
  {
    if n > 0 {
      hide IsSpare, LetsGo, Apply, Enabled;
      RunKeepsInv(w, cfg, me, states, actions, n - 1);
      if IsSpare(w, me, states[n - 1], o) {
        SpareHasCause(w, cfg, me, states, actions, n - 1, o);
      } else {
        SpareExactly(w, cfg, me, states[n - 1], actions[n - 1], o);
      }
    }
  }

  /**
   If nothing is locked at the start, then locked and reserved are the same in all
   states of a run exactly if no step of the run lets an output go.
   */
  lemma LockedIffReserved(w: World, cfg: Settings, me: Account, states: seq<Book>, actions: seq<Action>)
    requires IsRun(w, cfg, me, states, actions) && states[0].locked == {}
    ensures (forall n: nat, o :: n < |states| ==> (o in states[n].locked <==> IsReserved(w, me, states[n], o)))
      <==> (forall m: nat, o :: m < |actions| ==> !LetsGo(w, me, states[m], actions[m], o))
  {
    if m: nat, o :| m < |actions| && LetsGo(w, me, states[m], actions[m], o) {
      RunKeepsInv(w, cfg, me, states, actions, m);
      SpareExactly(w, cfg, me, states[m], actions[m], o);
      assert o in states[m + 1].locked && !IsReserved(w, me, states[m + 1], o);
    } else {
      forall n: nat, o | n < |states|
        ensures o in states[n].locked <==> IsReserved(w, me, states[n], o)
      {
        RunKeepsInv(w, cfg, me, states, actions, n);
        if IsSpare(w, me, states[n], o) {
          SpareHasCause(w, cfg, me, states, actions, n, o);
        }
      }
    }
  }

  /** No call fails after something was locked, and every unlocking works. */
  ghost predicate IsClean(w: World, me: Account, b: Book, a: Action)
    requires Enabled(w, me, b, a)
  {
    && (a.Turn? || a.TakeOrder? ==> forall o :: !LetsGo(w, me, b, a, o))
    && (a.CleanWallet? ==> a.failing !! ReservedOf(w, me, b.procs[a.i]))
  }

  /** The output was reserved by a trade that has succeeded. */
  ghost predicate WasSold(w: World, me: Account, states: seq<Book>, n: nat, o: OutPoint)
    requires n < |states|
  {
    exists m: nat, i :: m <= n && 0 <= i < |states[m].procs| && states[m].procs[i].Succeeding? && o in ReservedOf(w, me, states[m].procs[i])
  }

  /**
   In a run without failing calls, every locked output was locked at the start, is
   reserved, or belonged to a trade that succeeded.
   */
  lemma LocksAccounted(w: World, cfg: Settings, me: Account, states: seq<Book>, actions: seq<Action>, n: nat, o: OutPoint)
    requires IsRun(w, cfg, me, states, actions) && n < |states| && o in states[n].locked
    requires forall m: nat :: m < n ==> IsClean(w, me, states[m], actions[m])
    ensures o in states[0].locked || IsReserved(w, me, states[n], o) || WasSold(w, me, states, n, o)
  {
    if IsSpare(w, me, states[n], o) {
      SpareHasCause(w, cfg, me, states, actions, n, o);
      if m: nat :| m < n && LetsGo(w, me, states[m], actions[m], o) {
        assert IsClean(w, me, states[m], actions[m]);
        assert actions[m].CleanOrder? && states[m].procs[actions[m].i].Succeeding?;
      }
    }
  }
}
