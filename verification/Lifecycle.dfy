/**
 The periodic update of a single trade: timing out a negotiation, and following a
 released transaction until it is confirmed or double spent deeply enough.
 */
module Lifecycle {
  import opened Wrappers
  import opened Proto

  /** What the game state processor says about the transaction. */
  datatype GspAnswer = Unknown | InMempool | Confirmed(height: nat)

  /** One look at the chain: current height, game answer, and available outputs. */
  datatype Observation = Observation(curHeight: nat, gsp: GspAnswer, available: set<OutPoint>) {
    /** A confirmation is never above the current height. */
    predicate Sane() {
      gsp.Confirmed? ==> gsp.height <= curHeight
    }
  }

  /** By default 6 confirmations and 30 seconds. */
  datatype Settings = Settings(confirmations: nat, timeoutMs: nat)

  /**
   An update survives its calls: a pending trade is looked up, and an exception (which
   nobody catches) or a confirmation in the future ends the process.
   */
  predicate Survives(t: TradeState, obs: Rpc<Observation>) {
    t.state == Pending ==> obs.Ok? && obs.value.Sane()
  }

  /** What was seen; it does not matter for trades that are not looked up. */
  function Seen(obs: Rpc<Observation>): Observation {
    if obs.Ok? then obs.value else Observation(0, Unknown, {})
  }

  predicate TimedOut(cfg: Settings, t: TradeState, now: int) {
    (now - t.startTime) * 1000 > cfg.timeoutMs
  }

  /** The transaction is in a block with enough confirmations. */
  predicate DeepConfirmed(cfg: Settings, obs: Observation) {
    obs.gsp.Confirmed? && obs.gsp.height + cfg.confirmations <= obs.curHeight + 1
  }

  /** The transaction is not known, and one of its inputs is gone. */
  predicate Conflicting(tx: Tx, obs: Observation) {
    obs.gsp.Unknown? && exists i :: 0 <= i < |tx.vin| && tx.vin[i] !in obs.available
  }

  /** Trade::Update as a function of the trade, the clock and the chain. */
  function UpdateStep(cfg: Settings, t: TradeState, now: int, obs: Observation): TradeState
    requires t.state == Pending ==> t.ourPsbt.Some?
  {
    match t.state
    case Initiated => if TimedOut(cfg, t, now) then t.(state := Abandoned) else t
    case Pending =>
      if DeepConfirmed(cfg, obs) then t.(state := Success)
      else if !Conflicting(t.ourPsbt.value.tx, obs) then t.(conflictHeight := None)
      else if t.conflictHeight.None? then t.(conflictHeight := Some(obs.curHeight))
      else if t.conflictHeight.value + cfg.confirmations <= obs.curHeight + 1 then t.(state := Failed)
      else t
    case _ => t
  }

  // ------------------------------------------------------ observation histories

  /** The trade after a history of observations. */
  function Watch(cfg: Settings, t: TradeState, history: seq<Observation>): (r: TradeState)
    requires t.state == Pending && t.ourPsbt.Some?
    ensures r.ourPsbt == t.ourPsbt
  {
    if history == [] then t
    else
      var n := |history| - 1;
      UpdateStep(cfg, Watch(cfg, t, history[..n]), 0, history[n])
  }

  /** Number s starts the unbroken streak of conflicts that ends at number j. */
  predicate StreakStart(tx: Tx, history: seq<Observation>, s: nat, j: nat)
    requires j < |history|
  {
    && s <= j
    && (forall i :: s <= i <= j ==> Conflicting(tx, history[i]))
    && (s > 0 ==> !Conflicting(tx, history[s - 1]))
  }

  /** The block of the confirmation and those on top of it are enough. */
  predicate SucceedsAt(cfg: Settings, history: seq<Observation>, j: nat)
    requires j < |history|
  {
    history[j].gsp.Confirmed? && history[j].curHeight - history[j].gsp.height + 1 >= cfg.confirmations
  }

  /** At least two conflicts in a row, with enough blocks since the first one. */
  ghost predicate FailsAt(cfg: Settings, tx: Tx, history: seq<Observation>, j: nat)
    requires j < |history|
  {
    exists s: nat :: s < j && StreakStart(tx, history, s, j)
      && history[s].curHeight + cfg.confirmations <= history[j].curHeight + 1
  }

  ghost predicate SettlesAt(cfg: Settings, tx: Tx, history: seq<Observation>, j: nat)
    requires j < |history|
  {
    SucceedsAt(cfg, history, j) || FailsAt(cfg, tx, history, j)
  }

  /** Nothing before number j decides the trade. */
  ghost predicate OpenUntil(cfg: Settings, tx: Tx, history: seq<Observation>, j: nat)
    requires j <= |history|
  {
    forall i: nat :: i < j ==> !SettlesAt(cfg, tx, history, i)
  }

  /** What an undecided trade remembers: the height at the start of the streak. */
  ghost predicate Remembers(tx: Tx, history: seq<Observation>, conflictHeight: Option<nat>) {
    var n := |history|;
    if n == 0 || !Conflicting(tx, history[n - 1]) then conflictHeight == None
    else exists s: nat :: StreakStart(tx, history, s, n - 1) && conflictHeight == Some(history[s].curHeight)
  }

  lemma StreakUnique(tx: Tx, history: seq<Observation>, s: nat, s': nat, j: nat)
    requires j < |history| && StreakStart(tx, history, s, j) && StreakStart(tx, history, s', j)
    ensures s == s'
  {
  }

  lemma StreakExtends(tx: Tx, history: seq<Observation>, s: nat, j: nat)
    requires j + 1 < |history| && StreakStart(tx, history, s, j) && Conflicting(tx, history[j + 1])
    ensures StreakStart(tx, history, s, j + 1)
  {
  }

  /** The predicates about number j depend only on the history up to it. */
  lemma SettlesLocal(cfg: Settings, tx: Tx, history: seq<Observation>, n: nat)
    requires n <= |history|
    ensures forall j: nat :: j < n ==> SucceedsAt(cfg, history[..n], j) == SucceedsAt(cfg, history, j)
    ensures forall j: nat :: j < n ==> FailsAt(cfg, tx, history[..n], j) == FailsAt(cfg, tx, history, j)
    ensures forall j: nat :: j <= n ==> OpenUntil(cfg, tx, history[..n], j) == OpenUntil(cfg, tx, history, j)
  {
    forall j: nat | j < n
      ensures FailsAt(cfg, tx, history[..n], j) == FailsAt(cfg, tx, history, j)
    {
      forall s: nat | s < j
        ensures StreakStart(tx, history[..n], s, j) == StreakStart(tx, history, s, j)
      {
      }
    }
    forall j: nat | j < n
      ensures SettlesAt(cfg, tx, history[..n], j) == SettlesAt(cfg, tx, history, j)
    {
      assert SucceedsAt(cfg, history[..n], j) == SucceedsAt(cfg, history, j);
      assert FailsAt(cfg, tx, history[..n], j) == FailsAt(cfg, tx, history, j);
    }
  }

  /** The step that decides, given what an undecided trade remembers. */
  lemma DecidingStep(cfg: Settings, tx: Tx, history: seq<Observation>, n: nat, conflictHeight: Option<nat>)
    requires |history| == n + 1 && Remembers(tx, history[..n], conflictHeight)
    ensures Conflicting(tx, history[n]) && conflictHeight.Some? ==>
      && Remembers(tx, history, conflictHeight)
      && (FailsAt(cfg, tx, history, n) <==> conflictHeight.value + cfg.confirmations <= history[n].curHeight + 1)
    ensures !Conflicting(tx, history[n]) || conflictHeight.None? ==> !FailsAt(cfg, tx, history, n)
    ensures Conflicting(tx, history[n]) && conflictHeight.None? ==> Remembers(tx, history, Some(history[n].curHeight))
  {
    if Conflicting(tx, history[n]) {
      if conflictHeight.Some? {
        var prefix := history[..n];
        var s: nat :| StreakStart(tx, prefix, s, n - 1) && conflictHeight == Some(prefix[s].curHeight);
        assert StreakStart(tx, history, s, n - 1);
        StreakExtends(tx, history, s, n - 1);
        forall s': nat | StreakStart(tx, history, s', n)
          ensures s' == s
        {
          StreakUnique(tx, history, s, s', n);
        }
      } else {
        assert n == 0 || !Conflicting(tx, history[n - 1]);
        assert StreakStart(tx, history, n, n);
      }
    }
  }

  /** The first deciding observation is one of success. */
  ghost predicate SucceedsFirst(cfg: Settings, tx: Tx, history: seq<Observation>) {
    exists j: nat :: j < |history| && SucceedsAt(cfg, history, j) && OpenUntil(cfg, tx, history, j)
  }

  /** The first deciding observation is one of failure. */
  ghost predicate FailsFirst(cfg: Settings, tx: Tx, history: seq<Observation>) {
    exists j: nat :: j < |history| && FailsAt(cfg, tx, history, j) && OpenUntil(cfg, tx, history, j)
  }

  /** One more observation decides for success if nothing was decided before. */
  lemma SuccessDecides(cfg: Settings, tx: Tx, history: seq<Observation>, n: nat)
    requires |history| == n + 1
    ensures SucceedsFirst(cfg, tx, history) <==>
      SucceedsFirst(cfg, tx, history[..n]) || (OpenUntil(cfg, tx, history[..n], n) && SucceedsAt(cfg, history, n))
  {
    SettlesLocal(cfg, tx, history, n);
    hide FailsAt, SucceedsAt, OpenUntil, SettlesAt;
    var before := history[..n];
    if SucceedsFirst(cfg, tx, before) {
      var j: nat :| j < n && SucceedsAt(cfg, before, j) && OpenUntil(cfg, tx, before, j);
      assert SucceedsAt(cfg, history, j) && OpenUntil(cfg, tx, history, j);
    }
    if SucceedsFirst(cfg, tx, history) {
      var j: nat :| j <= n && SucceedsAt(cfg, history, j) && OpenUntil(cfg, tx, history, j);
      assert j < n ==> SucceedsAt(cfg, before, j) && OpenUntil(cfg, tx, before, j);
      assert j == n ==> OpenUntil(cfg, tx, before, n);
    } else {
      assert OpenUntil(cfg, tx, before, n) == OpenUntil(cfg, tx, history, n);
    }
  }

  lemma FailureDecides(cfg: Settings, tx: Tx, history: seq<Observation>, n: nat)
    requires |history| == n + 1
    ensures FailsFirst(cfg, tx, history) <==>
      FailsFirst(cfg, tx, history[..n]) || (OpenUntil(cfg, tx, history[..n], n) && FailsAt(cfg, tx, history, n))
  {
    SettlesLocal(cfg, tx, history, n);
    hide FailsAt, SucceedsAt, OpenUntil, SettlesAt;
    var before := history[..n];
    if FailsFirst(cfg, tx, before) {
      var j: nat :| j < n && FailsAt(cfg, tx, before, j) && OpenUntil(cfg, tx, before, j);
      assert FailsAt(cfg, tx, history, j) && OpenUntil(cfg, tx, history, j);
    }
    if FailsFirst(cfg, tx, history) {
      var j: nat :| j <= n && FailsAt(cfg, tx, history, j) && OpenUntil(cfg, tx, history, j);
      assert j < n ==> FailsAt(cfg, tx, before, j) && OpenUntil(cfg, tx, before, j);
      assert j == n ==> OpenUntil(cfg, tx, before, n);
    } else {
      assert OpenUntil(cfg, tx, before, n) == OpenUntil(cfg, tx, history, n);
    }
  }

  lemma StaysOpen(cfg: Settings, tx: Tx, history: seq<Observation>, n: nat)
    requires |history| == n + 1
    ensures OpenUntil(cfg, tx, history, n + 1) <==>
      OpenUntil(cfg, tx, history[..n], n) && !SucceedsAt(cfg, history, n) && !FailsAt(cfg, tx, history, n)
  {
    SettlesLocal(cfg, tx, history, n);
    hide FailsAt, SucceedsAt;
    assert OpenUntil(cfg, tx, history[..n], n) == OpenUntil(cfg, tx, history, n);
    assert OpenUntil(cfg, tx, history, n + 1) <==> OpenUntil(cfg, tx, history, n) && !SettlesAt(cfg, tx, history, n);
  }

  /**
   Confirmation depth over whole histories: the trade succeeds, fails, or stays
   pending exactly as the first deciding observation says, and while it is pending
   the stored height is that of the first of the current streak of conflicts.
   */
  lemma {:induction false} WatchExact(cfg: Settings, t: TradeState, history: seq<Observation>)
    requires t.state == Pending && t.ourPsbt.Some? && t.conflictHeight.None?
    ensures var tx := t.ourPsbt.value.tx;
      var r := Watch(cfg, t, history);
      && (r.state == Success <==> SucceedsFirst(cfg, tx, history))
      && (r.state == Failed <==> FailsFirst(cfg, tx, history))
      && (r.state == Pending <==> OpenUntil(cfg, tx, history, |history|))
      && (r.state == Pending ==> Remembers(tx, history, r.conflictHeight))
  {
    var tx := t.ourPsbt.value.tx;
    if history != [] {
      var n := |history| - 1;
      WatchExact(cfg, t, history[..n]);
      SuccessDecides(cfg, tx, history, n);
      FailureDecides(cfg, tx, history, n);
      StaysOpen(cfg, tx, history, n);
      StaysPut(cfg, t, history[..n]);
      hide SucceedsFirst, FailsFirst, FailsAt, OpenUntil;
      var before := Watch(cfg, t, history[..n]);
      if before.state == Pending {
        DecidingStep(cfg, tx, history, n, before.conflictHeight);
      }
    }
  }

  /** While a trade is watched, it is pending or decided. */
  lemma {:induction false} StaysPut(cfg: Settings, t: TradeState, history: seq<Observation>)
    requires t.state == Pending && t.ourPsbt.Some?
    ensures Watch(cfg, t, history).state in {Pending, Success, Failed}
  {
    if history != [] {
      StaysPut(cfg, t, history[..|history| - 1]);
    }
  }
}
