/**
 The game state processor: which transactions are pending or confirmed, and a check
 that reads the two without a lock in between.
 */
module Gsp {
  /** What the processor holds: pending moves, confirmed trades and its height. */
  datatype GameState = GameState(pending: set<string>, trades: map<string, nat>, height: nat)

  datatype TradeStatus = Unknown | PendingTrade | Confirmed(confirmationHeight: nat)

  /** The status, and the height that is reported with it. */
  datatype TradeData = TradeData(status: TradeStatus, height: nat)

  function Status(pending: set<string>, trades: map<string, nat>, btxid: string): TradeStatus {
    if btxid in trades then Confirmed(trades[btxid])
    else if btxid in pending then PendingTrade
    else Unknown
  }

  /** CheckTrade: the pending moves are read first, the rest later. */
  function CheckTrade(first: GameState, second: GameState, btxid: string): TradeData {
    TradeData(Status(first.pending, second.trades, btxid), second.height)
  }

  /** The same check under a lock. */
  function AtomicCheck(s: GameState, btxid: string): TradeData {
    CheckTrade(s, s, btxid)
  }

  // ------------------------------------------------------------------------ blocks

  /** Every move of a block is a trade not seen before (a primary key). */
  predicate FreshMoves(trades: map<string, nat>, moves: seq<string>) {
    && (forall i :: 0 <= i < |moves| ==> moves[i] !in trades)
    && (forall i, j :: 0 <= i < j < |moves| ==> moves[i] != moves[j])
  }

  function Attached(trades: map<string, nat>, moves: seq<string>, height: nat): (r: map<string, nat>)
    ensures r.Keys == trades.Keys + set m | m in moves
    ensures forall m :: m in moves ==> r[m] == height
    ensures forall x :: x in trades && x !in moves ==> r[x] == trades[x]
  {
    map x | x in trades.Keys + (set m | m in moves) :: if x in moves then height else trades[x]
  }

  lemma AttachedMore(trades: map<string, nat>, moves: seq<string>, move: string, height: nat)
    ensures Attached(trades, moves + [move], height) == Attached(trades, moves, height)[move := height]
  {
  }

  class DemGame {
    var trades: map<string, nat>

    /** Inserts one row for each move of a block. */
    method UpdateState(moves: seq<string>, height: nat)
      requires FreshMoves(trades, moves)
      modifies this
      ensures trades == Attached(old(trades), moves, height)
      ensures forall x :: x in old(trades) ==> x in trades && trades[x] == old(trades)[x]
    {
      for i := 0 to |moves|
        invariant trades == Attached(old(trades), moves[..i], height)
      {
        AttachedMore(old(trades), moves[..i], moves[i], height);
        trades := trades[moves[i] := height];
        assert moves[..i + 1] == moves[..i] + [moves[i]];
      }
      assert moves[..|moves|] == moves;
    }
  }

  // ------------------------------------------------------------------------- races

  /** What other threads may do between the two reads. */
  datatype Event = AddPending(btxid: string) | ClearPending | Attach(moves: seq<string>) | Detach

  predicate CanHappen(s: GameState, e: Event) {
    && (e.Attach? ==> FreshMoves(s.trades, e.moves))
    && (e.Detach? ==> s.height > 0)
  }

  /** A detached block takes the trades that it confirmed with it. */
  function After(s: GameState, e: Event): GameState
    requires CanHappen(s, e)
  {
    match e
    case AddPending(btxid) => s.(pending := s.pending + {btxid})
    case ClearPending => s.(pending := {})
    case Attach(moves) => s.(trades := Attached(s.trades, moves, s.height + 1), height := s.height + 1)
    case Detach => s.(trades := map x | x in s.trades && s.trades[x] != s.height :: s.trades[x], height := s.height - 1)
  }

  predicate IsHistory(s: GameState, events: seq<Event>)
    decreases |events|
  {
    events == [] || (CanHappen(s, events[0]) && IsHistory(After(s, events[0]), events[1..]))
  }

  function AfterAll(s: GameState, events: seq<Event>): GameState
    requires IsHistory(s, events)
    decreases |events|
  {
    if events == [] then s else AfterAll(After(s, events[0]), events[1..])
  }

  /** Confirmed trades stay confirmed, at the height they have, if no block is detached. */
  lemma {:induction false} ConfirmedStays(s: GameState, events: seq<Event>)
    requires IsHistory(s, events) && Detach !in events
    ensures var s' := AfterAll(s, events);
      && s.height <= s'.height
      && forall x :: x in s.trades ==> x in s'.trades && s'.trades[x] == s.trades[x]
    decreases |events|
  {
    if events != [] {
      assert events[0] in events && events[0] != Detach;
      ConfirmedStays(After(s, events[0]), events[1..]);
    }
  }

  /**
   Whatever happens in between, detached blocks included: the status is that of
   neither read exactly if the trade lost its confirmation and at the same time its
   pending move came or went.
   */
  lemma StatusExact(first: GameState, second: GameState, btxid: string)
    ensures var r := CheckTrade(first, second, btxid).status;
      (r != AtomicCheck(first, btxid).status && r != AtomicCheck(second, btxid).status) <==>
        (btxid in first.trades && btxid !in second.trades && (btxid in first.pending <==> btxid !in second.pending))
  {
  }

  /**
   Without detached blocks, the status that is returned is that of an atomic check
   at the first or at the second read.
   */
  lemma StatusLinearizable(first: GameState, events: seq<Event>, btxid: string)
    requires IsHistory(first, events) && Detach !in events
    ensures var second := AfterAll(first, events);
      var r := CheckTrade(first, second, btxid).status;
      r == AtomicCheck(first, btxid).status || r == AtomicCheck(second, btxid).status
  {
    ConfirmedStays(first, events);
    StatusExact(first, AfterAll(first, events), btxid);
  }

  /** The prefixes of a history are histories. */
  lemma {:induction false} PrefixIsHistory(s: GameState, events: seq<Event>, k: nat)
    requires IsHistory(s, events) && k <= |events|
    ensures IsHistory(s, events[..k])
    decreases k
  {
    if k > 0 {
      PrefixIsHistory(After(s, events[0]), events[1..], k - 1);
      assert events[..k][1..] == events[1..][..k - 1];
    }
  }

  /** The state at some moment between the two reads. */
  function Moment(s: GameState, events: seq<Event>, k: nat): GameState
    requires IsHistory(s, events) && k <= |events|
  {
    PrefixIsHistory(s, events, k);
    AfterAll(s, events[..k])
  }

  lemma {:induction false} MomentIsBefore(s: GameState, events: seq<Event>, k: nat)
    requires IsHistory(s, events) && k <= |events|
    ensures IsHistory(Moment(s, events, k), events[k..])
    ensures AfterAll(Moment(s, events, k), events[k..]) == AfterAll(s, events)
    decreases k
  {
    if k == 0 {
      assert events[0..] == events;
    } else {
      var s1 := After(s, events[0]);
      MomentIsBefore(s1, events[1..], k - 1);
      PrefixIsHistory(s, events, k);
      assert events[..k][1..] == events[1..][..k - 1] && events[1..][k - 1..] == events[k..];
    }
  }

  /** Confirmations seen at some moment are still there at the second read. */
  lemma ConfirmedSince(s: GameState, events: seq<Event>, k: nat)
    requires IsHistory(s, events) && Detach !in events && k <= |events|
    ensures forall x :: x in Moment(s, events, k).trades ==> x in AfterAll(s, events).trades
  {
    MomentIsBefore(s, events, k);
    ConfirmedStays(Moment(s, events, k), events[k..]);
  }

  /** The k-th thing that happened was a block with the trade; it had the given height. */
  predicate IsBlockWith(s: GameState, events: seq<Event>, k: nat, btxid: string, height: nat)
    requires IsHistory(s, events) && k < |events|
  {
    events[k].Attach? && btxid in events[k].moves && height == Moment(s, events, k).height + 1
  }

  lemma {:induction false} TradesExactly(s: GameState, events: seq<Event>, btxid: string, height: nat)
    requires IsHistory(s, events) && Detach !in events
    ensures var trades := AfterAll(s, events).trades;
      (btxid in trades && trades[btxid] == height) <==>
        || (btxid in s.trades && s.trades[btxid] == height)
        || exists k: nat :: k < |events| && IsBlockWith(s, events, k, btxid, height)
    decreases |events|
  {
    if events != [] {
      var s1, rest := After(s, events[0]), events[1..];
      assert events[0] in events;
      TradesExactly(s1, rest, btxid, height);
      assert events[..0] == [] && Moment(s, events, 0) == s;
      forall k: nat | 0 < k < |events|
        ensures IsBlockWith(s, events, k, btxid, height) == IsBlockWith(s1, rest, k - 1, btxid, height)
      {
        assert events[..k][1..] == rest[..k - 1];
      }
      assert (btxid in s1.trades && s1.trades[btxid] == height) <==>
        (btxid in s.trades && s.trades[btxid] == height) || IsBlockWith(s, events, 0, btxid, height);
      if k: nat :| k < |rest| && IsBlockWith(s1, rest, k, btxid, height) {
        var n: nat := k + 1;
        assert IsBlockWith(s, events, n, btxid, height);
      }
      if k: nat :| k < |events| && IsBlockWith(s, events, k, btxid, height) {
        assert k > 0 ==> IsBlockWith(s1, rest, k - 1, btxid, height);
      }
    }
  }

  /**
   What the status says, without detached blocks and from an empty history: confirmed
   at exactly the height of the block with the trade, otherwise pending exactly if it
   was at the first read, and unknown exactly in all other cases.
   */
  lemma StatusMeaning(first: GameState, s: GameState, events: seq<Event>, btxid: string)
    requires IsHistory(s, events) && Detach !in events && s.trades == map[]
    ensures var r := CheckTrade(first, AfterAll(s, events), btxid);
      && (forall height: nat :: r.status == Confirmed(height) <==>
            exists k: nat :: k < |events| && IsBlockWith(s, events, k, btxid, height))
      && (r.status == PendingTrade <==> !r.status.Confirmed? && btxid in first.pending)
      && (r.status == Unknown <==> !r.status.Confirmed? && btxid !in first.pending)
      && r.height == AfterAll(s, events).height
  {
    forall height: nat
      ensures CheckTrade(first, AfterAll(s, events), btxid).status == Confirmed(height) <==>
        exists k: nat :: k < |events| && IsBlockWith(s, events, k, btxid, height)
    {
      TradesExactly(s, events, btxid, height);
    }
  }

  /** Some moment has the final height and the pending status of the first read. */
  ghost predicate PendingAtFinalHeight(first: GameState, events: seq<Event>, btxid: string)
    requires IsHistory(first, events)
  {
    exists k: nat :: k <= |events|
      && Moment(first, events, k).height == AfterAll(first, events).height
      && (btxid in Moment(first, events, k).pending <==> btxid in first.pending)
  }

  /**
   Without detached blocks, status and height together are the answer of an atomic
   check at some moment between the reads exactly if the trade is confirmed at the
   second read, or at some moment at which the height was already the final one it
   was as pending as at the first read.
   */
  lemma AnswerLinearizableExactly(first: GameState, events: seq<Event>, btxid: string)
    requires IsHistory(first, events) && Detach !in events
    ensures var second := AfterAll(first, events);
      (exists k: nat :: k <= |events| && CheckTrade(first, second, btxid) == AtomicCheck(Moment(first, events, k), btxid))
      <==> btxid in second.trades || PendingAtFinalHeight(first, events, btxid)
  {
    var second := AfterAll(first, events);
    var r := CheckTrade(first, second, btxid);
    assert events[..|events|] == events;
    assert Moment(first, events, |events|) == second;
    forall k: nat | k <= |events|
      ensures btxid !in second.trades ==>
        (r == AtomicCheck(Moment(first, events, k), btxid) <==>
          && Moment(first, events, k).height == second.height
          && (btxid in Moment(first, events, k).pending <==> btxid in first.pending))
    {
      ConfirmedSince(first, events, k);
    }
    if btxid in second.trades {
      assert r == AtomicCheck(Moment(first, events, |events|), btxid);
    }
  }

  /** A trade reported as pending at a height at which, at any moment, it was not. */
  lemma HeightOfAnotherBlock(btxid: string)
    ensures var first := GameState({btxid}, map[], 10);
      var events := [ClearPending, Attach([])];
      && IsHistory(first, events)
      && var second := AfterAll(first, events);
      && CheckTrade(first, second, btxid) == TradeData(PendingTrade, 11)
      && forall k: nat :: k <= |events| ==> AtomicCheck(Moment(first, events, k), btxid) != TradeData(PendingTrade, 11)
  {
    var first := GameState({btxid}, map[], 10);
    var events := [ClearPending, Attach([])];
    var s1 := After(first, ClearPending);
    var s2 := After(s1, Attach([]));
    assert events[1..] == [Attach([])] && events[1..][1..] == [];
    assert IsHistory(s2, []) && IsHistory(s1, events[1..]);
    assert events[..0] == [] && events[..1] == [ClearPending] && events[..2] == events;
    assert AfterAll(first, events[..1]) == AfterAll(s1, []) == s1 by {
      assert [ClearPending][1..] == [];
    }
    assert AfterAll(first, events) == AfterAll(s1, events[1..]) == AfterAll(s2, []) == s2;
    forall k: nat | k <= |events|
      ensures AtomicCheck(Moment(first, events, k), btxid) != TradeData(PendingTrade, 11)
    {
      assert k == 0 || k == 1 || k == 2;
    }
  }

  /**
   A trade is confirmed, its block is detached and its move is pending again: the
   answer is that it is unknown, which it never was.
   */
  lemma DetachBreaksStatus(btxid: string)
    ensures var first := GameState({}, map[btxid := 10], 10);
      var events := [Detach, AddPending(btxid)];
      && IsHistory(first, events)
      && var second := AfterAll(first, events);
      && CheckTrade(first, second, btxid).status == Unknown
      && AtomicCheck(first, btxid).status == Confirmed(10)
      && AtomicCheck(second, btxid).status == PendingTrade
  {
    var first := GameState({}, map[btxid := 10], 10);
    var events := [Detach, AddPending(btxid)];
    var s1 := After(first, Detach);
    var s2 := After(s1, AddPending(btxid));
    assert events[1..] == [AddPending(btxid)] && events[1..][1..] == [];
    assert IsHistory(s2, []) && AfterAll(s2, []) == s2;
    assert IsHistory(s1, events[1..]) && AfterAll(s1, events[1..]) == s2;
    assert btxid !in s2.trades && btxid in s2.pending;
  }
}
