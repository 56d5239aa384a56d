/**
 The buyer's check of the chain before a trade, and why it is safe: as long as the
 returned name output stays unspent, the seller can still deliver.
 */
module Chain {
  import opened Wrappers
  import opened Proto
  import opened Psbts

  const MAX_BLOCK_ANCESTORS_CHECKED: nat := 3

  /** Block headers known to the node; the genesis block has no parent. */
  type Headers = map<Hash, Option<Hash>>

  /** What the node and the game answer during one buyer check. */
  datatype ChainView = ChainView(
    isAsset: bool,
    canBuy: bool,
    nameShow: Rpc<OutPoint>,
    txOut: Rpc<Option<Hash>>,
    canSell: Option<Hash>,
    headers: Headers)

  /** Walks back from `child` over at most `n` blocks, looking for `ancestor`. */
  function IsBlockAncestor(headers: Headers, ancestor: Hash, child: Hash, n: nat): Rpc<bool>
    decreases n
  {
    if ancestor == child then Ok(true)
    else if n == 0 then Ok(false)
    else if child !in headers then Throws
    else match headers[child]
      case None => Ok(false)
      case Some(parent) => IsBlockAncestor(headers, ancestor, parent, n - 1)
  }

  /** The k-th predecessor of a block, as far as the headers tell. */
  function Predecessor(headers: Headers, block: Hash, k: nat): Option<Hash>
    decreases k
  {
    if k == 0 then Some(block)
    else if block !in headers || headers[block].None? then None
    else Predecessor(headers, headers[block].value, k - 1)
  }

  /** The walk succeeds exactly on the blocks within `n` parents of the child. */
  lemma {:induction false} IsBlockAncestorExact(headers: Headers, ancestor: Hash, child: Hash, n: nat)
    ensures IsBlockAncestor(headers, ancestor, child, n) == Ok(true)
      <==> exists k: nat :: k <= n && Predecessor(headers, child, k) == Some(ancestor)
    decreases n
  {
    if ancestor == child {
      assert Predecessor(headers, child, 0) == Some(ancestor);
    } else if n > 0 && child in headers && headers[child].Some? {
      var parent := headers[child].value;
      IsBlockAncestorExact(headers, ancestor, parent, n - 1);
      assert IsBlockAncestor(headers, ancestor, child, n) == IsBlockAncestor(headers, ancestor, parent, n - 1);
      if IsBlockAncestor(headers, ancestor, child, n) == Ok(true) {
        var k: nat :| k <= n - 1 && Predecessor(headers, parent, k) == Some(ancestor);
        var j: nat := k + 1;
        assert Predecessor(headers, parent, k) == Predecessor(headers, child, j);
        assert j <= n && Predecessor(headers, child, j) == Some(ancestor);
      } else {
        forall k: nat | k <= n
          ensures Predecessor(headers, child, k) != Some(ancestor)
        {
          if k > 0 {
            var j: nat := k - 1;
            assert j <= n - 1 && Predecessor(headers, parent, j) != Some(ancestor);
            assert Predecessor(headers, child, k) == Predecessor(headers, parent, j);
          }
        }
      }
    } else {
      assert forall k: nat :: k <= n && k > 0 ==> Predecessor(headers, child, k) == None;
    }
  }

  /** A block that the node does not know is k steps back, before the ancestor is found. */
  predicate LostAt(headers: Headers, ancestor: Hash, child: Hash, k: nat) {
    && Predecessor(headers, child, k).Some? && Predecessor(headers, child, k).value !in headers
    && forall j: nat :: j <= k ==> Predecessor(headers, child, j) != Some(ancestor)
  }

  /** The walk throws exactly if it comes to a block that the node does not know. */
  lemma {:induction false} AncestorThrowsExactly(headers: Headers, ancestor: Hash, child: Hash, n: nat)
    ensures IsBlockAncestor(headers, ancestor, child, n) == Throws
      <==> exists k: nat :: k < n && LostAt(headers, ancestor, child, k)
    decreases n
  {
    if ancestor == child {
      assert Predecessor(headers, child, 0) == Some(ancestor);
    } else if n > 0 && child !in headers {
      assert LostAt(headers, ancestor, child, 0);
    } else if n > 0 && headers[child].Some? {
      var parent := headers[child].value;
      AncestorThrowsExactly(headers, ancestor, parent, n - 1);
      forall k: nat
        ensures LostAt(headers, ancestor, child, k) <==> k > 0 && LostAt(headers, ancestor, parent, k - 1)
      {
        if k > 0 {
          LostOneBack(headers, ancestor, child, parent, k);
        }
      }
      if k: nat :| k < n - 1 && LostAt(headers, ancestor, parent, k) {
        var m: nat := k + 1;
        assert m < n && LostAt(headers, ancestor, child, m);
      }
    } else if n > 0 {
      assert forall k: nat :: k > 0 ==> Predecessor(headers, child, k) == None;
    }
  }

  lemma LostOneBack(headers: Headers, ancestor: Hash, child: Hash, parent: Hash, k: nat)
    requires k > 0 && child in headers && headers[child] == Some(parent) && child != ancestor
    ensures LostAt(headers, ancestor, child, k) <==> LostAt(headers, ancestor, parent, k - 1)
  {
    assert forall j: nat :: j > 0 ==> Predecessor(headers, child, j) == Predecessor(headers, parent, j - 1);
    if LostAt(headers, ancestor, child, k) {
      forall j: nat | j <= k - 1
        ensures Predecessor(headers, parent, j) != Some(ancestor)
      {
        var i: nat := j + 1;
        assert Predecessor(headers, child, i) != Some(ancestor);
      }
    }
  }

  /** CheckForBuyerTrade: the name output to spend, a refusal, or an exception. */
  function BuyerTradeCheck(v: ChainView): Rpc<Option<OutPoint>> {
    if !v.isAsset || !v.canBuy then Ok(None)
    else match (v.nameShow, v.txOut)
      case (Throws, _) => Throws
      case (_, Throws) => Throws
      case (_, Ok(None)) => Ok(None)
      case (Ok(nameInput), Ok(Some(utxoBlock))) =>
        if v.canSell.None? then Ok(None)
        else match IsBlockAncestor(v.headers, utxoBlock, v.canSell.value, MAX_BLOCK_ANCESTORS_CHECKED)
          case Throws => Throws
          case Ok(related) => Ok(if related then Some(nameInput) else None)
  }

  /** The utxo's block is within the checked distance below the game's block. */
  ghost predicate UtxoBlockNear(v: ChainView) {
    && v.txOut.Ok? && v.txOut.value.Some? && v.canSell.Some?
    && exists k: nat :: k <= 3 && Predecessor(v.headers, v.canSell.value, k) == Some(v.txOut.value.value)
  }

  /** The check approves exactly the current name output, under exactly these conditions. */
  lemma BuyerTradeCheckExact(v: ChainView, o: OutPoint)
    ensures BuyerTradeCheck(v) == Ok(Some(o)) <==> v.isAsset && v.canBuy && v.nameShow == Ok(o) && UtxoBlockNear(v)
  {
    if v.txOut.Ok? && v.txOut.value.Some? && v.canSell.Some? {
      var utxoBlock, gspBlock := v.txOut.value.value, v.canSell.value;
      assert v.txOut.value == Some(utxoBlock);
      IsBlockAncestorExact(v.headers, utxoBlock, gspBlock, MAX_BLOCK_ANCESTORS_CHECKED);
      var related := IsBlockAncestor(v.headers, utxoBlock, gspBlock, MAX_BLOCK_ANCESTORS_CHECKED);
      if related == Ok(true) {
        var k: nat :| k <= MAX_BLOCK_ANCESTORS_CHECKED && Predecessor(v.headers, gspBlock, k) == Some(utxoBlock);
        assert UtxoBlockNear(v);
      } else if UtxoBlockNear(v) {
        var k: nat :| k <= MAX_BLOCK_ANCESTORS_CHECKED && Predecessor(v.headers, v.canSell.value, k) == Some(v.txOut.value.value);
        assert false;
      }
    } else {
      assert !UtxoBlockNear(v);
    }
  }

  /**
   The check throws exactly if it is needed and the name or its output cannot be looked
   up, or the walk back from the game's block comes to a block that is not known.
   */
  lemma BuyerTradeCheckThrows(v: ChainView)
    ensures BuyerTradeCheck(v) == Throws <==>
      && v.isAsset && v.canBuy
      && (|| v.nameShow.Throws? || v.txOut.Throws?
          || (v.txOut.value.Some? && v.canSell.Some?
              && exists k: nat :: k < 3 && LostAt(v.headers, v.txOut.value.value, v.canSell.value, k)))
  {
    if v.txOut.Ok? && v.txOut.value.Some? && v.canSell.Some? {
      AncestorThrowsExactly(v.headers, v.txOut.value.value, v.canSell.value, MAX_BLOCK_ANCESTORS_CHECKED);
    }
  }

  // ------------------------------------------------------------- chain safety

  /**
   A block tree with the facts that hold after each block: outputs created so far,
   outputs unspent, and whether the sale in question is possible in the game.
   */
  datatype Ledger = Ledger(
    headers: Headers,
    created: (Hash, OutPoint) -> bool,
    unspent: (Hash, OutPoint) -> bool,
    sellable: Hash -> bool)

  ghost predicate IsParent(l: Ledger, parent: Hash, block: Hash) {
    block in l.headers && l.headers[block] == Some(parent)
  }

  /** An output exists once created, and a spent output stays spent. */
  ghost predicate SpendingIsFinal(l: Ledger) {
    && (forall h, o :: l.unspent(h, o) ==> l.created(h, o))
    && (forall p, b, o :: IsParent(l, p, b) && l.created(p, o) ==> l.created(b, o))
    && (forall p, b, o :: IsParent(l, p, b) && l.created(p, o) && l.unspent(b, o) ==> l.unspent(p, o))
  }

  /** The assumption on asset specifications: only a name update ends sellability. */
  ghost predicate SalesNeedMoves(w: World, l: Ledger, seller: Account) {
    forall p, b, o ::
      (&& IsParent(l, p, b)
       && w.nameOf(o) == Some(XayaName(seller))
       && l.unspent(p, o)
       && l.unspent(b, o))
      ==> l.sellable(p) == l.sellable(b)
  }

  /** The answers of one check agree with the ledger, as far as it had grown by then. */
  ghost predicate Faithful(w: World, l: Ledger, v: ChainView, seller: Account) {
    && IsPart(v.headers, l.headers)
    && (v.canSell.Some? ==> l.sellable(v.canSell.value))
    && (v.nameShow.Ok? ==>
          && w.nameOf(v.nameShow.value) == Some(XayaName(seller))
          && (v.txOut.Ok? && v.txOut.value.Some? ==> l.unspent(v.txOut.value.value, v.nameShow.value)))
  }

  predicate IsPart(headers: Headers, all: Headers) {
    forall h :: h in headers ==> h in all && all[h] == headers[h]
  }

  lemma {:induction false} PredecessorStays(headers: Headers, all: Headers, block: Hash, k: nat)
    requires IsPart(headers, all) && Predecessor(headers, block, k).Some?
    ensures Predecessor(all, block, k) == Predecessor(headers, block, k)
    decreases k
  {
    if k > 0 {
      PredecessorStays(headers, all, headers[block].value, k - 1);
    }
  }

  lemma {:induction false} CreatedPersists(l: Ledger, top: Hash, k: nat, o: OutPoint)
    requires SpendingIsFinal(l)
    requires Predecessor(l.headers, top, k).Some?
    requires l.created(Predecessor(l.headers, top, k).value, o)
    ensures l.created(top, o)
    decreases k
  {
    if k > 0 {
      var parent := l.headers[top].value;
      CreatedPersists(l, parent, k - 1, o);
      assert IsParent(l, parent, top);
    }
  }

  /** Between two blocks at which an output is unspent, it is unspent throughout. */
  lemma {:induction false} UnspentBetween(l: Ledger, top: Hash, j: nat, k: nat, o: OutPoint)
    requires SpendingIsFinal(l)
    requires j <= k && Predecessor(l.headers, top, k).Some?
    requires l.unspent(top, o) && l.unspent(Predecessor(l.headers, top, k).value, o)
    ensures Predecessor(l.headers, top, j).Some?
    ensures l.unspent(Predecessor(l.headers, top, j).value, o)
    decreases k
  {
    if j > 0 {
      var parent := l.headers[top].value;
      CreatedPersists(l, parent, k - 1, o);
      assert IsParent(l, parent, top);
      UnspentBetween(l, parent, j - 1, k - 1, o);
    }
  }

  lemma {:induction false} PredecessorCompose(headers: Headers, block: Hash, j: nat, k: nat)
    requires Predecessor(headers, block, j).Some?
    ensures Predecessor(headers, block, j + k) == Predecessor(headers, Predecessor(headers, block, j).value, k)
    decreases j
  {
    if j > 0 {
      PredecessorCompose(headers, headers[block].value, j - 1, k);
    }
  }

  /** Sellability is carried upward while the name output stays unspent. */
  lemma {:induction false} SellableUpward(w: World, l: Ledger, seller: Account, top: Hash, k: nat, o: OutPoint)
    requires SpendingIsFinal(l) && SalesNeedMoves(w, l, seller)
    requires w.nameOf(o) == Some(XayaName(seller))
    requires Predecessor(l.headers, top, k).Some? && l.sellable(Predecessor(l.headers, top, k).value)
    requires l.unspent(top, o) && l.unspent(Predecessor(l.headers, top, k).value, o)
    ensures l.sellable(top)
    decreases k
  {
    if k > 0 {
      var parent := l.headers[top].value;
      UnspentBetween(l, top, 1, k, o);
      assert Predecessor(l.headers, top, 1) == Some(parent);
      SellableUpward(w, l, seller, parent, k - 1, o);
      assert IsParent(l, parent, top);
    }
  }

  /**
   Buyer chain safety: on every chain extending the game's block on which the
   returned output is unspent, the seller can still deliver.
   */
  lemma BuyerChainSafety(w: World, l: Ledger, v: ChainView, seller: Account, top: Hash, k: nat)
    requires SpendingIsFinal(l) && SalesNeedMoves(w, l, seller) && Faithful(w, l, v, seller)
    requires BuyerTradeCheck(v).Ok? && BuyerTradeCheck(v).value.Some?
    requires Predecessor(l.headers, top, k) == v.canSell
    requires l.unspent(top, BuyerTradeCheck(v).value.value)
    ensures l.sellable(top)
  {
    var o := BuyerTradeCheck(v).value.value;
    var utxoBlock, gspBlock := v.txOut.value.value, v.canSell.value;
    IsBlockAncestorExact(v.headers, utxoBlock, gspBlock, MAX_BLOCK_ANCESTORS_CHECKED);
    var m: nat :| m <= MAX_BLOCK_ANCESTORS_CHECKED && Predecessor(v.headers, gspBlock, m) == Some(utxoBlock);
    PredecessorStays(v.headers, l.headers, gspBlock, m);
    PredecessorCompose(l.headers, top, k, m);
    UnspentBetween(l, top, k, k + m, o);
    SellableUpward(w, l, seller, top, k, o);
  }
}
