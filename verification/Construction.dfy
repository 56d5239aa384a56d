/**
 Building a trade's transaction: what the buyer asks the node for, and what the node
 promises about its answers.
 */
module Construction {
  import opened Wrappers
  import opened Amounts
  import opened Proto
  import opened Psbts
  import opened Checker

  /** An output that createpsbt or walletcreatefundedpsbt makes for an address. */
  function Payment(w: World, address: string, amount: Int64): TxOut {
    TxOut(amount, w.scriptOf(address), None)
  }

  /** createpsbt: the given inputs and outputs, nothing else. */
  function CreatePsbt(inputs: seq<OutPoint>, outputs: seq<TxOut>): Tx {
    Tx(inputs, outputs)
  }

  /** namepsbt: turns one output into a name operation. */
  function NamePsbt(tx: Tx, n: nat, op: NameOp): Tx
    requires n < |tx.vout|
  {
    tx.(vout := tx.vout[n := tx.vout[n].(nameOp := Some(op))])
  }

  /** The node reports one address for the script, in at least one of the two forms. */
  predicate IsScriptOf(script: Script, address: string) {
    && (script.addresses.Some? || script.address.Some?)
    && (script.addresses.Some? ==> script.addresses.value == [address])
    && (script.address.Some? ==> script.address.value == address)
  }

  ghost predicate ScriptsMatch(w: World) {
    forall a :: IsScriptOf(w.scriptOf(a), a)
  }

  /** A plain output to nobody but the wallet of `me`. */
  ghost predicate ReturnsTo(w: World, me: Account, out: TxOut) {
    out.nameOp.None? && forall a :: Lists(out.script, a) ==> w.holder(a) == me
  }

  /**
   walletcreatefundedpsbt: spends unlocked, nameless outputs of ours, keeps the
   outputs it was asked for, and adds at most outputs to ourselves (the change).
   */
  ghost predicate FundedOk(w: World, me: Account, locked: set<OutPoint>, requested: seq<TxOut>, funded: Tx) {
    && (forall o :: o in funded.vin ==> w.owner(o) == me && w.nameOf(o).None? && o !in locked)
    && (forall out :: out in requested ==> out in funded.vout)
    && (forall out :: out in funded.vout ==> out in requested || ReturnsTo(w, me, out))
  }

  /** joinpsbts keeps all inputs and outputs of its parts, in any order. */
  ghost predicate JoinedOk(a: Tx, b: Tx, joined: Tx) {
    && multiset(joined.vin) == multiset(a.vin + b.vin)
    && multiset(joined.vout) == multiset(a.vout + b.vout)
  }

  /** What comes out of joining was in one of the parts, and the other way round. */
  lemma JoinedElements<T>(joined: seq<T>, a: seq<T>, b: seq<T>)
    requires multiset(joined) == multiset(a + b)
    ensures forall x :: x in joined <==> x in a || x in b
  {
    forall x
      ensures x in joined <==> x in a || x in b
    {
      assert x in joined <==> x in multiset(joined);
      assert x in multiset(a + b) <==> x in a + b;
    }
  }
}
