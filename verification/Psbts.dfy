/**
 The wallet behind the RPC interface: who can sign which input, and the Signer,
 Combiner and Input Finalizer roles of BIP 174 on abstract signature slots.
 */
module Psbts {
  import opened Wrappers
  import opened Proto

  /**
   The facts that do not change during a run: the wallet that holds the key of an
   output, the name an output carries (if any), the move that transfers an asset
   from a seller to a buyer, the script that pays to an address, and the wallet that
   the address is from.
   */
  datatype World = World(
    owner: OutPoint -> Account,
    nameOf: OutPoint -> Option<string>,
    transferValue: (Account, Account, string, int) -> string,
    scriptOf: string -> Script,
    holder: string -> Account)

  function XayaName(account: Account): (r: string)
    ensures |r| >= 2 && r[2..] == account
  {
    "p/" + account
  }

  function UnsignedPsbt(tx: Tx): Psbt {
    PsbtOf(tx, seq(|tx.vin|, i => Unsigned))
  }

  /** Signer: the wallet of `me` fills the slots of exactly the inputs it owns. */
  function Sign(w: World, me: Account, p: Psbt): (r: Psbt)
    ensures r.tx == p.tx
  {
    PsbtOf(p.tx, seq(|p.inputs|, i requires 0 <= i < |p.inputs| =>
      if w.owner(p.tx.vin[i]) == me then Sig(me) else p.inputs[i]))
  }

  /** Input Finalizer: every input is signed by the wallet that owns it. */
  predicate Complete(w: World, p: Psbt) {
    forall i :: 0 <= i < |p.inputs| ==> p.inputs[i] == Sig(w.owner(p.tx.vin[i]))
  }

  /** Combiner: the second PSBT's signatures are added to the first. */
  function Combine(p: Psbt, q: Psbt): (r: Psbt)
    requires p.tx == q.tx
    ensures r.tx == p.tx
  {
    PsbtOf(p.tx, seq(|p.inputs|, i requires 0 <= i < |p.inputs| =>
      if q.inputs[i].Sig? then q.inputs[i] else p.inputs[i]))
  }

  /** The PSBT has a signature of the given wallet in some slot. */
  predicate SignedBy(p: Psbt, who: Account) {
    Sig(who) in p.inputs
  }

  function OutPointsOf(tx: Tx): set<OutPoint> {
    set o | o in tx.vin
  }

  /** The locks after unlocking some outputs, for some of which the call fails. */
  function AfterUnlock(locked: set<OutPoint>, outputs: set<OutPoint>, failing: set<OutPoint>): set<OutPoint> {
    locked - (outputs - failing)
  }
}
