/** The verification of trades before the buyer or the seller signs them. */
module Checker {
  import opened Wrappers
  import opened Amounts
  import opened Proto
  import opened Psbts

  /** Every name output carries 0.01 CHI. */
  const NAME_VALUE: Int64 := 1_000_000

  /** The decoded output script pays to the given address, in either form. */
  predicate MatchesAddress(script: Script, addr: string) {
    || script.addresses == Some([addr])
    || script.address == Some(addr)
  }

  /**
   One of the two forms in which the node reports a script names the address, and
   nobody else: the list has this one entry, or the single address is this one.
   */
  predicate PaysOnly(script: Script, addr: string) {
    || (script.addresses.Some? && |script.addresses.value| == 1 && addr in script.addresses.value)
    || (script.address.Some? && script.address.value == addr)
  }

  /** The address stands somewhere in the script. */
  predicate Lists(script: Script, addr: string) {
    || (script.addresses.Some? && addr in script.addresses.value)
    || (script.address.Some? && script.address.value == addr)
  }

  /** If the node gives both forms, they agree. */
  predicate IsConsistent(script: Script) {
    script.addresses.Some? && script.address.Some? ==> script.addresses.value == [script.address.value]
  }

  lemma MatchesAddressExactly(script: Script, addr: string)
    ensures MatchesAddress(script, addr) <==> PaysOnly(script, addr)
  {
    if script.addresses.Some? && |script.addresses.value| == 1 {
      assert script.addresses.value == [script.addresses.value[0]];
    }
  }

  /** A script that matches is shared with nobody. */
  lemma MatchedIsUnshared(script: Script, addr: string)
    requires MatchesAddress(script, addr) && IsConsistent(script)
    ensures forall a :: Lists(script, a) <==> a == addr
  {
    MatchesAddressExactly(script, addr);
  }

  /** How many slots differ between two lists of the same length. */
  function DiffCount(before: seq<Slot>, after: seq<Slot>): nat
    requires |before| == |after|
  {
    if before == [] then 0
    else
      var n := |before| - 1;
      DiffCount(before[..n], after[..n]) + if before[n] != after[n] then 1 else 0
  }

  /** All slots except number k are untouched. */
  predicate OnlySlotChanged(before: seq<Slot>, after: seq<Slot>, k: nat) {
    && |before| == |after|
    && forall i :: 0 <= i < |before| && i != k ==> before[i] == after[i]
  }

  /** k is the first input of the transaction that spends o. */
  predicate IsFirstSpend(tx: Tx, o: OutPoint, k: nat) {
    && k < |tx.vin|
    && tx.vin[k] == o
    && forall j :: 0 <= j < k ==> tx.vin[j] != o
  }

  /** Signing changed at most the slot of our own name output. */
  ghost predicate SellerSignatureOk(before: Psbt, after: Psbt, nameOutput: OutPoint) {
    exists k: nat :: IsFirstSpend(before.tx, nameOutput, k) && OnlySlotChanged(before.inputs, after.inputs, k)
  }

  /** The terms of a trade, as both sides check them. */
  datatype TradeChecker = TradeChecker(
    w: World,
    buyer: Account,
    seller: Account,
    asset: string,
    price: Int64,
    units: Int64)
  {
    /** What the checks rely on: positive units and a price that is an amount. */
    predicate Valid() {
      units > 0 && price >= 0
    }

    function GetNameUpdateValue(): string {
      w.transferValue(seller, buyer, asset, units)
    }

    predicate TotalFits() {
      price * units < TWO_63
    }

    /** The output is a payment to the address of at least the true total. */
    predicate IsPayment(out: TxOut, chiAddress: string) {
      && out.nameOp.None?
      && PaysOnly(out.script, chiAddress)
      && out.value >= price * units
    }

    /** The output updates the seller's name with the agreed move. */
    predicate IsNameUpdate(out: TxOut, nameAddress: string) {
      && out.nameOp == Some(NameOp("name_update", "p/" + seller, w.transferValue(seller, buyer, asset, units)))
      && PaysOnly(out.script, nameAddress)
    }

    ghost predicate PaysSeller(tx: Tx, chiAddress: string) {
      exists i :: 0 <= i < |tx.vout| && IsPayment(tx.vout[i], chiAddress)
    }

    ghost predicate UpdatesName(tx: Tx, nameAddress: string) {
      exists i :: 0 <= i < |tx.vout| && IsNameUpdate(tx.vout[i], nameAddress)
    }

    /** What the seller demands of the outputs before signing. */
    ghost predicate SellerOutputsOk(tx: Tx, nameAddress: string, chiAddress: string) {
      && TotalFits()
      && (price * units == 0 || PaysSeller(tx, chiAddress))
      && UpdatesName(tx, nameAddress)
    }

    method GetTotalSat() returns (ok: bool, total: Int64)
      requires Valid()
      ensures ok <==> TotalFits()
      ensures ok ==> total == price * units
    {
      TotalSatExact(price, units);
      assert price * units >= 0;
      total := Wrap(price * units);
      ok := TruncDiv(total, units) == price;
    }

    method CheckForSellerOutputs(psbt: Psbt, nameAddress: string, chiAddress: string) returns (ok: bool)
      requires Valid()
      ensures ok <==> SellerOutputsOk(psbt.tx, nameAddress, chiAddress)
    {
      var vout := psbt.tx.vout;
      var fits, expectedTotal := GetTotalSat();
      if !fits {
        return false;
      }
      var foundChi, foundName := expectedTotal == 0, false;
      for i := 0 to |vout|
        invariant foundChi <==> expectedTotal == 0 || exists j :: 0 <= j < i && IsPayment(vout[j], chiAddress)
        invariant foundName <==> exists j :: 0 <= j < i && IsNameUpdate(vout[j], nameAddress)
      {
        var out := vout[i];
        assert IsPayment(vout[i], chiAddress) ==> out.nameOp.None?;
        assert IsNameUpdate(vout[i], nameAddress) ==> out.nameOp.Some?;
        MatchesAddressExactly(out.script, nameAddress);
        MatchesAddressExactly(out.script, chiAddress);
        if out.nameOp.Some? {
          var nameOp := out.nameOp.value;
          if nameOp.op != "name_update" { continue; }
          if nameOp.name != XayaName(seller) { continue; }
          if nameOp.value != GetNameUpdateValue() { continue; }
          if !MatchesAddress(out.script, nameAddress) { continue; }
          foundName := true;
          continue;
        }
        if !MatchesAddress(out.script, chiAddress) { continue; }
        if out.value < expectedTotal { continue; }
        foundChi := true;
      }
      return foundChi && foundName;
    }

    method CheckForBuyerSignature(before: Psbt, after: Psbt) returns (ok: bool)
      requires before.tx == after.tx
      ensures ok <==> DiffCount(before.inputs, after.inputs) + 1 == |before.inputs|
    {
      var count := 0;
      for i := 0 to |before.inputs|
        invariant count == DiffCount(before.inputs[..i], after.inputs[..i])
      {
        if before.inputs[i] != after.inputs[i] {
          count := count + 1;
        }
        assert before.inputs[..i + 1][..i] == before.inputs[..i];
        assert after.inputs[..i + 1][..i] == after.inputs[..i];
      }
      assert before.inputs[..|before.inputs|] == before.inputs;
      assert after.inputs[..|after.inputs|] == after.inputs;
      return count + 1 == |before.inputs|;
    }

    method CheckForSellerSignature(before: Psbt, after: Psbt, nameOutput: OutPoint) returns (ok: bool)
      requires before.tx == after.tx
      ensures ok <==> SellerSignatureOk(before, after, nameOutput)
    {
      var vin := before.tx.vin;
      var inputIndex := -1;
      for i := 0 to |vin|
        invariant inputIndex == -1
        invariant forall j :: 0 <= j < i ==> vin[j] != nameOutput
      {
        if vin[i] == nameOutput {
          inputIndex := i;
          break;
        }
      }
      if inputIndex == -1 {
        return false;
      }
      for i := 0 to |before.inputs|
        invariant forall j :: 0 <= j < i && j != inputIndex ==> before.inputs[j] == after.inputs[j]
      {
        if i == inputIndex { continue; }
        if before.inputs[i] != after.inputs[i] {
          assert !OnlySlotChanged(before.inputs, after.inputs, inputIndex);
          return false;
        }
      }
      assert OnlySlotChanged(before.inputs, after.inputs, inputIndex);
      assert IsFirstSpend(before.tx, nameOutput, inputIndex);
      return true;
    }
  }

  /** If not all slots differ, one of them is untouched. */
  lemma {:induction false} SomeSlotUntouched(before: seq<Slot>, after: seq<Slot>)
    requires |before| == |after|
    ensures DiffCount(before, after) <= |before|
    ensures DiffCount(before, after) < |before| ==> exists i :: 0 <= i < |before| && before[i] == after[i]
  {
    if before != [] {
      var n := |before| - 1;
      SomeSlotUntouched(before[..n], after[..n]);
      if i :| 0 <= i < n && before[..n][i] == after[..n][i] {
        assert before[i] == after[i];
      } else {
        assert DiffCount(before[..n], after[..n]) == n;
      }
    }
  }

  // --------------------------------------------- the buyer's counting argument

  /** How many inputs of the transaction the wallet of `me` owns. */
  function OwnedCount(w: World, me: Account, vin: seq<OutPoint>): nat {
    if vin == [] then 0
    else
      var n := |vin| - 1;
      OwnedCount(w, me, vin[..n]) + if w.owner(vin[n]) == me then 1 else 0
  }

  /** Signing an unsigned PSBT changes exactly the owned slots. */
  lemma {:induction false} SignDiff(w: World, me: Account, tx: Tx, n: nat)
    requires n <= |tx.vin|
    ensures DiffCount(UnsignedPsbt(tx).inputs[..n], Sign(w, me, UnsignedPsbt(tx)).inputs[..n])
         == OwnedCount(w, me, tx.vin[..n])
  {
    if n > 0 {
      SignDiff(w, me, tx, n - 1);
      var before, after := UnsignedPsbt(tx).inputs, Sign(w, me, UnsignedPsbt(tx)).inputs;
      assert before[..n][..n - 1] == before[..n - 1];
      assert after[..n][..n - 1] == after[..n - 1];
      assert tx.vin[..n][..n - 1] == tx.vin[..n - 1];
    }
  }

  /** The owned inputs are one short of all exactly when one input is foreign. */
  lemma {:induction false} OwnedCountForeign(w: World, me: Account, vin: seq<OutPoint>)
    ensures OwnedCount(w, me, vin) <= |vin|
    ensures OwnedCount(w, me, vin) == |vin| <==> forall i :: 0 <= i < |vin| ==> w.owner(vin[i]) == me
    ensures OwnedCount(w, me, vin) + 1 == |vin| <==> exists k :: IsOnlyForeign(w, me, vin, k)
  {
    if vin != [] {
      var n := |vin| - 1;
      var init := vin[..n];
      OwnedCountForeign(w, me, init);
      if w.owner(vin[n]) == me {
        if k :| IsOnlyForeign(w, me, init, k) {
          assert IsOnlyForeign(w, me, vin, k);
        }
        if k :| IsOnlyForeign(w, me, vin, k) {
          assert IsOnlyForeign(w, me, init, k);
        }
      } else if OwnedCount(w, me, init) == n {
        assert IsOnlyForeign(w, me, vin, n);
      } else {
        assert forall i :: 0 <= i < n ==> init[i] == vin[i];
        assert forall k :: IsOnlyForeign(w, me, vin, k) ==> k == n;
      }
    }
  }

  /** k is the one input that is not ours. */
  predicate IsOnlyForeign(w: World, me: Account, vin: seq<OutPoint>, k: int) {
    && 0 <= k < |vin|
    && w.owner(vin[k]) != me
    && forall i :: 0 <= i < |vin| && i != k ==> w.owner(vin[i]) == me
  }

  /**
   The transaction spends some outputs of our wallet and one more output, in any
   order (joining PSBTs may shuffle the inputs).
   */
  ghost predicate SpendsAlso(w: World, me: Account, tx: Tx, funded: seq<OutPoint>, nameInput: OutPoint) {
    && multiset(tx.vin) == multiset(funded + [nameInput])
    && forall i :: 0 <= i < |funded| ==> w.owner(funded[i]) == me
  }

  /**
   The buyer never signs the name input: with every funded input ours, the check
   passes exactly if the seller's name output is not in our wallet; then the one
   slot left unsigned is that of the name, so signing cannot have completed.
   */
  lemma BuyerNeverSignsName(w: World, me: Account, tx: Tx, funded: seq<OutPoint>, nameInput: OutPoint)
    requires SpendsAlso(w, me, tx, funded, nameInput)
    ensures var before := UnsignedPsbt(tx);
      var after := Sign(w, me, before);
      var passes := DiffCount(before.inputs, after.inputs) + 1 == |before.inputs|;
      && (passes <==> w.owner(nameInput) != me)
      && (passes ==> !Complete(w, after))
      && (passes ==> exists k :: IsOnlyForeign(w, me, tx.vin, k) && tx.vin[k] == nameInput && after.inputs[k] == Unsigned)
  {
    var before := UnsignedPsbt(tx);
    var after := Sign(w, me, before);
    SignDiff(w, me, tx, |tx.vin|);
    assert before.inputs[..|tx.vin|] == before.inputs && after.inputs[..|tx.vin|] == after.inputs;
    assert tx.vin[..|tx.vin|] == tx.vin;
    OwnedCountForeign(w, me, tx.vin);
    assert |multiset(tx.vin)| == |tx.vin| == |funded| + 1;
    assert multiset(funded + [nameInput]) == multiset(funded) + multiset{nameInput};
    assert nameInput in multiset(tx.vin);
    var k :| 0 <= k < |tx.vin| && tx.vin[k] == nameInput;
    RestIsFunded(tx.vin, funded, nameInput, k);
    if w.owner(nameInput) != me {
      assert IsOnlyForeign(w, me, tx.vin, k);
    } else {
      assert forall i :: 0 <= i < |tx.vin| ==> w.owner(tx.vin[i]) == me;
    }
  }

  lemma RestIsFunded(vin: seq<OutPoint>, funded: seq<OutPoint>, nameInput: OutPoint, k: nat)
    requires multiset(vin) == multiset(funded + [nameInput])
    requires k < |vin| && vin[k] == nameInput
    ensures forall i :: 0 <= i < |vin| && i != k ==> vin[i] in funded
  {
    var rest := vin[..k] + vin[k + 1..];
    assert vin == vin[..k] + [vin[k]] + vin[k + 1..];
    assert multiset(rest) == multiset(vin) - multiset{nameInput};
    assert multiset(funded + [nameInput]) == multiset(funded) + multiset{nameInput};
    assert multiset(rest) == multiset(funded);
    forall i | 0 <= i < |vin| && i != k
      ensures vin[i] in funded
    {
      assert vin[i] == rest[if i < k then i else i - 1];
      assert vin[i] in multiset(rest);
    }
  }
}
