/** Taking an order for some units, and what is left of the order afterwards. */
module Orders {
  import opened Wrappers
  import opened Amounts
  import opened Proto

  /** An unset minimum reads as zero. */
  function Minimum(minUnits: Option<Uint64>): Uint64 {
    if minUnits.Some? then minUnits.value else 0
  }

  function MinUnits(o: Order): Uint64 {
    Minimum(o.minUnits)
  }

  /** All fields that a taken order must have are present. */
  predicate IsComplete(o: Order) {
    o.account.Some? && o.id.Some? && o.asset.Some? && o.orderType.Some? && o.priceSat.Some?
  }

  function TermsOf(o: Order): Terms
    requires IsComplete(o)
  {
    Terms(o.account.value, o.id.value, o.asset.value, o.minUnits, o.maxUnits, o.orderType.value, o.priceSat.value)
  }

  /** The bounds are compared as signed amounts, as the source casts them. */
  predicate AcceptsUnits(o: Order, units: Int64) {
    Wrap(MinUnits(o)) <= units <= Wrap(o.maxUnits)
  }

  function CheckOrder(o: Order, units: Int64): Option<Terms> {
    if !AcceptsUnits(o, units) || !IsComplete(o) then None else Some(TermsOf(o))
  }

  /**
   Exactly which amounts are accepted, on the unsigned fields of the schema: those
   between minimum and maximum, if both are below 2^63 or both are not. With only the
   minimum above, what is at most the maximum or at least the minimum; with only the
   maximum above, nothing. The trade gets the fields of the order.
   */
  lemma AcceptedExactly(o: Order, units: Uint64)
    ensures var min: Uint64 := if o.minUnits.Some? then o.minUnits.value else 0;
      CheckOrder(o, Wrap(units)).Some? <==>
        && o.account.Some? && o.id.Some? && o.asset.Some? && o.orderType.Some? && o.priceSat.Some?
        && (if min < TWO_63 <= o.maxUnits then false
            else if o.maxUnits < TWO_63 <= min then units <= o.maxUnits || min <= units
            else min <= units <= o.maxUnits)
    ensures CheckOrder(o, Wrap(units)).Some? ==>
      var t := CheckOrder(o, Wrap(units)).value;
      && o.account == Some(t.account) && o.id == Some(t.id)
      && o.asset == Some(t.asset) && o.orderType == Some(t.orderType) && o.priceSat == Some(t.priceSat)
      && o.minUnits == t.minUnits && o.maxUnits == t.maxUnits
    ensures ToUint64(Wrap(units)) == units
  {
    assert Wrap(units) == if units < TWO_63 then units else units - TWO_64;
  }

  /** Subtraction of unsigned fields. */
  function SubUint64(a: Uint64, b: Uint64): Uint64 {
    if a >= b then a - b else a - b + TWO_64
  }

  /** The order that HandleSuccess makes out of a fulfilled one. */
  function Reduced(order: Terms, units: Uint64): Order {
    Order(None, None, Some(order.asset), order.minUnits, SubUint64(order.maxUnits, units),
          Some(order.orderType), Some(order.priceSat), false)
  }

  predicate WorthKeeping(o: Order) {
    o.maxUnits > 0 && o.maxUnits >= MinUnits(o)
  }

  // -------------------------------------------------------------- no wrap-around

  /** An accepted amount exceeds the maximum only if it is negative and that is not. */
  lemma AcceptedFits(o: Order, units: Int64)
    requires AcceptsUnits(o, units)
    ensures ToUint64(units) <= o.maxUnits <==> !(units < 0 && o.maxUnits < TWO_63)
  {
  }

  /**
   For all 64-bit bounds: the subtraction of every accepted amount is free of
   wrap-around unless the minimum is, as a signed number, negative while the maximum
   is not. In that case the minimum itself is accepted and wraps.
   */
  lemma SubtractionExact(o: Order)
    ensures (forall units: Int64 :: AcceptsUnits(o, units) ==> ToUint64(units) <= o.maxUnits)
      <==> !(o.maxUnits < TWO_63 <= MinUnits(o))
  {
    if o.maxUnits < TWO_63 <= MinUnits(o) {
      var units := Wrap(MinUnits(o));
      assert AcceptsUnits(o, units) && ToUint64(units) > o.maxUnits;
    }
  }

  /** A concrete order, which no validation has seen, that is overfilled. */
  lemma OverfillExample()
    ensures var o := Order(Some("maker"), Some(0), Some("gold"), Some(TWO_64 - 1), 5, Some(Ask), Some(1), false);
      CheckOrder(o, -1).Some? && Reduced(CheckOrder(o, -1).value, ToUint64(-1)).maxUnits == 6
  {
  }

  /** What validation guarantees of an own order: a possible range of units. */
  predicate HasRange(o: Order) {
    0 < o.maxUnits && MinUnits(o) <= o.maxUnits
  }

  lemma AcceptedInRange(o: Order, units: Int64)
    requires MinUnits(o) <= o.maxUnits && AcceptsUnits(o, units)
    ensures MinUnits(o) <= ToUint64(units) <= o.maxUnits
  {
  }

  /**
   For a validated order, all accepted amounts are positive as signed numbers, as the
   computation of the total demands, unless the order has no minimum (then zero units
   can be taken of it) or a minimum that is negative as a signed number.
   */
  lemma AcceptedPositiveExactly(o: Order)
    requires HasRange(o) && o.minUnits != Some(0)
    ensures (forall units: Int64 :: AcceptsUnits(o, units) ==> 0 < ToUint64(units) < TWO_63)
      <==> !(o.minUnits.None? && o.maxUnits < TWO_63) && MinUnits(o) < TWO_63
  {
    if o.minUnits.None? && o.maxUnits < TWO_63 {
      assert AcceptsUnits(o, 0) && ToUint64(0) == 0;
    } else if MinUnits(o) >= TWO_63 {
      var units := Wrap(MinUnits(o));
      assert AcceptsUnits(o, units) && ToUint64(units) >= TWO_63;
    }
  }

  // -------------------------------------------------------------------- lineages

  /** The order with the identity it has while it is being taken. */
  function Identified(o: Order, account: Account, id: nat): Order {
    o.(account := Some(account), id := Some(id))
  }

  /** One successful trade against an order; ids do not matter to the units. */
  function Fill(o: Order, units: Int64): Order
    requires CheckOrder(Identified(o, "", 0), units).Some?
  {
    Reduced(TermsOf(Identified(o, "", 0)), ToUint64(units))
  }

  /** Every fill is accepted by the order then in force, which is still listed. */
  predicate IsLineage(o: Order, fills: seq<Int64>)
    decreases |fills|
  {
    fills == [] ||
    (WorthKeeping(o) && CheckOrder(Identified(o, "", 0), fills[0]).Some? && IsLineage(Fill(o, fills[0]), fills[1..]))
  }

  /** The last descendant: still listed if worth keeping, otherwise retired. */
  function Descendant(o: Order, fills: seq<Int64>): Order
    requires IsLineage(o, fills)
    decreases |fills|
  {
    if fills == [] then o else Descendant(Fill(o, fills[0]), fills[1..])
  }

  function TotalUnits(fills: seq<Int64>): nat
    decreases |fills|
  {
    if fills == [] then 0 else ToUint64(fills[0]) + TotalUnits(fills[1..])
  }

  /**
   Units are conserved along a lineage: through any number of partial fills the
   original maximum is the sum of the fills and the remainder, and every fill lies
   within the unsigned bounds then in force.
   */
  lemma {:induction false} UnitsConserved(o: Order, fills: seq<Int64>)
    requires MinUnits(o) <= o.maxUnits && IsLineage(o, fills)
    ensures o.maxUnits == TotalUnits(fills) + Descendant(o, fills).maxUnits
    ensures forall n: nat :: n < |fills| ==> FillInRange(o, fills, n)
    decreases |fills|
  {
    if fills != [] {
      var next := Fill(o, fills[0]);
      AcceptedInRange(o, fills[0]);
      assert MinUnits(next) == MinUnits(o) && next.maxUnits == o.maxUnits - ToUint64(fills[0]);
      if |fills| > 1 {
        assert WorthKeeping(next);
        UnitsConserved(next, fills[1..]);
        forall n: nat | 0 < n < |fills|
          ensures FillInRange(o, fills, n)
        {
          assert FillInRange(next, fills[1..], n - 1);
          PrefixShift(o, fills, n);
        }
      } else {
        assert fills[1..] == [];
      }
      assert fills[..0] == [];
    }
  }

  /** The n-th fill is within the bounds of the order it was made against. */
  predicate FillInRange(o: Order, fills: seq<Int64>, n: nat)
    requires IsLineage(o, fills) && n < |fills|
  {
    PrefixIsLineage(o, fills, n);
    var current := Descendant(o, fills[..n]);
    MinUnits(current) <= ToUint64(fills[n]) <= current.maxUnits
  }

  lemma {:induction false} PrefixIsLineage(o: Order, fills: seq<Int64>, n: nat)
    requires IsLineage(o, fills) && n <= |fills|
    ensures IsLineage(o, fills[..n])
    decreases n
  {
    if n > 0 {
      PrefixIsLineage(Fill(o, fills[0]), fills[1..], n - 1);
      assert fills[..n][1..] == fills[1..][..n - 1];
    }
  }

  lemma PrefixShift(o: Order, fills: seq<Int64>, n: nat)
    requires IsLineage(o, fills) && 0 < n <= |fills|
    ensures IsLineage(o, fills[..n]) && IsLineage(Fill(o, fills[0]), fills[1..][..n - 1])
    ensures Descendant(o, fills[..n]) == Descendant(Fill(o, fills[0]), fills[1..][..n - 1])
  {
    PrefixIsLineage(o, fills, n);
    assert fills[..n][1..] == fills[1..][..n - 1];
  }

  /** A remainder is dropped exactly if it is empty or below the minimum. */
  lemma RetiredRemainder(o: Order, fills: seq<Int64>)
    requires HasRange(o) && IsLineage(o, fills)
    ensures !WorthKeeping(Descendant(o, fills)) <==>
      o.maxUnits == TotalUnits(fills) || o.maxUnits - TotalUnits(fills) < MinUnits(o)
  {
    UnitsConserved(o, fills);
    SameMinimum(o, fills);
  }

  lemma {:induction false} SameMinimum(o: Order, fills: seq<Int64>)
    requires IsLineage(o, fills)
    ensures MinUnits(Descendant(o, fills)) == MinUnits(o)
    decreases |fills|
  {
    if fills != [] {
      SameMinimum(Fill(o, fills[0]), fills[1..]);
    }
  }
}
