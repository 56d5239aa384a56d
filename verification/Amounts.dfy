/**
 Machine integers: 64-bit amounts, their wrap-around, and the two places where
 the source relies on them (the total price and the units of a taken order).
 */
module Amounts {

  const TWO_63: int := 0x8000_0000_0000_0000
  const TWO_64: int := 0x1_0000_0000_0000_0000

  type Uint64 = x: int | 0 <= x < TWO_64
  type Int64 = x: int | -TWO_63 <= x < TWO_63

  /** Reinterprets any integer as a signed 64-bit number (two's complement). */
  function Wrap(x: int): (r: Int64)
    ensures exists k: int :: r == x - k * TWO_64
    ensures -TWO_63 <= x < TWO_63 ==> r == x
  {
    var m := x % TWO_64;
    var r := if m < TWO_63 then m else m - TWO_64;
    assert r == x - (if m < TWO_63 then x / TWO_64 else x / TWO_64 + 1) * TWO_64;
    r
  }

  /** The conversion from a signed amount back to an unsigned field. */
  function ToUint64(x: Int64): (r: Uint64)
    ensures Wrap(r) == x
  {
    if x >= 0 then x else x + TWO_64
  }

  /** C++ division of integers: truncation toward zero. */
  function TruncDiv(a: int, b: int): int
    requires b > 0
  {
    if a >= 0 then a / b else -((-a) / b)
  }

  lemma TruncDivBound(a: int, b: int)
    requires b > 0
    ensures -b < a - TruncDiv(a, b) * b < b
  {
  }

  lemma TruncDivExact(q: int, b: int)
    requires b > 0
    ensures TruncDiv(q * b, b) == q
  {
    if q >= 0 {
      ExactQuotient(q, b);
    } else {
      ExactQuotient(-q, b);
      assert -(q * b) == (-q) * b;
      assert q * b < 0;
    }
  }

  lemma ExactQuotient(q: nat, b: int)
    requires b > 0
    ensures q * b >= 0 && (q * b) / b == q
  {
    MulAtLeast(q, b);
    var d := (q * b) / b;
    assert q * b == b * d + (q * b) % b;
    if d < q {
      assert (q - d) * b == q * b - b * d;
      MulAtLeast(q - d, b);
    } else if d > q {
      assert (d - q) * b == b * d - q * b;
      MulAtLeast(d - q, b);
    }
  }

  lemma MulAtLeast(m: nat, b: int)
    requires b > 0
    ensures m * b >= m && (m > 0 ==> m * b >= b)
  {
  }

  /** A wrapped value close to the unwrapped one is the unwrapped one. */
  lemma WrapClose(x: int)
    requires -TWO_63 < Wrap(x) - x < TWO_63
    ensures Wrap(x) == x
  {
    var k: int :| Wrap(x) == x - k * TWO_64;
    assert k == 0;
  }

  /** The computation of GetTotalSat: a total, or the detected overflow. */
  function TotalSat(price: Int64, units: Int64): (r: (bool, Int64))
    requires units > 0
  {
    var total := Wrap(price * units);
    (TruncDiv(total, units) == price, total)
  }

  /**
   The division test accepts exactly the products that fit into 64 bits, and an
   accepted total is the true product.
   */
  lemma TotalSatExact(price: Int64, units: Int64)
    requires units > 0
    ensures TotalSat(price, units).0 <==> -TWO_63 <= price * units < TWO_63
    ensures TotalSat(price, units).0 ==> TotalSat(price, units).1 == price * units
  {
    var total := Wrap(price * units);
    if TruncDiv(total, units) == price {
      TruncDivBound(total, units);
      WrapClose(price * units);
    }
    if -TWO_63 <= price * units < TWO_63 {
      TruncDivExact(price, units);
    }
  }
}
