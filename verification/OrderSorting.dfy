/** The order in which bids and asks are listed, and sorting by it. */
module OrderSorting {
  import opened Proto

  /** Byte-wise lexicographic comparison of strings. */
  predicate StringLess(a: string, b: string) {
    b != [] && (a == [] || a[0] < b[0] || (a[0] == b[0] && StringLess(a[1..], b[1..])))
  }

  lemma {:induction false} StringLessTotal(a: string, b: string)
    ensures !(StringLess(a, b) && StringLess(b, a))
    ensures StringLess(a, b) || StringLess(b, a) || a == b
    ensures a == b ==> !StringLess(a, b)
  {
    if a != [] && b != [] && a[0] == b[0] {
      StringLessTotal(a[1..], b[1..]);
      assert a[1..] == b[1..] ==> a == [a[0]] + a[1..] == [b[0]] + b[1..] == b;
    }
  }

  lemma {:induction false} StringLessTransitive(a: string, b: string, c: string)
    requires StringLess(a, b) && StringLess(b, c)
    ensures StringLess(a, c)
  {
    if a != [] && a[0] == b[0] && b[0] == c[0] {
      StringLessTransitive(a[1..], b[1..], c[1..]);
    }
  }

  /** The strings agree up to position k, where the first one ends or is smaller. */
  predicate DecidesAt(a: string, b: string, k: nat) {
    k <= |a| && k < |b| && (forall i :: 0 <= i < k ==> a[i] == b[i]) && (k == |a| || a[k] < b[k])
  }

  /** The comparison decides at the first difference, and a prefix comes first. */
  lemma {:induction false} StringLessExact(a: string, b: string)
    ensures StringLess(a, b) <==> exists k: nat :: DecidesAt(a, b, k)
  {
    if a == [] || b == [] || a[0] != b[0] {
      assert StringLess(a, b) ==> DecidesAt(a, b, 0);
    } else {
      StringLessExact(a[1..], b[1..]);
      if k: nat :| DecidesAt(a, b, k) {
        var n: nat := k - 1;
        assert DecidesAt(a[1..], b[1..], n);
      }
      if k: nat :| DecidesAt(a[1..], b[1..], k) {
        var n: nat := k + 1;
        assert forall i :: 0 < i < n ==> a[i] == a[1..][i - 1] && b[i] == b[1..][i - 1];
        assert DecidesAt(a, b, n);
      }
    }
  }

  /** What the comparison looks at: the price, and for ties account and id. */
  datatype Key = Key(price: int, account: Account, id: int)

  function KeyOf(o: Order): Key {
    Key(if o.priceSat.Some? then o.priceSat.value else 0,
        if o.account.Some? then o.account.value else "",
        if o.id.Some? then o.id.value else 0)
  }

  predicate KeyLess(a: Key, b: Key) {
    if a.price != b.price then a.price < b.price
    else if a.account != b.account then StringLess(a.account, b.account)
    else a.id < b.id
  }

  predicate ByPriceAsc(a: Order, b: Order) {
    KeyLess(KeyOf(a), KeyOf(b))
  }

  lemma ByPriceTotal(a: Order, b: Order)
    ensures !(ByPriceAsc(a, b) && ByPriceAsc(b, a))
    ensures KeyOf(a) != KeyOf(b) ==> ByPriceAsc(a, b) || ByPriceAsc(b, a)
    ensures KeyOf(a) == KeyOf(b) ==> !ByPriceAsc(a, b)
  {
    StringLessTotal(KeyOf(a).account, KeyOf(b).account);
  }

  lemma ByPriceTransitive(a: Order, b: Order, c: Order)
    requires ByPriceAsc(a, b) && ByPriceAsc(b, c)
    ensures ByPriceAsc(a, c)
  {
    var x, y, z := KeyOf(a), KeyOf(b), KeyOf(c);
    if x.price == y.price == z.price {
      if x.account != y.account && y.account != z.account {
        StringLessTransitive(x.account, y.account, z.account);
        StringLessTotal(x.account, z.account);
      }
    }
  }

  predicate Ascending(s: seq<Order>) {
    forall i, j :: 0 <= i < j < |s| ==> ByPriceAsc(s[i], s[j])
  }

  predicate Descending(s: seq<Order>) {
    forall i, j :: 0 <= i < j < |s| ==> ByPriceAsc(s[j], s[i])
  }

  predicate DistinctKeys(s: seq<Order>) {
    forall i, j :: 0 <= i < j < |s| ==> KeyOf(s[i]) != KeyOf(s[j])
  }

  function Elements(s: seq<Order>): set<Order> {
    set o | o in s
  }

  /** The order has what it is sorted by. */
  predicate HasKey(o: Order) {
    o.priceSat.Some? && o.account.Some? && o.id.Some?
  }

  /** Sorted orders have rising prices; ties are broken by account, then by id. */
  lemma SortedByPrice(s: seq<Order>, i: nat, j: nat)
    requires Ascending(s) && i < j < |s| && HasKey(s[i]) && HasKey(s[j])
    ensures var a, b := s[i], s[j];
      && a.priceSat.value <= b.priceSat.value
      && (a.priceSat == b.priceSat ==>
            if a.account == b.account then a.id.value < b.id.value
            else exists k: nat :: DecidesAt(a.account.value, b.account.value, k))
  {
    assert ByPriceAsc(s[i], s[j]);
    StringLessExact(s[i].account.value, s[j].account.value);
  }

  // ------------------------------------------------------------------- canonicity

  lemma AscendingDistinct(s: seq<Order>)
    requires Ascending(s)
    ensures DistinctKeys(s)
  {
    forall i, j | 0 <= i < j < |s|
      ensures KeyOf(s[i]) != KeyOf(s[j])
    {
      ByPriceTotal(s[i], s[j]);
    }
  }

  lemma SameFirst(a: seq<Order>, b: seq<Order>)
    requires Ascending(a) && Ascending(b) && Elements(a) == Elements(b) && a != []
    ensures b != [] && a[0] == b[0]
  {
    assert a[0] in Elements(b);
    var k :| 0 <= k < |b| && b[k] == a[0];
    assert b[0] in Elements(a);
    var m :| 0 <= m < |a| && a[m] == b[0];
    ByPriceTotal(a[0], b[0]);
  }

  lemma TailElements(s: seq<Order>)
    requires s != [] && DistinctKeys(s)
    ensures Elements(s[1..]) == Elements(s) - {s[0]}
  {
    forall o | o in Elements(s) - {s[0]}
      ensures o in Elements(s[1..])
    {
      var i :| 0 <= i < |s| && s[i] == o;
      assert s[1..][i - 1] == o;
    }
  }

  /** There is only one way to list a set of orders in ascending order. */
  lemma {:induction false} AscendingUnique(a: seq<Order>, b: seq<Order>)
    requires Ascending(a) && Ascending(b) && Elements(a) == Elements(b)
    ensures a == b
  {
    if a == [] {
      assert forall i :: 0 <= i < |b| ==> b[i] in Elements(b);
    } else {
      SameFirst(a, b);
      AscendingDistinct(a);
      AscendingDistinct(b);
      TailElements(a);
      TailElements(b);
      AscendingUnique(a[1..], b[1..]);
      assert a == [a[0]] + a[1..] && b == [b[0]] + b[1..];
    }
  }

  function Reversed(s: seq<Order>): (r: seq<Order>)
    ensures |r| == |s| && forall i :: 0 <= i < |s| ==> r[i] == s[|s| - 1 - i]
    ensures Elements(r) == Elements(s)
  {
    var r := seq(|s|, i requires 0 <= i < |s| => s[|s| - 1 - i]);
    assert Elements(r) == Elements(s) by {
      forall o | o in Elements(s)
        ensures o in Elements(r)
      {
        var i :| 0 <= i < |s| && s[i] == o;
        assert r[|s| - 1 - i] == o;
      }
    }
    r
  }

  lemma DescendingUnique(a: seq<Order>, b: seq<Order>)
    requires Descending(a) && Descending(b) && Elements(a) == Elements(b)
    ensures a == b
  {
    AscendingUnique(Reversed(a), Reversed(b));
    assert forall i :: 0 <= i < |a| ==> a[i] == Reversed(a)[|a| - 1 - i];
    assert forall i :: 0 <= i < |b| ==> b[i] == Reversed(b)[|b| - 1 - i];
  }

  // ---------------------------------------------------------------------- sorting

  /** Sorts orders with distinct keys. */
  method Sort(s: seq<Order>) returns (r: seq<Order>)
    requires DistinctKeys(s)
    ensures Ascending(r) && Elements(r) == Elements(s) && |r| == |s|
  {
    r := [];
    for i := 0 to |s|
      invariant Ascending(r) && Elements(r) == Elements(s[..i]) && |r| == i
    {
      forall x | x in r
        ensures KeyOf(x) != KeyOf(s[i])
      {
        assert x in Elements(s[..i]);
        var j :| 0 <= j < i && s[..i][j] == x;
      }
      var r' := Insert(r, s[i]);
      assert s[..i + 1] == s[..i] + [s[i]];
      r := r';
    }
    assert s[..|s|] == s;
  }

  method Insert(s: seq<Order>, o: Order) returns (r: seq<Order>)
    requires Ascending(s) && forall x :: x in s ==> KeyOf(x) != KeyOf(o)
    ensures Ascending(r) && Elements(r) == Elements(s) + {o} && |r| == |s| + 1
  {
    var k := 0;
    while k < |s| && ByPriceAsc(s[k], o)
      invariant k <= |s| && forall j :: 0 <= j < k ==> ByPriceAsc(s[j], o)
    {
      k := k + 1;
    }
    r := s[..k] + [o] + s[k..];
    InsertedAscending(s, o, k);
    InsertedElements(s, o, k);
  }

  lemma InsertedAscending(s: seq<Order>, o: Order, k: nat)
    requires Ascending(s) && k <= |s|
    requires forall j :: 0 <= j < k ==> ByPriceAsc(s[j], o)
    requires k < |s| ==> !ByPriceAsc(s[k], o) && KeyOf(s[k]) != KeyOf(o)
    ensures Ascending(s[..k] + [o] + s[k..])
  {
    forall j | k <= j < |s|
      ensures ByPriceAsc(o, s[j])
    {
      ByPriceTotal(s[k], o);
      if k < j {
        ByPriceTransitive(o, s[k], s[j]);
      }
    }
    var r := s[..k] + [o] + s[k..];
    forall i, j | 0 <= i < j < |r|
      ensures ByPriceAsc(r[i], r[j])
    {
      assert r[i] == if i < k then s[i] else if i == k then o else s[i - 1];
      assert r[j] == if j < k then s[j] else if j == k then o else s[j - 1];
    }
  }

  lemma InsertedElements(s: seq<Order>, o: Order, k: nat)
    requires k <= |s|
    ensures Elements(s[..k] + [o] + s[k..]) == Elements(s) + {o}
  {
    var r := s[..k] + [o] + s[k..];
    forall x | x in Elements(s) + {o}
      ensures x in Elements(r)
    {
      if x == o {
        assert r[k] == o;
      } else {
        var j :| 0 <= j < |s| && s[j] == x;
        assert r[if j < k then j else j + 1] == x;
      }
    }
  }
}
