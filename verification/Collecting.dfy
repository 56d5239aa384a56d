/** The results of a function over a list, one after another. */
module Collecting {

  function Collect<T, U>(f: T -> seq<U>, xs: seq<T>): seq<U> {
    if xs == [] then []
    else
      var n := |xs| - 1;
      Collect(f, xs[..n]) + f(xs[n])
  }

  lemma {:induction false} CollectConcat<T, U>(f: T -> seq<U>, a: seq<T>, b: seq<T>)
    ensures Collect(f, a + b) == Collect(f, a) + Collect(f, b)
  {
    if b == [] {
      assert a + b == a;
    } else {
      var n := |b| - 1;
      CollectConcat(f, a, b[..n]);
      assert (a + b)[..|a + b| - 1] == a + b[..n];
    }
  }

  lemma CollectSplit<T, U>(f: T -> seq<U>, xs: seq<T>, i: nat)
    requires i < |xs|
    ensures Collect(f, xs) == Collect(f, xs[..i]) + f(xs[i]) + Collect(f, xs[i + 1..])
  {
    assert xs == xs[..i] + xs[i..] && xs[i..] == [xs[i]] + xs[i + 1..];
    CollectSingle(f, xs[i]);
    hide Collect;
    CollectConcat(f, xs[..i], xs[i..]);
    CollectConcat(f, [xs[i]], xs[i + 1..]);
  }

  lemma CollectSingle<T, U>(f: T -> seq<U>, x: T)
    ensures Collect(f, [x]) == f(x)
  {
    assert [x][..0] == [];
  }

  /** Replacing an element replaces what it contributes. */
  lemma CollectUpdate<T, U>(f: T -> seq<U>, xs: seq<T>, i: nat, x: T)
    requires i < |xs|
    ensures Collect(f, xs[i := x]) == Collect(f, xs[..i]) + f(x) + Collect(f, xs[i + 1..])
  {
    CollectSplit(f, xs[i := x], i);
    assert xs[i := x][..i] == xs[..i] && xs[i := x][i + 1..] == xs[i + 1..];
  }

  lemma CollectAppend<T, U>(f: T -> seq<U>, xs: seq<T>, x: T)
    ensures Collect(f, xs + [x]) == Collect(f, xs) + f(x)
  {
    assert (xs + [x])[..|xs|] == xs;
  }

  lemma CollectLast<T, U>(f: T -> seq<U>, xs: seq<T>)
    ensures xs == [] ==> Collect(f, xs) == []
    ensures xs != [] ==> Collect(f, xs) == Collect(f, xs[..|xs| - 1]) + f(xs[|xs| - 1])
  {
  }

  /** The element that contributes the k-th result, with what comes before and after. */
  lemma {:induction false} Position<T(!new), U>(f: T -> seq<U>, xs: seq<T>, k: nat) returns (i: nat)
    requires forall x :: |f(x)| <= 1
    requires k < |Collect(f, xs)|
    ensures i < |xs| && f(xs[i]) == [Collect(f, xs)[k]]
    ensures Collect(f, xs[..i]) == Collect(f, xs)[..k]
    ensures Collect(f, xs[i + 1..]) == Collect(f, xs)[k + 1..]
    decreases |xs|
  {
    hide Collect;
    CollectLast(f, xs);
    var n := |xs| - 1;
    var init, last := xs[..n], xs[n];
    if k < |Collect(f, init)| {
      i := Position(f, init, k);
      assert init[..i] == xs[..i];
      assert xs[i + 1..] == init[i + 1..] + [last];
      CollectAppend(f, init[i + 1..], last);
    } else {
      i := n;
      assert xs[n + 1..] == [];
      CollectLast(f, []);
    }
  }
}
