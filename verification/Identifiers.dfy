/** The identifier that two parties use for a trade, and matching by it. */
module Identifiers {
  import opened Proto

  function Digit(d: nat): char
    requires d < 10
  {
    ['0', '1', '2', '3', '4', '5', '6', '7', '8', '9'][d]
  }

  /** The decimal form in which a number is written to a stream. */
  function Decimal(n: nat): string {
    if n < 10 then [Digit(n)] else Decimal(n / 10) + [Digit(n % 10)]
  }

  function GetIdentifier(account: Account, id: nat): string {
    account + "\n" + Decimal(id)
  }

  function IdentifierOf(t: TradeState): string {
    GetIdentifier(t.order.account, t.order.id)
  }

  predicate Matches(t: TradeState, msg: Message) {
    msg.counterparty == t.counterparty && msg.identifier == IdentifierOf(t)
  }

  lemma {:induction false} DecimalHasNoNewline(n: nat)
    ensures Decimal(n) != [] && (|Decimal(n)| == 1 <==> n < 10)
    ensures forall i :: 0 <= i < |Decimal(n)| ==> Decimal(n)[i] != '\n'
  {
    if n >= 10 {
      DecimalHasNoNewline(n / 10);
    }
  }

  /** The number that a string of decimal digits denotes. */
  function Value(s: string): int {
    if s == [] then 0
    else 10 * Value(s[..|s| - 1]) + (s[|s| - 1] as int - '0' as int)
  }

  /** The decimal form consists of digits, without leading zeros, that denote the number. */
  lemma {:induction false} DecimalExact(n: nat)
    ensures Value(Decimal(n)) == n
    ensures forall i :: 0 <= i < |Decimal(n)| ==> '0' <= Decimal(n)[i] <= '9'
    ensures Decimal(n) != [] && (n > 0 ==> Decimal(n)[0] != '0')
  {
    hide Digit;
    DigitExact(n % 10);
    if n < 10 {
      assert [Digit(n)][..0] == [] && Value([]) == 0;
    } else {
      DecimalExact(n / 10);
      assert Decimal(n)[..|Decimal(n)| - 1] == Decimal(n / 10);
    }
  }

  lemma DigitExact(d: nat)
    requires d < 10
    ensures '0' <= Digit(d) <= '9' && Digit(d) as int - '0' as int == d
  {
  }

  lemma {:induction false} DecimalInjective(m: nat, n: nat)
    requires Decimal(m) == Decimal(n)
    ensures m == n
  {
    var a, b := Decimal(m), Decimal(n);
    DecimalHasNoNewline(m);
    DecimalHasNoNewline(n);
    assert a[|a| - 1] == b[|b| - 1];
    if m >= 10 {
      assert a[..|a| - 1] == Decimal(m / 10) && b[..|b| - 1] == Decimal(n / 10);
      DecimalInjective(m / 10, n / 10);
    }
  }

  /** Two parts joined by a separator that the second part avoids. */
  lemma SplitUnique(a: string, b: string, c: string, d: string)
    requires a + "\n" + b == c + "\n" + d
    requires forall i :: 0 <= i < |b| ==> b[i] != '\n'
    requires forall i :: 0 <= i < |d| ==> d[i] != '\n'
    ensures a == c && b == d
  {
    var s := a + "\n" + b;
    assert s[|a|] == '\n' && s[|c|] == '\n';
    assert forall i :: |a| < i < |s| ==> s[i] != '\n';
    assert forall i :: |c| < i < |s| ==> s[i] != '\n';
    assert s[..|a|] == a && s[..|c|] == c;
    assert s[|a| + 1..] == b && s[|c| + 1..] == d;
  }

  /** Identifiers are injective for all account strings and all numbers. */
  lemma GetIdentifierInjective(account: Account, id: nat, account': Account, id': nat)
    requires GetIdentifier(account, id) == GetIdentifier(account', id')
    ensures account == account' && id == id'
  {
    DecimalHasNoNewline(id);
    DecimalHasNoNewline(id');
    SplitUnique(account, Decimal(id), account', Decimal(id'));
    DecimalInjective(id, id');
  }

  /**
   Without self-trades, a message never matches both a trade in which we are maker
   and one in which we are taker, and two maker trades that it matches are for the
   same order of ours.
   */
  lemma DispatchUnambiguous(me: Account, t: TradeState, t': TradeState, msg: Message)
    requires Matches(t, msg) && Matches(t', msg)
    requires t.counterparty != me && t'.counterparty != me
    ensures t.order.account == t'.order.account && t.order.id == t'.order.id
    ensures RoleOf(me, t) == RoleOf(me, t')
  {
    GetIdentifierInjective(t.order.account, t.order.id, t'.order.account, t'.order.id);
  }
}
