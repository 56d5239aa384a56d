/** The encoding of account names in XMPP user names, and the accounts known by it. */
module Authentication {

  type Byte = x: int | 0 <= x < 256

  type Bytes = seq<Byte>

  predicate IsSimpleChar(c: Byte) {
    ('0' as int <= c <= '9' as int) || ('a' as int <= c <= 'z' as int)
  }

  /** The value of a lower-case hexadecimal digit, or -1. */
  function HexCharValue(c: Byte): (v: int)
    ensures -1 <= v < 16
  {
    if '0' as int <= c <= '9' as int then c - '0' as int
    else if 'a' as int <= c <= 'f' as int then 10 + c - 'a' as int
    else -1
  }

  /** "x-" */
  const ENCODED_PREFIX: Bytes := ['x' as int, '-' as int]

  predicate AllSimple(b: Bytes) {
    forall i :: 0 <= i < |b| ==> IsSimpleChar(b[i])
  }

  // ------------------------------------------------------------------ the encoder

  function HexDigit(v: int): (c: Byte)
    requires 0 <= v < 16
    ensures HexCharValue(c) == v
  {
    if v < 10 then '0' as int + v else 'a' as int + v - 10
  }

  function HexEncode(b: Bytes): (r: Bytes)
    ensures |r| == 2 * |b|
  {
    if b == [] then []
    else
      var n := |b| - 1;
      HexEncode(b[..n]) + [HexDigit(b[n] / 16), HexDigit(b[n] % 16)]
  }

  /** The digits of a byte are its two halves. */
  lemma {:induction false} HexDigitsAt(b: Bytes, i: nat)
    requires i < |b|
    ensures HexEncode(b)[2 * i] == HexDigit(b[i] / 16) && HexEncode(b)[2 * i + 1] == HexDigit(b[i] % 16)
  {
    var n := |b| - 1;
    if i < n {
      HexDigitsAt(b[..n], i);
      assert HexEncode(b)[..2 * n] == HexEncode(b[..n]);
    }
  }

  /** Simple names stand for themselves; all others are hexadecimal with a prefix. */
  function Encode(b: Bytes): Bytes {
    if b != [] && AllSimple(b) then b else ENCODED_PREFIX + HexEncode(b)
  }

  lemma HexDigitOf(c: Byte)
    requires HexCharValue(c) >= 0
    ensures HexDigit(HexCharValue(c)) == c
  {
  }

  lemma {:induction false} HexEncodeInjective(a: Bytes, b: Bytes)
    requires HexEncode(a) == HexEncode(b)
    ensures a == b
  {
    if a == [] {
      assert |HexEncode(b)| == 0;
    } else {
      var n := |a| - 1;
      var x, y := HexEncode(a), HexEncode(b);
      assert |b| == |a|;
      assert x[..2 * n] == HexEncode(a[..n]) && y[..2 * n] == HexEncode(b[..n]);
      HexEncodeInjective(a[..n], b[..n]);
      assert HexCharValue(x[2 * n]) == a[n] / 16 && HexCharValue(y[2 * n]) == b[n] / 16;
      assert HexCharValue(x[2 * n + 1]) == a[n] % 16 && HexCharValue(y[2 * n + 1]) == b[n] % 16;
      assert a[n] == b[n];
      assert a == a[..n] + [a[n]] && b == b[..n] + [b[n]];
    }
  }

  lemma {:induction false} HexEncodeDigits(b: Bytes, i: nat)
    requires i < 2 * |b|
    ensures HexCharValue(HexEncode(b)[i]) >= 0
  {
    var n := |b| - 1;
    if i < 2 * n {
      HexEncodeDigits(b[..n], i);
      assert HexEncode(b)[i] == HexEncode(b[..n])[i];
    }
  }

  /** A name with the prefix can only come from the hexadecimal form. */
  lemma PrefixedIsHex(b: Bytes)
    requires ENCODED_PREFIX <= Encode(b)
    ensures !(b != [] && AllSimple(b)) && Encode(b)[2..] == HexEncode(b)
  {
    assert Encode(b)[1] == '-' as int;
    assert (ENCODED_PREFIX + HexEncode(b))[2..] == HexEncode(b);
  }

  lemma UnprefixedIsSimple(b: Bytes)
    requires !(ENCODED_PREFIX <= Encode(b))
    ensures b != [] && AllSimple(b) && Encode(b) == b
  {
  }

  /** No two accounts have the same encoding. */
  lemma EncodeInjective(a: Bytes, b: Bytes)
    requires Encode(a) == Encode(b)
    ensures a == b
  {
    if ENCODED_PREFIX <= Encode(a) {
      PrefixedIsHex(a);
      PrefixedIsHex(b);
      HexEncodeInjective(a, b);
    } else {
      UnprefixedIsSimple(a);
      UnprefixedIsSimple(b);
    }
  }

  lemma DigitExactly(c: Byte)
    ensures '0' as int <= c <= '9' as int <==> c as char in "0123456789"
  {
    if '0' as int <= c <= '9' as int {
      assert "0123456789"[c - '0' as int] == c as char;
    }
  }

  lemma LetterExactly(c: Byte)
    ensures 'a' as int <= c <= 'm' as int <==> c as char in "abcdefghijklm"
    ensures 'n' as int <= c <= 'z' as int <==> c as char in "nopqrstuvwxyz"
  {
    if 'a' as int <= c <= 'm' as int {
      assert "abcdefghijklm"[c - 'a' as int] == c as char;
    }
    if 'n' as int <= c <= 'z' as int {
      assert "nopqrstuvwxyz"[c - 'n' as int] == c as char;
    }
  }

  /** The characters that are not encoded. */
  const SIMPLE_CHARS: string := "0123456789" + "abcdefghijklm" + "nopqrstuvwxyz"

  lemma SimpleExactly(c: Byte)
    ensures IsSimpleChar(c) <==> c as char in SIMPLE_CHARS
  {
    DigitExactly(c);
    LetterExactly(c);
  }

  lemma HexDigitExactly(v: int)
    requires 0 <= v < 16
    ensures HexDigit(v) == "0123456789abcdef"[v] as int
  {
  }

  /** The encoding by its characters: a non-empty word of digits and letters stays. */
  lemma SimpleStays(b: Bytes)
    requires b != []
    requires forall i :: 0 <= i < |b| ==> b[i] as char in SIMPLE_CHARS
    ensures Encode(b) == b
  {
    hide IsSimpleChar;
    forall i | 0 <= i < |b|
      ensures IsSimpleChar(b[i])
    {
      SimpleExactly(b[i]);
    }
  }

  /** Any other name, and the empty one, gets "x-", and two digits for each byte, the higher half first. */
  lemma OthersAreHex(b: Bytes, i: nat)
    requires b != [] ==> i < |b| && b[i] as char !in SIMPLE_CHARS
    ensures |Encode(b)| == 2 + 2 * |b| && Encode(b)[0] as char == 'x' && Encode(b)[1] as char == '-'
    ensures forall k :: 0 <= k < |b| ==>
      && Encode(b)[2 + 2 * k] == "0123456789abcdef"[b[k] / 16] as int
      && Encode(b)[3 + 2 * k] == "0123456789abcdef"[b[k] % 16] as int
  {
    if b != [] {
      SimpleExactly(b[i]);
      assert !AllSimple(b);
    }
    hide IsSimpleChar, HexEncode, HexDigit;
    forall k | 0 <= k < |b|
      ensures Encode(b)[2 + 2 * k] == "0123456789abcdef"[b[k] / 16] as int
      ensures Encode(b)[3 + 2 * k] == "0123456789abcdef"[b[k] % 16] as int
    {
      HexDigitsAt(b, k);
      HexDigitExactly(b[k] / 16);
      HexDigitExactly(b[k] % 16);
    }
  }

  // ------------------------------------------------------------------ the decoder

  /** The digits read so far: whole bytes in `out`, and maybe half of the next. */
  predicate HexRead(digits: Bytes, out: Bytes, cur: Byte, inByte: bool) {
    && |digits| == 2 * |out| + (if inByte then 1 else 0)
    && digits[..2 * |out|] == HexEncode(out)
    && (if inByte then HexCharValue(digits[|digits| - 1]) >= 0 && cur == 16 * HexCharValue(digits[|digits| - 1]) else cur == 0)
  }

  lemma HighDigit(digits: Bytes, out: Bytes, c: Byte)
    requires HexRead(digits, out, 0, false) && HexCharValue(c) >= 0
    ensures HexRead(digits + [c], out, 16 * HexCharValue(c), true)
  {
    assert (digits + [c])[..2 * |out|] == digits[..2 * |out|];
  }

  lemma LowDigit(digits: Bytes, out: Bytes, cur: Byte, c: Byte)
    requires HexRead(digits, out, cur, true) && HexCharValue(c) >= 0
    ensures cur + HexCharValue(c) < 256
    ensures HexRead(digits + [c], out + [cur + HexCharValue(c)], 0, false)
  {
    var high, byte := digits[|digits| - 1], cur + HexCharValue(c);
    HexDigitOf(high);
    HexDigitOf(c);
    assert byte / 16 == HexCharValue(high) && byte % 16 == HexCharValue(c);
    assert (out + [byte])[..|out|] == out;
    assert digits == digits[..2 * |out|] + [high];
    assert HexEncode(out + [byte]) == digits + [c];
  }

  /** Decodes the digits after the prefix; says whether a byte is not simple. */
  method DecodeHexPart(hexPart: Bytes) returns (ok: bool, out: Bytes, foundNonSimple: bool)
    requires |hexPart| % 2 == 0
    ensures ok ==> HexEncode(out) == hexPart && (foundNonSimple <==> !AllSimple(out))
    ensures !ok ==> exists i: nat :: i < |hexPart| && HexCharValue(hexPart[i]) == -1
  {
    out, foundNonSimple := [], false;
    var cur: Byte, inByte := 0, false;
    for i := 0 to |hexPart|
      invariant HexRead(hexPart[..i], out, cur, inByte)
      invariant foundNonSimple <==> !AllSimple(out)
    {
      var val := HexCharValue(hexPart[i]);
      assert hexPart[..i + 1] == hexPart[..i] + [hexPart[i]];
      if val == -1 {
        return false, [], false;
      }
      if inByte {
        LowDigit(hexPart[..i], out, cur, hexPart[i]);
        var decodedChar: Byte := cur + val;
        if !IsSimpleChar(decodedChar) {
          foundNonSimple := true;
        }
        out := out + [decodedChar];
        cur := 0;
        inByte := false;
      } else {
        HighDigit(hexPart[..i], out, hexPart[i]);
        cur := 16 * val;
        inByte := true;
      }
    }
    assert hexPart[..|hexPart|] == hexPart;
    assert hexPart[..2 * |out|] == hexPart;
    return true, out, foundNonSimple;
  }

  /**
   Decodes an XMPP name. It accepts exactly the encodings of accounts, and the result
   is the account whose encoding the name is.
   */
  method DecodeName(name: Bytes) returns (ok: bool, decoded: Bytes)
    ensures ok ==> Encode(decoded) == name
    ensures !ok ==> forall b: Bytes :: Encode(b) != name
  {
    if name == [] {
      return false, [];
    }
    if !(ENCODED_PREFIX <= name) {
      for i := 0 to |name|
        invariant AllSimple(name[..i])
      {
        if !IsSimpleChar(name[i]) {
          NotSimple(name, i);
          return false, [];
        }
      }
      return true, name;
    }
    var hexPart := name[|ENCODED_PREFIX|..];
    assert name == ENCODED_PREFIX + hexPart;
    if |hexPart| % 2 != 0 {
      NoEncoding(name, hexPart);
      return false, [];
    }
    if hexPart == [] {
      return true, [];
    }
    var valid, out, foundNonSimple := DecodeHexPart(hexPart);
    if !valid {
      var i: nat :| i < |hexPart| && HexCharValue(hexPart[i]) == -1;
      BadDigit(name, hexPart, i);
      return false, [];
    }
    if !foundNonSimple {
      NeedlesslyHex(name, hexPart, out);
      return false, [];
    }
    return true, out;
  }

  lemma NotSimple(name: Bytes, i: nat)
    requires !(ENCODED_PREFIX <= name) && i < |name| && !IsSimpleChar(name[i])
    ensures forall b: Bytes :: Encode(b) != name
  {
    forall b: Bytes ensures Encode(b) != name {
      if Encode(b) == name {
        UnprefixedIsSimple(b);
      }
    }
  }

  lemma NeedlesslyHex(name: Bytes, hexPart: Bytes, out: Bytes)
    requires name == ENCODED_PREFIX + hexPart && HexEncode(out) == hexPart
    requires out != [] && AllSimple(out)
    ensures forall b: Bytes :: Encode(b) != name
  {
    assert name[2..] == hexPart;
    forall b: Bytes ensures Encode(b) != name {
      if Encode(b) == name {
        PrefixedIsHex(b);
        HexEncodeInjective(b, out);
      }
    }
  }

  lemma NoEncoding(name: Bytes, hexPart: Bytes)
    requires name == ENCODED_PREFIX + hexPart && |hexPart| % 2 != 0
    ensures forall b: Bytes :: Encode(b) != name
  {
    assert name[2..] == hexPart;
    forall b: Bytes ensures Encode(b) != name {
      if Encode(b) == name {
        PrefixedIsHex(b);
      }
    }
  }

  lemma BadDigit(name: Bytes, hexPart: Bytes, i: nat)
    requires name == ENCODED_PREFIX + hexPart && i < |hexPart| && HexCharValue(hexPart[i]) == -1
    ensures forall b: Bytes :: Encode(b) != name
  {
    assert name[2..] == hexPart;
    forall b: Bytes ensures Encode(b) != name {
      if Encode(b) == name {
        PrefixedIsHex(b);
        HexEncodeDigits(b, i);
      }
    }
  }

  /** A decoder with the contract of DecodeName inverts the encoder, both ways. */
  lemma DecodingIsBijective(name: Bytes, b: Bytes, ok: bool, decoded: Bytes)
    requires ok ==> Encode(decoded) == name
    requires !ok ==> forall c: Bytes :: Encode(c) != name
    ensures name == Encode(b) <==> ok && decoded == b
  {
    if name == Encode(b) {
      EncodeInjective(decoded, b);
    }
  }

  // ---------------------------------------------------------------- known accounts

  datatype Jid = Jid(username: Bytes, server: string, resource: string)

  class Authenticator {
    const xidServers: set<string>
    var knownJids: map<Bytes, Jid>

    /** Each account is known by a JID of a trusted server that encodes its name. */
    predicate Valid()
      reads this
    {
      forall a :: a in knownJids ==> knownJids[a].server in xidServers && knownJids[a].username == Encode(a)
    }

    constructor (servers: set<string>)
      ensures Valid() && xidServers == servers && knownJids == map[]
    {
      xidServers := servers;
      knownJids := map[];
    }

    /** Accepts exactly the encodings of accounts on trusted servers. */
    method Authenticate(jid: Jid) returns (ok: bool, account: Bytes)
      requires Valid()
      modifies this
      ensures Valid()
      ensures ok <==> jid.server in xidServers && exists a: Bytes :: Encode(a) == jid.username
      ensures ok ==> Encode(account) == jid.username && knownJids == old(knownJids)[account := jid]
      ensures !ok ==> knownJids == old(knownJids)
    {
      if jid.server !in xidServers {
        return false, [];
      }
      ok, account := DecodeName(jid.username);
      if !ok {
        return;
      }
      knownJids := knownJids[account := jid];
    }
  }
}
