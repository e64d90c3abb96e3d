/**
 The byte encodings behind a signed claim (EIP-191, version 0x45) and the bridge's resource ids. The loops
 are proved against functions, and the functions to be uniquely decodable.
 */
module Encoding {
  import opened Wrappers

  const ZERO: Byte := 48   // '0'
  const LETTER_A: Byte := 97   // 'a'

  // ---------- hexadecimal ----------

  type Nibble = n: nat | n < 16

  function HexDigit(n: Nibble): Byte {
    if n < 10 then ZERO + n else LETTER_A - 10 + n
  }

  /** The two hexadecimal digits of every byte, in order. */
  function ToAsciiHex(data: Bytes): Bytes {
    if data == [] then []
    else [HexDigit(data[0] / 16), HexDigit(data[0] % 16)] + ToAsciiHex(data[1..])
  }

  function FromHexDigit(c: Byte): Option<Nibble> {
    if 48 <= c < 58 then Some(c - 48)
    else if 97 <= c < 103 then Some(c - 87)
    else None
  }

  /** The inverse of ToAsciiHex; None for anything that is not its output. */
  function FromAsciiHex(text: Bytes): Option<Bytes> {
    if text == [] then Some([])
    else if |text| == 1 then None
    else
      var high, low, rest := FromHexDigit(text[0]), FromHexDigit(text[1]), FromAsciiHex(text[2..]);
      if high.Some? && low.Some? && rest.Some? then Some([16 * high.value + low.value] + rest.value) else None
  }

  lemma {:induction false} HexRoundTrip(data: Bytes)
    ensures FromAsciiHex(ToAsciiHex(data)) == Some(data) && |ToAsciiHex(data)| == 2 * |data|
  {
    if data != [] {
      HexRoundTrip(data[1..]);
      assert ToAsciiHex(data)[2..] == ToAsciiHex(data[1..]);
      assert data == [data[0]] + data[1..];
    }
  }

  /** Decoding accepts nothing but encodings. */
  lemma {:induction false} HexOnlyEncodings(text: Bytes)
    requires FromAsciiHex(text).Some?
    ensures ToAsciiHex(FromAsciiHex(text).value) == text
  {
    if text != [] {
      HexOnlyEncodings(text[2..]);
      var data := FromAsciiHex(text).value;
      assert data[1..] == FromAsciiHex(text[2..]).value;
      assert text == [text[0], text[1]] + text[2..];
    }
  }

  lemma {:induction false} HexConcat(a: Bytes, b: Bytes)
    ensures ToAsciiHex(a + b) == ToAsciiHex(a) + ToAsciiHex(b)
  {
    if a == [] {
      assert a + b == b;
    } else {
      HexConcat(a[1..], b);
      assert (a + b)[1..] == a[1..] + b;
    }
  }

  method EncodeHex(data: Bytes) returns (r: Bytes)
    ensures r == ToAsciiHex(data)
  {
    r := [];
    for i := 0 to |data|
      invariant r == ToAsciiHex(data[..i])
    {
      HexConcat(data[..i], [data[i]]);
      assert data[..i + 1] == data[..i] + [data[i]];
      assert [data[i]][1..] == [];
      r := r + [HexDigit(data[i] / 16)];
      r := r + [HexDigit(data[i] % 16)];
    }
    assert data[..|data|] == data;
  }

  // ---------- decimal length ----------

  /** The decimal digits of a number, most significant first; none at all for zero. */
  function Decimal(n: nat): Bytes {
    if n == 0 then [] else Decimal(n / 10) + [ZERO + n % 10]
  }

  /** Reading decimal digits back. */
  function FromDecimal(digits: Bytes): nat {
    if digits == [] then 0
    else
      var last := digits[|digits| - 1];
      10 * FromDecimal(digits[..|digits| - 1]) + (if last >= ZERO then last - ZERO else 0)
  }

  lemma {:induction false} DecimalRoundTrip(n: nat)
    ensures FromDecimal(Decimal(n)) == n
    ensures forall i :: 0 <= i < |Decimal(n)| ==> ZERO <= Decimal(n)[i] <= ZERO + 9
    ensures n > 0 ==> Decimal(n)[0] != ZERO
  {
    if n > 0 {
      DecimalRoundTrip(n / 10);
      var d := Decimal(n);
      assert d[..|d| - 1] == Decimal(n / 10);
    }
  }

  /** Longer numbers have at least as many digits. */
  lemma {:induction false} DecimalMono(m: nat, n: nat)
    requires m <= n
    ensures |Decimal(m)| <= |Decimal(n)|
  {
    if m > 0 {
      DecimalMono(m / 10, n / 10);
    }
  }

  function Reverse(s: Bytes): Bytes {
    if s == [] then [] else Reverse(s[1..]) + [s[0]]
  }

  lemma {:induction false} ReverseSnoc(s: Bytes, b: Byte)
    ensures Reverse(s + [b]) == [b] + Reverse(s)
  {
    if s == [] {
      assert [b][1..] == [];
    } else {
      ReverseSnoc(s[1..], b);
      assert (s + [b])[1..] == s[1..] + [b];
    }
  }

  /** Push digits from the least significant end, then turn them round. */
  method EncodeLength(length: nat) returns (digits: Bytes)
    ensures digits == Decimal(length)
  {
    var l := length;
    var rev: Bytes := [];
    while l > 0
      invariant Decimal(l) + Reverse(rev) == Decimal(length)
    {
      ReverseSnoc(rev, ZERO + l % 10);
      assert Decimal(l / 10) + ([ZERO + l % 10] + Reverse(rev)) == Decimal(l) + Reverse(rev);
      rev := rev + [ZERO + l % 10];
      l := l / 10;
    }
    digits := [];
    assert rev[..|rev|] == rev && digits + Reverse(rev) == Reverse(rev);
    for i := 0 to |rev|
      invariant digits + Reverse(rev[..|rev| - i]) == Decimal(length)
    {
      var k := |rev| - i - 1;
      assert rev[..|rev| - i] == rev[..k] + [rev[k]];
      ReverseSnoc(rev[..k], rev[k]);
      assert digits + ([rev[k]] + Reverse(rev[..k])) == (digits + [rev[k]]) + Reverse(rev[..k]);
      digits := digits + [rev[k]];
    }
    assert rev[..0] == [];
  }

  // ---------- the signed message ----------

  /** 0x19, then "Ethereum Signed Message:" and a newline. */
  const HEADER: Bytes := [
    25, 69, 116, 104, 101, 114, 101, 117, 109, 32, 83, 105, 103, 110, 101, 100, 32,
    77, 101, 115, 115, 97, 103, 101, 58, 10]

  function Message(prefix: Bytes, what: Bytes, extra: Bytes): Bytes {
    HEADER + Decimal(|prefix| + |what| + |extra|) + prefix + what + extra
  }

  method EthereumSignableMessage(prefix: Bytes, what: Bytes, extra: Bytes) returns (v: Bytes)
    ensures v == Message(prefix, what, extra)
  {
    var digits := EncodeLength(|prefix| + |what| + |extra|);
    v := HEADER;
    v := v + digits;
    v := v + prefix;
    v := v + what;
    v := v + extra;
  }

  /** The header is the byte 0x19 and the words every Ethereum client puts in front. */
  lemma {:induction false} HeaderText()
    ensures HEADER[0] == 0x19 && |HEADER| == 1 + |"Ethereum Signed Message:\n"|
    ensures forall i :: 0 <= i < |"Ethereum Signed Message:\n"| ==>
      HEADER[1 + i] == "Ethereum Signed Message:\n"[i] as int
  {
  }

  /** Reading a message from the front: the header, digits that read as the length of the rest, and the rest. */
  lemma {:induction false} MessageReads(prefix: Bytes, what: Bytes, extra: Bytes)
    ensures var m, n := Message(prefix, what, extra), |prefix| + |what| + |extra|;
      var body := |HEADER| + |Decimal(n)|;
      && |m| == body + n
      && m[..|HEADER|] == HEADER
      && FromDecimal(m[|HEADER|..body]) == n
      && m[body..body + |prefix|] == prefix
      && m[body + |prefix|..body + |prefix| + |what|] == what
      && m[body + |prefix| + |what|..] == extra
  {
    var n := |prefix| + |what| + |extra|;
    var m, body := Message(prefix, what, extra), |HEADER| + |Decimal(n)|;
    DecimalRoundTrip(n);
    assert m[|HEADER|..body] == Decimal(n);
  }

  /** The total length is strictly increasing in the length it announces, so it determines it. */
  lemma {:induction false} LengthDetermined(prefix: Bytes, a: Bytes, x: Bytes, b: Bytes, y: Bytes)
    requires |Message(prefix, a, x)| == |Message(prefix, b, y)|
    ensures |a| + |x| == |b| + |y|
  {
    if |a| + |x| < |b| + |y| {
      DecimalMono(|prefix| + |a| + |x|, |prefix| + |b| + |y|);
    } else {
      DecimalMono(|prefix| + |b| + |y|, |prefix| + |a| + |x|);
    }
  }

  /** Two messages are equal exactly when the texts after the prefix are. */
  lemma {:induction false} MessageDeterminesText(prefix: Bytes, a: Bytes, x: Bytes, b: Bytes, y: Bytes)
    ensures Message(prefix, a, x) == Message(prefix, b, y) <==> a + x == b + y
  {
    var m, m' := Message(prefix, a, x), Message(prefix, b, y);
    if m == m' {
      LengthDetermined(prefix, a, x, b, y);
      var k := |HEADER + Decimal(|prefix| + |a| + |x|) + prefix|;
      TextOf(prefix, a, x);
      TextOf(prefix, b, y);
    }
    if a + x == b + y {
      assert |a| + |x| == |a + x| == |b| + |y|;
      TextOf(prefix, a, x);
      TextOf(prefix, b, y);
    }
  }

  lemma {:induction false} TextOf(prefix: Bytes, what: Bytes, extra: Bytes)
    ensures var front := HEADER + Decimal(|prefix| + |what| + |extra|) + prefix;
      Message(prefix, what, extra) == front + (what + extra)
      && Message(prefix, what, extra)[|front|..] == what + extra
  {
  }

  /** For account encodings of one length, the message determines both the destination and the statement. */
  lemma {:induction false} MessageUnique(prefix: Bytes, a: Bytes, x: Bytes, b: Bytes, y: Bytes)
    requires |a| == |b|
    ensures Message(prefix, ToAsciiHex(a), x) == Message(prefix, ToAsciiHex(b), y) <==> a == b && x == y
  {
    var p, q := ToAsciiHex(a), ToAsciiHex(b);
    MessageDeterminesText(prefix, p, x, q, y);
    HexRoundTrip(a);
    HexRoundTrip(b);
    if p + x == q + y {
      assert (p + x)[..|p|] == p && (q + y)[..|q|] == q;
      assert (p + x)[|p|..] == x && (q + y)[|q|..] == y;
    }
  }

  /** Without the equal lengths it does not: a statement can continue a shorter destination. */
  lemma {:induction false} MessageAmbiguous(prefix: Bytes)
    ensures Message(prefix, ToAsciiHex([0]), [ZERO, ZERO]) == Message(prefix, ToAsciiHex([0, 0]), [])
  {
    assert [0, 0][1..] == [0] && [0][1..] == [];
    assert ToAsciiHex([0]) == [ZERO, ZERO];
    assert ToAsciiHex([0, 0]) == [ZERO, ZERO, ZERO, ZERO];
    MessageDeterminesText(prefix, ToAsciiHex([0]), [ZERO, ZERO], ToAsciiHex([0, 0]), []);
  }

  // ---------- resource ids ----------

  function Zeros(n: nat): Bytes { seq(n, i => 0) }

  /** At most 31 bytes of an id, right-aligned before the chain. */
  function ResourceIdOf(chain: Byte, id: Bytes): Bytes {
    var kept := if |id| > 31 then id[..31] else id;
    Zeros(31 - |kept|) + kept + [chain]
  }

  method DeriveResourceId(chain: Byte, id: Bytes) returns (r: array<Byte>)
    ensures fresh(r) && r[..] == ResourceIdOf(chain, id)
    ensures r.Length == 32 && r[31] == chain
    ensures var kept := if |id| > 31 then 31 else |id|;
      && (forall k :: 0 <= k < 31 - kept ==> r[k] == 0)
      && (forall k :: 0 <= k < kept ==> r[31 - kept + k] == id[k])
  {
    r := new Byte[32](i => 0);
    r[31] := chain;
    var range := if |id| > 31 then 31 else |id|;
    for i := 0 to range
      invariant forall k :: 0 <= k < 31 - i ==> r[k] == 0
      invariant forall k :: 31 - i <= k < 31 ==> r[k] == id[range - 31 + k]
      invariant r[31] == chain
    {
      r[30 - i] := id[range - 1 - i];
    }
    ResourceIdAt(r[..], chain, id);
  }

  lemma {:induction false} ResourceIdAt(r: Bytes, chain: Byte, id: Bytes)
    requires |r| == 32 && r[31] == chain
    requires var range := if |id| > 31 then 31 else |id|;
      && (forall k :: 0 <= k < 31 - range ==> r[k] == 0)
      && (forall k :: 31 - range <= k < 31 ==> r[k] == id[range - 31 + k])
    ensures r == ResourceIdOf(chain, id)
  {
  }

  /** Ids of one length, up to 31 bytes, are told apart, and so are chains. */
  lemma {:induction false} ResourceIdUnique(c: Byte, a: Bytes, d: Byte, b: Bytes)
    requires |a| == |b| <= 31
    ensures ResourceIdOf(c, a) == ResourceIdOf(d, b) <==> c == d && a == b
  {
    var r, r' := ResourceIdOf(c, a), ResourceIdOf(d, b);
    assert r[31] == c && r'[31] == d;
    assert r[31 - |a|..31] == a && r'[31 - |b|..31] == b;
  }
}
