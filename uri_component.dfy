/** encodeURIComponent and decodeURIComponent as section 15.1.3 of ECMA-262 5.1
    defines them. The client builds its proxy path with the first
    (src/client/utils.js:19); the server's router hands the `:url` route parameter
    through the second before the handler sees it (src/server/main.js:14-15).

    Strings are sequences of Unicode scalar values, so the lone surrogates for which
    the standard raises URIError cannot occur. Octets are ints in [0, 256). */
module UriComponent {
  import opened Wrappers

  type Octet = b: int | 0 <= b < 256

  /** uriUnreserved: uriAlpha, DecimalDigit and uriMark (section 15.1.3). */
  predicate Unreserved(c: char) {
    ('a' <= c <= 'z') || ('A' <= c <= 'Z') || ('0' <= c <= '9') ||
    c == '-' || c == '_' || c == '.' || c == '!' || c == '~' ||
    c == '*' || c == '\'' || c == '(' || c == ')'
  }

  predicate UpperHexDigit(c: char) {
    ('0' <= c <= '9') || ('A' <= c <= 'F')
  }

  predicate HexDigit(c: char) {
    ('0' <= c <= '9') || ('A' <= c <= 'F') || ('a' <= c <= 'f')
  }

  /** A character that encodeURIComponent may emit. */
  predicate EncodedChar(c: char) {
    Unreserved(c) || c == '%' || UpperHexDigit(c)
  }

  function HexChar(d: int): (c: char)
    requires 0 <= d < 16
    ensures UpperHexDigit(c)
  {
    if d < 10 then ('0' as int + d) as char else ('A' as int + d - 10) as char
  }

  function HexValue(c: char): (d: int)
    requires HexDigit(c)
    ensures 0 <= d < 16
  {
    if '0' <= c <= '9' then c as int - '0' as int
    else if 'A' <= c <= 'F' then c as int - 'A' as int + 10
    else c as int - 'a' as int + 10
  }

  /** The UTF-8 octets of one code point, as step 4.d of Encode transforms it. */
  function Utf8(cp: int): (bs: seq<Octet>)
    requires 0 <= cp <= 0x10FFFF
    ensures 1 <= |bs| <= 4
    ensures |bs| == SequenceLength(bs[0]) && forall k :: 1 <= k < |bs| ==> Continuation(bs[k])
  {
    if cp < 0x80 then [cp]
    else if cp < 0x800 then [0xC0 + cp / 64, 0x80 + cp % 64]
    else if cp < 0x10000 then [0xE0 + cp / 4096, 0x80 + (cp / 64) % 64, 0x80 + cp % 64]
    else [0xF0 + cp / 262144, 0x80 + (cp / 4096) % 64, 0x80 + (cp / 64) % 64, 0x80 + cp % 64]
  }

  /** Each octet written as "%XY" with two upper-case hexadecimal digits. */
  function Percent(bs: seq<Octet>): (s: string)
    ensures |s| == 3 * |bs|
    ensures forall k :: 0 <= k < |s| ==> s[k] == '%' || UpperHexDigit(s[k])
  {
    if bs == [] then [] else ['%', HexChar(bs[0] / 16), HexChar(bs[0] % 16)] + Percent(bs[1..])
  }

  function EncodeChar(c: char): (s: string)
    ensures s != []
    ensures forall k :: 0 <= k < |s| ==> EncodedChar(s[k])
  {
    if Unreserved(c) then [c] else Percent(Utf8(c as int))
  }

  /** encodeURIComponent(s). The result never holds a '/', so it is always one
      path segment. */
  function Encode(s: string): (r: string)
    ensures (r == []) <==> (s == [])
    ensures forall k :: 0 <= k < |r| ==> EncodedChar(r[k])
    ensures '/' !in r
  {
    if s == [] then [] else EncodeChar(s[0]) + Encode(s[1..])
  }

  // ---------------------------------------------------------------- decoding

  function Cons(c: char, rest: Option<string>): Option<string> {
    match rest
    case None => None
    case Some(t) => Some([c] + t)
  }

  /** The octet written as "%XY" at the front of s, if s starts with one. */
  function LeadingOctet(s: string): (r: Option<Octet>)
    ensures r.Some? ==> |s| >= 3 && s[0] == '%'
  {
    if |s| >= 3 && s[0] == '%' && HexDigit(s[1]) && HexDigit(s[2])
    then Some(HexValue(s[1]) * 16 + HexValue(s[2]))
    else None
  }

  /** n "%XY" groups read from the front of s. */
  function LeadingOctets(s: string, n: nat): (r: Option<seq<Octet>>)
    ensures r.Some? ==> |r.value| == n && |s| >= 3 * n
  {
    if n == 0 then Some([])
    else match LeadingOctet(s)
      case None => None
      case Some(b) =>
        match LeadingOctets(s[3..], n - 1)
        case None => None
        case Some(bs) => Some([b] + bs)
  }

  /** How many octets a sequence starting with b has, or 0 when no valid sequence
      starts with b (a continuation octet, or more than four leading one bits). */
  function SequenceLength(b: Octet): nat {
    if b < 0x80 then 1
    else if b < 0xC0 then 0
    else if b < 0xE0 then 2
    else if b < 0xF0 then 3
    else if b < 0xF8 then 4
    else 0
  }

  predicate Continuation(b: Octet) {
    0x80 <= b < 0xC0
  }

  /** The code point that a complete octet sequence encodes, or None when the
      octets are not a valid UTF-8 encoding (overlong form, surrogate, beyond
      U+10FFFF, or a missing continuation octet). */
  function Utf8Decode(bs: seq<Octet>): (r: Option<char>)
    ensures r.Some? ==> 1 <= |bs| <= 4 && |bs| == SequenceLength(bs[0])
    ensures r.Some? ==> forall k :: 1 <= k < |bs| ==> Continuation(bs[k])
  {
    if |bs| == 1 && bs[0] < 0x80 then Some(bs[0] as char)
    else if |bs| == 2 && 0xC0 <= bs[0] < 0xE0 && Continuation(bs[1]) then
      var v: int := (bs[0] as int - 0xC0) * 64 + (bs[1] as int - 0x80);
      if v < 0x80 then None else Some(v as char)
    else if |bs| == 3 && 0xE0 <= bs[0] < 0xF0 && Continuation(bs[1]) && Continuation(bs[2]) then
      var v: int := (bs[0] as int - 0xE0) * 4096 + (bs[1] as int - 0x80) * 64 + (bs[2] as int - 0x80);
      if v < 0x800 || (0xD800 <= v < 0xE000) then None else Some(v as char)
    else if |bs| == 4 && 0xF0 <= bs[0] < 0xF8 && Continuation(bs[1]) && Continuation(bs[2])
            && Continuation(bs[3]) then
      var v: int := (bs[0] as int - 0xF0) * 262144 + (bs[1] as int - 0x80) * 4096 + (bs[2] as int - 0x80) * 64 + (bs[3] as int - 0x80);
      if v < 0x10000 || v > 0x10FFFF then None else Some(v as char)
    else None
  }

  /** decodeURIComponent(s): None where the standard throws URIError. */
  function Decode(s: string): (r: Option<string>)
    ensures r.Some? ==> |r.value| <= |s|
    ensures '%' !in s ==> r == Some(s)
    decreases |s|
  {
    if s == [] then Some([])
    else if s[0] != '%' then
      assert s == [s[0]] + s[1..];
      Cons(s[0], Decode(s[1..]))
    else match LeadingOctet(s)
      case None => None
      case Some(b) =>
        var n := SequenceLength(b);
        if n == 0 then None
        else match LeadingOctets(s, n)
          case None => None
          case Some(bs) =>
            match Utf8Decode(bs)
            case None => None
            case Some(c) => Cons(c, Decode(s[3 * n..]))
  }

  // ---------------------------------------------------------------- round trip

  lemma HexRoundTrip(d: int)
    requires 0 <= d < 16
    ensures HexDigit(HexChar(d)) && HexValue(HexChar(d)) == d
  {
  }

  lemma {:induction false} LeadingOctetsOfPercent(bs: seq<Octet>, rest: string)
    ensures LeadingOctets(Percent(bs) + rest, |bs|) == Some(bs)
  {
    if bs != [] {
      var s := Percent(bs) + rest;
      HexRoundTrip(bs[0] / 16);
      HexRoundTrip(bs[0] % 16);
      assert s[..3] == ['%', HexChar(bs[0] / 16), HexChar(bs[0] % 16)];
      assert LeadingOctet(s) == Some(bs[0]);
      assert s[3..] == Percent(bs[1..]) + rest;
      LeadingOctetsOfPercent(bs[1..], rest);
      assert [bs[0]] + bs[1..] == bs;
    }
  }

  /** A two-octet sequence gives back the code point it was made from. */
  lemma Utf8TwoOctets(c: char)
    requires 0x80 <= c as int < 0x800
    ensures SequenceLength(Utf8(c as int)[0]) == 2
    ensures Utf8Decode(Utf8(c as int)) == Some(c)
  {
    var cp := c as int;
    var q, r := cp / 64, cp % 64;
    assert cp == q * 64 + r && 2 <= q < 32;
    assert Utf8(cp) == [0xC0 + q, 0x80 + r];
  }

  /** A three-octet sequence gives back the code point it was made from. */
  lemma Utf8ThreeOctets(c: char)
    requires 0x800 <= c as int < 0x10000
    ensures SequenceLength(Utf8(c as int)[0]) == 3
    ensures Utf8Decode(Utf8(c as int)) == Some(c)
  {
    var cp := c as int;
    var a, r0 := cp / 64, cp % 64;
    var b, r1 := a / 64, a % 64;
    assert cp == a * 64 + r0 && a == b * 64 + r1;
    assert cp / 4096 == b && b < 16;
    assert Utf8(cp) == [0xE0 + b, 0x80 + r1, 0x80 + r0];
    assert b * 4096 + r1 * 64 + r0 == cp;
  }

  /** A four-octet sequence gives back the code point it was made from. */
  lemma Utf8FourOctets(c: char)
    requires 0x10000 <= c as int
    ensures SequenceLength(Utf8(c as int)[0]) == 4
    ensures Utf8Decode(Utf8(c as int)) == Some(c)
  {
    var cp := c as int;
    var a, r0 := cp / 64, cp % 64;
    var b, r1 := a / 64, a % 64;
    var d, r2 := b / 64, b % 64;
    assert cp == a * 64 + r0 && a == b * 64 + r1 && b == d * 64 + r2;
    assert cp / 4096 == b && cp / 262144 == d && d < 5;
    assert Utf8(cp) == [0xF0 + d, 0x80 + r2, 0x80 + r1, 0x80 + r0];
    assert d * 262144 + r2 * 4096 + r1 * 64 + r0 == cp;
  }

  /** The UTF-8 octets of a character decode to it, and their first octet
      announces how many there are. */
  lemma Utf8RoundTrip(c: char)
    ensures Utf8(c as int)[0] >= 0x80 ==> SequenceLength(Utf8(c as int)[0]) == |Utf8(c as int)|
    ensures Utf8(c as int)[0] < 0x80 ==> |Utf8(c as int)| == 1
    ensures Utf8Decode(Utf8(c as int)) == Some(c)
  {
    var cp := c as int;
    if cp < 0x80 {
    } else if cp < 0x800 {
      Utf8TwoOctets(c);
    } else if cp < 0x10000 {
      Utf8ThreeOctets(c);
    } else {
      Utf8FourOctets(c);
    }
  }

  lemma DecodeEncodedChar(c: char, rest: string)
    ensures Decode(EncodeChar(c) + rest) == Cons(c, Decode(rest))
  {
    var s := EncodeChar(c) + rest;
    if Unreserved(c) {
      assert s[0] == c && s[1..] == rest;
    } else {
      var bs := Utf8(c as int);
      Utf8RoundTrip(c);
      LeadingOctetsOfPercent(bs, rest);
      LeadingOctetsOfPercent(bs[..1], Percent(bs[1..]) + rest);
      assert Percent(bs) == Percent(bs[..1]) + Percent(bs[1..]);
      assert LeadingOctet(s) == Some(bs[0]);
      assert s[3 * |bs|..] == rest;
    }
  }

  /** decodeURIComponent undoes encodeURIComponent on every string. */
  lemma {:induction false} DecodeEncode(s: string)
    ensures Decode(Encode(s)) == Some(s)
  {
    if s != [] {
      DecodeEncodedChar(s[0], Encode(s[1..]));
      DecodeEncode(s[1..]);
      assert [s[0]] + s[1..] == s;
    }
  }
}
