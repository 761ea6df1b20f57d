/** Percent-encoding of a single path segment, as `urllib.parse.quote(s, safe="")`
    performs it: the string is encoded as UTF-8, every byte that is an
    unreserved character of section 2.3 of RFC 3986 is kept, and every other
    byte is written as a `%XX` triplet with upper-case hexadecimal digits
    (section 2.1 of RFC 3986). `Unquote` is the matching decoder, written as
    the partner against which `Quote` is proved. */
module PercentEncoding {
  import opened Wrappers

  type byte = b: int | 0 <= b < 256

  /** ALPHA / DIGIT / "-" / "." / "_" / "~" */
  predicate IsUnreserved(c: char) {
    ('A' <= c <= 'Z') || ('a' <= c <= 'z') || ('0' <= c <= '9')
    || c == '-' || c == '.' || c == '_' || c == '~'
  }

  predicate IsHexUpper(c: char) {
    ('0' <= c <= '9') || ('A' <= c <= 'F')
  }

  function HexDigit(d: int): (c: char)
    requires 0 <= d < 16
    ensures IsHexUpper(c)
  {
    if d < 10 then ('0' as int + d) as char else ('A' as int + d - 10) as char
  }

  function HexValue(c: char): (d: int)
    requires IsHexUpper(c)
    ensures 0 <= d < 16 && HexDigit(d) == c
  {
    if c <= '9' then c as int - '0' as int else c as int - 'A' as int + 10
  }

  lemma HexDigitValue(d: int)
    requires 0 <= d < 16
    ensures HexValue(HexDigit(d)) == d
  {
  }

  /** The UTF-8 encoding of one Unicode scalar value. */
  function Utf8(c: char): (bs: seq<byte>)
    ensures 1 <= |bs| <= 4
    ensures (|bs| == 1) == (c as int < 0x80)
  {
    var n := c as int;
    if n < 0x80 then [n]
    else if n < 0x800 then [0xC0 + n / 64, 0x80 + n % 64]
    else if n < 0x1_0000 then [0xE0 + n / 4096, 0x80 + (n / 64) % 64, 0x80 + n % 64]
    else [0xF0 + n / 262144, 0x80 + (n / 4096) % 64, 0x80 + (n / 64) % 64, 0x80 + n % 64]
  }

  function Triplet(b: byte): string {
    ['%', HexDigit(b / 16), HexDigit(b % 16)]
  }

  function EscapeBytes(bs: seq<byte>): (t: string)
    ensures |t| == 3 * |bs|
  {
    if bs == [] then "" else Triplet(bs[0]) + EscapeBytes(bs[1..])
  }

  function QuoteChar(c: char): string {
    if IsUnreserved(c) then [c] else EscapeBytes(Utf8(c))
  }

  /** `urllib.parse.quote(s, safe="")`. */
  function Quote(s: string): (t: string)
    ensures |t| >= |s|
    ensures t == [] <==> s == []
  {
    if s == [] then "" else QuoteChar(s[0]) + Quote(s[1..])
  }

  /** The shape of an encoded segment: unreserved characters and `%XX` triplets. */
  predicate WellEscaped(t: string)
    decreases |t|
  {
    if t == [] then true
    else if IsUnreserved(t[0]) then WellEscaped(t[1..])
    else |t| >= 3 && t[0] == '%' && IsHexUpper(t[1]) && IsHexUpper(t[2]) && WellEscaped(t[3..])
  }

  // ---------------------------------------------------------------------------
  // The decoder

  predicate IsScalar(n: int) {
    (0 <= n < 0xD800) || (0xE000 <= n < 0x11_0000)
  }

  /** The byte written as a triplet at position `i` of `t`, if there is one. */
  function ReadByte(t: string, i: nat): (r: Option<byte>)
    ensures r.Some? ==> i + 3 <= |t|
  {
    if i + 3 <= |t| && t[i] == '%' && IsHexUpper(t[i + 1]) && IsHexUpper(t[i + 2])
    then Some(HexValue(t[i + 1]) * 16 + HexValue(t[i + 2]))
    else None
  }

  /** The six payload bits of a UTF-8 continuation byte written at `i`. */
  function ReadContinuation(t: string, i: nat): (r: Option<int>)
    ensures r.Some? ==> i + 3 <= |t| && 0 <= r.value < 64
  {
    match ReadByte(t, i)
    case None => None
    case Some(b) => if 0x80 <= b < 0xC0 then Some(b - 0x80) else None
  }

  function Scalar(n: int, k: nat): Option<(char, nat)> {
    if IsScalar(n) then Some((n as char, k)) else None
  }

  /** Decodes one escaped character at the start of `t`: the character and
      the number of encoded characters it took. */
  function DecodeChar(t: string): (r: Option<(char, nat)>)
    ensures r.Some? ==> 3 <= r.value.1 <= |t|
  {
    match ReadByte(t, 0)
    case None => None
    case Some(b0) =>
      if b0 < 0x80 then Scalar(b0, 3)
      else if b0 < 0xC0 then None
      else if b0 < 0xE0 then
        match ReadContinuation(t, 3)
        case None => None
        case Some(x1) => Scalar((b0 - 0xC0) * 64 + x1, 6)
      else if b0 < 0xF0 then
        match (ReadContinuation(t, 3), ReadContinuation(t, 6))
        case (Some(x1), Some(x2)) => Scalar((b0 - 0xE0) * 4096 + x1 * 64 + x2, 9)
        case _ => None
      else if b0 < 0xF8 then
        match (ReadContinuation(t, 3), ReadContinuation(t, 6), ReadContinuation(t, 9))
        case (Some(x1), Some(x2), Some(x3)) =>
          Scalar((b0 - 0xF0) * 262144 + x1 * 4096 + x2 * 64 + x3, 12)
        case _ => None
      else None
  }

  /** Decodes a well-formed encoded segment back into the raw string. */
  function Unquote(t: string): Option<string>
    decreases |t|
  {
    if t == [] then Some("")
    else if t[0] != '%' then
      if IsUnreserved(t[0]) then
        match Unquote(t[1..])
        case None => None
        case Some(rest) => Some([t[0]] + rest)
      else None
    else
      match DecodeChar(t)
      case None => None
      case Some((c, k)) =>
        match Unquote(t[k..])
        case None => None
        case Some(rest) => Some([c] + rest)
  }

  // ---------------------------------------------------------------------------
  // Properties of Quote

  lemma TripletDecodes(b: byte, rest: string)
    ensures ReadByte(Triplet(b) + rest, 0) == Some(b)
  {
    var t := Triplet(b) + rest;
    HexDigitValue(b / 16);
    HexDigitValue(b % 16);
    assert t[1] == HexDigit(b / 16) && t[2] == HexDigit(b % 16);
  }

  lemma {:induction false} EscapeBytesAt(bs: seq<byte>, rest: string, j: nat)
    requires j < |bs|
    ensures ReadByte(EscapeBytes(bs) + rest, 3 * j) == Some(bs[j])
  {
    var t := EscapeBytes(bs) + rest;
    if j == 0 {
      assert t == Triplet(bs[0]) + (EscapeBytes(bs[1..]) + rest);
      TripletDecodes(bs[0], EscapeBytes(bs[1..]) + rest);
    } else {
      EscapeBytesAt(bs[1..], rest, j - 1);
      var u := EscapeBytes(bs[1..]) + rest;
      assert t == Triplet(bs[0]) + u;
      assert t[3 * j..] == u[3 * (j - 1)..];
      ReadByteShift(t, u, 3 * j, 3 * (j - 1));
    }
  }

  lemma ReadByteShift(t: string, u: string, i: nat, k: nat)
    requires i <= |t| && k <= |u| && t[i..] == u[k..]
    ensures ReadByte(t, i) == ReadByte(u, k)
  {
    if i + 3 <= |t| {
      assert t[i] == t[i..][0] && t[i + 1] == t[i..][1] && t[i + 2] == t[i..][2];
      assert u[k] == u[k..][0] && u[k + 1] == u[k..][1] && u[k + 2] == u[k..][2];
    }
  }

  lemma Utf8Arith2(n: int)
    requires 0 <= n
    ensures (n / 64) * 64 + n % 64 == n
  {
  }

  lemma Utf8Arith3(n: int)
    requires 0 <= n
    ensures (n / 4096) * 4096 + ((n / 64) % 64) * 64 + n % 64 == n
  {
    var q := n / 64;
    assert n == q * 64 + n % 64;
    assert q / 64 == n / 4096;
    assert q == (q / 64) * 64 + q % 64;
  }

  lemma Utf8Arith4(n: int)
    requires 0 <= n
    ensures (n / 262144) * 262144 + ((n / 4096) % 64) * 4096 + ((n / 64) % 64) * 64 + n % 64 == n
  {
    Utf8Arith3(n);
    var q2 := n / 4096;
    assert q2 / 64 == n / 262144;
    assert q2 == (q2 / 64) * 64 + q2 % 64;
  }

  lemma DecodeOneByte(c: char, rest: string)
    requires c as int < 0x80
    ensures DecodeChar(EscapeBytes(Utf8(c)) + rest) == Some((c, 3))
  {
    var bs := Utf8(c);
    EscapeBytesAt(bs, rest, 0);
  }

  lemma DecodeTwoBytes(c: char, rest: string)
    requires 0x80 <= c as int < 0x800
    ensures DecodeChar(EscapeBytes(Utf8(c)) + rest) == Some((c, 6))
  {
    var bs := Utf8(c);
    var t := EscapeBytes(bs) + rest;
    var n := c as int;
    EscapeBytesAt(bs, rest, 0);
    EscapeBytesAt(bs, rest, 1);
    assert ReadContinuation(t, 3) == Some(n % 64);
    Utf8Arith2(n);
    assert (bs[0] - 0xC0) * 64 + n % 64 == n;
  }

  lemma DecodeThreeBytes(c: char, rest: string)
    requires 0x800 <= c as int < 0x1_0000
    ensures DecodeChar(EscapeBytes(Utf8(c)) + rest) == Some((c, 9))
  {
    var bs := Utf8(c);
    var t := EscapeBytes(bs) + rest;
    var n := c as int;
    EscapeBytesAt(bs, rest, 0);
    EscapeBytesAt(bs, rest, 1);
    EscapeBytesAt(bs, rest, 2);
    assert ReadContinuation(t, 3) == Some((n / 64) % 64);
    assert ReadContinuation(t, 6) == Some(n % 64);
    Utf8Arith3(n);
    assert (bs[0] - 0xE0) * 4096 + ((n / 64) % 64) * 64 + n % 64 == n;
  }

  lemma DecodeFourBytes(c: char, rest: string)
    requires 0x1_0000 <= c as int
    ensures DecodeChar(EscapeBytes(Utf8(c)) + rest) == Some((c, 12))
  {
    var bs := Utf8(c);
    var t := EscapeBytes(bs) + rest;
    var n := c as int;
    EscapeBytesAt(bs, rest, 0);
    EscapeBytesAt(bs, rest, 1);
    EscapeBytesAt(bs, rest, 2);
    EscapeBytesAt(bs, rest, 3);
    assert ReadContinuation(t, 3) == Some((n / 4096) % 64);
    assert ReadContinuation(t, 6) == Some((n / 64) % 64);
    assert ReadContinuation(t, 9) == Some(n % 64);
    Utf8Arith4(n);
    assert (bs[0] - 0xF0) * 262144 + ((n / 4096) % 64) * 4096 + ((n / 64) % 64) * 64 + n % 64 == n;
  }

  /** An escaped character decodes back to itself and consumes exactly its escape. */
  lemma EscapedCharDecodes(c: char, rest: string)
    requires !IsUnreserved(c)
    ensures DecodeChar(QuoteChar(c) + rest) == Some((c, |QuoteChar(c)|))
  {
    var n := c as int;
    if n < 0x80 {
      DecodeOneByte(c, rest);
    } else if n < 0x800 {
      DecodeTwoBytes(c, rest);
    } else if n < 0x1_0000 {
      DecodeThreeBytes(c, rest);
    } else {
      DecodeFourBytes(c, rest);
    }
  }

  /** Decoding undoes encoding: `unquote(quote(s)) == s`. */
  lemma {:induction false} UnquoteQuote(s: string)
    ensures Unquote(Quote(s)) == Some(s)
  {
    if s != [] {
      var c := s[0];
      var rest := Quote(s[1..]);
      var t := Quote(s);
      assert t == QuoteChar(c) + rest;
      UnquoteQuote(s[1..]);
      if IsUnreserved(c) {
        assert t[0] == c && t[1..] == rest;
      } else {
        EscapedCharDecodes(c, rest);
        var k := |QuoteChar(c)|;
        assert t[0] == '%';
        assert t[k..] == rest;
      }
      assert [s[0]] + s[1..] == s;
    }
  }

  lemma {:induction false} EscapeBytesWellEscaped(bs: seq<byte>, rest: string)
    requires WellEscaped(rest)
    ensures WellEscaped(EscapeBytes(bs) + rest)
  {
    if bs != [] {
      EscapeBytesWellEscaped(bs[1..], rest);
      var t := EscapeBytes(bs) + rest;
      var b := bs[0];
      assert t == Triplet(b) + (EscapeBytes(bs[1..]) + rest);
      assert t[0] == '%' && t[1] == HexDigit(b / 16) && t[2] == HexDigit(b % 16);
      assert t[3..] == EscapeBytes(bs[1..]) + rest;
    } else {
      assert EscapeBytes(bs) + rest == rest;
    }
  }

  /** Every encoded segment consists of unreserved characters and `%XX` triplets only. */
  lemma {:induction false} QuoteWellEscaped(s: string)
    ensures WellEscaped(Quote(s))
  {
    if s != [] {
      QuoteWellEscaped(s[1..]);
      var t := Quote(s);
      assert t == QuoteChar(s[0]) + Quote(s[1..]);
      if IsUnreserved(s[0]) {
        assert t[1..] == Quote(s[1..]);
      } else {
        EscapeBytesWellEscaped(Utf8(s[0]), Quote(s[1..]));
      }
    }
  }

  lemma {:induction false} WellEscapedChars(t: string, i: nat)
    requires WellEscaped(t) && i < |t|
    ensures IsUnreserved(t[i]) || t[i] == '%' || IsHexUpper(t[i])
    decreases |t|
  {
    if IsUnreserved(t[0]) {
      if i > 0 { WellEscapedChars(t[1..], i - 1); }
    } else if i >= 3 {
      WellEscapedChars(t[3..], i - 3);
    }
  }

  /** An encoded segment never contains the path separator or the `=` that
      separates a key from its value in an entry name. */
  lemma QuoteHasNoSeparator(s: string)
    ensures '/' !in Quote(s) && '=' !in Quote(s)
  {
    QuoteWellEscaped(s);
    var t := Quote(s);
    forall i | 0 <= i < |t|
      ensures t[i] != '/' && t[i] != '='
    {
      WellEscapedChars(t, i);
    }
  }

  /** A string is left unchanged by encoding exactly when all its characters are unreserved. */
  lemma {:induction false} QuoteIdentity(s: string)
    ensures Quote(s) == s <==> forall i :: 0 <= i < |s| ==> IsUnreserved(s[i])
  {
    if s != [] {
      QuoteIdentity(s[1..]);
      assert Quote(s) == QuoteChar(s[0]) + Quote(s[1..]);
      if IsUnreserved(s[0]) {
        assert Quote(s) == [s[0]] + Quote(s[1..]);
        assert s == [s[0]] + s[1..];
        assert (forall i :: 0 <= i < |s| ==> IsUnreserved(s[i]))
          <==> (forall i :: 0 <= i < |s[1..]| ==> IsUnreserved(s[1..][i]));
      } else {
        assert |QuoteChar(s[0])| >= 3;
      }
    }
  }
}
