/** `encodeURIComponent`, the function the client uses to put the credential
    token into the connection URL: every character outside the unreserved set
    is written as the UTF-8 bytes of its code point (RFC 3629), each byte as a
    percent-encoded octet `%XX` with upper-case hexadecimal digits (section 2.1
    of RFC 3986). `decodeURIComponent` is given beside it as its inverse. */
module UriComponent {
  import opened Wrappers
  import JsText

  type Byte = b: int | 0 <= b < 256

  /** The characters `encodeURIComponent` leaves as they are: ASCII letters and
      digits and `- _ . ! ~ * ' ( )`. */
  predicate IsUnreserved(c: char) {
    || ('A' <= c <= 'Z') || ('a' <= c <= 'z') || ('0' <= c <= '9')
    || c == '-' || c == '_' || c == '.' || c == '!' || c == '~' || c == '*' || c == '\'' || c == '(' || c == ')'
  }

  /** The UTF-8 encoding of one code point: 1 to 4 bytes. */
  function Utf8(c: char): (bytes: seq<Byte>)
    ensures 1 <= |bytes| <= 4
  {
    var cp := c as int;
    if cp < 0x80 then
      [cp]
    else if cp < 0x800 then
      [0xC0 + cp / 64, 0x80 + cp % 64]
    else if cp < 0x10000 then
      var q := cp / 64;
      [0xE0 + q / 64, 0x80 + q % 64, 0x80 + cp % 64]
    else
      var q1 := cp / 64;
      var q2 := q1 / 64;
      [0xF0 + q2 / 64, 0x80 + q2 % 64, 0x80 + q1 % 64, 0x80 + cp % 64]
  }

  /** An upper-case hexadecimal digit. */
  function HexChar(d: nat): (c: char)
    requires d < 16
    ensures JsText.IsHexDigit(c) && JsText.HexDigitValue(c) == d && IsUnreserved(c)
  {
    if d < 10 then ('0' as int + d) as char else ('A' as int + d - 10) as char
  }

  function PercentBytes(bytes: seq<Byte>): (s: string)
    ensures |s| == 3 * |bytes|
  {
    if bytes == [] then [] else ['%', HexChar(bytes[0] / 16), HexChar(bytes[0] % 16)] + PercentBytes(bytes[1..])
  }

  function EncodeChar(c: char): string {
    if IsUnreserved(c) then [c] else PercentBytes(Utf8(c))
  }

  /** Only unreserved characters and `%`. */
  predicate InEncodedAlphabet(s: string) {
    forall i | 0 <= i < |s| :: IsUnreserved(s[i]) || s[i] == '%'
  }

  lemma AlphabetConcat(a: string, b: string)
    requires InEncodedAlphabet(a) && InEncodedAlphabet(b)
    ensures InEncodedAlphabet(a + b)
  {
    forall i | |a| <= i < |a + b| ensures IsUnreserved((a + b)[i]) || (a + b)[i] == '%' {
      assert (a + b)[i] == b[i - |a|];
    }
  }

  lemma {:induction false} PercentBytesAlphabet(bytes: seq<Byte>)
    ensures InEncodedAlphabet(PercentBytes(bytes))
  {
    if bytes != [] {
      PercentBytesAlphabet(bytes[1..]);
      AlphabetConcat(['%', HexChar(bytes[0] / 16), HexChar(bytes[0] % 16)], PercentBytes(bytes[1..]));
    }
  }

  /** `encodeURIComponent(s)`. Its output holds nothing but unreserved
      characters and `%`, so no `&`, `=`, `#`, `?` or space can end or split the
      query parameter it is placed in. */
  function EncodeURIComponent(s: string): (r: string)
    ensures InEncodedAlphabet(r)
  {
    if s == [] then [] else
      var head, tail := EncodeChar(s[0]), EncodeURIComponent(s[1..]);
      assert InEncodedAlphabet(head) by {
        if !IsUnreserved(s[0]) {
          PercentBytesAlphabet(Utf8(s[0]));
        }
      }
      AlphabetConcat(head, tail);
      head + tail
  }

  /** An encoded component holds none of the characters that delimit query
      parameters or end a query. */
  lemma NoDelimiters(s: string)
    requires InEncodedAlphabet(s)
    ensures '&' !in s && '#' !in s && '=' !in s && '?' !in s
  {
  }

  // ---------------------------------------------------------------------------
  // decodeURIComponent

  /** The byte written as `%XX` at the k-th group of three characters of `s`. */
  function ByteAt(s: string, k: nat): Option<Byte> {
    if |s| < 3 * k + 3 || s[3 * k] != '%' || !JsText.IsHexDigit(s[3 * k + 1]) || !JsText.IsHexDigit(s[3 * k + 2]) then None
    else Some(16 * JsText.HexDigitValue(s[3 * k + 1]) + JsText.HexDigitValue(s[3 * k + 2]))
  }

  /** The six payload bits of a UTF-8 continuation byte at group k. */
  function ContinuationAt(s: string, k: nat): (r: Option<nat>)
    ensures r.Some? ==> r.value < 64
  {
    match ByteAt(s, k)
    case Some(b) => if 0x80 <= b < 0xC0 then Some(b - 0x80) else None
    case None => None
  }

  /** Decodes the character at the start of `s`, with the number of characters
      it took; `None` for a malformed escape (a URIError in JavaScript). */
  function DecodeChar(s: string): (r: Option<(char, nat)>)
    requires s != []
    ensures r.Some? ==> 1 <= r.value.1 <= |s|
  {
    if s[0] != '%' then Some((s[0], 1))
    else match ByteAt(s, 0)
      case None => None
      case Some(b0) =>
        if b0 < 0x80 then
          Some((b0 as char, 3))
        else if 0xC0 <= b0 < 0xE0 then
          match ContinuationAt(s, 1)
          case None => None
          case Some(x1) =>
            var cp := (b0 - 0xC0) * 64 + x1;
            if cp < 0x80 then None else Some((cp as char, 6))
        else if 0xE0 <= b0 < 0xF0 then
          match (ContinuationAt(s, 1), ContinuationAt(s, 2))
          case (Some(x1), Some(x2)) =>
            var cp := ((b0 - 0xE0) * 64 + x1) * 64 + x2;
            if cp < 0x800 || 0xD800 <= cp < 0xE000 then None else Some((cp as char, 9))
          case _ => None
        else if 0xF0 <= b0 < 0xF8 then
          match (ContinuationAt(s, 1), ContinuationAt(s, 2), ContinuationAt(s, 3))
          case (Some(x1), Some(x2), Some(x3)) =>
            var cp := (((b0 - 0xF0) * 64 + x1) * 64 + x2) * 64 + x3;
            if cp < 0x10000 || cp > 0x10FFFF then None else Some((cp as char, 12))
          case _ => None
        else
          None
  }

  /** `decodeURIComponent(s)`; `None` where JavaScript throws a URIError. */
  function DecodeURIComponent(s: string): Option<string>
    decreases |s|
  {
    if s == [] then Some([])
    else match DecodeChar(s)
      case None => None
      case Some((c, n)) =>
        match DecodeURIComponent(s[n..])
        case None => None
        case Some(rest) => Some([c] + rest)
  }

  // ---------------------------------------------------------------------------
  // Round trip

  lemma ByteAtShift(prefix: string, t: string, k: nat)
    requires |prefix| == 3 && k >= 1
    ensures ByteAt(prefix + t, k) == ByteAt(t, k - 1)
  {
    var s := prefix + t;
    if |s| >= 3 * k + 3 {
      assert s[3 * k] == t[3 * (k - 1)];
      assert s[3 * k + 1] == t[3 * (k - 1) + 1];
      assert s[3 * k + 2] == t[3 * (k - 1) + 2];
    }
  }

  /** The k-th escape of a percent-encoded byte string reads back as the k-th byte. */
  lemma {:induction false} ByteAtPercentBytes(bytes: seq<Byte>, rest: string, k: nat)
    requires k < |bytes|
    ensures ByteAt(PercentBytes(bytes) + rest, k) == Some(bytes[k])
  {
    var first := ['%', HexChar(bytes[0] / 16), HexChar(bytes[0] % 16)];
    assert PercentBytes(bytes) + rest == first + (PercentBytes(bytes[1..]) + rest);
    if k > 0 {
      ByteAtShift(first, PercentBytes(bytes[1..]) + rest, k);
      ByteAtPercentBytes(bytes[1..], rest, k - 1);
    }
  }

  lemma DecodeOneByte(c: char, rest: string)
    requires c as int < 0x80 && !IsUnreserved(c)
    ensures DecodeChar(EncodeChar(c) + rest) == Some((c, |EncodeChar(c)|))
  {
    ByteAtPercentBytes(Utf8(c), rest, 0);
  }

  lemma DecodeTwoBytes(c: char, rest: string)
    requires 0x80 <= c as int < 0x800
    ensures DecodeChar(EncodeChar(c) + rest) == Some((c, |EncodeChar(c)|))
  {
    var bytes := Utf8(c);
    ByteAtPercentBytes(bytes, rest, 0);
    ByteAtPercentBytes(bytes, rest, 1);
    var cp := c as int;
    assert (cp / 64) * 64 + cp % 64 == cp;
  }

  /** The three-byte form of a code point puts its bits back together. */
  lemma ThreeByteBits(cp: int)
    requires 0x800 <= cp < 0x10000
    ensures var q := cp / 64;
      ((q / 64) * 64 + q % 64) * 64 + cp % 64 == cp && 0xE0 <= 0xE0 + q / 64 < 0xF0
  {
    var q := cp / 64;
    assert q * 64 + cp % 64 == cp;
    assert (q / 64) * 64 + q % 64 == q;
  }

  lemma DecodeThreeBytes(c: char, rest: string)
    requires 0x800 <= c as int < 0x10000
    ensures DecodeChar(EncodeChar(c) + rest) == Some((c, |EncodeChar(c)|))
  {
    var bytes := Utf8(c);
    ByteAtPercentBytes(bytes, rest, 0);
    ByteAtPercentBytes(bytes, rest, 1);
    ByteAtPercentBytes(bytes, rest, 2);
    ThreeByteBits(c as int);
  }

  /** The four-byte form of a code point puts its bits back together. */
  lemma FourByteBits(cp: int)
    requires 0x10000 <= cp < 0x110000
    ensures var q1 := cp / 64; var q2 := q1 / 64;
      (((q2 / 64) * 64 + q2 % 64) * 64 + q1 % 64) * 64 + cp % 64 == cp && 0xF0 <= 0xF0 + q2 / 64 < 0xF8
  {
    var q1 := cp / 64;
    var q2 := q1 / 64;
    assert q1 * 64 + cp % 64 == cp;
    assert q2 * 64 + q1 % 64 == q1;
    assert (q2 / 64) * 64 + q2 % 64 == q2;
  }

  /** Four escapes holding a lead byte and three continuation bytes decode to
      the code point their payload bits spell. */
  lemma DecodeFourEscapes(s: string, b0: Byte, b1: Byte, b2: Byte, b3: Byte)
    requires s != [] && s[0] == '%'
    requires ByteAt(s, 0) == Some(b0) && ByteAt(s, 1) == Some(b1)
    requires ByteAt(s, 2) == Some(b2) && ByteAt(s, 3) == Some(b3)
    requires 0xF0 <= b0 < 0xF8 && 0x80 <= b1 < 0xC0 && 0x80 <= b2 < 0xC0 && 0x80 <= b3 < 0xC0
    requires var cp := (((b0 - 0xF0) * 64 + b1 - 0x80) * 64 + b2 - 0x80) * 64 + b3 - 0x80;
      0x10000 <= cp <= 0x10FFFF
    ensures var cp := (((b0 - 0xF0) * 64 + b1 - 0x80) * 64 + b2 - 0x80) * 64 + b3 - 0x80;
      DecodeChar(s) == Some((cp as char, 12))
  {
  }

  lemma DecodeFourBytes(c: char, rest: string)
    requires 0x10000 <= c as int
    ensures DecodeChar(EncodeChar(c) + rest) == Some((c, |EncodeChar(c)|))
  {
    var bytes := Utf8(c);
    var s := EncodeChar(c) + rest;
    ByteAtPercentBytes(bytes, rest, 0);
    ByteAtPercentBytes(bytes, rest, 1);
    ByteAtPercentBytes(bytes, rest, 2);
    ByteAtPercentBytes(bytes, rest, 3);
    FourByteBits(c as int);
    DecodeFourEscapes(s, bytes[0], bytes[1], bytes[2], bytes[3]);
  }

  /** One encoded character, followed by anything, decodes back to that character. */
  lemma DecodeEncodedChar(c: char, rest: string)
    ensures DecodeChar(EncodeChar(c) + rest) == Some((c, |EncodeChar(c)|))
  {
    var cp := c as int;
    if IsUnreserved(c) {
    } else if cp < 0x80 {
      DecodeOneByte(c, rest);
    } else if cp < 0x800 {
      DecodeTwoBytes(c, rest);
    } else if cp < 0x10000 {
      DecodeThreeBytes(c, rest);
    } else {
      DecodeFourBytes(c, rest);
    }
  }

  /** `decodeURIComponent(encodeURIComponent(s)) == s` for every string, so the
      server reads back exactly the token the client put in the URL. */
  lemma {:induction false} UriComponentRoundTrip(s: string)
    ensures DecodeURIComponent(EncodeURIComponent(s)) == Some(s)
  {
    if s != [] {
      var head, tail := EncodeChar(s[0]), EncodeURIComponent(s[1..]);
      assert EncodeURIComponent(s) == head + tail;
      assert head != [] by {
        if !IsUnreserved(s[0]) {
          assert |Utf8(s[0])| >= 1;
        }
      }
      DecodeEncodedChar(s[0], tail);
      assert (head + tail)[|head|..] == tail;
      UriComponentRoundTrip(s[1..]);
      assert DecodeURIComponent(head + tail) == Some([s[0]] + s[1..]);
      assert [s[0]] + s[1..] == s;
    }
  }
}
