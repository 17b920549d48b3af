/**
 * `encodeURIComponent` of ECMA-262: every character outside the uriUnreserved
 * set is replaced by the percent-escapes of its UTF-8 bytes, in upper-case
 * hexadecimal. Strings are sequences of Unicode scalar values, so the
 * URIError that JavaScript raises for a lone surrogate cannot arise here.
 */
module UriEncoding {
  import opened Wrappers

  type Byte = b: int | 0 <= b < 256

  /** uriUnreserved: ASCII letters and digits and the marks - _ . ! ~ * ' ( ) */
  predicate IsUriUnreserved(c: char)
  {
    var u := c as int;
    || (0x41 <= u <= 0x5A) || (0x61 <= u <= 0x7A) || (0x30 <= u <= 0x39)
    || c == '-' || c == '_' || c == '.' || c == '!' || c == '~' || c == '*' || c == '\'' || c == '(' || c == ')'
  }

  /** The UTF-8 bytes of one scalar value; an ASCII character is its own single byte. */
  function Utf8(c: char): (bs: seq<Byte>)
    ensures 1 <= |bs| <= 4
    ensures c as int < 0x80 <==> bs == [c as int]
  {
    var u := c as int;
    if u < 0x80 then [u]
    else if u < 0x800 then [0xC0 + u / 0x40, 0x80 + u % 0x40]
    else if u < 0x10000 then [0xE0 + u / 0x1000, 0x80 + (u / 0x40) % 0x40, 0x80 + u % 0x40]
    else [0xF0 + u / 0x40000, 0x80 + (u / 0x1000) % 0x40, 0x80 + (u / 0x40) % 0x40, 0x80 + u % 0x40]
  }

  /** The UTF-8 bytes of a whole string. */
  function Utf8String(s: string): seq<Byte>
  {
    if s == [] then [] else Utf8(s[0]) + Utf8String(s[1..])
  }

  /** An upper-case hexadecimal digit. */
  function HexDigit(d: nat): (c: char)
    requires d < 16
    ensures IsUriUnreserved(c)
  {
    if d < 10 then (0x30 + d) as char else (0x41 + d - 10) as char
  }

  /** The value of a hexadecimal digit of either case, if `c` is one. */
  function HexValue(c: char): (v: Option<nat>)
    ensures v.Some? ==> v.value < 16
  {
    var u := c as int;
    if 0x30 <= u <= 0x39 then Some(u - 0x30)
    else if 0x41 <= u <= 0x46 then Some(u - 0x41 + 10)
    else if 0x61 <= u <= 0x66 then Some(u - 0x61 + 10)
    else None
  }

  /** `%XY` for one byte. */
  function PercentEscape(b: Byte): (r: string)
    ensures |r| == 3 && r[0] == '%' && IsUriUnreserved(r[1]) && IsUriUnreserved(r[2])
  {
    ['%', HexDigit(b / 16), HexDigit(b % 16)]
  }

  function EscapeBytes(bs: seq<Byte>): (r: string)
    ensures |r| == 3 * |bs|
    ensures forall i :: 0 <= i < |r| ==> IsUriUnreserved(r[i]) || r[i] == '%'
  {
    if bs == [] then [] else PercentEscape(bs[0]) + EscapeBytes(bs[1..])
  }

  function EncodeChar(c: char): (r: string)
    ensures 1 <= |r|
    ensures forall i :: 0 <= i < |r| ==> IsUriUnreserved(r[i]) || r[i] == '%'
  {
    if IsUriUnreserved(c) then [c] else EscapeBytes(Utf8(c))
  }

  /**
   * `encodeURIComponent(s)`: the result holds only unreserved characters and the
   * `%` of escapes, so it never contains a query delimiter such as `&`, `#` or `=`.
   */
  function EncodeURIComponent(s: string): (r: string)
    ensures |r| >= |s|
    ensures forall i :: 0 <= i < |r| ==> IsUriUnreserved(r[i]) || r[i] == '%'
  {
    if s == [] then [] else EncodeChar(s[0]) + EncodeURIComponent(s[1..])
  }

  /** Encoding a concatenation encodes each part. */
  lemma {:induction false} EncodeAppend(a: string, b: string)
    ensures EncodeURIComponent(a + b) == EncodeURIComponent(a) + EncodeURIComponent(b)
  {
    if a != [] {
      assert (a + b)[1..] == a[1..] + b;
      EncodeAppend(a[1..], b);
    } else {
      assert a + b == b;
    }
  }

  /** A string made only of unreserved characters is left as it is. */
  lemma {:induction false} EncodeKeepsUnreserved(s: string)
    requires forall i :: 0 <= i < |s| ==> IsUriUnreserved(s[i])
    ensures EncodeURIComponent(s) == s
  {
    if s != [] {
      EncodeKeepsUnreserved(s[1..]);
    }
  }

  function Prepend(bs: seq<Byte>, rest: Option<seq<Byte>>): Option<seq<Byte>>
  {
    match rest
    case None => None
    case Some(tail) => Some(bs + tail)
  }

  /**
   * The bytes a percent-encoded string stands for: an escape `%XY` is the byte
   * 0xXY, an unreserved character is its ASCII byte; anything else is malformed.
   */
  function PercentDecodeBytes(s: string): Option<seq<Byte>>
  {
    if s == [] then Some([])
    else if s[0] == '%' then
      if |s| >= 3 && HexValue(s[1]).Some? && HexValue(s[2]).Some? then
        Prepend([HexValue(s[1]).value * 16 + HexValue(s[2]).value], PercentDecodeBytes(s[3..]))
      else None
    else if IsUriUnreserved(s[0]) then Prepend([s[0] as int], PercentDecodeBytes(s[1..]))
    else None
  }

  lemma HexRoundTrip(d: nat)
    requires d < 16
    ensures HexValue(HexDigit(d)) == Some(d)
  {
  }

  lemma {:induction false} EscapeBytesDecode(bs: seq<Byte>, rest: string)
    ensures PercentDecodeBytes(EscapeBytes(bs) + rest) == Prepend(bs, PercentDecodeBytes(rest))
  {
    if bs != [] {
      var b := bs[0];
      var t := EscapeBytes(bs[1..]) + rest;
      var s := EscapeBytes(bs) + rest;
      assert s == PercentEscape(b) + t;
      assert s[0] == '%' && s[1] == HexDigit(b / 16) && s[2] == HexDigit(b % 16) && s[3..] == t;
      HexRoundTrip(b / 16);
      HexRoundTrip(b % 16);
      assert PercentDecodeBytes(s) == Prepend([b], PercentDecodeBytes(t));
      EscapeBytesDecode(bs[1..], rest);
      match PercentDecodeBytes(rest)
      case None =>
      case Some(u) => assert [b] + (bs[1..] + u) == bs + u;
    } else {
      assert EscapeBytes(bs) + rest == rest;
      match PercentDecodeBytes(rest)
      case None =>
      case Some(t) => assert bs + t == t;
    }
  }

  /** Decoding the escapes of `encodeURIComponent(s)` gives back the UTF-8 bytes of `s`. */
  lemma {:induction false} EncodeDecodeRoundTrip(s: string)
    ensures PercentDecodeBytes(EncodeURIComponent(s)) == Some(Utf8String(s))
  {
    if s != [] {
      var c := s[0];
      var tail := EncodeURIComponent(s[1..]);
      EncodeDecodeRoundTrip(s[1..]);
      if IsUriUnreserved(c) {
        assert ([c] + tail)[1..] == tail;
      } else {
        EscapeBytesDecode(Utf8(c), tail);
      }
    }
  }
}
