/**
 * Go's url.QueryEscape, which ComposeURL applies to the target URL: the text is
 * taken as UTF-8 bytes; ASCII letters, digits and `-` `_` `.` `~` are kept,
 * a space becomes `+`, and every other byte becomes `%XX` in upper-case hex.
 * QueryUnescape is the matching decoder (url.QueryUnescape's rules), used as
 * the reference the escaping is proved against.
 */
module UrlEscape {
  import opened Wrappers

  type byte = x: int | 0 <= x < 256

  /** The UTF-8 encoding of one character (a Unicode scalar value). */
  function Utf8(c: char): (bs: seq<byte>)
    ensures 1 <= |bs| <= 4
    ensures (c as int) < 0x80 <==> |bs| == 1
    ensures (c as int) < 0x80 ==> bs == [c as int]
  {
    var n := c as int;
    if n < 0x80 then [n]
    else if n < 0x800 then [0xC0 + n / 0x40, 0x80 + n % 0x40]
    else if n < 0x10000 then [0xE0 + n / 0x1000, 0x80 + (n / 0x40) % 0x40, 0x80 + n % 0x40]
    else [0xF0 + n / 0x40000, 0x80 + (n / 0x1000) % 0x40, 0x80 + (n / 0x40) % 0x40, 0x80 + n % 0x40]
  }

  /** The bytes of a Go string holding `s` in UTF-8. */
  function EncodeUtf8(s: string): seq<byte>
    decreases |s|
  {
    if s == [] then [] else Utf8(s[0]) + EncodeUtf8(s[1..])
  }

  /** Bytes that encodeQueryComponent leaves alone (section 2.3 of RFC 3986, unreserved). */
  predicate Unreserved(b: byte) {
    ('a' as int <= b <= 'z' as int) || ('A' as int <= b <= 'Z' as int) || ('0' as int <= b <= '9' as int)
    || b == '-' as int || b == '_' as int || b == '.' as int || b == '~' as int
  }

  function HexDigit(d: nat): (c: char)
    requires d < 16
    ensures IsHex(c) && HexValue(c) == d
  {
    if d < 10 then (d + '0' as int) as char else (d - 10 + 'A' as int) as char
  }

  predicate IsHex(c: char) {
    '0' <= c <= '9' || 'a' <= c <= 'f' || 'A' <= c <= 'F'
  }

  function HexValue(c: char): (d: nat)
    requires IsHex(c)
    ensures d < 16
  {
    if '0' <= c <= '9' then c as int - '0' as int
    else if 'a' <= c <= 'f' then c as int - 'a' as int + 10
    else c as int - 'A' as int + 10
  }

  /** How url.QueryEscape writes one byte. */
  function EscapeByte(b: byte): string {
    if Unreserved(b) then [b as char]
    else if b == ' ' as int then "+"
    else ['%', HexDigit(b / 16), HexDigit(b % 16)]
  }

  function EscapeBytes(bs: seq<byte>): string
    decreases |bs|
  {
    if bs == [] then "" else EscapeByte(bs[0]) + EscapeBytes(bs[1..])
  }

  /** url.QueryEscape. */
  function QueryEscape(s: string): string {
    EscapeBytes(EncodeUtf8(s))
  }

  /** Characters that can appear in QueryEscape's output. */
  predicate IsQuerySafe(c: char) {
    (c as int < 256 && Unreserved(c as int)) || c == '+' || c == '%'
  }

  function Prepend(b: byte, r: Option<seq<byte>>): Option<seq<byte>> {
    match r
    case None => None
    case Some(t) => Some([b] + t)
  }

  /**
   * url.QueryUnescape: `%XX` is a byte, `+` is a space, any other byte stands
   * for itself; a `%` without two hex digits after it is an error.
   */
  function QueryUnescape(s: string): Option<seq<byte>>
    decreases |s|
  {
    if s == [] then Some([])
    else if s[0] == '%' then
      if |s| >= 3 && IsHex(s[1]) && IsHex(s[2]) then
        Prepend(HexValue(s[1]) * 16 + HexValue(s[2]), QueryUnescape(s[3..]))
      else None
    else if s[0] == '+' then Prepend(' ' as int, QueryUnescape(s[1..]))
    else if s[0] as int < 256 then Prepend(s[0] as int, QueryUnescape(s[1..]))
    else None
  }

  lemma EscapeByteRoundTrip(b: byte, rest: string)
    ensures QueryUnescape(EscapeByte(b) + rest) == Prepend(b, QueryUnescape(rest))
  {
    var e := EscapeByte(b);
    if Unreserved(b) {
      assert (e + rest)[0] == b as char && (e + rest)[1..] == rest;
    } else if b == ' ' as int {
      assert (e + rest)[0] == '+' && (e + rest)[1..] == rest;
    } else {
      assert (e + rest)[..3] == e && (e + rest)[3..] == rest;
    }
  }

  /** Decoding what QueryEscape wrote gives back exactly the bytes of the input. */
  lemma {:induction false} EscapeBytesRoundTrip(bs: seq<byte>)
    ensures QueryUnescape(EscapeBytes(bs)) == Some(bs)
    decreases |bs|
  {
    if bs != [] {
      EscapeByteRoundTrip(bs[0], EscapeBytes(bs[1..]));
      EscapeBytesRoundTrip(bs[1..]);
      assert bs == [bs[0]] + bs[1..];
    }
  }

  lemma {:induction false} EscapeBytesSafe(bs: seq<byte>)
    ensures forall i :: 0 <= i < |EscapeBytes(bs)| ==> IsQuerySafe(EscapeBytes(bs)[i])
    decreases |bs|
  {
    if bs != [] {
      EscapeBytesSafe(bs[1..]);
      var e := EscapeByte(bs[0]);
      assert forall i :: 0 <= i < |e| ==> IsQuerySafe(e[i]);
    }
  }

  /**
   * The escaped target survives as one query value: it holds only unreserved
   * characters, `+` and `%` (so no `&`, `=`, `#`, `?` or space), and decoding
   * it gives back the UTF-8 bytes of the input.
   */
  lemma QueryEscapeCorrect(s: string)
    ensures QueryUnescape(QueryEscape(s)) == Some(EncodeUtf8(s))
    ensures forall i :: 0 <= i < |QueryEscape(s)| ==> IsQuerySafe(QueryEscape(s)[i])
  {
    EscapeBytesRoundTrip(EncodeUtf8(s));
    EscapeBytesSafe(EncodeUtf8(s));
  }
}
