/**
 * `urlencoding::encode`: every byte of the UTF-8 form of a string is kept when
 * it is an unreserved character of section 2.3 of RFC 3986 and is otherwise
 * written as `%XY` with upper-case hex digits (section 2.1 of RFC 3986).
 */
module UrlEncoding {
  import opened Wrappers

  type Byte = b: int | 0 <= b < 256

  /** ALPHA / DIGIT / "-" / "." / "_" / "~" (section 2.3 of RFC 3986). */
  predicate IsUnreserved(c: char) {
    ('A' <= c <= 'Z') || ('a' <= c <= 'z') || ('0' <= c <= '9')
    || c == '-' || c == '.' || c == '_' || c == '~'
  }

  /** The UTF-8 form of one Unicode scalar value (section 3 of RFC 3629). */
  function Utf8(c: char): (r: seq<Byte>)
    ensures 1 <= |r| <= 4
    ensures |r| == 1 <==> c as int < 0x80
    ensures |r| == 1 ==> r[0] == c as int
    ensures |r| > 1 ==> forall i :: 0 <= i < |r| ==> r[i] >= 0x80
  {
    var n := c as int;
    if n < 0x80 then [n]
    else if n < 0x800 then [0xC0 + n / 0x40, 0x80 + n % 0x40]
    else if n < 0x10000 then [0xE0 + n / 0x1000, 0x80 + (n / 0x40) % 0x40, 0x80 + n % 0x40]
    else [0xF0 + n / 0x40000, 0x80 + (n / 0x1000) % 0x40, 0x80 + (n / 0x40) % 0x40, 0x80 + n % 0x40]
  }

  function Utf8Bytes(s: string): (r: seq<Byte>)
    ensures |s| <= |r| <= 4 * |s|
  {
    if s == [] then [] else Utf8(s[0]) + Utf8Bytes(s[1..])
  }

  function HexDigit(d: int): (c: char)
    requires 0 <= d < 16
    ensures IsUnreserved(c) && c != '%'
  {
    if d < 10 then (48 + d) as char else (55 + d) as char
  }

  /** One byte, kept or percent-encoded. */
  function EncodeByte(b: Byte): (r: string)
    ensures forall i :: 0 <= i < |r| ==> IsUnreserved(r[i]) || r[i] == '%'
  {
    if b < 0x80 && IsUnreserved(b as char) then [b as char]
    else ['%', HexDigit(b / 16), HexDigit(b % 16)]
  }

  function EncodeBytes(bs: seq<Byte>): (r: string)
    ensures forall i :: 0 <= i < |r| ==> IsUnreserved(r[i]) || r[i] == '%'
    ensures |r| >= |bs|
  {
    if bs == [] then []
    else
      var head, tail := EncodeByte(bs[0]), EncodeBytes(bs[1..]);
      assert forall i :: |head| <= i < |head| + |tail| ==> (head + tail)[i] == tail[i - |head|];
      head + tail
  }

  /** `urlencoding::encode`: the result uses only unreserved characters and `%`, so never `/`. */
  function Encode(s: string): (r: string)
    ensures forall i :: 0 <= i < |r| ==> IsUnreserved(r[i]) || r[i] == '%'
    ensures '/' !in r
    ensures |r| >= |s|
  {
    if s == [] then []
    else
      var head, tail := EncodeBytes(Utf8(s[0])), Encode(s[1..]);
      assert forall i :: |head| <= i < |head| + |tail| ==> (head + tail)[i] == tail[i - |head|];
      head + tail
  }

  // ---------------------------------------------------------------------
  // Decoding: the partner of Encode

  function HexValue(c: char): (r: Option<int>)
    ensures r.Some? ==> 0 <= r.value < 16
  {
    if '0' <= c <= '9' then Some(c as int - 48)
    else if 'A' <= c <= 'F' then Some(c as int - 55)
    else if 'a' <= c <= 'f' then Some(c as int - 87)
    else None
  }

  function Prepend(bs: seq<Byte>, o: Option<seq<Byte>>): Option<seq<Byte>> {
    match o
    case None => None
    case Some(rest) => Some(bs + rest)
  }

  /** Percent-decoding to bytes: `%XY` is one byte, an ASCII character is its own byte. */
  function PercentDecode(s: string): Option<seq<Byte>>
    decreases |s|
  {
    if s == [] then Some([])
    else if s[0] == '%' then
      if |s| >= 3 && HexValue(s[1]).Some? && HexValue(s[2]).Some? then
        Prepend([16 * HexValue(s[1]).value + HexValue(s[2]).value], PercentDecode(s[3..]))
      else None
    else if s[0] as int < 0x80 then Prepend([s[0] as int], PercentDecode(s[1..]))
    else None
  }

  lemma DecodeByteThen(b: Byte, rest: string)
    ensures PercentDecode(EncodeByte(b) + rest) == Prepend([b], PercentDecode(rest))
  {
    var s := EncodeByte(b) + rest;
    if b < 0x80 && IsUnreserved(b as char) {
      assert s[0] == b as char && s[1..] == rest;
    } else {
      assert s[0] == '%' && s[1] == HexDigit(b / 16) && s[2] == HexDigit(b % 16) && s[3..] == rest;
    }
  }

  lemma PrependTwice(a: seq<Byte>, b: seq<Byte>, o: Option<seq<Byte>>)
    ensures Prepend(a, Prepend(b, o)) == Prepend(a + b, o)
  {
    match o
    case None =>
    case Some(x) => assert a + (b + x) == (a + b) + x;
  }

  /** Decoding undoes the encoding of any byte sequence, whatever follows it. */
  lemma {:induction false} DecodeEncodedBytes(bs: seq<Byte>, rest: string)
    ensures PercentDecode(EncodeBytes(bs) + rest) == Prepend(bs, PercentDecode(rest))
  {
    if bs == [] {
      assert EncodeBytes(bs) + rest == rest;
      match PercentDecode(rest)
      case None =>
      case Some(x) => assert bs + x == x;
    } else {
      var head, enc := EncodeByte(bs[0]), EncodeBytes(bs[1..]);
      assert EncodeBytes(bs) == head + enc;
      assert (head + enc) + rest == head + (enc + rest);
      DecodeByteThen(bs[0], enc + rest);
      DecodeEncodedBytes(bs[1..], rest);
      PrependTwice([bs[0]], bs[1..], PercentDecode(rest));
      assert [bs[0]] + bs[1..] == bs;
    }
  }

  /** Percent-decoding the encoded name gives back exactly its UTF-8 bytes. */
  lemma {:induction false} EncodeRoundTrip(s: string)
    ensures PercentDecode(Encode(s)) == Some(Utf8Bytes(s))
  {
    if s == [] {
    } else {
      EncodeRoundTrip(s[1..]);
      DecodeEncodedBytes(Utf8(s[0]), Encode(s[1..]));
    }
  }

  /** A name made of unreserved characters only is left as it is. */
  lemma {:induction false} EncodeUnreservedIsIdentity(s: string)
    requires forall i :: 0 <= i < |s| ==> IsUnreserved(s[i])
    ensures Encode(s) == s
  {
    if s != [] {
      EncodeUnreservedIsIdentity(s[1..]);
      var n := s[0] as int;
      assert Utf8(s[0]) == [n];
      assert EncodeBytes([n]) == EncodeByte(n) + EncodeBytes([]);
      assert (n as char) == s[0];
      assert s == [s[0]] + s[1..];
    }
  }

  /** A slash is escaped, so an encoded name is a single path component. */
  lemma EncodeSlash()
    ensures Encode("/") == "%2F"
  {
    assert Utf8('/') == [0x2F];
    assert EncodeBytes([0x2F]) == EncodeByte(0x2F) + EncodeBytes([]);
  }
}
