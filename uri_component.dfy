/**
 * Percent-encoding of URI components (section 2.1 of RFC 3986, as
 * `encodeURIComponent` does it: UTF-8 bytes, upper-case hex digits) and the
 * matching decoding of query-string values (`+` is a space, `%XX` is a byte,
 * the bytes are read as UTF-8).
 */
module UriComponent {
  import opened Wrappers

  type Byte = b: int | 0 <= b < 256

  // ---------------------------------------------------------------------
  // UTF-8
  // ---------------------------------------------------------------------

  /** A continuation byte `10xxxxxx` carrying the six bits `v`. */
  function Cont(v: int): Byte
    requires 0 <= v < 64
  {
    0x80 + v
  }

  /** The UTF-8 encoding of one character (a Unicode scalar value). */
  function Utf8(c: char): (bs: seq<Byte>)
    ensures 1 <= |bs| <= 4
    ensures (|bs| == 1) == (c as int < 0x80)
  {
    var cp := c as int;
    if cp < 0x80 then [cp]
    else if cp < 0x800 then [0xC0 + cp / 64, Cont(cp % 64)]
    else if cp < 0x10000 then [0xE0 + cp / 4096, Cont(cp / 64 % 64), Cont(cp % 64)]
    else [0xF0 + cp / 262144, Cont(cp / 4096 % 64), Cont(cp / 64 % 64), Cont(cp % 64)]
  }

  /** The UTF-8 encoding of a string. */
  function Utf8Encode(s: string): seq<Byte>
    decreases |s|
  {
    if s == [] then [] else Utf8(s[0]) + Utf8Encode(s[1..])
  }

  predicate IsCont(b: Byte)
  {
    0x80 <= b < 0xC0
  }

  /** A code point that is a Unicode scalar value, i.e. a `char`. */
  predicate IsScalar(cp: int)
  {
    (0 <= cp < 0xD800) || (0xE000 <= cp < 0x110000)
  }

  /**
   * Reads one character at the start of `bs`: the character and the number
   * of bytes it takes. Overlong forms, surrogates, values past U+10FFFF,
   * stray continuation bytes and truncated sequences are rejected.
   */
  function DecodeOne(bs: seq<Byte>): (r: Option<(char, nat)>)
    requires |bs| > 0
    ensures r.Some? ==> 1 <= r.value.1 <= |bs|
  {
    var b0: int := bs[0];
    if b0 < 0x80 then Some((b0 as char, 1))
    else if 0xC2 <= b0 < 0xE0 then
      if |bs| >= 2 && IsCont(bs[1]) then
        var cp := (b0 - 0xC0) * 64 + (bs[1] as int - 0x80);
        Some((cp as char, 2))
      else None
    else if 0xE0 <= b0 < 0xF0 then
      if |bs| >= 3 && IsCont(bs[1]) && IsCont(bs[2]) then
        var cp := ((b0 - 0xE0) * 64 + (bs[1] as int - 0x80)) * 64 + (bs[2] as int - 0x80);
        if 0x800 <= cp && IsScalar(cp) then Some((cp as char, 3)) else None
      else None
    else if 0xF0 <= b0 < 0xF5 then
      if |bs| >= 4 && IsCont(bs[1]) && IsCont(bs[2]) && IsCont(bs[3]) then
        var cp := (((b0 - 0xF0) * 64 + (bs[1] as int - 0x80)) * 64 + (bs[2] as int - 0x80)) * 64 + (bs[3] as int - 0x80);
        if 0x10000 <= cp < 0x110000 then Some((cp as char, 4)) else None
      else None
    else None
  }

  /** Reads a whole byte sequence as UTF-8; `None` when it is malformed. */
  function Utf8Decode(bs: seq<Byte>): Option<string>
    decreases |bs|
  {
    if bs == [] then Some([])
    else
      match DecodeOne(bs)
      case None => None
      case Some((c, n)) =>
        match Utf8Decode(bs[n..])
        case None => None
        case Some(rest) => Some([c] + rest)
  }

  /** Decoding reads back the character that was encoded, and no more. */
  lemma DecodeOneOfUtf8(c: char, rest: seq<Byte>)
    ensures DecodeOne(Utf8(c) + rest) == Some((c, |Utf8(c)|))
  {
    var cp := c as int;
    if cp < 0x80 {
    } else if cp < 0x800 {
      DecodeTwoBytes(c, rest);
    } else if cp < 0x10000 {
      DecodeThreeBytes(c, rest);
    } else {
      DecodeFourBytes(c, rest);
    }
  }

  lemma DecodeTwoBytes(c: char, rest: seq<Byte>)
    requires 0x80 <= c as int < 0x800
    ensures DecodeOne(Utf8(c) + rest) == Some((c, 2))
  {
    var cp := c as int;
    assert Utf8(c) == [0xC0 + cp / 64, Cont(cp % 64)];
    assert (cp / 64) * 64 + cp % 64 == cp;
  }

  lemma DecodeThreeBytes(c: char, rest: seq<Byte>)
    requires 0x800 <= c as int < 0x10000
    ensures DecodeOne(Utf8(c) + rest) == Some((c, 3))
  {
    var cp := c as int;
    assert Utf8(c) == [0xE0 + cp / 4096, Cont(cp / 64 % 64), Cont(cp % 64)];
    assert (cp / 4096) * 64 + cp / 64 % 64 == cp / 64;
    assert (cp / 64) * 64 + cp % 64 == cp;
  }

  lemma DecodeFourBytes(c: char, rest: seq<Byte>)
    requires 0x10000 <= c as int
    ensures DecodeOne(Utf8(c) + rest) == Some((c, 4))
  {
    var cp := c as int;
    assert Utf8(c) == [0xF0 + cp / 262144, Cont(cp / 4096 % 64), Cont(cp / 64 % 64), Cont(cp % 64)];
    assert (cp / 262144) * 64 + cp / 4096 % 64 == cp / 4096;
    assert (cp / 4096) * 64 + cp / 64 % 64 == cp / 64;
    assert (cp / 64) * 64 + cp % 64 == cp;
  }

  /** UTF-8 decoding undoes UTF-8 encoding. */
  lemma {:induction false} Utf8RoundTrip(s: string)
    ensures Utf8Decode(Utf8Encode(s)) == Some(s)
    decreases |s|
  {
    if s != [] {
      var bs := Utf8Encode(s);
      DecodeOneOfUtf8(s[0], Utf8Encode(s[1..]));
      assert bs[|Utf8(s[0])|..] == Utf8Encode(s[1..]);
      Utf8RoundTrip(s[1..]);
      assert [s[0]] + s[1..] == s;
    }
  }

  // ---------------------------------------------------------------------
  // Percent-encoding
  // ---------------------------------------------------------------------

  /** The characters `encodeURIComponent` leaves as they are. */
  predicate Unreserved(c: char)
  {
    ('A' <= c <= 'Z') || ('a' <= c <= 'z') || ('0' <= c <= '9')
    || c == '-' || c == '_' || c == '.' || c == '!' || c == '~' || c == '*' || c == '\'' || c == '(' || c == ')'
  }

  /** An upper-case hex digit. */
  function HexDigit(n: int): (c: char)
    requires 0 <= n < 16
    ensures ('0' <= c <= '9') || ('A' <= c <= 'F')
  {
    if n < 10 then ('0' as int + n) as char else ('A' as int + n - 10) as char
  }

  /** The value of a hex digit of either case. */
  function HexValue(c: char): Option<int>
  {
    if '0' <= c <= '9' then Some(c as int - '0' as int)
    else if 'A' <= c <= 'F' then Some(c as int - 'A' as int + 10)
    else if 'a' <= c <= 'f' then Some(c as int - 'a' as int + 10)
    else None
  }

  lemma HexValueOfDigit(n: int)
    requires 0 <= n < 16
    ensures HexValue(HexDigit(n)) == Some(n)
  {
  }

  /** `%XX` for one byte. */
  function PercentByte(b: Byte): string
  {
    ['%', HexDigit(b / 16), HexDigit(b % 16)]
  }

  /** `%XX` for each byte. */
  function PercentBytes(bs: seq<Byte>): string
    decreases |bs|
  {
    if bs == [] then [] else PercentByte(bs[0]) + PercentBytes(bs[1..])
  }

  function EncodeChar(c: char): string
  {
    if Unreserved(c) then [c] else PercentBytes(Utf8(c))
  }

  /** `encodeURIComponent`. */
  function Encode(s: string): string
    decreases |s|
  {
    if s == [] then [] else EncodeChar(s[0]) + Encode(s[1..])
  }

  /** What `Encode` can produce: unreserved characters, `%` and upper-case hex digits. */
  predicate EncodedChar(c: char)
  {
    Unreserved(c) || c == '%'
  }

  lemma {:induction false} PercentBytesChars(bs: seq<Byte>)
    ensures forall c :: c in PercentBytes(bs) ==> EncodedChar(c)
    decreases |bs|
  {
    if bs != [] {
      PercentBytesChars(bs[1..]);
    }
  }

  /**
   * The output of `Encode` holds only unreserved characters and `%`: in
   * particular no `#`, `&`, `=`, `+`, `?` or space.
   */
  lemma {:induction false} EncodeChars(s: string)
    ensures forall c :: c in Encode(s) ==> EncodedChar(c)
    decreases |s|
  {
    if s != [] {
      PercentBytesChars(Utf8(s[0]));
      EncodeChars(s[1..]);
    }
  }

  /** A string of unreserved characters is its own encoding. */
  lemma {:induction false} EncodeUnreserved(s: string)
    requires forall c :: c in s ==> Unreserved(c)
    ensures Encode(s) == s
    decreases |s|
  {
    if s != [] {
      EncodeUnreserved(s[1..]);
      assert [s[0]] + s[1..] == s;
    }
  }

  /** `Encode` works character by character, so it distributes over concatenation. */
  lemma {:induction false} EncodeAppend(a: string, b: string)
    ensures Encode(a + b) == Encode(a) + Encode(b)
    decreases |a|
  {
    if a == [] {
      assert a + b == b;
    } else {
      assert (a + b)[0] == a[0];
      assert (a + b)[1..] == a[1..] + b;
      EncodeAppend(a[1..], b);
    }
  }

  // ---------------------------------------------------------------------
  // Decoding of query-string values
  // ---------------------------------------------------------------------

  /**
   * The bytes a query-string value stands for: `%XX` is the byte XX, `+` is
   * a space, and any other character (a `%` not followed by two hex digits
   * included) stands for its UTF-8 bytes.
   */
  function UnescapeBytes(s: string): seq<Byte>
    decreases |s|
  {
    if s == [] then []
    else if s[0] == '%' && |s| >= 3 && HexValue(s[1]).Some? && HexValue(s[2]).Some? then
      [HexValue(s[1]).value * 16 + HexValue(s[2]).value] + UnescapeBytes(s[3..])
    else if s[0] == '+' then [0x20] + UnescapeBytes(s[1..])
    else Utf8(s[0]) + UnescapeBytes(s[1..])
  }

  /** The text of a query-string value; `None` when its bytes are not UTF-8. */
  function Decode(s: string): Option<string>
  {
    Utf8Decode(UnescapeBytes(s))
  }

  lemma {:induction false} UnescapePercentBytes(bs: seq<Byte>, rest: string)
    ensures UnescapeBytes(PercentBytes(bs) + rest) == bs + UnescapeBytes(rest)
    decreases |bs|
  {
    if bs == [] {
      assert PercentBytes(bs) + rest == rest;
    } else {
      var tail := PercentBytes(bs[1..]) + rest;
      assert PercentBytes(bs) + rest == PercentByte(bs[0]) + tail;
      UnescapePercentByte(bs[0], tail);
      UnescapePercentBytes(bs[1..], rest);
      assert [bs[0]] + bs[1..] == bs;
    }
  }

  /** One `%XX` escape unescapes to its byte. */
  lemma UnescapePercentByte(b: Byte, tail: string)
    ensures UnescapeBytes(PercentByte(b) + tail) == [b] + UnescapeBytes(tail)
  {
    HexValueOfDigit(b / 16);
    HexValueOfDigit(b % 16);
    var s := PercentByte(b) + tail;
    assert s[0] == '%' && s[1] == HexDigit(b / 16) && s[2] == HexDigit(b % 16);
    assert s[3..] == tail;
    assert HexValue(s[1]).value * 16 + HexValue(s[2]).value == b;
  }

  /** Unescaping an encoded string gives the UTF-8 bytes of the original. */
  lemma {:induction false} UnescapeEncode(s: string)
    ensures UnescapeBytes(Encode(s)) == Utf8Encode(s)
    decreases |s|
  {
    if s != [] {
      var c := s[0];
      UnescapeEncode(s[1..]);
      if Unreserved(c) {
        assert (EncodeChar(c) + Encode(s[1..]))[1..] == Encode(s[1..]);
      } else {
        UnescapePercentBytes(Utf8(c), Encode(s[1..]));
      }
    }
  }

  /** Decoding undoes `encodeURIComponent`: exactly one level of percent-encoding is removed. */
  lemma EncodeDecodeRoundTrip(s: string)
    ensures Decode(Encode(s)) == Some(s)
  {
    UnescapeEncode(s);
    Utf8RoundTrip(s);
  }
}
