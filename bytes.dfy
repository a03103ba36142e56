/** Byte strings, the UTF-8 encoding of `str.encode('utf-8')`, the lowercase
    hexadecimal of `hexdigest()`, and the two hash primitives the signer uses.
    SHA-256 (FIPS 180-4) and HMAC-SHA256 (RFC 2104) are not defined here: they
    are supplied as function values, so every property below holds whatever
    hash function is plugged in. */
module Bytes {

  newtype byte = b: int | 0 <= b < 256

  /** UTF-8 (RFC 3629) encoding of one Unicode scalar value. */
  function EncodeChar(c: char): (r: seq<byte>)
    ensures 1 <= |r| <= 4
  {
    var n := c as int;
    if n < 0x80 then [n as byte]
    else if n < 0x800 then [(0xC0 + n / 0x40) as byte, (0x80 + n % 0x40) as byte]
    else if n < 0x10000 then
      [(0xE0 + n / 0x1000) as byte, (0x80 + (n / 0x40) % 0x40) as byte, (0x80 + n % 0x40) as byte]
    else
      [(0xF0 + n / 0x40000) as byte, (0x80 + (n / 0x1000) % 0x40) as byte,
       (0x80 + (n / 0x40) % 0x40) as byte, (0x80 + n % 0x40) as byte]
  }

  /** `s.encode('utf-8')`. */
  function Utf8(s: string): (r: seq<byte>)
    ensures |s| <= |r| <= 4 * |s|
  {
    if |s| == 0 then [] else EncodeChar(s[0]) + Utf8(s[1..])
  }

  /** A string of ASCII characters encodes to one byte per character, its
      code point. */
  lemma {:induction false} Utf8Ascii(s: string)
    requires forall i :: 0 <= i < |s| ==> s[i] as int < 0x80
    ensures |Utf8(s)| == |s|
    ensures forall i :: 0 <= i < |s| ==> Utf8(s)[i] as int == s[i] as int
  {
    if |s| > 0 {
      Utf8Ascii(s[1..]);
      assert Utf8(s) == [s[0] as int as byte] + Utf8(s[1..]);
    }
  }

  predicate IsHexChar(c: char)
  {
    '0' <= c <= '9' || 'a' <= c <= 'f'
  }

  function HexDigit(d: int): (c: char)
    requires 0 <= d < 16
    ensures IsHexChar(c)
  {
    "0123456789abcdef"[d]
  }

  /** `digest.hex()`: two lowercase hexadecimal characters per byte, most
      significant nibble first. */
  function Hex(b: seq<byte>): (r: string)
    ensures |r| == 2 * |b|
    ensures forall i :: 0 <= i < |r| ==> IsHexChar(r[i])
    ensures forall i :: 0 <= i < |b| ==>
      r[2 * i] == HexDigit(b[i] as int / 16) && r[2 * i + 1] == HexDigit(b[i] as int % 16)
  {
    if |b| == 0 then ""
    else
      var rest := Hex(b[1..]);
      var r := [HexDigit(b[0] as int / 16), HexDigit(b[0] as int % 16)] + rest;
      forall i | 1 <= i < |b|
        ensures r[2 * i] == HexDigit(b[i] as int / 16) && r[2 * i + 1] == HexDigit(b[i] as int % 16)
      {
        assert b[i] == b[1..][i - 1];
        assert r[2 * i] == rest[2 * (i - 1)];
        assert r[2 * i + 1] == rest[2 * (i - 1) + 1];
      }
      r
  }

  /** Each hex digit names its nibble: `HexDigit` is one-to-one. */
  lemma HexDigitInjective(d1: int, d2: int)
    requires 0 <= d1 < 16 && 0 <= d2 < 16
    requires HexDigit(d1) == HexDigit(d2)
    ensures d1 == d2
  {
  }

  /** `hexdigest()` loses nothing: equal hex strings come from equal
      digests. */
  lemma HexInjective(b1: seq<byte>, b2: seq<byte>)
    requires Hex(b1) == Hex(b2)
    ensures b1 == b2
  {
    forall i | 0 <= i < |b1| ensures b1[i] == b2[i] {
      HexDigitInjective(b1[i] as int / 16, b2[i] as int / 16);
      HexDigitInjective(b1[i] as int % 16, b2[i] as int % 16);
    }
  }

  /** The hash primitives, passed in rather than implemented. */
  datatype Crypto = Crypto(
    sha256: seq<byte> -> seq<byte>,               // hashlib.sha256(m).digest()
    hmac: (seq<byte>, seq<byte>) -> seq<byte>)    // hmac.new(key, m, sha256).digest()

  /** `hashlib.sha256(s.encode('utf-8')).hexdigest()`. */
  function Sha256Hex(cr: Crypto, s: string): (r: string)
    ensures forall i :: 0 <= i < |r| ==> IsHexChar(r[i])
  {
    Hex(cr.sha256(Utf8(s)))
  }

  /** `hmac.new(key, msg.encode('utf-8'), hashlib.sha256).digest()`. */
  function HmacOf(cr: Crypto, key: seq<byte>, msg: string): seq<byte>
  {
    cr.hmac(key, Utf8(msg))
  }
}
