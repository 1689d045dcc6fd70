/** UTF-8 (RFC 3629): every string is encoded, and decoding is strict. */
module Utf8 {
  import opened Prelude

  type Byte = b: int | 0 <= b < 256

  function EncodeChar(c: char): seq<Byte> {
    var n := c as int;
    if n < 0x80 then [n]
    else if n < 0x800 then [0xC0 + n / 64, 0x80 + n % 64]
    else if n < 0x10000 then [0xE0 + n / 4096, 0x80 + n / 64 % 64, 0x80 + n % 64]
    else [0xF0 + n / 262144, 0x80 + n / 4096 % 64, 0x80 + n / 64 % 64, 0x80 + n % 64]
  }

  function Encode(s: string): seq<Byte> {
    if s == [] then [] else EncodeChar(s[0]) + Encode(s[1..])
  }

  predicate Continues(bytes: seq<Byte>, n: nat) {
    n <= |bytes| && forall i :: 0 <= i < n ==> 0x80 <= bytes[i] < 0xC0
  }

  /** The six payload bits of a continuation byte. */
  function Payload(b: Byte): int {
    b as int - 0x80
  }

  /** The first character and the bytes behind it; overlong forms, surrogates and stray bytes are refused. */
  function DecodeChar(bytes: seq<Byte>): (r: Option<(char, seq<Byte>)>)
    ensures r.Some? ==> |r.value.1| < |bytes|
  {
    if bytes == [] then None
    else
      var b: int, rest := bytes[0] as int, bytes[1..];
      if b < 0x80 then Some((b as char, rest))
      else if 0xC2 <= b < 0xE0 && Continues(rest, 1) then
        Some((((b - 0xC0) * 64 + Payload(rest[0])) as char, rest[1..]))
      else if 0xE0 <= b < 0xF0 && Continues(rest, 2) then
        var n := (b - 0xE0) * 4096 + Payload(rest[0]) * 64 + Payload(rest[1]);
        if 0x800 <= n && !(0xD800 <= n < 0xE000) then Some((n as char, rest[2..])) else None
      else if 0xF0 <= b < 0xF5 && Continues(rest, 3) then
        var n := (b - 0xF0) * 262144 + Payload(rest[0]) * 4096 + Payload(rest[1]) * 64 + Payload(rest[2]);
        if 0x10000 <= n < 0x110000 then Some((n as char, rest[3..])) else None
      else None
  }

  function Decode(bytes: seq<Byte>): Option<string>
    decreases |bytes|
  {
    if bytes == [] then Some("")
    else
      match DecodeChar(bytes)
      case None => None
      case Some((c, rest)) =>
        match Decode(rest)
        case None => None
        case Some(tail) => Some([c] + tail)
  }

  lemma TwoBytes(a: int, b: int, rest: seq<Byte>)
    requires 2 <= a < 32 && 0 <= b < 64
    ensures DecodeChar([0xC0 + a, 0x80 + b] + rest) == Some(((a * 64 + b) as char, rest))
  {
    var bytes: seq<Byte> := [0xC0 + a, 0x80 + b] + rest;
    assert bytes[1..] == [0x80 + b] + rest && bytes[1..][1..] == rest;
  }

  lemma ThreeBytes(a: int, b: int, c: int, rest: seq<Byte>)
    requires 0 <= a < 16 && 0 <= b < 64 && 0 <= c < 64
    requires 0x800 <= a * 4096 + b * 64 + c && !(0xD800 <= a * 4096 + b * 64 + c < 0xE000)
    ensures DecodeChar([0xE0 + a, 0x80 + b, 0x80 + c] + rest) == Some(((a * 4096 + b * 64 + c) as char, rest))
  {
    var bytes: seq<Byte> := [0xE0 + a, 0x80 + b, 0x80 + c] + rest;
    assert bytes[1..] == [0x80 + b, 0x80 + c] + rest && bytes[1..][2..] == rest;
  }

  lemma FourBytes(a: int, b: int, c: int, d: int, rest: seq<Byte>)
    requires 0 <= a < 5 && 0 <= b < 64 && 0 <= c < 64 && 0 <= d < 64
    requires 0x10000 <= a * 262144 + b * 4096 + c * 64 + d < 0x110000
    ensures DecodeChar([0xF0 + a, 0x80 + b, 0x80 + c, 0x80 + d] + rest)
            == Some(((a * 262144 + b * 4096 + c * 64 + d) as char, rest))
  {
    var bytes: seq<Byte> := [0xF0 + a, 0x80 + b, 0x80 + c, 0x80 + d] + rest;
    assert bytes[1..] == [0x80 + b, 0x80 + c, 0x80 + d] + rest && bytes[1..][3..] == rest;
  }

  /** The base-64 digits of a code point. */
  lemma Digits(n: nat)
    ensures n == n / 64 * 64 + n % 64
    ensures n / 64 == n / 4096 * 64 + n / 64 % 64
    ensures n / 4096 == n / 262144 * 64 + n / 4096 % 64
  {
  }

  lemma CharRoundTrip(c: char, rest: seq<Byte>)
    ensures DecodeChar(EncodeChar(c) + rest) == Some((c, rest))
  {
    hide DecodeChar;
    var n := c as int;
    Digits(n);
    if n < 0x80 {
      OneByte(c, rest);
    } else if n < 0x800 {
      TwoBytes(n / 64, n % 64, rest);
    } else if n < 0x10000 {
      ThreeBytes(n / 4096, n / 64 % 64, n % 64, rest);
    } else {
      FourBytes(n / 262144, n / 4096 % 64, n / 64 % 64, n % 64, rest);
    }
  }

  lemma OneByte(c: char, rest: seq<Byte>)
    requires c as int < 0x80
    ensures DecodeChar([c as int] + rest) == Some((c, rest))
  {
    var bytes: seq<Byte> := [c as int] + rest;
    assert bytes[1..] == rest;
  }

  /** Decoding gives back every encoded string. */
  lemma {:induction false} RoundTrip(s: string)
    ensures Decode(Encode(s)) == Some(s)
  {
    if s != [] {
      CharRoundTrip(s[0], Encode(s[1..]));
      RoundTrip(s[1..]);
      assert s == [s[0]] + s[1..];
    }
  }

  lemma {:induction false} EncodedLength(s: string)
    ensures |Encode(s)| <= 4 * |s|
  {
    if s != [] {
      EncodedLength(s[1..]);
    }
  }
}
