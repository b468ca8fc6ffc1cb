/** UTF-8 (RFC 3629), as `str::as_bytes` and `String::from_utf8` apply it. */
module Utf8 {
  import opened Std

  type u8 = x: int | 0 <= x < 256

  function EncodeChar(c: char): (b: seq<u8>)
    ensures 1 <= |b| <= 4
  {
    var n := c as int;
    if n < 0x80 then [n]
    else if n < 0x800 then [0xC0 + n / 64, 0x80 + n % 64]
    else if n < 0x1_0000 then [0xE0 + n / 4096, 0x80 + n / 64 % 64, 0x80 + n % 64]
    else [0xF0 + n / 262144, 0x80 + n / 4096 % 64, 0x80 + n / 64 % 64, 0x80 + n % 64]
  }

  predicate Continues(b: seq<u8>, from: nat, to: nat) {
    to <= |b| && forall i | from <= i < to :: 0x80 <= b[i] < 0xC0
  }

  function Low(x: int): int {
    x - 0x80
  }

  /** The first scalar value of `b` and how many bytes it takes; overlong forms and surrogates are refused. */
  function DecodeChar(b: seq<u8>): (r: Option<(char, nat)>)
    requires b != []
    ensures r.Some? ==> 1 <= r.value.1 <= |b|
  {
    var h: int := b[0];
    if h < 0x80 then Some((h as char, 1))
    else if 0xC0 <= h < 0xE0 && Continues(b, 1, 2) then
      Scalar((h - 0xC0) * 64 + Low(b[1]), 0x80, 2)
    else if 0xE0 <= h < 0xF0 && Continues(b, 1, 3) then
      Scalar((h - 0xE0) * 4096 + Low(b[1]) * 64 + Low(b[2]), 0x800, 3)
    else if 0xF0 <= h < 0xF8 && Continues(b, 1, 4) then
      Scalar((h - 0xF0) * 262144 + Low(b[1]) * 4096 + Low(b[2]) * 64 + Low(b[3]), 0x1_0000, 4)
    else None
  }

  function Scalar(n: int, least: nat, len: nat): Option<(char, nat)> {
    if least <= n < 0xD800 || (least <= n && 0xE000 <= n < 0x11_0000) then Some((n as char, len)) else None
  }

  function Encode(s: string): seq<u8> {
    if s == "" then [] else EncodeChar(s[0]) + Encode(s[1..])
  }

  function Decode(b: seq<u8>): Option<string> {
    if b == [] then Some("")
    else
      var (c, n) :- DecodeChar(b);
      var rest :- Decode(b[n..]);
      Some([c] + rest)
  }

  lemma Base64Digits(n: nat)
    ensures n == n / 64 * 64 + n % 64
    ensures n / 4096 * 64 + n / 64 % 64 == n / 64
    ensures n / 262144 * 64 + n / 4096 % 64 == n / 4096
  {
    assert n / 4096 == n / 64 / 64;
    assert n / 262144 == n / 4096 / 64;
  }

  lemma DecodeEncodedChar(c: char, tail: seq<u8>)
    ensures DecodeChar(EncodeChar(c) + tail) == Some((c, |EncodeChar(c)|))
  {
    var n := c as int;
    var b := EncodeChar(c) + tail;
    Base64Digits(n);
    if 0x800 <= n < 0x1_0000 {
      assert b[0] - 0xE0 == n / 4096 && b[1] - 0x80 == n / 64 % 64 && b[2] - 0x80 == n % 64;
    } else if n >= 0x1_0000 {
      assert b[0] - 0xF0 == n / 262144 && b[1] - 0x80 == n / 4096 % 64;
      assert b[2] - 0x80 == n / 64 % 64 && b[3] - 0x80 == n % 64;
    }
  }

  lemma {:induction false} RoundTrip(s: string)
    ensures Decode(Encode(s)) == Some(s)
  {
    if s != "" {
      var e := EncodeChar(s[0]);
      DecodeEncodedChar(s[0], Encode(s[1..]));
      assert Encode(s)[|e|..] == Encode(s[1..]);
      RoundTrip(s[1..]);
      assert [s[0]] + s[1..] == s;
    }
  }
}
