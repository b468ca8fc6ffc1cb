/** Little-endian integers, LEB128 varints and length-prefixed bytes (`protocol/codec.rs`).
    A reader is the sequence of bytes still to be read. */
module Codec {
  import opened Std
  import Utf8

  type u8 = Utf8.u8
  type u16 = x: int | 0 <= x < 0x1_0000
  type u32 = x: int | 0 <= x < 0x1_0000_0000
  type u64 = x: int | 0 <= x < 0x1_0000_0000_0000_0000
  type i32 = x: int | -0x8000_0000 <= x < 0x8000_0000

  /** `MAX_BYTES`: the cap on any length-prefixed field. */
  const MAX_BYTES: nat := 65535

  // ---- fixed-width integers ----

  function Pow256(k: nat): (p: nat)
    ensures p > 0
  {
    if k == 0 then 1 else 256 * Pow256(k - 1)
  }

  function Le(n: nat, k: nat): (b: seq<u8>)
    ensures |b| == k
  {
    seq(k, i requires 0 <= i < k => n / Pow256(i) % 256)
  }

  function FromLe(b: seq<u8>): nat {
    if b == [] then 0 else b[0] + 256 * FromLe(b[1..])
  }

  function ReadLe(s: seq<u8>, k: nat): Option<(nat, seq<u8>)> {
    if |s| < k then None else Some((FromLe(s[..k]), s[k..]))
  }

  lemma SmallMultiple(d: int, k: int)
    requires -d < d * k < d
    ensures k == 0
  {
    assert k >= 1 ==> d * k >= d;
    assert k <= -1 ==> d * k <= -d;
  }

  lemma DivisionIsUnique(n: nat, d: nat, q: nat, r: nat)
    requires r < d && n == d * q + r
    ensures n / d == q
  {
    assert d * (n / d - q) == r - n % d;
    SmallMultiple(d, n / d - q);
  }

  lemma NestedDivision(n: nat, p: nat)
    requires p > 0
    ensures n / (256 * p) == n / 256 / p
  {
    var h := n / 256;
    assert n == 256 * (p * (h / p) + h % p) + n % 256;
    assert 256 * (p * (h / p)) == 256 * p * (h / p);
    DivisionIsUnique(n, 256 * p, h / p, 256 * (h % p) + n % 256);
  }

  lemma LeTail(n: nat, k: nat)
    requires k > 0
    ensures Le(n, k) == [n % 256] + Le(n / 256, k - 1)
  {
    forall i | 1 <= i < k
      ensures Le(n, k)[i] == Le(n / 256, k - 1)[i - 1]
    {
      NestedDivision(n, Pow256(i - 1));
    }
  }

  lemma {:induction false} FromLeOfLe(n: nat, k: nat)
    requires n < Pow256(k)
    ensures FromLe(Le(n, k)) == n
  {
    if k > 0 {
      LeTail(n, k);
      FromLeOfLe(n / 256, k - 1);
      assert Le(n, k)[1..] == Le(n / 256, k - 1);
    }
  }

  lemma ReadWrittenLe(n: nat, k: nat, tail: seq<u8>)
    requires n < Pow256(k)
    ensures ReadLe(Le(n, k) + tail, k) == Some((n, tail))
  {
    FromLeOfLe(n, k);
    assert (Le(n, k) + tail)[..k] == Le(n, k);
    assert (Le(n, k) + tail)[k..] == tail;
  }

  lemma FromLeBound(b: seq<u8>)
    ensures FromLe(b) < Pow256(|b|)
  {
  }

  lemma Widths()
    ensures Pow256(1) == 0x100 && Pow256(2) == 0x1_0000 && Pow256(4) == 0x1_0000_0000
    ensures Pow256(8) == 0x1_0000_0000_0000_0000
  {
    assert Pow256(3) == 0x100_0000;
    assert Pow256(4) == 256 * Pow256(3);
    assert Pow256(5) == 256 * Pow256(4);
    assert Pow256(6) == 256 * Pow256(5);
    assert Pow256(7) == 256 * Pow256(6);
    assert Pow256(8) == 256 * Pow256(7);
  }

  function ReadU64(s: seq<u8>): Option<(u64, seq<u8>)> {
    var (n, rest) :- ReadLe(s, 8);
    FromLeBound(s[..8]);
    Widths();
    Some((n, rest))
  }

  // ---- varints ----

  function Varuint(v: nat): (b: seq<u8>)
    ensures |b| >= 1
  {
    if v < 128 then [v] else [v % 128 + 128] + Varuint(v / 128)
  }

  /** How many values the septets from the k-th on can spell; the fifth byte has room for four bits of a u32. */
  function Cap(k: nat): (c: nat)
    requires k < 5
  {
    if k == 0 then 0x1_0000_0000 else if k == 1 then 0x200_0000 else if k == 2 then 0x4_0000 else if k == 3 then 0x800 else 16
  }

  function Septet(byte: u8, k: nat): nat {
    if k < 4 then byte % 128 else byte % 16
  }

  /** Septets from the k-th on, least significant first; at most five bytes. */
  function ReadVaruintAt(s: seq<u8>, k: nat): (r: Option<(nat, seq<u8>)>)
    requires k <= 5
    ensures r.Some? && k < 5 ==> r.value.0 < Cap(k)
    decreases 5 - k
  {
    if k == 5 || s == [] then None
    else if s[0] < 128 then Some((Septet(s[0], k), s[1..]))
    else
      var (high, rest) :- ReadVaruintAt(s[1..], k + 1);
      Some((Septet(s[0], k) + 128 * high, rest))
  }

  function ReadVaruint(s: seq<u8>): Option<(u32, seq<u8>)> {
    var (value, rest) :- ReadVaruintAt(s, 0);
    Some((value, rest))
  }

  lemma {:induction false} ReadWrittenVaruintAt(v: nat, k: nat, tail: seq<u8>)
    requires k < 5 && v < Cap(k)
    ensures ReadVaruintAt(Varuint(v) + tail, k) == Some((v, tail))
    ensures |Varuint(v)| <= 5 - k
    decreases 5 - k
  {
    if v >= 128 {
      ReadWrittenVaruintAt(v / 128, k + 1, tail);
      assert (Varuint(v) + tail)[1..] == Varuint(v / 128) + tail;
    } else {
      assert (Varuint(v) + tail)[1..] == tail;
    }
  }

  lemma ReadWrittenVaruint(v: u32, tail: seq<u8>)
    ensures ReadVaruint(Varuint(v) + tail) == Some((v, tail))
    ensures |Varuint(v)| <= 5
  {
    ReadWrittenVaruintAt(v, 0, tail);
  }

  method WriteVaruint32(w: seq<u8>, value: u32) returns (r: seq<u8>)
    ensures r == w + Varuint(value)
  {
    r := w;
    var left: int := value;
    while left >= 0x80
      invariant 0 <= left < 0x1_0000_0000
      invariant r + Varuint(left) == w + Varuint(value)
    {
      r := r + [left % 128 + 128];
      left := left / 128;
    }
    r := r + [left];
  }

  /** `x << 7k`. */
  function Shifted(x: nat, k: nat): nat {
    if k == 0 then x else 128 * Shifted(x, k - 1)
  }

  lemma {:induction false} ShiftedSum(low: nat, high: nat, k: nat)
    ensures Shifted(low + 128 * high, k) == Shifted(low, k) + Shifted(high, k + 1)
  {
    if k > 0 {
      ShiftedSum(low, high, k - 1);
    }
  }

  ghost function Accumulated(value: nat, k: nat, r: Option<(nat, seq<u8>)>): Option<(nat, seq<u8>)> {
    if r.None? then None else Some((value + Shifted(r.value.0, k), r.value.1))
  }

  /** The reading loop; the bits already in `value` lie below the shift, so adding is the bitwise or. */
  method ReadVaruint32(s: seq<u8>) returns (r: Option<(u32, seq<u8>)>)
    ensures r == ReadVaruint(s)
  {
    var value: nat := 0;
    var k: nat := 0;
    var rest := s;
    while k < 5
      invariant k <= 5
      invariant ReadVaruintAt(s, 0) == Accumulated(value, k, ReadVaruintAt(rest, k))
    {
      if rest == [] {
        return None;
      }
      var byte := rest[0];
      var septet := Septet(byte, k);
      if byte < 128 {
        return Some((value + Shifted(septet, k), rest[1..]));
      }
      ghost var high := ReadVaruintAt(rest[1..], k + 1);
      if high.Some? {
        ShiftedSum(septet, high.value.0, k);
      }
      value := value + Shifted(septet, k);
      rest := rest[1..];
      k := k + 1;
    }
    return None;
  }

  /** `(value << 1) ^ (value >> 31)` read as u32. */
  function ZigZag(v: i32): u32 {
    if v >= 0 then 2 * v else -2 * v - 1
  }

  /** `(raw >> 1) ^ -(raw & 1)` read as i32. */
  function UnZigZag(raw: u32): i32 {
    if raw % 2 == 0 then raw / 2 else -(raw / 2) - 1
  }

  function Varint(v: i32): seq<u8> {
    Varuint(ZigZag(v))
  }

  function ReadVarint(s: seq<u8>): Option<(i32, seq<u8>)> {
    var (raw, rest) :- ReadVaruint(s);
    Some((UnZigZag(raw), rest))
  }

  lemma ReadWrittenVarint(v: i32, tail: seq<u8>)
    ensures ReadVarint(Varint(v) + tail) == Some((v, tail))
    ensures |Varint(v)| <= 5
  {
    ReadWrittenVaruint(ZigZag(v), tail);
  }

  // ---- length-prefixed bytes ----

  function ReadLenBytes(s: seq<u8>, len: nat): Option<(seq<u8>, seq<u8>)> {
    if len > MAX_BYTES || |s| < len then None else Some((s[..len], s[len..]))
  }

  function ReadBytesU8(s: seq<u8>): Option<(seq<u8>, seq<u8>)> {
    var (len, rest) :- ReadLe(s, 1);
    ReadLenBytes(rest, len)
  }

  function ReadBytesU32(s: seq<u8>): Option<(seq<u8>, seq<u8>)> {
    var (len, rest) :- ReadLe(s, 4);
    ReadLenBytes(rest, len)
  }

  function BytesU32(data: seq<u8>): Option<seq<u8>> {
    if |data| > MAX_BYTES then None else Some(Le(|data|, 4) + data)
  }

  /** `as u32`. */
  function AsU32(n: nat): u32 {
    if n < 0x1_0000_0000 then n else n % 0x1_0000_0000
  }

  function BytesVaruint(data: seq<u8>): seq<u8> {
    Varuint(AsU32(|data|)) + data
  }

  function ReadBytesVaruint(s: seq<u8>): Option<(seq<u8>, seq<u8>)> {
    var (len, rest) :- ReadVaruint(s);
    ReadLenBytes(rest, len)
  }

  lemma ReadWrittenBytesU32(data: seq<u8>, tail: seq<u8>)
    requires |data| <= MAX_BYTES
    ensures ReadBytesU32(BytesU32(data).value + tail) == Some((data, tail))
  {
    var rest := data + tail;
    assert BytesU32(data).value + tail == Le(|data|, 4) + rest;
    assert ReadLe(BytesU32(data).value + tail, 4) == Some((|data|, rest)) by {
      Widths();
      ReadWrittenLe(|data|, 4, rest);
    }
    assert rest[..|data|] == data && rest[|data|..] == tail;
  }

  lemma ReadWrittenBytesVaruint(data: seq<u8>, tail: seq<u8>)
    requires |data| <= MAX_BYTES
    ensures ReadBytesVaruint(BytesVaruint(data) + tail) == Some((data, tail))
  {
    var len: u32 := |data|;
    var rest := data + tail;
    assert BytesVaruint(data) + tail == Varuint(len) + rest;
    assert ReadVaruint(BytesVaruint(data) + tail) == Some((len, rest)) by {
      ReadWrittenVaruint(len, rest);
    }
    assert rest[..|data|] == data && rest[|data|..] == tail;
  }

  lemma BytesVaruintLength(data: seq<u8>)
    ensures |data| <= |BytesVaruint(data)| <= 5 + |data|
  {
    ReadWrittenVaruint(AsU32(|data|), []);
  }
}
