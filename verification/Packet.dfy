/** Discovery packets and their datagram form (`discovery/packet.rs`, `response.rs`, `message.rs`, `request.rs`). */
module Packet {
  import opened Std
  import opened Codec
  import opened Crypto
  import Utf8

  datatype Packet =
    | Request
    | Response(applicationData: seq<u8>)
    | Message(recipientId: u64, data: string)

  // ---- hex (the response body) ----

  function HexDigit(n: nat): u8
    requires n < 16
  {
    if n < 10 then 48 + n else 87 + n
  }

  function HexValue(c: u8): Option<nat> {
    if 48 <= c <= 57 then Some(c - 48)
    else if 97 <= c <= 102 then Some(c - 87)
    else if 65 <= c <= 70 then Some(c - 55)
    else None
  }

  function Hex(b: seq<u8>): (h: seq<u8>)
    ensures |h| == 2 * |b|
  {
    if b == [] then [] else [HexDigit(b[0] / 16), HexDigit(b[0] % 16)] + Hex(b[1..])
  }

  /** Digits and lower-case letters, which name the value of each half byte. */
  lemma {:induction false} HexDigitsAre(b: seq<u8>, i: nat)
    requires i < |b|
    ensures var (high, low) := (Hex(b)[2 * i], Hex(b)[2 * i + 1]);
            && HexValue(high) == Some(b[i] / 16) && HexValue(low) == Some(b[i] % 16)
            && (48 <= high <= 57 || 97 <= high <= 102) && (48 <= low <= 57 || 97 <= low <= 102)
  {
    if i > 0 {
      HexDigitsAre(b[1..], i - 1);
      assert Hex(b)[2..] == Hex(b[1..]);
      assert Hex(b)[2 * i] == Hex(b)[2..][2 * i - 2] && Hex(b)[2 * i + 1] == Hex(b)[2..][2 * i - 1];
    }
  }

  function Unhex(h: seq<u8>): Option<seq<u8>> {
    if h == [] then Some([])
    else if |h| == 1 then None
    else
      var high :- HexValue(h[0]);
      var low :- HexValue(h[1]);
      var rest :- Unhex(h[2..]);
      assert high < 16 && low < 16;
      Some([high * 16 + low] + rest)
  }

  lemma {:induction false} UnhexOfHex(b: seq<u8>)
    ensures Unhex(Hex(b)) == Some(b)
  {
    if b != [] {
      UnhexOfHex(b[1..]);
      assert Hex(b)[2..] == Hex(b[1..]);
      assert [b[0]] + b[1..] == b;
    }
  }

  lemma {:induction false} HexAppend(a: seq<u8>, b: seq<u8>)
    ensures Hex(a + b) == Hex(a) + Hex(b)
  {
    if a == [] {
      assert a + b == b;
    } else {
      HexAppend(a[1..], b);
      assert (a + b)[1..] == a[1..] + b;
    }
  }

  /** `hex::encode_to_slice` into a prefix of a fixed buffer. */
  method HexIntoBuffer(chunk: seq<u8>, buf: array<u8>)
    requires 2 * |chunk| <= buf.Length
    modifies buf
    ensures buf[..2 * |chunk|] == Hex(chunk)
    ensures buf[2 * |chunk|..] == old(buf[2 * |chunk|..])
  {
    for i := 0 to |chunk|
      invariant buf[..2 * i] == Hex(chunk[..i])
      invariant buf[2 * |chunk|..] == old(buf[2 * |chunk|..])
    {
      buf[2 * i] := HexDigit(chunk[i] / 16);
      buf[2 * i + 1] := HexDigit(chunk[i] % 16);
      HexAppend(chunk[..i], [chunk[i]]);
      assert chunk[..i + 1] == chunk[..i] + [chunk[i]];
      assert Hex([chunk[i]]) == [HexDigit(chunk[i] / 16), HexDigit(chunk[i] % 16)];
      assert buf[..2 * (i + 1)] == buf[..2 * i] + [buf[2 * i], buf[2 * i + 1]];
    }
    assert chunk[..|chunk|] == chunk;
  }

  /** Hex is written in chunks of 512 bytes through one reused buffer. */
  method SerializeResponse(w: seq<u8>, data: seq<u8>) returns (r: seq<u8>)
    ensures r == w + ResponseBody(data)
  {
    var buf := new u8[2048](i => 0);
    r := w + Le(AsU32(2 * |data|), 4);
    ghost var start := r;
    var i := 0;
    while i < |data|
      invariant 0 <= i <= |data|
      invariant r == start + Hex(data[..i])
    {
      var next := if i + 512 < |data| then i + 512 else |data|;
      var chunk := data[i..next];
      HexIntoBuffer(chunk, buf);
      r := r + buf[..2 * |chunk|];
      assert Hex(data[..next]) == Hex(data[..i]) + Hex(chunk) by {
        HexAppend(data[..i], chunk);
        assert data[..next] == data[..i] + chunk;
      }
      i := next;
    }
    assert data[..|data|] == data;
  }

  // ---- bodies ----

  function ResponseBody(data: seq<u8>): seq<u8> {
    Le(AsU32(2 * |data|), 4) + Hex(data)
  }

  function Body(p: Packet): Option<seq<u8>> {
    match p
    case Request => Some([])
    case Response(data) => Some(ResponseBody(data))
    case Message(recipient, data) =>
      var text :- BytesU32(Utf8.Encode(data));
      Some(Le(recipient, 8) + text)
  }

  function Id(p: Packet): u16 {
    match p case Request => 0 case Response(_) => 1 case Message(_, _) => 2
  }

  function ReadBody(id: nat, s: seq<u8>): Option<(Packet, seq<u8>)> {
    if id == 0 then Some((Request, s))
    else if id == 1 then
      var (hex, rest) :- ReadBytesU32(s);
      var data :- Unhex(hex);
      Some((Response(data), rest))
    else if id == 2 then
      var (recipient, s1) :- ReadU64(s);
      var (bytes, rest) :- ReadBytesU32(s1);
      var text :- Utf8.Decode(bytes);
      Some((Message(recipient, text), rest))
    else None
  }

  function Zeros(n: nat): seq<u8> {
    seq(n, i => 0)
  }

  /** Packet id and sender id, then eight zero bytes. */
  function Header(id: u16, sender: u64): (b: seq<u8>)
    ensures |b| == 18
  {
    Le(id, 2) + (Le(sender, 8) + Zeros(8))
  }

  function ReadHeader(s: seq<u8>): Option<((nat, u64), seq<u8>)> {
    var (id, s1) :- ReadLe(s, 2);
    var (sender, s2) :- ReadU64(s1);
    var (_, s3) :- ReadLe(s2, 8);
    Some(((id, sender), s3))
  }

  /** Length, header and body in the clear; `None` when the body is refused or the length does not fit a u16. */
  function Payload(p: Packet, sender: u64): Option<seq<u8>> {
    var body :- Body(p);
    var len := 18 + |body|;
    if len > 0xFFFF then None else Some(Le(len, 2) + (Header(Id(p), sender) + body))
  }

  function Encode(p: Packet, sender: u64): Option<seq<u8>> {
    var payload :- Payload(p, sender);
    Some(HMAC.tag(payload) + Encrypt(payload))
  }

  /** Reads a payload; the length field and the eight header bytes are ignored, trailing bytes refused. */
  function ReadPayload(s: seq<u8>): Option<(Packet, u64)> {
    var (_, s0) :- ReadLe(s, 2);
    var (header, s1) :- ReadHeader(s0);
    var (p, rest) :- ReadBody(header.0, s1);
    if rest == [] then Some((p, header.1)) else None
  }

  function Decode(data: seq<u8>): Option<(Packet, u64)> {
    if |data| < TAG_SIZE then None
    else
      var payload :- Decrypt(data[TAG_SIZE..]);
      if HMAC.tag(payload) == data[..TAG_SIZE] then ReadPayload(payload) else None
  }

  // ---- round trip ----

  lemma ReadWrittenU64(n: u64, tail: seq<u8>)
    ensures ReadU64(Le(n, 8) + tail) == Some((n, tail))
  {
    Widths();
    ReadWrittenLe(n, 8, tail);
  }

  lemma ReadWrittenResponse(data: seq<u8>)
    requires 2 * |data| <= MAX_BYTES
    ensures ReadBytesU32(ResponseBody(data)) == Some((Hex(data), []))
  {
    var hex := Hex(data);
    ReadWrittenBytesU32(hex, []);
    assert ResponseBody(data) + [] == ResponseBody(data);
  }

  lemma ReadWrittenMessage(recipient: u64, bytes: seq<u8>)
    requires |bytes| <= MAX_BYTES
    ensures var body := Le(recipient, 8) + BytesU32(bytes).value;
            ReadU64(body).Some? && ReadU64(body).value.0 == recipient
            && ReadBytesU32(ReadU64(body).value.1) == Some((bytes, []))
  {
    var text := BytesU32(bytes).value;
    ReadWrittenU64(recipient, text);
    assert text + [] == text;
    ReadWrittenBytesU32(bytes, []);
  }

  lemma ReadWrittenBody(p: Packet)
    requires Body(p).Some? && 18 + |Body(p).value| <= 0xFFFF
    ensures ReadBody(Id(p), Body(p).value) == Some((p, []))
  {
    match p
    case Request =>
    case Response(data) =>
      UnhexOfHex(data);
      ReadWrittenResponse(data);
    case Message(recipient, data) =>
      ReadWrittenMessage(recipient, Utf8.Encode(data));
      Utf8.RoundTrip(data);
  }

  lemma ReadWrittenHeader(id: u16, sender: u64, body: seq<u8>)
    ensures ReadHeader(Header(id, sender) + body) == Some(((id, sender), body))
  {
    var t2 := Zeros(8) + body;
    var t1 := Le(sender, 8) + t2;
    assert Header(id, sender) + body == Le(id, 2) + t1;
    assert ReadLe(Le(id, 2) + t1, 2) == Some((id as nat, t1)) by {
      Widths();
      ReadWrittenLe(id, 2, t1);
    }
    ReadWrittenU64(sender, t2);
    assert t2[8..] == body;
  }

  lemma ReadWrittenPayload(p: Packet, sender: u64)
    requires Payload(p, sender).Some?
    ensures ReadPayload(Payload(p, sender).value) == Some((p, sender))
  {
    var body := Body(p).value;
    var t := Header(Id(p), sender) + body;
    assert ReadLe(Le(18 + |body|, 2) + t, 2) == Some((18 + |body|, t)) by {
      Widths();
      ReadWrittenLe(18 + |body|, 2, t);
    }
    ReadWrittenHeader(Id(p), sender, body);
    ReadWrittenBody(p);
  }

  /** Whatever `encode` produces, `decode` reads back exactly; no further size bound is needed. */
  lemma RoundTrip(p: Packet, sender: u64)
    requires Encode(p, sender).Some?
    ensures Decode(Encode(p, sender).value) == Some((p, sender))
  {
    var payload := Payload(p, sender).value;
    var data := Encode(p, sender).value;
    assert data[..TAG_SIZE] == HMAC.tag(payload) && data[TAG_SIZE..] == Encrypt(payload);
    DecryptInvertsEncrypt(Encrypt(payload), payload);
    ReadWrittenPayload(p, sender);
  }

  /** `encode` refuses a packet exactly when its body has more than 65517 bytes. */
  lemma EncodeSucceeds(p: Packet, sender: u64)
    ensures Encode(p, sender).Some? <==>
            match p
            case Request => true
            case Response(data) => 2 * |data| <= 65513
            case Message(_, data) => |Utf8.Encode(data)| <= 65505
  {
  }

  // ---- the code ----

  method WriteBody(w: seq<u8>, p: Packet) returns (r: Option<seq<u8>>)
    ensures r == if Body(p).None? then None else Some(w + Body(p).value)
  {
    match p {
      case Request =>
        r := Some(w);
        assert w + [] == w;
      case Response(data) =>
        var out := SerializeResponse(w, data);
        r := Some(out);
      case Message(recipient, data) =>
        var bytes := Utf8.Encode(data);
        if |bytes| > MAX_BYTES {
          return None;
        }
        r := Some(w + Le(recipient, 8) + Le(|bytes|, 4) + bytes);
        assert r.value == w + Body(p).value;
    }
  }

  lemma Patched(buf: seq<u8>, rest: seq<u8>, len: seq<u8>)
    requires buf == [0, 0] + rest && |len| == 2
    ensures buf[0 := len[0]][1 := len[1]] == len + rest
  {
  }

  /** Builds the buffer in place: two bytes reserved for the length are patched once the body is written. */
  method EncodePacket(p: Packet, sender: u64) returns (r: Option<seq<u8>>)
    ensures r == Encode(p, sender)
  {
    hide Body, Header, Encrypt, Le, Id;
    var header := Header(Id(p), sender);
    var written := WriteBody([0, 0] + header, p);
    if written.None? {
      return None;
    }
    var payload := written.value;
    ghost var rest := header + Body(p).value;
    assert payload == [0, 0] + rest;
    var dataLen := |payload| - 2;
    if dataLen > 0xFFFF {
      return None;
    }
    var len := Le(dataLen, 2);
    Patched(payload, rest, len);
    payload := payload[0 := len[0]][1 := len[1]];
    var checksum := HMAC.tag(payload);
    payload := EncryptBuffer(payload);
    r := Some(checksum + payload);
  }

  /** Reading the header moves a cursor on by 18 bytes. */
  lemma HeaderAdvances(s: seq<u8>)
    ensures ReadHeader(s).Some? ==> |s| >= 18 && ReadHeader(s).value.1 == s[18..]
  {
  }

  /** Reading a body moves the cursor on: what is unread is the rest of the bytes. */
  lemma BodyAdvances(id: nat, s: seq<u8>)
    ensures ReadBody(id, s).Some? ==>
              var rest := ReadBody(id, s).value.1; |rest| <= |s| && rest == s[|s| - |rest|..]
  {
  }

  /** Moves a cursor over the decrypted payload, which must end up at its end. */
  method DecodePacket(data: seq<u8>) returns (r: Option<(Packet, u64)>)
    ensures r == Decode(data)
  {
    if |data| < TAG_SIZE {
      return None;
    }
    var payload := DecryptBuffer(data[TAG_SIZE..]);
    if payload.None? || HMAC.tag(payload.value) != data[..TAG_SIZE] {
      return None;
    }
    var bytes, position := payload.value, 2;
    if |bytes| < position {
      return None;
    }
    var header := ReadHeader(bytes[position..]);
    if header.None? {
      return None;
    }
    HeaderAdvances(bytes[position..]);
    position := position + 18;
    var body := ReadBody(header.value.0.0, bytes[position..]);
    if body.None? {
      return None;
    }
    BodyAdvances(header.value.0.0, bytes[position..]);
    position := |bytes| - |body.value.1|;
    assert bytes[position..] == body.value.1;
    if position < |bytes| {
      return None;
    }
    return Some((body.value.0, header.value.0.1));
  }
}
