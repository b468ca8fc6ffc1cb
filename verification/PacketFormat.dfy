/** Which datagrams decode, and to what: the tag, the cipher and the layout of the payload. */
module PacketFormat {
  import opened Std
  import opened Codec
  import opened Crypto
  import opened Packet
  import Utf8

  lemma {:induction false} LeOfFromLe(b: seq<u8>)
    ensures Le(FromLe(b), |b|) == b
  {
    if b != [] {
      var (head, tail) := (b[0], FromLe(b[1..]));
      assert FromLe(b) % 256 == head && FromLe(b) / 256 == tail;
      LeTail(FromLe(b), |b|);
      LeOfFromLe(b[1..]);
      assert b == [b[0]] + b[1..];
    }
  }

  lemma ReadLeExactly(s: seq<u8>, k: nat, n: nat)
    requires n < Pow256(k)
    ensures ReadLe(s, k).Some? && ReadLe(s, k).value.0 == n <==> |s| >= k && s[..k] == Le(n, k)
  {
    if |s| >= k {
      LeOfFromLe(s[..k]);
      FromLeOfLe(n, k);
    }
  }

  /** A length in four bytes and that many bytes to the end. */
  predicate Counted(s: seq<u8>) {
    |s| >= 4 && |s| - 4 <= 65535 && s[..4] == Le(|s| - 4, 4)
  }

  lemma CountedExactly(s: seq<u8>, bytes: seq<u8>)
    ensures ReadBytesU32(s) == Some((bytes, [])) <==> Counted(s) && bytes == s[4..]
  {
    Widths();
    if |s| >= 4 {
      var len := FromLe(s[..4]);
      LeOfFromLe(s[..4]);
      if |s| - 4 <= MAX_BYTES {
        FromLeOfLe(|s| - 4, 4);
      }
      if len <= |s| - 4 && len <= MAX_BYTES {
        assert s[4..][len..] == [] <==> len == |s| - 4;
        assert s[4..][..|s| - 4] == s[4..];
      }
    }
  }

  /** The kind of packet, as its two bytes say it. */
  function Kind(p: Packet): seq<u8> {
    match p case Request => [0, 0] case Response(_) => [1, 0] case Message(_, _) => [2, 0]
  }

  predicate Holds(body: seq<u8>, p: Packet) {
    match p
    case Request => body == []
    case Response(data) => Counted(body) && Unhex(body[4..]) == Some(data)
    case Message(recipient, text) =>
      && |body| >= 8 && body[..8] == Le(recipient, 8)
      && Counted(body[8..]) && Utf8.Decode(body[12..]) == Some(text)
  }

  /** Two bytes for the length, the kind, the sender, eight bytes without meaning, and the body. */
  predicate Shaped(payload: seq<u8>, p: Packet, sender: u64) {
    && |payload| >= 20 && payload[2..4] == Kind(p) && payload[4..12] == Le(sender, 8) && Holds(payload[20..], p)
  }

  lemma KindIs(p: Packet)
    ensures Le(Id(p), 2) == Kind(p)
  {
    LeTail(Id(p), 2);
    LeTail(0, 1);
    assert Le(0, 0) == [];
  }

  lemma BodyExactly(body: seq<u8>, p: Packet)
    ensures ReadBody(Id(p), body) == Some((p, [])) <==> Holds(body, p)
  {
    hide Unhex, Utf8.Decode, Counted, ReadBytesU32, FromLe;
    match p
    case Request =>
    case Response(data) =>
      if ReadBytesU32(body).Some? {
        CountedExactly(body, ReadBytesU32(body).value.0);
      }
      CountedReads(body);
    case Message(recipient, text) =>
      Widths();
      ReadLeExactly(body, 8, recipient);
      if |body| >= 8 {
        if ReadBytesU32(body[8..]).Some? {
          CountedExactly(body[8..], ReadBytesU32(body[8..]).value.0);
        }
        CountedReads(body[8..]);
        if |body| >= 12 {
          assert body[8..][4..] == body[12..];
        }
      }
  }

  lemma CountedReads(s: seq<u8>)
    ensures Counted(s) ==> |s| >= 4 && ReadBytesU32(s) == Some((s[4..], []))
  {
    if |s| >= 4 {
      CountedExactly(s, s[4..]);
    }
  }

  lemma OtherKinds(id: nat, body: seq<u8>)
    ensures ReadBody(id, body).Some? ==> Id(ReadBody(id, body).value.0) == id
  {
    hide Unhex, Utf8.Decode, ReadBytesU32;
  }

  lemma PayloadExactly(s: seq<u8>, p: Packet, sender: u64)
    ensures ReadPayload(s) == Some((p, sender)) <==> Shaped(s, p, sender)
  {
    hide ReadBody, Holds, FromLe;
    if |s| >= 20 {
      Widths();
      var (a, b) := (s[2..], s[4..]);
      assert a[..2] == s[2..4] && a[2..] == b && b[..8] == s[4..12] && b[8..][8..] == s[20..];
      KindIs(p);
      ReadLeExactly(a, 2, Id(p));
      ReadLeExactly(b, 8, sender);
      BodyExactly(s[20..], p);
      OtherKinds(FromLe(a[..2]), s[20..]);
    }
  }

  /** A datagram decodes to a packet and its sender exactly when it is the tag and the encryption of a payload that holds
      them, to its last byte. */
  lemma DecodesExactlyWhen(data: seq<u8>, p: Packet, sender: u64)
    ensures Decode(data) == Some((p, sender)) <==>
              exists payload :: data == HMAC.tag(payload) + Encrypt(payload) && Shaped(payload, p, sender)
  {
    hide Encrypt, Decrypt, ReadPayload, Shaped;
    forall payload | data == HMAC.tag(payload) + Encrypt(payload)
      ensures Shaped(payload, p, sender) <==> Decode(data) == Some((p, sender))
    {
      assert data[..TAG_SIZE] == HMAC.tag(payload) && data[TAG_SIZE..] == Encrypt(payload);
      DecryptInvertsEncrypt(data[TAG_SIZE..], payload);
      PayloadExactly(payload, p, sender);
    }
    if Decode(data) == Some((p, sender)) {
      var payload := Decrypt(data[TAG_SIZE..]).value;
      DecryptInvertsEncrypt(data[TAG_SIZE..], payload);
      assert data == data[..TAG_SIZE] + data[TAG_SIZE..];
      assert data == HMAC.tag(payload) + Encrypt(payload);
    }
  }

  lemma LaidOut(len: seq<u8>, id: seq<u8>, sender: seq<u8>, zeros: seq<u8>, body: seq<u8>)
    requires |len| == 2 && |id| == 2 && |sender| == 8 && |zeros| == 8
    ensures var payload := len + ((id + (sender + zeros)) + body);
            payload[..2] == len && payload[12..20] == zeros
  {
    var payload := len + ((id + (sender + zeros)) + body);
    assert payload == len + id + sender + zeros + body;
  }

  /** What is encoded: its own length, the layout above, and zeros where nothing is meant. */
  lemma EncodesLaidOut(p: Packet, sender: u64)
    requires Encode(p, sender).Some?
    ensures exists payload ::
              && Encode(p, sender).value == HMAC.tag(payload) + Encrypt(payload) && Shaped(payload, p, sender)
              && payload[..2] == Le(|payload| - 2, 2) && payload[12..20] == [0, 0, 0, 0, 0, 0, 0, 0]
  {
    hide Encrypt, Le, ReadPayload, Body, Holds;
    var (payload, body) := (Payload(p, sender).value, Body(p).value);
    ReadWrittenPayload(p, sender);
    PayloadExactly(payload, p, sender);
    LaidOut(Le(18 + |body|, 2), Le(Id(p), 2), Le(sender, 8), Zeros(8), body);
  }
}
