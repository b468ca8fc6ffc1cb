/** Splitting messages into data-channel segments and putting them together again (`protocol/message.rs`). */
module Framing {
  import opened Std
  import opened Codec

  const MAX_MESSAGE_SIZE: nat := 10000
  const MAX_REASSEMBLED_SIZE: nat := 256 * MAX_MESSAGE_SIZE
  const MAX_SEGMENTS: nat := 255

  datatype Segment = Segment(remaining: u8, data: seq<u8>)

  datatype Error = MessageParse | MessageSizeExceeded(size: nat)

  // ---- one segment on the wire ----

  function Encode(s: Segment): seq<u8> {
    [s.remaining] + s.data
  }

  function Decode(packet: seq<u8>): Result<Segment, Error> {
    if |packet| < 2 then Err(MessageParse) else Ok(Segment(packet[0], packet[1..]))
  }

  /** A segment survives the wire exactly when its body is not empty; what is read was written by one segment only. */
  lemma SegmentRoundTrip(s: Segment, packet: seq<u8>)
    ensures Decode(Encode(s)) == Ok(s) <==> s.data != []
    ensures Decode(packet) == Ok(s) <==> packet == Encode(s) && s.data != []
  {
    assert Encode(s)[1..] == s.data;
    if |packet| >= 2 {
      assert packet == [packet[0]] + packet[1..];
    }
  }

  // ---- splitting ----

  /** `div_ceil` by the segment size. */
  function Count(len: nat): nat {
    (len + MAX_MESSAGE_SIZE - 1) / MAX_MESSAGE_SIZE
  }

  lemma CountSteps(len: nat)
    ensures len > MAX_MESSAGE_SIZE ==> Count(len) == Count(len - MAX_MESSAGE_SIZE) + 1
    ensures 0 < len <= MAX_MESSAGE_SIZE ==> Count(len) == 1
    ensures len > 0 ==> Count(len) > 0
  {
  }

  function Chain(data: seq<u8>): (r: seq<Segment>)
    requires Count(|data|) <= MAX_SEGMENTS
    ensures r != []
  {
    if |data| <= MAX_MESSAGE_SIZE then [Segment(0, data)]
    else [Segment(Count(|data|) - 1, data[..MAX_MESSAGE_SIZE])] + Chain(data[MAX_MESSAGE_SIZE..])
  }

  lemma ChainSteps(data: seq<u8>)
    requires Count(|data|) <= MAX_SEGMENTS
    ensures |data| <= MAX_MESSAGE_SIZE ==> Chain(data) == [Segment(0, data)]
    ensures |data| > MAX_MESSAGE_SIZE ==>
              Count(|data|) == Count(|data| - MAX_MESSAGE_SIZE) + 1 &&
              Chain(data) == [Segment(Count(|data|) - 1, data[..MAX_MESSAGE_SIZE])] + Chain(data[MAX_MESSAGE_SIZE..])
  {
    CountSteps(|data|);
  }

  function Split(data: seq<u8>): Result<seq<Segment>, Error> {
    if Count(|data|) > MAX_SEGMENTS then Err(MessageSizeExceeded(|data|)) else Ok(Chain(data))
  }

  method SplitIntoSegments(data: seq<u8>) returns (r: Result<seq<Segment>, Error>)
    ensures r == Split(data)
  {
    if |data| <= MAX_MESSAGE_SIZE {
      return Ok([Segment(0, data)]);
    }
    hide Count, Chain;
    var count := Count(|data|);
    if count > MAX_SEGMENTS {
      return Err(MessageSizeExceeded(|data|));
    }
    var segments: seq<Segment> := [];
    var remaining, left: u8 := data, count;
    while |remaining| > MAX_MESSAGE_SIZE
      invariant remaining != [] && left == Count(|remaining|) <= MAX_SEGMENTS
      invariant segments + Chain(remaining) == Chain(data)
    {
      CountSteps(|remaining|);
      ChainSteps(remaining);
      left := left - 1;
      var chunk, rest := remaining[..MAX_MESSAGE_SIZE], remaining[MAX_MESSAGE_SIZE..];
      assert segments + ([Segment(left, chunk)] + Chain(rest)) == segments + [Segment(left, chunk)] + Chain(rest);
      segments := segments + [Segment(left, chunk)];
      remaining := rest;
    }
    CountSteps(|remaining|);
    ChainSteps(remaining);
    if remaining != [] {
      left := left - 1;
      segments := segments + [Segment(left, remaining)];
    }
    r := Ok(segments);
  }

  function Bodies(segments: seq<Segment>): seq<u8> {
    if segments == [] then [] else Bodies(segments[..|segments| - 1]) + segments[|segments| - 1].data
  }

  predicate CountsDown(segments: seq<Segment>) {
    forall i | 0 <= i < |segments| :: segments[i].remaining == |segments| - 1 - i
  }

  lemma {:induction false} BodiesAppend(a: seq<Segment>, b: seq<Segment>)
    ensures Bodies(a + b) == Bodies(a) + Bodies(b)
  {
    if b == [] {
      assert a + b == a;
    } else {
      assert (a + b)[..|a + b| - 1] == a + b[..|b| - 1];
      BodiesAppend(a, b[..|b| - 1]);
    }
  }

  lemma {:induction false} ChainShape(data: seq<u8>)
    requires Count(|data|) <= MAX_SEGMENTS
    ensures var r := Chain(data);
            && |r| == (if data == [] then 1 else Count(|data|))
            && CountsDown(r)
            && Bodies(r) == data
            && (forall i | 0 <= i < |r| :: |r[i].data| <= MAX_MESSAGE_SIZE && (data != [] ==> r[i].data != []))
    decreases |data|
  {
    hide Count;
    CountSteps(|data|);
    if |data| <= MAX_MESSAGE_SIZE {
      assert Bodies([Segment(0, data)]) == Bodies([]) + data by { assert [Segment(0, data)][..0] == []; }
    } else {
      var (head, rest) := (data[..MAX_MESSAGE_SIZE], data[MAX_MESSAGE_SIZE..]);
      var first := [Segment(Count(|data|) - 1, head)];
      ChainShape(rest);
      BodiesAppend(first, Chain(rest));
      assert Bodies(first) == Bodies([]) + head by { assert first[..0] == []; }
      assert head + rest == data;
    }
  }

  /** A message splits exactly when it takes at most 255 segments; then the counts run down to zero, the bodies add up
      to the message, and none exceeds the segment size or is empty unless the message is. */
  lemma SplitShape(data: seq<u8>)
    ensures Split(data).Ok? <==> |data| <= MAX_SEGMENTS * MAX_MESSAGE_SIZE
    ensures Split(data).Ok? ==>
              var r := Split(data).value;
              && |r| == (if data == [] then 1 else Count(|data|))
              && CountsDown(r) && Bodies(r) == data
              && (forall i | 0 <= i < |r| :: |r[i].data| <= MAX_MESSAGE_SIZE && (data != [] ==> r[i].data != []))
  {
    if Split(data).Ok? {
      ChainShape(data);
    }
  }

  /** An unreliable message is one segment that fits the size limit with its count byte. */
  function EncodeUnreliable(data: seq<u8>): (r: Result<seq<u8>, Error>)
    ensures r.Ok? ==> |r.value| <= MAX_MESSAGE_SIZE && (data != [] ==> Decode(r.value) == Ok(Segment(0, data)))
  {
    if |data| > MAX_MESSAGE_SIZE - 1 then Err(MessageSizeExceeded(|data|))
    else
      SegmentRoundTrip(Segment(0, data), []);
      Ok(Encode(Segment(0, data)))
  }

  // ---- reassembly ----

  datatype Buffer = Buffer(expected: nat, data: seq<u8>)

  const FRESH := Buffer(0, [])

  predicate Sane(b: Buffer) {
    b.expected <= 254 && (b.expected == 0 ==> b.data == [])
  }

  /** `None` while segments are missing. */
  type Outcome = Result<Option<seq<u8>>, Error>

  function Add(b: Buffer, s: Segment): (Buffer, Outcome) {
    if b.expected == 0 && s.remaining == 255 then (b, Err(MessageParse))
    else if b.expected > 0 && b.expected - 1 != s.remaining then (FRESH, Err(MessageParse))
    else if |b.data| + |s.data| > MAX_REASSEMBLED_SIZE then (FRESH, Err(MessageSizeExceeded(|b.data| + |s.data|)))
    else if s.remaining == 0 then (FRESH, Ok(Some(b.data + s.data)))
    else (Buffer(s.remaining, b.data + s.data), Ok(None))
  }

  /** The reassembly buffer as the object it is. */
  class Message {
    var expectedSegments: u8
    var data: seq<u8>

    ghost predicate Valid()
      reads this
    {
      Sane(Contents())
    }

    ghost function Contents(): Buffer
      reads this
    {
      Buffer(expectedSegments, data)
    }

    constructor ()
      ensures Valid() && Contents() == FRESH
    {
      expectedSegments, data := 0, [];
    }

    method AddSegment(segment: Segment) returns (r: Outcome)
      requires Valid()
      modifies this
      ensures Valid() && (Contents(), r) == Add(old(Contents()), segment)
      ensures r.Err? ==> Contents() == FRESH
    {
      if expectedSegments == 0 && segment.remaining > 0 {
        if segment.remaining == 255 {
          return Err(MessageParse);
        }
        expectedSegments := segment.remaining + 1;
      }
      if expectedSegments > 0 {
        if expectedSegments - 1 != segment.remaining {
          data, expectedSegments := [], 0;
          return Err(MessageParse);
        }
        expectedSegments := expectedSegments - 1;
      }
      var size := |data| + |segment.data|;
      if size > MAX_REASSEMBLED_SIZE {
        data, expectedSegments := [], 0;
        return Err(MessageSizeExceeded(size));
      }
      data := data + segment.data;
      if segment.remaining == 0 {
        r := Ok(Some(data));
        data, expectedSegments := [], 0;
      } else {
        r := Ok(None);
      }
    }
  }
}
