/** Whole streams of segments: messages that were split arrive as they were, and nothing else ever does. */
module FramingStreams {
  import opened Std
  import opened Codec
  import opened Framing

  // ---- messages sent in order over the wire ----

  function Receive(b: Buffer, packet: seq<u8>): (Buffer, Outcome) {
    match Decode(packet)
    case Ok(s) => Add(b, s)
    case Err(e) => (b, Err(e))
  }

  function ReceiveAll(b: Buffer, packets: seq<seq<u8>>): (Buffer, seq<Outcome>)
    decreases |packets|
  {
    if packets == [] then (b, [])
    else
      var (b1, first) := Receive(b, packets[0]);
      var (b2, rest) := ReceiveAll(b1, packets[1..]);
      (b2, [first] + rest)
  }

  function Packets(segments: seq<Segment>): seq<seq<u8>> {
    seq(|segments|, i requires 0 <= i < |segments| => Encode(segments[i]))
  }

  /** Nothing until the last segment, then the message. */
  function Arrival(m: seq<u8>, n: nat): seq<Outcome>
    requires n > 0
  {
    seq(n - 1, _ => Ok(None)) + [Ok(Some(m))]
  }

  predicate Sendable(m: seq<u8>) {
    0 < |m| <= MAX_SEGMENTS * MAX_MESSAGE_SIZE
  }

  function Wire(ms: seq<seq<u8>>): seq<seq<u8>>
    requires forall m | m in ms :: Sendable(m)
  {
    if ms == [] then []
    else
      assert Sendable(ms[0]);
      Packets(Chain(ms[0])) + Wire(ms[1..])
  }

  function Arrivals(ms: seq<seq<u8>>): seq<Outcome>
    requires forall m | m in ms :: Sendable(m)
  {
    if ms == [] then []
    else
      assert Sendable(ms[0]);
      Arrival(ms[0], |Chain(ms[0])|) + Arrivals(ms[1..])
  }

  lemma {:induction false} ReceiveAppend(b: Buffer, xs: seq<seq<u8>>, ys: seq<seq<u8>>)
    ensures var (b1, r1) := ReceiveAll(b, xs); var (b2, r2) := ReceiveAll(b1, ys);
            ReceiveAll(b, xs + ys) == (b2, r1 + r2)
    decreases |xs|
  {
    hide Receive;
    if xs == [] {
      assert xs + ys == ys;
      assert [] + ReceiveAll(b, ys).1 == ReceiveAll(b, ys).1;
    } else {
      assert (xs + ys)[1..] == xs[1..] + ys;
      var (b1, first) := Receive(b, xs[0]);
      ReceiveAppend(b1, xs[1..], ys);
      var (b2, r1) := ReceiveAll(b1, xs[1..]);
      var r2 := ReceiveAll(b2, ys).1;
      assert [first] + (r1 + r2) == ([first] + r1) + r2;
    }
  }

  lemma ReceiveOne(b: Buffer, s: Segment)
    requires s.data != []
    ensures Receive(b, Encode(s)) == Add(b, s)
  {
    SegmentRoundTrip(s, []);
  }

  lemma ArrivalStep(m: seq<u8>, n: nat)
    requires n > 0
    ensures [Ok(None)] + Arrival(m, n) == Arrival(m, n + 1)
  {
  }

  lemma EnoughSegments(len: nat)
    ensures Count(len) <= MAX_SEGMENTS <==> len <= MAX_SEGMENTS * MAX_MESSAGE_SIZE
  {
  }

  /** The rest of a message, arriving at a buffer that holds what came before it. */
  lemma {:induction false} ChainArrives(b: Buffer, data: seq<u8>)
    requires data != [] && |b.data| + |data| <= MAX_SEGMENTS * MAX_MESSAGE_SIZE
    requires b == FRESH || b.expected == Count(|data|)
    ensures Count(|data|) <= MAX_SEGMENTS
    ensures ReceiveAll(b, Packets(Chain(data))) == (FRESH, Arrival(b.data + data, |Chain(data)|))
    decreases |data|
  {
    hide Decode, Receive, Count, Chain;
    CountSteps(|data|);
    EnoughSegments(|data|);
    ChainSteps(data);
    var segments := Chain(data);
    var packets := Packets(segments);
    assert packets[0] == Encode(segments[0]);
    ReceiveOne(b, segments[0]);
    if |data| <= MAX_MESSAGE_SIZE {
      assert packets[1..] == [];
      assert ReceiveAll(FRESH, []) == (FRESH, []);
      assert Arrival(b.data + data, 1) == [Ok(Some(b.data + data))];
      assert [Ok(Some(b.data + data))] + [] == Arrival(b.data + data, 1);
    } else {
      var (head, rest) := (data[..MAX_MESSAGE_SIZE], data[MAX_MESSAGE_SIZE..]);
      var b1 := Buffer(Count(|rest|), b.data + head);
      CountSteps(|rest|);
      assert Add(b, segments[0]) == (b1, Ok(None));
      ChainArrives(b1, rest);
      assert segments[1..] == Chain(rest) && packets[1..] == Packets(Chain(rest));
      assert b1.data + rest == b.data + data;
      ArrivalStep(b.data + data, |Chain(rest)|);
    }
  }

  /** Every list of non-empty messages that can be split arrives in order, each on its last packet, and leaves the
      buffer fresh. */
  lemma {:induction false} MessagesArrive(ms: seq<seq<u8>>)
    requires forall m | m in ms :: Sendable(m)
    ensures ReceiveAll(FRESH, Wire(ms)) == (FRESH, Arrivals(ms))
    decreases |ms|
  {
    hide Chain, Receive, Packets, Arrival;
    if ms != [] {
      assert Sendable(ms[0]);
      ChainArrives(FRESH, ms[0]);
      assert FRESH.data + ms[0] == ms[0];
      ReceiveAppend(FRESH, Packets(Chain(ms[0])), Wire(ms[1..]));
      MessagesArrive(ms[1..]);
    }
  }

  lemma EmptyIsLost()
    ensures Split([]) == Ok([Segment(0, [])])
    ensures ReceiveAll(FRESH, Packets([Segment(0, [])])) == (FRESH, [Err(MessageParse)])
  {
    hide Add, Arrival;
    var packets := Packets([Segment(0, [])]);
    assert |packets| == 1 && |packets[0]| == 1;
    assert packets[1..] == [];
    assert Receive(FRESH, packets[0]) == (FRESH, Err(MessageParse));
    assert ReceiveAll(FRESH, packets[1..]) == (FRESH, []);
    var lost: Outcome := Err(MessageParse);
    assert [lost] + [] == [lost];
  }

  /** A message that can be split survives the wire exactly when it is not empty. */
  lemma SurvivesUnlessEmpty(m: seq<u8>)
    requires |m| <= MAX_SEGMENTS * MAX_MESSAGE_SIZE
    ensures Split(m).Ok?
    ensures Ok(Some(m)) in ReceiveAll(FRESH, Packets(Split(m).value)).1 <==> m != []
  {
    hide Count, Chain, ReceiveAll, Packets;
    EnoughSegments(|m|);
    if m == [] {
      EmptyIsLost();
    } else {
      ChainArrives(FRESH, m);
      assert FRESH.data + m == m;
      var r := Arrival(m, |Chain(m)|);
      assert r[|r| - 1] == Ok(Some(m));
    }
  }

  // ---- arbitrary streams ----

  function Fed(segments: seq<Segment>): Buffer {
    if segments == [] then FRESH else Add(Fed(segments[..|segments| - 1]), segments[|segments| - 1]).0
  }

  /** What the last segment of a stream gives. */
  function LastOutcome(segments: seq<Segment>): Outcome
    requires segments != []
  {
    Add(Fed(segments[..|segments| - 1]), segments[|segments| - 1]).1
  }

  lemma {:induction false} FedIsSane(segments: seq<Segment>)
    ensures Sane(Fed(segments))
  {
    if segments != [] {
      FedIsSane(segments[..|segments| - 1]);
    }
  }

  /** Every error leaves the buffer as new. */
  lemma ErrorsLeaveFresh(segments: seq<Segment>)
    requires segments != [] && LastOutcome(segments).Err?
    ensures Fed(segments) == FRESH
  {
    FedIsSane(segments[..|segments| - 1]);
  }

  /** The part of the stream the buffer holds: it started fresh, its counts run down to what is still expected. */
  ghost predicate Holds(segments: seq<Segment>, from: nat) {
    && from <= |segments|
    && Fed(segments[..from]) == FRESH
    && Fed(segments).data == Bodies(segments[from..])
    && Fed(segments).expected + |segments| - from <= 255
    && (forall i | from <= i < |segments| :: segments[i].remaining == Fed(segments).expected + |segments| - 1 - i)
  }

  lemma HoldsMore(segments: seq<Segment>, from: nat)
    requires segments != [] && Fed(segments).expected > 0 && from < |segments|
    requires var init := segments[..|segments| - 1];
             && Fed(segments[..from]) == FRESH && Sane(Fed(init))
             && (if Fed(init).expected == 0 then from == |init| else Holds(init, from))
    ensures Holds(segments, from)
  {
    var (init, last) := (segments[..|segments| - 1], segments[|segments| - 1]);
    assert segments[from..] == init[from..] + [last];
    assert (init[from..] + [last])[..|init| - from] == init[from..];
    assert Fed(init).expected == 0 ==> init[from..] == [];
    assert Fed(segments).data == Fed(init).data + last.data;
    forall i | from <= i < |segments|
      ensures segments[i].remaining == Fed(segments).expected + |segments| - 1 - i
    {
      if i < |init| {
        assert init[i] == segments[i];
      }
    }
  }

  lemma {:induction false} FedHolds(segments: seq<Segment>) returns (from: nat)
    ensures Holds(segments, from)
  {
    if Fed(segments).expected == 0 {
      FedIsSane(segments);
      from := |segments|;
      assert segments[..from] == segments;
      assert segments[from..] == [];
    } else {
      var (init, last) := (segments[..|segments| - 1], segments[|segments| - 1]);
      from := FedHolds(init);
      FedIsSane(init);
      if Fed(init).expected == 0 {
        from := |init|;
      }
      assert segments[..from] == init[..from] && (from == |init| ==> init[..from] == init);
      HoldsMore(segments, from);
    }
  }

  /** A count-down from at most 254 to zero that fits the size limit. */
  predicate Complete(tail: seq<Segment>) {
    0 < |tail| <= 255 && CountsDown(tail) && |Bodies(tail)| <= MAX_REASSEMBLED_SIZE
  }

  /** From index `from` on the segments are a complete message, and the buffer was fresh before it. */
  predicate Completes(segments: seq<Segment>, from: nat) {
    from < |segments| && Fed(segments[..from]) == FRESH && Complete(segments[from..])
  }

  lemma AddReturns(b: Buffer, s: Segment)
    requires Sane(b) && Add(b, s).1.Ok? && Add(b, s).1.value.Some?
    ensures s.remaining == 0 && b.expected <= 1
    ensures Add(b, s).1.value.value == b.data + s.data && |b.data + s.data| <= MAX_REASSEMBLED_SIZE
  {
  }

  lemma ReturnedIsTail(segments: seq<Segment>) returns (from: nat)
    requires segments != [] && LastOutcome(segments).Ok? && LastOutcome(segments).value.Some?
    ensures Completes(segments, from) && LastOutcome(segments).value.value == Bodies(segments[from..])
  {
    hide Add, Fed;
    var (init, last) := (segments[..|segments| - 1], segments[|segments| - 1]);
    from := FedHolds(init);
    FedIsSane(init);
    AddReturns(Fed(init), last);
    if Fed(init).expected == 0 {
      from := |init|;
      assert init[..|init|] == init;
    }
    var head := init[from..];
    assert Fed(init).data == Bodies(head) by {
      assert Fed(init).expected == 0 ==> head == [];
    }
    assert segments[..from] == init[..from];
    assert segments[from..] == head + [last];
    assert (head + [last])[..|head|] == head;
    forall i | 0 <= i < |head|
      ensures head[i].remaining == |head| - i
    {
      assert init[from + i] == head[i];
    }
  }

  lemma {:induction false} PrefixShorter(segments: seq<Segment>, n: nat)
    requires n <= |segments|
    ensures |Bodies(segments[..n])| <= |Bodies(segments)|
  {
    assert segments == segments[..n] + segments[n..];
    BodiesAppend(segments[..n], segments[n..]);
  }

  lemma BodiesSnoc(tail: seq<Segment>, n: nat)
    requires 0 < n <= |tail|
    ensures Bodies(tail[..n]) == Bodies(tail[..n - 1]) + tail[n - 1].data && Bodies(tail[..0]) == []
  {
    assert tail[..n][..n - 1] == tail[..n - 1];
  }

  lemma FedSnoc(before: seq<Segment>, tail: seq<Segment>, n: nat)
    requires 0 < n <= |tail|
    ensures Fed(before + tail[..n]) == Add(Fed(before + tail[..n - 1]), tail[n - 1]).0
    ensures LastOutcome(before + tail[..n]) == Add(Fed(before + tail[..n - 1]), tail[n - 1]).1
  {
    hide Add;
    var all := before + tail[..n];
    assert all[..|all| - 1] == before + tail[..n - 1];
  }

  /** Inside a complete message the buffer collects the bodies. */
  lemma {:induction false} Collects(before: seq<Segment>, tail: seq<Segment>, n: nat)
    requires Fed(before) == FRESH && Complete(tail) && n < |tail|
    ensures Fed(before + tail[..n]) == if n == 0 then FRESH else Buffer(|tail| - n, Bodies(tail[..n]))
  {
    hide Bodies;
    if n == 0 {
      assert before + tail[..0] == before;
    } else {
      Collects(before, tail, n - 1);
      FedSnoc(before, tail, n);
      BodiesSnoc(tail, n);
      PrefixShorter(tail, n);
    }
  }

  lemma TailIsReturned(segments: seq<Segment>, from: nat)
    requires Completes(segments, from)
    ensures LastOutcome(segments) == Ok(Some(Bodies(segments[from..])))
  {
    hide Fed, LastOutcome, Bodies;
    var (before, tail) := (segments[..from], segments[from..]);
    var n := |tail|;
    Collects(before, tail, n - 1);
    FedSnoc(before, tail, n);
    BodiesSnoc(tail, n);
    assert tail[..n] == tail && before + tail == segments;
    assert n == 1 ==> Bodies(tail[..0]) == [];
  }

  /** For every stream: a message is returned exactly when the last segments count down to zero from a fresh buffer
      within the limits, and it is their bodies put together. */
  lemma ReturnedExactlyWhen(segments: seq<Segment>, m: seq<u8>)
    requires segments != []
    ensures LastOutcome(segments) == Ok(Some(m))
       <==> exists from: nat :: Completes(segments, from) && m == Bodies(segments[from..])
  {
    hide LastOutcome, Fed, Bodies, Complete;
    if LastOutcome(segments) == Ok(Some(m)) {
      var from := ReturnedIsTail(segments);
    }
    forall from: nat | Completes(segments, from)
      ensures LastOutcome(segments) == Ok(Some(Bodies(segments[from..])))
    {
      TailIsReturned(segments, from);
    }
  }

  /** What a segment is added to: nothing, or the segments of a message still missing some, counting down. */
  predicate Partial(tail: seq<Segment>) {
    tail != [] ==>
      && tail[|tail| - 1].remaining > 0
      && forall i | 0 <= i < |tail| - 1 :: tail[i].remaining == tail[i + 1].remaining + 1
  }

  /** Every segment of every stream follows the message begun since the buffer was last empty. It is refused as out of
      order exactly when it does not count down from the last one, or starts with the count that is reserved; as too
      large exactly when the bodies exceed the limit; and otherwise completes the message exactly when it is the last. */
  lemma OutcomesExactly(init: seq<Segment>, s: Segment) returns (from: nat)
    ensures from <= |init| && Fed(init[..from]) == FRESH && Partial(init[from..])
    ensures var (tail, r) := (init[from..], LastOutcome(init + [s]));
            var size := |Bodies(tail)| + |s.data|;
            if (if tail == [] then s.remaining == 255 else s.remaining + 1 != tail[|tail| - 1].remaining) then
              r == Err(MessageParse)
            else if size > 2_560_000 then r == Err(MessageSizeExceeded(size))
            else r == Ok(if s.remaining == 0 then Some(Bodies(tail) + s.data) else None)
  {
    hide Bodies;
    from := FedHolds(init);
    FedIsSane(init);
    if Fed(init).expected == 0 {
      from := |init|;
      assert init[..from] == init && init[from..] == [];
      NoBodies();
    } else {
      HoldsSome(init, from);
    }
    assert (init + [s])[..|init|] == init;
  }

  lemma NoBodies()
    ensures Bodies([]) == []
  {
  }

  lemma HoldsSome(init: seq<Segment>, from: nat)
    requires Holds(init, from) && Fed(init).expected > 0
    ensures from < |init|
  {
    assert init[..|init|] == init;
  }
}
