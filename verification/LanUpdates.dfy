/** What an update of a LAN signaler sends and forgets, and how long a signal is retransmitted. */
module LanUpdates {
  import opened Std
  import opened Codec
  import opened Net
  import opened Lan
  import opened LanRetransmission
  import opened LanGiveUp
  import opened LanDelivery
  import Packet
  import ServerRecord
  import Utf8
  import S = Signals
  import T = Text

  // ---- retransmission ----

  /** The target is known and the signal fits a datagram. */
  predicate Sendable(s: State, p: PendingSignal) {
    p.target in s.addresses && Fits(p.signal)
  }

  predicate Carried(s: State, outputs: seq<Output>, ps: seq<PendingSignal>) {
    |outputs| == |ps| && forall i | 0 <= i < |ps| :: Carries(s, outputs[i], ps[i].signal, ps[i].target)
  }

  lemma SendExactly(s: State, p: PendingSignal, now: int)
    ensures var r := SendSignal(s, p.signal, p.target, p.tag, now);
            && (r.Ok? <==> Sendable(s, p))
            && (r.Ok? ==>
                  && r.value == s.(emitted := r.value.emitted, history := s.history + [Sent(p.tag, now)])
                  && |r.value.emitted| == |s.emitted| + 1 && s.emitted == r.value.emitted[..|s.emitted|]
                  && Carries(s, r.value.emitted[|s.emitted|], p.signal, p.target))
  {
    hide Packet.Decode, Packet.Encode, S.ToText, Utf8.Encode;
    var m := Packet.Message(p.target, S.ToText(p.signal));
    Packet.EncodeSucceeds(m, s.networkId);
    if Packet.Encode(m, s.networkId).Some? {
      Packet.RoundTrip(m, s.networkId);
    }
  }

  function CanSend(s: State): PendingSignal -> bool {
    (p: PendingSignal) => Sendable(s, p)
  }

  lemma CanSendIs(s: State, s': State)
    requires s'.addresses == s.addresses
    ensures forall p :: CanSend(s)(p) == Sendable(s, p) == CanSend(s')(p)
    ensures forall ps :: Keep(ps, CanSend(s)) == Keep(ps, CanSend(s'))
  {
    hide Fits;
    forall ps
      ensures Keep(ps, CanSend(s)) == Keep(ps, CanSend(s'))
    {
      SameKept(ps, CanSend(s), CanSend(s'));
    }
  }

  lemma {:induction false} SameKept(ps: seq<PendingSignal>, f: PendingSignal -> bool, g: PendingSignal -> bool)
    requires forall p :: f(p) == g(p)
    ensures Keep(ps, f) == Keep(ps, g)
  {
    if ps != [] {
      SameKept(ps[..|ps| - 1], f, g);
    }
  }

  /** Sending everything queues exactly the sendable ones, in order, each to where its target is. */
  lemma {:induction false} SendAllSends(s: State, due: seq<PendingSignal>, now: int) returns (sent: seq<Output>)
    ensures var s' := SendAll(s, due, now);
            && s'.emitted == s.emitted + sent && Carried(s, sent, Keep(due, CanSend(s)))
            && s' == s.(emitted := s'.emitted, history := s'.history, pending := s'.pending)
    decreases |due|, 0
  {
    hide SendSignal, Carries, Fits, Keep, Carried, CanSend, Forget;
    if due == [] {
      sent := [];
      KeepNothing(CanSend(s));
      NothingCarried(s);
      assert s.emitted + sent == s.emitted;
    } else {
      var (p, rest) := (due[0], due[1..]);
      SendExactly(s, p, now);
      KeepHead(due, s);
      match SendSignal(s, p.signal, p.target, p.tag, now) {
        case Ok(s1) =>
          var o := s1.emitted[|s.emitted|];
          var more := SendRest(s, s1, rest, now);
          sent := [o] + more;
          assert s1.emitted == s.emitted + [o] && s.emitted + [o] + more == s.emitted + sent;
          CarriedCons(s, o, p, more, Keep(rest, CanSend(s)));
        case Err(_) =>
          var s1 := Forget(s, p.signal, p.target);
          ForgetOnlyForgets(s, p);
          sent := SendRest(s, s1, rest, now);
      }
    }
  }

  lemma {:induction false} SendRest(s: State, s1: State, rest: seq<PendingSignal>, now: int) returns (sent: seq<Output>)
    requires s1 == s.(emitted := s1.emitted, history := s1.history, pending := s1.pending)
    ensures var s' := SendAll(s1, rest, now);
            && s'.emitted == s1.emitted + sent && Carried(s, sent, Keep(rest, CanSend(s)))
            && s' == s.(emitted := s'.emitted, history := s'.history, pending := s'.pending)
    decreases |rest|, 1
  {
    hide SendAll, Carried, Keep, CanSend, Fits;
    sent := SendAllSends(s1, rest, now);
    CanSendIs(s, s1);
    CarriedBySame(s, s1, sent, Keep(rest, CanSend(s)));
  }

  lemma NothingCarried(s: State)
    ensures Carried(s, [], [])
  {
  }

  lemma ForgetOnlyForgets(s: State, p: PendingSignal)
    ensures var s' := Forget(s, p.signal, p.target); s' == s.(pending := s'.pending)
  {
  }

  lemma KeepHead(due: seq<PendingSignal>, s: State)
    requires due != []
    ensures Keep(due, CanSend(s)) == (if Sendable(s, due[0]) then [due[0]] else []) + Keep(due[1..], CanSend(s))
    ensures Keep(due[1..], CanSend(s)) == [] + Keep(due[1..], CanSend(s))
  {
    hide Keep, Fits;
    assert due == [due[0]] + due[1..];
    KeepAppend([due[0]], due[1..], CanSend(s));
    KeepOne(due[0], CanSend(s));
  }

  lemma KeepOne(p: PendingSignal, f: PendingSignal -> bool)
    ensures Keep([p], f) == if f(p) then [p] else []
  {
    assert [p][..0] == [];
  }

  lemma CarriedBySame(s: State, s': State, outputs: seq<Output>, ps: seq<PendingSignal>)
    requires s'.addresses == s.addresses && s'.networkId == s.networkId
    ensures Carried(s, outputs, ps) == Carried(s', outputs, ps)
  {
  }

  lemma CarriedCons(s: State, o: Output, p: PendingSignal, outputs: seq<Output>, ps: seq<PendingSignal>)
    requires Carries(s, o, p.signal, p.target) && Carried(s, outputs, ps)
    ensures Carried(s, [o] + outputs, [p] + ps)
  {
    hide Carries;
  }

  lemma {:induction false} KeepBoth(ps: seq<PendingSignal>, f: PendingSignal -> bool, g: PendingSignal -> bool,
                                    both: PendingSignal -> bool)
    requires forall p :: both(p) == (f(p) && g(p))
    ensures Keep(Keep(ps, f), g) == Keep(ps, both)
  {
    if ps != [] {
      var (init, last) := (ps[..|ps| - 1], ps[|ps| - 1]);
      KeepBoth(init, f, g, both);
      KeepSnoc(Keep(init, f), last, g);
    }
  }

  /** Due for another transmission, with retries left and somewhere to go. */
  predicate Resent(s: State, now: int, p: PendingSignal) {
    p.nextSend <= now && p.attempts <= s.config.signalRetries && Sendable(s, p)
  }

  function Resending(s: State, now: int): PendingSignal -> bool {
    (p: PendingSignal) => Resent(s, now, p)
  }

  lemma DueAndSendable(s: State, now: int)
    ensures Keep(Due(s.pending, s.config, now), CanSend(s)) == Keep(s.pending, Resending(s, now))
  {
    hide Fits;
    var due := (p: PendingSignal) => p.nextSend <= now && p.attempts <= s.config.signalRetries;
    KeepBoth(s.pending, due, CanSend(s), Resending(s, now));
    SameKept(s.pending, due, (p: PendingSignal) => p.nextSend <= now && p.attempts <= s.config.signalRetries);
  }

  // ---- discovery ----

  predicate Broadcasts(s: State, now: int) {
    && s.config.broadcastAddress.Some?
    && (s.lastBroadcast.Some? ==> Since(now, s.lastBroadcast.value) >= s.config.broadcastInterval)
  }

  /** The output asks for servers, under this signaler's id. */
  predicate Asks(s: State, o: Output, addr: SocketAddr) {
    o.Send? && o.addr == addr && Packet.Decode(o.buf) == Some((Packet.Request, s.networkId))
  }

  /** To the broadcast address and, unless that is it, to this host at the same port. */
  predicate AllAsk(s: State, requests: seq<Output>, addr: SocketAddr) {
    var loopback := SocketAddr(V4(0x7F00_0001), addr.port, 0, 0);
    && |requests| == (if addr == loopback then 1 else 2)
    && Asks(s, requests[0], addr) && (|requests| == 2 ==> Asks(s, requests[1], loopback))
  }

  lemma BroadcastSends(s: State, now: int) returns (requests: seq<Output>)
    ensures var s' := Broadcast(s, now);
            && s' == s.(emitted := s.emitted + requests, lastBroadcast := s'.lastBroadcast)
            && if Broadcasts(s, now) then s'.lastBroadcast == Some(now) && AllAsk(s, requests, s.config.broadcastAddress.value)
               else s'.lastBroadcast == s.lastBroadcast && requests == []
  {
    hide Packet.Encode, Packet.Decode;
    requests := [];
    if Broadcasts(s, now) {
      Packet.EncodeSucceeds(Packet.Request, s.networkId);
      Packet.RoundTrip(Packet.Request, s.networkId);
      var addr := s.config.broadcastAddress.value;
      var loopback := NewAddr(LOCALHOST, addr.port);
      requests := [Send(RequestDatagram(s), addr)];
      if loopback != addr {
        requests := requests + [Send(RequestDatagram(s), loopback)];
        assert s.emitted + [Send(RequestDatagram(s), addr)] + [Send(RequestDatagram(s), loopback)] == s.emitted + requests;
      }
    } else {
      assert s.emitted + requests == s.emitted;
    }
  }

  // ---- the update ----

  /** An update queues, in this order, every signal that is due, has retries left and somewhere to go; the requests, if
      they are due; and the wait. */
  lemma UpdateSends(s: State, now: int) returns (resent: seq<Output>, requests: seq<Output>)
    ensures var s' := HandleUpdate(s, now);
            && s'.emitted == s.emitted + resent + requests + [Wait(NextTimer(s', now))]
            && Carried(s, resent, Keep(s.pending, Resending(s, now)))
            && if Broadcasts(s, now) then s'.lastBroadcast == Some(now) && AllAsk(s, requests, s.config.broadcastAddress.value)
               else s'.lastBroadcast == s.lastBroadcast && requests == []
  {
    hide SendAll, Broadcast, NextTimer, Survivors, Due, Carried, AllAsk, Resending, CanSend, Asks;
    var s0 := s.(pending := Survivors(s.pending, s.config, now));
    resent := SendAllSends(s0, Due(s.pending, s.config, now), now);
    CanSendIs(s, s0);
    CarriedBySame(s, s0, resent, Keep(Due(s.pending, s.config, now), CanSend(s)));
    DueAndSendable(s, now);
    var s1 := Retransmit(s, now);
    requests := BroadcastSends(s1, now);
    AskedBySame(s, s1, requests);
    var s2 := Expire(Broadcast(s1, now), now);
    EmitKeepsWait(s2, Wait(NextTimer(s2, now)), now);
  }

  lemma AskedBySame(s: State, s': State, requests: seq<Output>)
    requires s'.networkId == s.networkId
    ensures forall addr :: AllAsk(s, requests, addr) == AllAsk(s', requests, addr)
  {
  }

  lemma EmitKeepsWait(s: State, o: Output, now: int)
    ensures NextTimer(Emit(s, o), now) == NextTimer(s, now)
  {
  }

  /** An update forgets exactly the addresses not heard from for the whole timeout, and the servers at them. */
  lemma UpdateForgets(s: State, now: int)
    ensures var s' := HandleUpdate(s, now);
            && (forall id :: id in s'.addresses <==>
                  id in s.addresses && Since(now, s.addresses[id].lastSeen) < s.config.addressTimeout)
            && (forall id | id in s'.addresses :: s'.addresses[id] == s.addresses[id])
            && (forall id :: id in s'.discovered <==> id in s.discovered && id in s'.addresses)
            && (forall id | id in s'.discovered :: s'.discovered[id] == s.discovered[id])
            && s'.lastCleanup == Some(now) && s'.serverData == s.serverData
  {
    hide SendAll, NextTimer, Survivors, Due, Carried, CanSend, RequestDatagram;
    var s0 := s.(pending := Survivors(s.pending, s.config, now));
    var resent := SendAllSends(s0, Due(s.pending, s.config, now), now);
  }

  /** Discovery works: the request of an update that is due, delivered to a signaler with a record that fits, is answered,
      and the answer, delivered back, is reported with that record. */
  lemma ServersAreFound(a: State, now: int, b: State, from: SocketAddr, t: int, source: SocketAddr, t': int,
                        data: ServerRecord.ServerData)
    requires Broadcasts(a, now) && a.networkId != b.networkId && b.serverData == Some(data)
    requires 2 * |ServerRecord.Serialize(data)| <= 65513
    requires !PinnedElsewhere(b, a.networkId, from, t)
    requires var a' := HandleUpdate(a, now);
             !PinnedElsewhere(a', b.networkId, source, t') && |a'.discovered| < a'.config.maxDiscovered
    ensures exists request, answer ::
              && request in HandleUpdate(a, now).emitted && Asks(a, request, a.config.broadcastAddress.value)
              && HandleDatagram(b, request.buf, from, t).0.emitted == b.emitted + [answer]
              && answer.Send? && answer.addr == from
              && HandleDatagram(HandleUpdate(a, now), answer.buf, source, t').0.emitted ==
                   HandleUpdate(a, now).emitted + [ServerDiscovered(b.networkId, data.(transportLayer := 2))]
  {
    hide Packet.Decode, HandleUpdate, HandleDatagram, ServerRecord.Serialize, ServerRecord.Decode, Carried, Resending;
    var resent, requests := UpdateSends(a, now);
    UpdateConfig(a, now);
    var (a', request) := (HandleUpdate(a, now), requests[0]);
    assert request in a'.emitted;
    RequestIsAnswered(b, request.buf, from, t, a.networkId);
    var bytes := ServerRecord.Serialize(data);
    var answer := HandleDatagram(b, request.buf, from, t).0.emitted[|b.emitted|];
    ServerRecord.SerializedSize(data);
    ServerRecord.RoundTrip(data);
    ResponseIsReported(a', answer.buf, source, t', bytes, b.networkId);
  }

  lemma UpdateConfig(s: State, now: int)
    ensures HandleUpdate(s, now).config == s.config && HandleUpdate(s, now).networkId == s.networkId
  {
    hide HandleUpdate;
    HandleConfig(s, Update(now));
  }
}
