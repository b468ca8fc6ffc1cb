/** What a LAN signaler does with each input, told from the packets: what is reported, what is sent and where to. */
module LanDelivery {
  import opened Std
  import opened Codec
  import opened Net
  import opened Lan
  import Packet
  import ServerRecord
  import Utf8
  import S = Signals
  import T = Text

  // ---- datagrams ----

  /** The datagram decodes, comes from another signaler, and that one is not heard from elsewhere at the time. */
  predicate Heard(s: State, buf: seq<u8>, addr: SocketAddr, now: int) {
    var d := Packet.Decode(buf);
    && d.Some? && d.value.1 != s.networkId
    && (d.value.1 in s.addresses && s.addresses[d.value.1].addr != addr && s.config.addressTimeout > 0 ==>
          now - s.addresses[d.value.1].lastSeen >= s.config.addressTimeout)
  }

  /** The signaler after hearing from a peer, with the given outputs and nothing else changed that a peer can see. */
  predicate HeardFrom(s: State, s': State, sender: u64, addr: SocketAddr, now: int, outputs: seq<Output>) {
    && s'.addresses == s.addresses[sender := AddressEntry(addr, now)]
    && s'.emitted == s.emitted + outputs
    && s'.networkId == s.networkId && s'.config == s.config && s'.serverData == s.serverData
    && s'.lastBroadcast == s.lastBroadcast && s'.lastCleanup == s.lastCleanup
    && s'.submissions == s.submissions && s'.published == s.published
  }

  /** What is not heard changes nothing. */
  lemma UnheardIsIgnored(s: State, buf: seq<u8>, addr: SocketAddr, now: int)
    requires !Heard(s, buf, addr, now)
    ensures HandleDatagram(s, buf, addr, now) == (s, None)
  {
    hide Packet.Decode;
  }

  lemma SignalsSayMore(text: string, networkId: string)
    requires S.FromText(text, networkId).Some?
    ensures text != "" && text != "Ping"
  {
    if text == "Ping" {
      T.SplitOnceNever(text, ' ');
    }
  }

  /** A message that reads as a signal to this signaler is reported, and answers what was pending with its sender under
      its connection id; any other message is not reported and answers nothing. */
  lemma MessageIsReported(s: State, buf: seq<u8>, addr: SocketAddr, now: int, recipient: u64, text: string, sender: u64)
    requires Heard(s, buf, addr, now) && Packet.Decode(buf) == Some((Packet.Message(recipient, text), sender))
    ensures var (s', error) := HandleDatagram(s, buf, addr, now);
            && error == None && s'.discovered == s.discovered
            && match S.FromText(text, T.Show(sender))
               case Some(m) =>
                 if recipient == s.networkId then
                   && HeardFrom(s, s', sender, addr, now, [Received(m)])
                   && forall p :: p in s'.pending <==>
                        p in s.pending && (p.target != sender || p.signal.connectionId != m.connectionId)
                 else HeardFrom(s, s', sender, addr, now, []) && s'.pending == s.pending
               case None => HeardFrom(s, s', sender, addr, now, []) && s'.pending == s.pending
  {
    hide Packet.Decode, S.FromText;
    if S.FromText(text, T.Show(sender)).Some? {
      SignalsSayMore(text, T.Show(sender));
    }
  }

  /** A record is reported and kept while there is room, or room for this server already. */
  lemma ResponseIsReported(s: State, buf: seq<u8>, addr: SocketAddr, now: int, bytes: seq<u8>, sender: u64)
    requires Heard(s, buf, addr, now) && Packet.Decode(buf) == Some((Packet.Response(bytes), sender))
    ensures var (s', error) := HandleDatagram(s, buf, addr, now);
            var data := ServerRecord.Decode(bytes);
            && error == None && s'.pending == s.pending
            && if data.Some? && (|s.discovered| < s.config.maxDiscovered || sender in s.discovered) then
                 && HeardFrom(s, s', sender, addr, now, [ServerDiscovered(sender, data.value)])
                 && s'.discovered == s.discovered[sender := data.value]
               else HeardFrom(s, s', sender, addr, now, []) && s'.discovered == s.discovered
  {
    hide Packet.Decode, ServerRecord.Decode;
  }

  /** A request is answered to where it came from, with the record set last. */
  lemma RequestIsAnswered(s: State, buf: seq<u8>, addr: SocketAddr, now: int, sender: u64)
    requires Heard(s, buf, addr, now) && Packet.Decode(buf) == Some((Packet.Request, sender))
    ensures var (s', error) := HandleDatagram(s, buf, addr, now);
            && s'.pending == s.pending && s'.discovered == s.discovered
            && match s.serverData
               case None => error == None && HeardFrom(s, s', sender, addr, now, [])
               case Some(data) =>
                 var bytes := ServerRecord.Serialize(data);
                 if 2 * |bytes| <= 65513 then
                   && error == None && |s'.emitted| == |s.emitted| + 1
                   && var o := s'.emitted[|s.emitted|];
                   && o.Send? && o.addr == addr && HeardFrom(s, s', sender, addr, now, [o])
                   && Packet.Decode(o.buf) == Some((Packet.Response(bytes), s.networkId))
                 else error == Some(Protocol) && HeardFrom(s, s', sender, addr, now, [])
  {
    hide Packet.Decode, Packet.Encode, ServerRecord.Serialize;
    if s.serverData.Some? {
      var p := Packet.Response(ServerRecord.Serialize(s.serverData.value));
      Packet.EncodeSucceeds(p, s.networkId);
      if Packet.Encode(p, s.networkId).Some? {
        Packet.RoundTrip(p, s.networkId);
      }
    }
  }

  // ---- submissions ----

  /** The interval between transmissions: offers have their own. */
  predicate Interval(config: Config, signal: S.Signal, d: nat) {
    match signal.kind
    case Offer => d == config.offerRetryInterval
    case Answer => d == config.signalRetryInterval
    case Candidate => d == config.signalRetryInterval
    case Error => d == config.signalRetryInterval
  }

  /** The output is the signal, sent under this signaler's id to the address its target was last heard from. */
  predicate Carries(s: State, o: Output, signal: S.Signal, target: u64) {
    && o.Send? && target in s.addresses && o.addr == s.addresses[target].addr
    && Packet.Decode(o.buf) == Some((Packet.Message(target, S.ToText(signal)), s.networkId))
  }

  predicate Fits(signal: S.Signal) {
    |Utf8.Encode(S.ToText(signal))| <= 65505
  }

  /** A signal is refused, with the reason, or sent once and kept for retransmission if retries are allowed. */
  lemma SubmissionIsSent(s: State, signal: S.Signal, now: int)
    ensures var (s', error) := HandleSignal(s, signal, now);
            var target := T.ParseUnsigned(signal.networkId, T.MAX_U64);
            if target.None? then s' == s && error == Some(InvalidNetworkId(signal.networkId))
            else if target.value !in s.addresses then s' == s && error == Some(UnknownNetwork(target.value))
            else if !Fits(signal) then s' == s && error == Some(Protocol)
            else
              && error == None && s'.submissions == s.submissions + [signal]
              && |s'.emitted| == |s.emitted| + 1 && s'.emitted[..|s.emitted|] == s.emitted
              && Carries(s, s'.emitted[|s.emitted|], signal, target.value)
              && s' == s.(emitted := s'.emitted, pending := s'.pending, submissions := s'.submissions, history := s'.history)
              && if s.config.signalRetries == 0 then s'.pending == s.pending
                 else
                   && |s'.pending| == |s.pending| + 1 && s'.pending[..|s.pending|] == s.pending
                   && var p := s'.pending[|s.pending|];
                   && p.signal == signal && p.target == target.value && p.attempts == 1 && p.tag == |s.submissions|
                   && p.nextSend >= now && Interval(s.config, signal, p.nextSend - now)
  {
    hide Packet.Decode, Packet.Encode, S.ToText, Utf8.Encode, T.ParseUnsigned;
    match T.ParseUnsigned(signal.networkId, T.MAX_U64)
    case None =>
    case Some(target) =>
      var p := Packet.Message(target, S.ToText(signal));
      Packet.EncodeSucceeds(p, s.networkId);
      if Packet.Encode(p, s.networkId).Some? {
        Packet.RoundTrip(p, s.networkId);
      }
  }

  // ---- from one signaler to another ----

  /** A signal one signaler sends is reported by the other when the datagram gets there, unless the sender is heard from
      elsewhere at the time. */
  lemma SentIsReceived(a: State, b: State, m: S.Signal, now: int, from: SocketAddr, t: int)
    requires HandleSignal(a, m, now).1 == None && T.ParseUnsigned(m.networkId, T.MAX_U64) == Some(b.networkId)
    requires a.networkId != b.networkId && !PinnedElsewhere(b, a.networkId, from, t)
    ensures var a' := HandleSignal(a, m, now).0;
            && |a'.emitted| == |a.emitted| + 1
            && var o := a'.emitted[|a.emitted|];
            && o.Send? && b.networkId in a.addresses && o.addr == a.addresses[b.networkId].addr
            && HandleDatagram(b, o.buf, from, t).0.emitted ==
                 b.emitted + [Received(m.(networkId := T.Show(a.networkId)))]
  {
    hide Packet.Decode, HandleDatagram, HandleSignal, S.ToText, S.FromText, Utf8.Encode, T.ParseUnsigned;
    SubmissionIsSent(a, m, now);
    var o := HandleSignal(a, m, now).0.emitted[|a.emitted|];
    S.RoundTrip(m, T.Show(a.networkId));
    MessageIsReported(b, o.buf, from, t, b.networkId, S.ToText(m), a.networkId);
  }
}
