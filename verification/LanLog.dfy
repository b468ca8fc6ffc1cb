/** The `Sent` events of a history are exactly the message datagrams queued, in order. */
module LanLog {
  import opened Std
  import opened Codec
  import opened Lan
  import opened LanRetransmission
  import Packet
  import ServerRecord
  import S = Signals
  import T = Text

  predicate IsMessage(o: Output) {
    o.Send? && var d := Packet.Decode(o.buf); d.Some? && d.value.0.Message?
  }

  /** The message datagrams among the outputs. */
  function Messages(emitted: seq<Output>): seq<Output> {
    if emitted == [] then []
    else
      var init, last := Messages(emitted[..|emitted| - 1]), emitted[|emitted| - 1];
      if IsMessage(last) then init + [last] else init
  }

  /** The tags transmitted, in order. */
  function Tags(history: seq<Event>): seq<nat> {
    if history == [] then []
    else
      var init, last := Tags(history[..|history| - 1]), history[|history| - 1];
      if last.Sent? then init + [last.tag] else init
  }

  ghost predicate Shows(networkId: u64, submissions: seq<S.Signal>, o: Output, tag: nat) {
    && o.Send? && tag < |submissions| && Target(submissions[tag]).Some?
    && Packet.Decode(o.buf) ==
       Some((Packet.Message(Target(submissions[tag]).value, S.ToText(submissions[tag])), networkId))
  }

  ghost predicate AllShow(networkId: u64, submissions: seq<S.Signal>, messages: seq<Output>, tags: seq<nat>) {
    |messages| == |tags| && forall k | 0 <= k < |tags| :: Shows(networkId, submissions, messages[k], tags[k])
  }

  ghost predicate Faithful(s: State) {
    AllShow(s.networkId, s.submissions, Messages(s.emitted), Tags(s.history))
  }

  lemma EmitOne(s: State, o: Output)
    ensures Messages(Emit(s, o).emitted) == if IsMessage(o) then Messages(s.emitted) + [o] else Messages(s.emitted)
  {
    assert (s.emitted + [o])[..|s.emitted|] == s.emitted;
  }

  lemma RecordOne(history: seq<Event>, x: Event)
    ensures Tags(history + [x]) == if x.Sent? then Tags(history) + [x.tag] else Tags(history)
  {
    assert (history + [x])[..|history|] == history;
  }

  /** Anything but a message can be queued freely. */
  lemma OtherPacket(p: Packet.Packet, sender: u64, addr: Net.SocketAddr)
    requires !p.Message? && Packet.Encode(p, sender).Some?
    ensures !IsMessage(Send(Packet.Encode(p, sender).value, addr))
  {
    hide Packet.Encode, Packet.Decode;
    Packet.RoundTrip(p, sender);
  }

  lemma SendFaithful(s: State, signal: S.Signal, target: u64, tag: nat, now: int, submissions: seq<S.Signal>)
    requires Faithful(s) && s.submissions <= submissions
    requires tag < |submissions| && submissions[tag] == signal && Target(signal) == Some(target)
    requires SendSignal(s, signal, target, tag, now).Ok?
    ensures Faithful(SendSignal(s, signal, target, tag, now).value.(submissions := submissions))
  {
    hide Packet.Encode, Packet.Decode, S.ToText, Messages, Tags, T.ParseUnsigned;
    var p := Packet.Message(target, S.ToText(signal));
    var s1 := SendSignal(s, signal, target, tag, now).value;
    var o := s1.emitted[|s.emitted|];
    Packet.RoundTrip(p, s.networkId);
    assert Shows(s.networkId, submissions, o, tag);
    EmitOne(s, o);
    RecordOne(s.history, Sent(tag, now));
    assert IsMessage(o);
  }

  lemma {:induction false} SendAllFaithful(s: State, due: seq<PendingSignal>, now: int)
    requires Faithful(s)
    requires forall d | d in due ::
               d.tag < |s.submissions| && s.submissions[d.tag] == d.signal && Target(d.signal) == Some(d.target)
    ensures Faithful(SendAll(s, due, now))
    decreases |due|
  {
    hide SendSignal, Messages, Tags, S.ToText, T.ParseUnsigned, Packet.Decode;
    if due != [] {
      assert due[0] in due;
      assert forall d | d in due[1..] :: d in due;
      match SendSignal(s, due[0].signal, due[0].target, due[0].tag, now)
      case Ok(s1) =>
        SendFaithful(s, due[0].signal, due[0].target, due[0].tag, now, s.submissions);
        SendKeepsSubmissions(s, due[0].signal, due[0].target, due[0].tag, now);
        SendAllFaithful(s1, due[1..], now);
      case Err(_) =>
        SendAllFaithful(Forget(s, due[0].signal, due[0].target), due[1..], now);
    }
  }

  lemma SendKeepsSubmissions(s: State, signal: S.Signal, target: u64, tag: nat, now: int)
    requires SendSignal(s, signal, target, tag, now).Ok?
    ensures var s1 := SendSignal(s, signal, target, tag, now).value;
            s1.submissions == s.submissions && s1 == s1.(submissions := s.submissions)
  {
    hide Packet.Encode, S.ToText;
  }

  lemma DueTags(s: State, now: int)
    requires Inv(s)
    ensures forall d | d in Due(s.pending, s.config, now) ::
              d.tag < |s.submissions| && s.submissions[d.tag] == d.signal && Target(d.signal) == Some(d.target)
  {
    forall d | d in Due(s.pending, s.config, now)
      ensures d.tag < |s.submissions| && s.submissions[d.tag] == d.signal && Target(d.signal) == Some(d.target)
    {
      var i :| 0 <= i < |s.pending| && s.pending[i] == d;
      assert EntryOk(s.config, s.submissions, s.history, s.pending[i]);
    }
  }

  lemma BroadcastFaithful(s: State, now: int)
    requires Faithful(s)
    ensures Faithful(Broadcast(s, now))
  {
    hide Packet.Encode, Packet.Decode, Messages, Tags, Shows;
    if s.config.broadcastAddress.Some? && BroadcastDue(s, now) {
      var addr := s.config.broadcastAddress.value;
      var loopback := Net.NewAddr(Net.LOCALHOST, addr.port);
      Packet.EncodeSucceeds(Packet.Request, s.networkId);
      OtherPacket(Packet.Request, s.networkId, addr);
      OtherPacket(Packet.Request, s.networkId, loopback);
      var o := Send(RequestDatagram(s), addr);
      EmitOne(s, o);
      EmitOne(Emit(s, o), Send(RequestDatagram(s), loopback));
    }
  }

  lemma UpdateFaithful(s: State, now: int)
    requires Faithful(s) && Inv(s)
    ensures Faithful(HandleUpdate(s, now))
  {
    hide SendAll, Broadcast, NextTimer, Survivors, Due, Messages, Tags, Inv, Shows;
    var s0 := s.(pending := Survivors(s.pending, s.config, now));
    DueTags(s, now);
    SendAllFaithful(s0, Due(s.pending, s.config, now), now);
    BroadcastFaithful(Retransmit(s, now), now);
    var s1 := Expire(Broadcast(Retransmit(s, now), now), now);
    EmitOne(s1, Wait(NextTimer(s1, now)));
  }

  lemma PacketFaithful(s: State, packet: Packet.Packet, sender: u64, addr: Net.SocketAddr)
    requires Faithful(s)
    ensures Faithful(HandlePacket(s, packet, sender, addr).0)
  {
    hide Packet.Encode, Packet.Decode, ServerRecord.Decode, ServerRecord.Serialize, S.FromText, Unanswered, Messages, Tags, Shows;
    var s' := HandlePacket(s, packet, sender, addr).0;
    match packet
    case Request =>
      if s' != s {
        var p := Packet.Response(ServerRecord.Serialize(s.serverData.value));
        OtherPacket(p, s.networkId, addr);
        EmitOne(s, Send(Packet.Encode(p, s.networkId).value, addr));
      }
    case Response(data) =>
      if s' != s {
        EmitOne(s, ServerDiscovered(sender, ServerRecord.Decode(data).value));
      }
    case Message(_, text) =>
      if s' != s {
        var signal := S.FromText(text, T.Show(sender)).value;
        EmitOne(s, Received(signal));
        RecordOne(s.history, Replied(sender, signal.connectionId, |s.submissions|));
      }
  }

  lemma HandleFaithful(s: State, input: Input)
    requires Faithful(s) && Inv(s)
    ensures Faithful(Handle(s, input).0)
  {
    hide Packet.Decode, HandlePacket, SendSignal, HandleUpdate, Messages, Tags, Shows, Inv, T.ParseUnsigned;
    match input
    case Datagram(buf, addr, now) =>
      match Packet.Decode(buf) {
        case None =>
        case Some((packet, sender)) =>
          RecordOne(s.history, Accepted(sender, addr, now));
          assert Faithful(Accept(s, sender, addr, now));
          PacketFaithful(Accept(s, sender, addr, now), packet, sender, addr);
      }
    case Submit(signal, now) =>
      match Target(signal) {
        case None =>
        case Some(target) =>
          if SendSignal(s, signal, target, |s.submissions|, now).Ok? {
            SendFaithful(s, signal, target, |s.submissions|, now, s.submissions + [signal]);
            SendKeepsSubmissions(s, signal, target, |s.submissions|, now);
          }
      }
    case SetServerData(_) =>
    case Update(now) => UpdateFaithful(s, now);
  }

  /** In every run the k-th message datagram queued carries the signal of the k-th `Sent` event, and there are no others. */
  lemma {:induction false} LogIsFaithful(networkId: u64, config: Config, inputs: seq<Input>)
    ensures Faithful(Run(New(networkId, config), inputs))
  {
    hide Handle;
    if inputs != [] {
      LogIsFaithful(networkId, config, inputs[..|inputs| - 1]);
      RunInv(networkId, config, inputs[..|inputs| - 1]);
      HandleFaithful(Run(New(networkId, config), inputs[..|inputs| - 1]), inputs[|inputs| - 1]);
    }
  }
}
