/** The LAN signaler as the object it is: fields updated in place, each method doing what its step function says. */
module LanSignalerObject {
  import opened Std
  import opened Codec
  import opened Net
  import opened Text
  import L = Lan
  import R = LanRetransmission
  import LanPinning
  import LanLog
  import Packet
  import ServerRecord
  import S = Signals

  class LanSignaler {
    const networkId: u64
    const config: L.Config

    var addresses: map<u64, L.AddressEntry>
    var discovered: map<u64, ServerRecord.ServerData>
    var pending: seq<L.PendingSignal>
    var serverData: Option<ServerRecord.ServerData>
    var lastBroadcast: Option<int>
    var lastCleanup: Option<int>
    var output: seq<L.Output>

    /** Numbers the signals accepted for sending; decides nothing. */
    var accepted: nat

    ghost var polled: seq<L.Output>
    ghost var submissions: seq<S.Signal>
    ghost var published: seq<ServerRecord.ServerData>
    ghost var history: seq<L.Event>

    /** Every input handled so far. */
    ghost var inputs: seq<L.Input>

    ghost predicate Numbered()
      reads this
    {
      accepted == |submissions|
    }

    /** The signaler is where the transition system gets on the inputs handled so far. */
    ghost predicate Valid()
      reads this
    {
      Numbered() && State() == L.Run(L.New(networkId, config), inputs)
    }

    ghost function State(): L.State
      reads this
    {
      L.State(networkId, config, addresses, discovered, pending, serverData, lastBroadcast, lastCleanup,
              polled + output, submissions, published, history)
    }

    constructor (networkId: u64, config: L.Config)
      ensures Valid() && inputs == [] && State() == L.New(networkId, config)
    {
      this.networkId, this.config := networkId, config;
      addresses, discovered, pending := map[], map[], [];
      serverData, lastBroadcast, lastCleanup := None, None, None;
      output, accepted := [], 0;
      polled, submissions, published, history, inputs := [], [], [], [], [];
    }

    method Handle(input: L.Input) returns (error: Option<L.Error>)
      requires Valid()
      modifies this
      ensures Valid() && inputs == old(inputs) + [input] && polled == old(polled)
      ensures (State(), error) == L.Handle(old(State()), input)
    {
      hide L.Handle;
      error := Dispatch(input);
      inputs := inputs + [input];
      RunSnoc(L.New(networkId, config), old(inputs), input);
    }

    method Dispatch(input: L.Input) returns (error: Option<L.Error>)
      requires Numbered()
      modifies this
      ensures Numbered() && polled == old(polled) && inputs == old(inputs)
      ensures (State(), error) == L.Handle(old(State()), input)
    {
      match input {
        case Datagram(buf, addr, now) =>
          error := HandleDatagram(buf, addr, now);
        case Submit(signal, now) =>
          error := HandleSignal(signal, now);
        case SetServerData(data) =>
          serverData := Some(data);
          published := published + [data];
          error := None;
        case Update(now) =>
          HandleUpdate(now);
          error := None;
      }
    }

    /** Outputs leave in the order they were queued. */
    method Poll() returns (o: Option<L.Output>)
      requires Valid()
      modifies this`output, this`polled
      ensures Valid() && State() == old(State())
      ensures if old(output) == [] then o == None && polled == old(polled) && inputs == old(inputs)
              else o == Some(old(output)[0]) && polled == old(polled) + [old(output)[0]]
    {
      if output == [] {
        return None;
      }
      o := Some(output[0]);
      polled := polled + [output[0]];
      output := output[1..];
      assert polled + output == old(polled + output);
    }

    method Push(o: L.Output)
      requires Numbered()
      modifies this`output
      ensures Numbered() && State() == L.Emit(old(State()), o)
    {
      output := output + [o];
      assert polled + output == old(polled + output) + [o];
    }

    method HandleDatagram(buf: seq<u8>, addr: SocketAddr, now: int) returns (error: Option<L.Error>)
      requires Numbered()
      modifies this
      ensures Numbered() && polled == old(polled) && inputs == old(inputs)
      ensures (State(), error) == L.HandleDatagram(old(State()), buf, addr, now)
    {
      hide Packet.Decode, Packet.Encode, L.HandlePacket;
      error := None;
      var decoded := Packet.DecodePacket(buf);
      if decoded.None? {
        return;
      }
      var (packet, sender) := decoded.value;
      if sender == networkId {
        return;
      }
      if sender in addresses
         && addresses[sender].addr != addr
         && Since(now, addresses[sender].lastSeen) < config.addressTimeout {
        return;
      }
      addresses := addresses[sender := L.AddressEntry(addr, now)];
      history := history + [L.Accepted(sender, addr, now)];
      error := HandlePacket(packet, sender, addr);
    }

    method HandlePacket(packet: Packet.Packet, sender: u64, addr: SocketAddr) returns (error: Option<L.Error>)
      requires Numbered()
      modifies this
      ensures Numbered() && polled == old(polled) && inputs == old(inputs)
      ensures (State(), error) == L.HandlePacket(old(State()), packet, sender, addr)
    {
      hide Packet.Decode, Packet.Encode, ServerRecord.Decode, ServerRecord.Serialize, S.FromText;
      error := None;
      match packet {
        case Request =>
          error := AnswerRequest(addr);
        case Response(applicationData) =>
          var full := |discovered| >= config.maxDiscovered;
          if full && sender !in discovered {
            return;
          }
          var data := ServerRecord.Decode(applicationData);
          if data.Some? {
            discovered := discovered[sender := data.value];
            Push(L.ServerDiscovered(sender, data.value));
          }
        case Message(recipient, text) =>
          if text == "" || text == "Ping" || recipient != networkId {
            return;
          }
          var signal := S.FromText(text, Show(sender));
          if signal.None? {
            return;
          }
          pending := Keep(pending, (p: L.PendingSignal) =>
            p.target != sender || p.signal.connectionId != signal.value.connectionId);
          history := history + [L.Replied(sender, signal.value.connectionId, |submissions|)];
          Push(L.Received(signal.value));
      }
    }

    method AnswerRequest(addr: SocketAddr) returns (error: Option<L.Error>)
      requires Numbered()
      modifies this`output
      ensures Numbered()
      ensures (State(), error) == L.AnswerRequest(old(State()), addr)
    {
      hide Packet.Encode, ServerRecord.Serialize;
      if serverData.None? {
        return None;
      }
      var applicationData := ServerRecord.Serialize(serverData.value);
      var buf := Packet.EncodePacket(Packet.Response(applicationData), networkId);
      if buf.None? {
        return Some(L.Protocol);
      }
      Push(L.Send(buf.value, addr));
      return None;
    }

    method HandleSignal(signal: S.Signal, now: int) returns (error: Option<L.Error>)
      requires Numbered()
      modifies this
      ensures Numbered() && polled == old(polled) && inputs == old(inputs)
      ensures (State(), error) == L.HandleSignal(old(State()), signal, now)
    {
      hide ParseUnsigned, L.SendSignal;
      var target := ParseUnsigned(signal.networkId, MAX_U64);
      if target.None? {
        return Some(L.InvalidNetworkId(signal.networkId));
      }
      error := SendSignal(signal, target.value, accepted, now);
      if error.Some? {
        return;
      }
      SendKeepsLogs(old(State()), signal, target.value, |old(submissions)|, now);
      if config.signalRetries > 0 {
        var nextSend := now + L.RetryInterval(config, signal);
        pending := pending + [L.PendingSignal(signal, target.value, 1, nextSend, accepted)];
      }
      accepted := accepted + 1;
      submissions := submissions + [signal];
    }

    method SendSignal(signal: S.Signal, target: u64, tag: nat, now: int) returns (error: Option<L.Error>)
      requires Numbered()
      modifies this`output, this`history
      ensures Numbered()
      ensures match L.SendSignal(old(State()), signal, target, tag, now)
              case Ok(s) => error == None && State() == s
              case Err(e) => error == Some(e) && State() == old(State())
    {
      hide Packet.Encode, S.ToText;
      if target !in addresses {
        return Some(L.UnknownNetwork(target));
      }
      var addr := addresses[target].addr;
      var buf := Packet.EncodePacket(Packet.Message(target, S.ToText(signal)), networkId);
      if buf.None? {
        return Some(L.Protocol);
      }
      Push(L.Send(buf.value, addr));
      history := history + [L.Sent(tag, now)];
      return None;
    }

    method HandleUpdate(now: int)
      requires Numbered()
      modifies this
      ensures Numbered() && polled == old(polled) && inputs == old(inputs)
      ensures State() == L.HandleUpdate(old(State()), now)
    {
      hide L.Retransmit, L.Broadcast, L.NextTimer;
      Retransmit(now);
      Broadcast(now);
      Expire(now);
      var wait := NextTimer(now);
      Push(L.Wait(wait));
    }

    method Retransmit(now: int)
      requires Numbered()
      modifies this`pending, this`output, this`history
      ensures Numbered()
      ensures State() == L.Retransmit(old(State()), now)
    {
      hide L.SendSignal, L.RetryInterval;
      var due: seq<L.PendingSignal> := [];
      var kept: seq<L.PendingSignal> := [];
      for i := 0 to |pending|
        invariant pending == old(pending) && State() == old(State())
        invariant kept == L.Survivors(pending[..i], config, now)
        invariant due == L.Due(pending[..i], config, now)
      {
        var p := pending[i];
        assert pending[..i + 1][..i] == pending[..i];
        if p.nextSend > now {
          kept := kept + [p];
        } else if p.attempts <= config.signalRetries {
          due := due + [p];
          kept := kept + [p.(attempts := p.attempts + 1, nextSend := now + L.RetryInterval(config, p.signal))];
        }
      }
      assert pending[..|pending|] == pending;
      pending := kept;
      ghost var start := State();
      for i := 0 to |due|
        invariant Numbered()
        invariant L.SendAll(start, due, now) == L.SendAll(State(), due[i..], now)
      {
        assert due[i..][1..] == due[i + 1..];
        var error := SendSignal(due[i].signal, due[i].target, due[i].tag, now);
        if error.Some? {
          pending := Keep(pending, (p: L.PendingSignal) => p.target != due[i].target || p.signal != due[i].signal);
        }
      }
      assert due[|due|..] == [];
    }

    method Broadcast(now: int)
      requires Numbered()
      modifies this`output, this`lastBroadcast
      ensures Numbered()
      ensures State() == L.Broadcast(old(State()), now)
    {
      hide Packet.Encode;
      if config.broadcastAddress.None? {
        return;
      }
      var addr := config.broadcastAddress.value;
      var due := match lastBroadcast {
        case Some(last) => Since(now, last) >= config.broadcastInterval
        case None => true
      };
      if !due {
        return;
      }
      var buf := Packet.EncodePacket(Packet.Request, networkId);
      Packet.EncodeSucceeds(Packet.Request, networkId);
      Push(L.Send(buf.value, addr));
      var loopback := NewAddr(LOCALHOST, addr.port);
      if loopback != addr {
        Push(L.Send(buf.value, loopback));
      }
      lastBroadcast := Some(now);
    }

    method Expire(now: int)
      requires Numbered()
      modifies this`addresses, this`discovered, this`lastCleanup
      ensures Numbered()
      ensures State() == L.Expire(old(State()), now)
    {
      addresses := map id | id in addresses
                         && Since(now, addresses[id].lastSeen) < config.addressTimeout :: addresses[id];
      discovered := map id | id in discovered && id in addresses :: discovered[id];
      lastCleanup := Some(now);
    }

    method NextTimer(now: int) returns (wait: nat)
      requires Numbered()
      ensures wait == L.NextTimer(State(), now)
    {
      wait := config.addressTimeout;
      if config.broadcastAddress.Some? {
        var next := match lastBroadcast {
          case Some(last) => Since(last + config.broadcastInterval, now)
          case None => 0
        };
        wait := Min(wait, next);
      }
      ghost var start := wait;
      for i := 0 to |pending|
        invariant wait == L.PendingWait(start, pending[..i], now)
      {
        assert pending[..i + 1][..i] == pending[..i];
        wait := Min(wait, Since(pending[i].nextSend, now));
      }
      assert pending[..|pending|] == pending;
    }
  }

  lemma SendKeepsLogs(s: L.State, signal: S.Signal, target: u64, tag: nat, now: int)
    ensures var r := L.SendSignal(s, signal, target, tag, now);
            r.Ok? ==> r.value.submissions == s.submissions && r.value.config == s.config && r.value.pending == s.pending
  {
    hide Packet.Encode, S.ToText;
  }

  lemma RunSnoc(s: L.State, inputs: seq<L.Input>, input: L.Input)
    ensures L.Run(s, inputs + [input]) == L.Handle(L.Run(s, inputs), input).0
  {
    hide L.Handle;
    assert (inputs + [input])[..|inputs|] == inputs;
  }

  /** What every run promises, every signaler keeps, whatever it has handled. */
  lemma SignalerKeepsPromises(x: LanSignaler)
    requires x.Valid()
    ensures R.AtMost(x.history, 1 + x.config.signalRetries)
    ensures R.Spaced(x.config, x.submissions, x.history)
    ensures R.SilentOnceAnswered(x.submissions, x.history)
    ensures LanPinning.Remembered(x.State()) && LanLog.Faithful(x.State())
  {
    hide L.Run, R.AtMost, R.Spaced, R.SilentOnceAnswered, LanPinning.Remembered, LanLog.Faithful;
    R.TransmissionsAreLimited(x.networkId, x.config, x.inputs);
    LanPinning.DiscoveredArePinned(x.networkId, x.config, x.inputs);
    LanLog.LogIsFaithful(x.networkId, x.config, x.inputs);
  }
}
