/** Over every run of a LAN signaler: who may speak for a network id, and which servers are remembered. */
module LanPinning {
  import opened Std
  import opened Codec
  import opened Lan
  import opened LanRetransmission
  import Packet
  import ServerRecord
  import S = Signals
  import Text

  /** The datagrams accepted so far, in order. */
  function Acceptances(history: seq<Event>): (r: seq<Event>)
    ensures forall x | x in r :: x.Accepted?
  {
    if history == [] then []
    else
      var init, last := Acceptances(history[..|history| - 1]), history[|history| - 1];
      if last.Accepted? then init + [last] else init
  }

  lemma AcceptancesSnoc(history: seq<Event>, x: Event)
    ensures Acceptances(history + [x]) == if x.Accepted? then Acceptances(history) + [x] else Acceptances(history)
  {
    assert (history + [x])[..|history|] == history;
  }

  function TimeOf(input: Input): Option<int> {
    if input.SetServerData? then None else Some(input.now)
  }

  /** The clock a run has reached, starting from `start`. */
  function Clock(start: int, inputs: seq<Input>): int {
    if inputs == [] then start
    else
      match TimeOf(inputs[|inputs| - 1])
      case None => Clock(start, inputs[..|inputs| - 1])
      case Some(t) => t
  }

  ghost predicate Monotone(start: int, inputs: seq<Input>) {
    forall i | 0 <= i < |inputs| && TimeOf(inputs[i]).Some? :: Clock(start, inputs[..i]) <= TimeOf(inputs[i]).value
  }

  // ---- pinned addresses ----

  ghost predicate Exclusive(accepted: seq<Event>, timeout: nat) {
    forall i, j | 0 <= i < j < |accepted| && accepted[i].Accepted? && accepted[j].Accepted?
                  && accepted[i].peer == accepted[j].peer && accepted[i].addr != accepted[j].addr ::
      accepted[i].at + timeout <= accepted[j].at
  }

  predicate Holds(addresses: map<u64, AddressEntry>, a: Event)
    requires a.Accepted?
  {
    a.peer in addresses && addresses[a.peer].addr == a.addr && a.at <= addresses[a.peer].lastSeen
  }

  /** An acceptance still pins its id, or has been quiet for the whole timeout. */
  ghost predicate PinnedOrStale(addresses: map<u64, AddressEntry>, accepted: seq<Event>, timeout: nat, clock: int) {
    forall i | 0 <= i < |accepted| && accepted[i].Accepted? ::
      accepted[i].at <= clock && (Holds(addresses, accepted[i]) || accepted[i].at + timeout <= clock)
  }

  ghost predicate Pins(s: State, clock: int) {
    var accepted := Acceptances(s.history);
    Exclusive(accepted, s.config.addressTimeout)
    && PinnedOrStale(s.addresses, accepted, s.config.addressTimeout, clock)
  }

  lemma AcceptPins(s: State, clock: int, sender: u64, addr: Net.SocketAddr, now: int)
    requires Pins(s, clock) && clock <= now && !PinnedElsewhere(s, sender, addr, now)
    ensures Pins(Accept(s, sender, addr, now), now)
  {
    AcceptancesSnoc(s.history, Accepted(sender, addr, now));
  }

  lemma {:induction false} SendAllPins(s: State, due: seq<PendingSignal>, now: int)
    ensures Acceptances(SendAll(s, due, now).history) == Acceptances(s.history)
    ensures SendAll(s, due, now).addresses == s.addresses && SendAll(s, due, now).discovered == s.discovered
    decreases |due|
  {
    hide Packet.Encode, S.ToText;
    if due != [] {
      match SendSignal(s, due[0].signal, due[0].target, due[0].tag, now)
      case Ok(s1) =>
        AcceptancesSnoc(s.history, Sent(due[0].tag, now));
        SendAllPins(s1, due[1..], now);
      case Err(_) => SendAllPins(Forget(s, due[0].signal, due[0].target), due[1..], now);
    }
  }

  lemma SamePins(s: State, s': State, clock: int)
    requires Acceptances(s'.history) == Acceptances(s.history) && s'.addresses == s.addresses && s'.config == s.config
    ensures Pins(s', clock) == Pins(s, clock)
  {
    hide Acceptances;
  }

  lemma ExpirePins(s: State, clock: int, now: int)
    requires Pins(s, clock) && clock <= now
    ensures Pins(Expire(s, now), now)
  {
    hide Acceptances;
  }

  lemma UpdatePins(s: State, clock: int, now: int)
    requires Pins(s, clock) && clock <= now
    ensures Pins(HandleUpdate(s, now), now)
  {
    hide SendAll, NextTimer, Survivors, Due, Pins, Acceptances, RequestDatagram, Expire;
    var s1 := s.(pending := Survivors(s.pending, s.config, now));
    SendAllPins(s1, Due(s.pending, s.config, now), now);
    SendAllConfig(s1, Due(s.pending, s.config, now), now);
    var s2 := Broadcast(Retransmit(s, now), now);
    SamePins(s, s2, clock);
    ExpirePins(s2, clock, now);
    SamePins(Expire(s2, now), HandleUpdate(s, now), now);
  }

  lemma HandlePacketFrame(s: State, packet: Packet.Packet, sender: u64, addr: Net.SocketAddr)
    ensures var s' := HandlePacket(s, packet, sender, addr).0;
            && s'.addresses == s.addresses && s'.config == s.config && s'.networkId == s.networkId
            && Acceptances(s'.history) == Acceptances(s.history)
  {
    hide Packet.Encode, ServerRecord.Decode, ServerRecord.Serialize, S.FromText, Unanswered, Acceptances;
    if packet.Message? {
      var signal := S.FromText(packet.data, Text.Show(sender));
      if signal.Some? {
        AcceptancesSnoc(s.history, Replied(sender, signal.value.connectionId, |s.submissions|));
      }
    }
  }

  lemma HandleDatagramPins(s: State, clock: int, buf: seq<u8>, addr: Net.SocketAddr, now: int)
    requires Pins(s, clock) && clock <= now
    ensures Pins(HandleDatagram(s, buf, addr, now).0, now)
  {
    hide Packet.Decode, HandlePacket, Acceptances;
    match Packet.Decode(buf)
    case None =>
    case Some((packet, sender)) =>
      if sender != s.networkId && !PinnedElsewhere(s, sender, addr, now) {
        AcceptPins(s, clock, sender, addr, now);
        HandlePacketFrame(Accept(s, sender, addr, now), packet, sender, addr);
      }
  }

  lemma HandleSignalPins(s: State, clock: int, signal: S.Signal, now: int)
    requires Pins(s, clock) && clock <= now
    ensures Pins(HandleSignal(s, signal, now).0, now)
  {
    hide Packet.Encode, S.ToText, Text.ParseUnsigned, Acceptances;
    var s' := HandleSignal(s, signal, now).0;
    AcceptancesSnoc(s.history, Sent(|s.submissions|, now));
    assert s'.history == s.history || s'.history == s.history + [Sent(|s.submissions|, now)];
  }

  lemma {:induction false} RunPins(networkId: u64, config: Config, start: int, inputs: seq<Input>)
    requires Monotone(start, inputs)
    ensures Pins(Run(New(networkId, config), inputs), Clock(start, inputs))
  {
    if inputs != [] {
      hide HandleDatagram, HandleSignal, HandleUpdate, Pins;
      var init, last := inputs[..|inputs| - 1], inputs[|inputs| - 1];
      forall i | 0 <= i < |init|
        ensures init[..i] == inputs[..i]
      {
      }
      RunPins(networkId, config, start, init);
      var s, clock := Run(New(networkId, config), init), Clock(start, init);
      match last
      case Datagram(buf, addr, now) => HandleDatagramPins(s, clock, buf, addr, now);
      case Submit(signal, now) => HandleSignalPins(s, clock, signal, now);
      case SetServerData(data) => SetServerDataPins(s, clock, data);
      case Update(now) => UpdatePins(s, clock, now);
    } else {
      assert Pins(New(networkId, config), start);
    }
  }

  lemma SetServerDataPins(s: State, clock: int, data: ServerRecord.ServerData)
    requires Pins(s, clock)
    ensures Pins(Handle(s, SetServerData(data)).0, clock)
  {
    hide Acceptances;
  }

  /** Under a clock that never runs backwards, two datagrams accepted for one network id from different addresses
      are at least `address_timeout` apart. */
  lemma AddressesArePinned(networkId: u64, config: Config, start: int, inputs: seq<Input>)
    requires Monotone(start, inputs)
    ensures Exclusive(Acceptances(Run(New(networkId, config), inputs).history), config.addressTimeout)
  {
    RunPins(networkId, config, start, inputs);
    RunConfig(networkId, config, inputs);
  }

  // ---- discovered servers ----

  ghost predicate Remembered(s: State) {
    && s.discovered.Keys <= s.addresses.Keys
    && |s.discovered| <= s.config.maxDiscovered
    && s.networkId !in s.addresses
  }

  lemma SmallerMap<K, V, W>(a: map<K, V>, b: map<K, W>)
    requires a.Keys <= b.Keys
    ensures |a| <= |b|
  {
    SmallerSet(a.Keys, b.Keys);
  }

  lemma {:induction false} SmallerSet<T>(a: set<T>, b: set<T>)
    requires a <= b
    ensures |a| <= |b|
  {
    if a != {} {
      var x :| x in a;
      SmallerSet(a - {x}, b - {x});
    }
  }

  lemma HandleDatagramRemembered(s: State, buf: seq<u8>, addr: Net.SocketAddr, now: int)
    requires Remembered(s)
    ensures Remembered(HandleDatagram(s, buf, addr, now).0)
  {
    hide Packet.Encode, Packet.Decode, ServerRecord.Decode, ServerRecord.Serialize, S.FromText;
  }

  lemma UpdateRemembered(s: State, now: int)
    requires Remembered(s)
    ensures Remembered(HandleUpdate(s, now))
  {
    hide SendAll, NextTimer, Survivors, Due;
    var s1 := s.(pending := Survivors(s.pending, s.config, now));
    SendAllPins(s1, Due(s.pending, s.config, now), now);
    SendAllConfig(s1, Due(s.pending, s.config, now), now);
    SmallerMap(HandleUpdate(s, now).discovered, s.discovered);
  }

  lemma HandleRemembered(s: State, input: Input)
    requires Remembered(s)
    ensures Remembered(Handle(s, input).0)
  {
    hide HandleDatagram, HandleUpdate, Packet.Encode, S.ToText;
    match input
    case Datagram(buf, addr, now) => HandleDatagramRemembered(s, buf, addr, now);
    case Submit(signal, now) =>
    case SetServerData(_) =>
    case Update(now) => UpdateRemembered(s, now);
  }

  /** In every run the discovered servers are pinned ids, at most `max_discovered` of them, never the signaler itself. */
  lemma {:induction false} DiscoveredArePinned(networkId: u64, config: Config, inputs: seq<Input>)
    ensures Remembered(Run(New(networkId, config), inputs))
  {
    hide Handle;
    if inputs != [] {
      DiscoveredArePinned(networkId, config, inputs[..|inputs| - 1]);
      HandleRemembered(Run(New(networkId, config), inputs[..|inputs| - 1]), inputs[|inputs| - 1]);
    }
  }
}
