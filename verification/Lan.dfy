/** The LAN signaler as a transition system over values (`signaling/lan/mod.rs`).

    Beside the fields of the source the state keeps what a run has done so far: every output ever queued
    (`emitted`), every signal accepted for sending (`submissions`, whose index is the signal's tag), every record
    set (`published`) and a `history` of the moments the safety properties speak about. None of these is read by a
    step. Instants are integers and durations naturals, so neither overflows. */
module Lan {
  import opened Std
  import opened Codec
  import opened Net
  import opened ServerRecord
  import opened Text
  import Packet
  import S = Signals

  datatype Config = Config(
    broadcastAddress: Option<SocketAddr>,
    broadcastInterval: nat,
    addressTimeout: nat,
    signalRetryInterval: nat,
    offerRetryInterval: nat,
    signalRetries: nat,
    maxDiscovered: nat)

  datatype AddressEntry = AddressEntry(addr: SocketAddr, lastSeen: int)

  datatype PendingSignal = PendingSignal(signal: S.Signal, target: u64, attempts: nat, nextSend: int, tag: nat)

  datatype Input =
    | Datagram(buf: seq<u8>, addr: SocketAddr, now: int)
    | Submit(signal: S.Signal, now: int)
    | SetServerData(data: ServerData)
    | Update(now: int)

  datatype Output =
    | Send(buf: seq<u8>, addr: SocketAddr)
    | Received(signal: S.Signal)
    | ServerDiscovered(id: u64, data: ServerData)
    | Wait(duration: nat)

  datatype Error = Protocol | InvalidNetworkId(text: string) | UnknownNetwork(id: u64)

  datatype Event =
    | Accepted(peer: u64, addr: SocketAddr, at: int)
    | Sent(tag: nat, at: int)
    | Replied(peer: u64, connectionId: u64, submitted: nat)

  datatype State = State(
    networkId: u64,
    config: Config,
    addresses: map<u64, AddressEntry>,
    discovered: map<u64, ServerData>,
    pending: seq<PendingSignal>,
    serverData: Option<ServerData>,
    lastBroadcast: Option<int>,
    lastCleanup: Option<int>,
    emitted: seq<Output>,
    submissions: seq<S.Signal>,
    published: seq<ServerData>,
    history: seq<Event>)

  function New(networkId: u64, config: Config): State {
    State(networkId, config, map[], map[], [], None, None, None, [], [], [], [])
  }

  function RetryInterval(config: Config, signal: S.Signal): nat {
    if signal.kind == S.Offer then config.offerRetryInterval else config.signalRetryInterval
  }

  function Emit(s: State, o: Output): State {
    s.(emitted := s.emitted + [o])
  }

  // ---- datagrams ----

  function HandleDatagram(s: State, buf: seq<u8>, addr: SocketAddr, now: int): (State, Option<Error>) {
    match Packet.Decode(buf)
    case None => (s, None)
    case Some((packet, sender)) =>
      if sender == s.networkId || PinnedElsewhere(s, sender, addr, now) then (s, None)
      else HandlePacket(Accept(s, sender, addr, now), packet, sender, addr)
  }

  /** The id is held by another address heard from less than `address_timeout` ago. */
  predicate PinnedElsewhere(s: State, sender: u64, addr: SocketAddr, now: int) {
    && sender in s.addresses
    && s.addresses[sender].addr != addr
    && Since(now, s.addresses[sender].lastSeen) < s.config.addressTimeout
  }

  function Accept(s: State, sender: u64, addr: SocketAddr, now: int): State {
    s.(addresses := s.addresses[sender := AddressEntry(addr, now)],
       history := s.history + [Accepted(sender, addr, now)])
  }

  function HandlePacket(s: State, packet: Packet.Packet, sender: u64, addr: SocketAddr): (State, Option<Error>) {
    match packet
    case Request => AnswerRequest(s, addr)
    case Response(data) => (Discover(s, sender, data), None)
    case Message(recipient, text) => (Receive(s, sender, recipient, text), None)
  }

  function AnswerRequest(s: State, addr: SocketAddr): (State, Option<Error>) {
    if s.serverData.None? then (s, None)
    else
      match Packet.Encode(Packet.Response(Serialize(s.serverData.value)), s.networkId)
      case None => (s, Some(Protocol))
      case Some(buf) => (Emit(s, Send(buf, addr)), None)
  }

  function Discover(s: State, sender: u64, applicationData: seq<u8>): State {
    if |s.discovered| >= s.config.maxDiscovered && sender !in s.discovered then s
    else
      match ServerRecord.Decode(applicationData)
      case None => s
      case Some(data) =>
        Emit(s.(discovered := s.discovered[sender := data]), ServerDiscovered(sender, data))
  }

  function Receive(s: State, sender: u64, recipient: u64, text: string): State {
    if text == "" || text == "Ping" || recipient != s.networkId then s
    else
      match S.FromText(text, Show(sender))
      case None => s
      case Some(signal) =>
        Emit(s.(pending := Unanswered(s.pending, sender, signal.connectionId),
                history := s.history + [Replied(sender, signal.connectionId, |s.submissions|)]),
             Received(signal))
  }

  function Unanswered(pending: seq<PendingSignal>, peer: u64, connectionId: u64): (r: seq<PendingSignal>)
    ensures forall p :: p in r <==> p in pending && (p.target != peer || p.signal.connectionId != connectionId)
  {
    var other := (p: PendingSignal) => p.target != peer || p.signal.connectionId != connectionId;
    KeepMembers(pending, other);
    Keep(pending, other)
  }

  // ---- signals ----

  function SendSignal(s: State, signal: S.Signal, target: u64, tag: nat, now: int): Result<State, Error> {
    if target !in s.addresses then Err(UnknownNetwork(target))
    else
      match Packet.Encode(Packet.Message(target, S.ToText(signal)), s.networkId)
      case None => Err(Protocol)
      case Some(buf) =>
        Ok(Emit(s, Send(buf, s.addresses[target].addr)).(history := s.history + [Sent(tag, now)]))
  }

  function HandleSignal(s: State, signal: S.Signal, now: int): (State, Option<Error>) {
    match ParseUnsigned(signal.networkId, MAX_U64)
    case None => (s, Some(InvalidNetworkId(signal.networkId)))
    case Some(target) =>
      match SendSignal(s, signal, target, |s.submissions|, now)
      case Err(e) => (s, Some(e))
      case Ok(s1) => (Submitted(s1, signal, target, now), None)
  }

  function Submitted(s: State, signal: S.Signal, target: u64, now: int): State {
    var s1 := s.(submissions := s.submissions + [signal]);
    if s.config.signalRetries == 0 then s1
    else
      var p := PendingSignal(signal, target, 1, now + RetryInterval(s.config, signal), |s.submissions|);
      s1.(pending := s1.pending + [p])
  }

  // ---- the timer ----

  function HandleUpdate(s: State, now: int): State {
    var s1 := Expire(Broadcast(Retransmit(s, now), now), now);
    Emit(s1, Wait(NextTimer(s1, now)))
  }

  function Rearmed(p: PendingSignal, config: Config, now: int): PendingSignal {
    p.(attempts := p.attempts + 1, nextSend := now + RetryInterval(config, p.signal))
  }

  /** `retain_mut`: what stays queued; a due signal is rearmed, or dropped once its retries are used up. */
  function Survivors(pending: seq<PendingSignal>, config: Config, now: int): seq<PendingSignal> {
    if pending == [] then []
    else
      var init, p := Survivors(pending[..|pending| - 1], config, now), pending[|pending| - 1];
      if p.nextSend > now then init + [p]
      else if p.attempts > config.signalRetries then init
      else init + [Rearmed(p, config, now)]
  }

  /** What is sent again, as it was queued. */
  function Due(pending: seq<PendingSignal>, config: Config, now: int): (r: seq<PendingSignal>)
    ensures forall p :: p in r <==> p in pending && p.nextSend <= now && p.attempts <= config.signalRetries
  {
    var due := (p: PendingSignal) => p.nextSend <= now && p.attempts <= config.signalRetries;
    KeepMembers(pending, due);
    Keep(pending, due)
  }

  function Forget(s: State, signal: S.Signal, target: u64): (r: State)
    ensures forall p :: p in r.pending <==> p in s.pending && (p.target != target || p.signal != signal)
  {
    var other := (p: PendingSignal) => p.target != target || p.signal != signal;
    KeepMembers(s.pending, other);
    s.(pending := Keep(s.pending, other))
  }

  function SendAll(s: State, due: seq<PendingSignal>, now: int): State
    decreases |due|
  {
    if due == [] then s
    else
      match SendSignal(s, due[0].signal, due[0].target, due[0].tag, now)
      case Ok(s1) => SendAll(s1, due[1..], now)
      case Err(_) => SendAll(Forget(s, due[0].signal, due[0].target), due[1..], now)
  }

  function Retransmit(s: State, now: int): State {
    SendAll(s.(pending := Survivors(s.pending, s.config, now)), Due(s.pending, s.config, now), now)
  }

  predicate BroadcastDue(s: State, now: int) {
    s.lastBroadcast.None? || Since(now, s.lastBroadcast.value) >= s.config.broadcastInterval
  }

  function RequestDatagram(s: State): (r: seq<u8>) {
    Packet.EncodeSucceeds(Packet.Request, s.networkId);
    Packet.Encode(Packet.Request, s.networkId).value
  }

  function Broadcast(s: State, now: int): State {
    if s.config.broadcastAddress.None? || !BroadcastDue(s, now) then s
    else
      var addr := s.config.broadcastAddress.value;
      var loopback := NewAddr(LOCALHOST, addr.port);
      var s1 := Emit(s, Send(RequestDatagram(s), addr));
      var s2 := if loopback != addr then Emit(s1, Send(RequestDatagram(s), loopback)) else s1;
      s2.(lastBroadcast := Some(now))
  }

  function Expire(s: State, now: int): State {
    var addresses := map id | id in s.addresses
                           && Since(now, s.addresses[id].lastSeen) < s.config.addressTimeout :: s.addresses[id];
    s.(addresses := addresses,
       discovered := map id | id in s.discovered && id in addresses :: s.discovered[id],
       lastCleanup := Some(now))
  }

  function PendingWait(wait: nat, pending: seq<PendingSignal>, now: int): nat {
    if pending == [] then wait
    else Min(PendingWait(wait, pending[..|pending| - 1], now), Since(pending[|pending| - 1].nextSend, now))
  }

  function NextTimer(s: State, now: int): nat {
    var wait := s.config.addressTimeout;
    var wait1 :=
      if s.config.broadcastAddress.None? then wait
      else if s.lastBroadcast.None? then 0
      else Min(wait, Since(s.lastBroadcast.value + s.config.broadcastInterval, now));
    PendingWait(wait1, s.pending, now)
  }

  // ---- runs ----

  function Handle(s: State, input: Input): (State, Option<Error>) {
    match input
    case Datagram(buf, addr, now) => HandleDatagram(s, buf, addr, now)
    case Submit(signal, now) => HandleSignal(s, signal, now)
    case SetServerData(data) =>
      (s.(serverData := Some(data), published := s.published + [data]), None)
    case Update(now) => (HandleUpdate(s, now), None)
  }

  /** A caller that ignores errors and carries on. */
  function Run(s: State, inputs: seq<Input>): State {
    if inputs == [] then s
    else Handle(Run(s, inputs[..|inputs| - 1]), inputs[|inputs| - 1]).0
  }
}
