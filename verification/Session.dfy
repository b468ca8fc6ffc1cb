/** The life cycle of a session (`session/mod.rs`): its events, its establish deadline and its early packets.

    ICE, DTLS and SCTP are the surroundings. Each input comes with what the layers report while it is handled; they
    may report anything. `emitted` is every event and wait ever queued, `arrived` every packet that was not ICE's,
    `read` every packet handed to DTLS, `startedAt` how many had arrived when the transports started and `earlyRead`
    how many of the kept ones were handed over then. None of these five is read by a step. */
module Session {
  import opened Std
  import opened Codec

  const MAX_EARLY_PACKETS: nat := 8

  type Bytes = seq<u8>

  /** Which channels opened, and whether that went without an error. */
  datatype Opening = Opening(reliable: bool, unreliable: bool, ok: bool)

  datatype SctpEvent = Connected(opening: Opening) | Lost | OtherEvent

  /** `iceEvents`: for each ICE event whether it is a failure. `selected`: ICE has a pair. `dtlsOk`, `sctpOk`: the layer
      can be created. `earlyError`: the kept packet DTLS refuses, if any. `timeout`: when the layers want to be
      called next. */
  datatype Layers = Layers(
    iceEvents: seq<bool>,
    selected: bool,
    dtlsOk: bool,
    sctpOk: bool,
    earlyError: Option<nat>,
    sctpEvents: seq<SctpEvent>,
    drained: Opening,
    writesOk: bool,
    timeout: Option<int>)

  /** `ice` is what ICE makes of a packet: an error, taken or not taken. The flags say whether the layers accept. */
  datatype Input =
    | Packet(data: Bytes, ice: Option<bool>, readOk: bool, layers: Layers, now: int)
    | RemoteDescription(ok: bool, layers: Layers, now: int)
    | RemoteCandidate(ok: bool, layers: Layers, now: int)
    | Send(ok: bool, layers: Layers, now: int)
    | Timeout(ok: bool, layers: Layers, now: int)
    | SetEstablishDeadline(within: nat)

  datatype Output = Ready | Failed | Wait(duration: nat)

  datatype Events = Events(readyEmitted: bool, failedEmitted: bool, emitted: seq<Output>)

  datatype Channels = Channels(reliable: bool, unreliable: bool)

  datatype Transport = Transport(
    certificate: bool,
    role: bool,
    early: seq<Bytes>,
    started: bool,
    arrived: seq<Bytes>,
    read: seq<Bytes>,
    startedAt: Option<nat>,
    earlyRead: nat)

  datatype State = State(
    controlling: bool,
    events: Events,
    channels: Channels,
    transport: Transport,
    establishWithin: nat,
    establishStarted: Option<int>)

  function New(controlling: bool, within: nat): State {
    State(controlling, Events(false, false, []), Channels(false, false),
          Transport(true, false, [], false, [], [], None, 0), within, None)
  }

  function Emit(e: Events, o: Output): Events {
    e.(emitted := e.emitted + [o])
  }

  function Fail(e: Events): Events {
    if e.failedEmitted then e else Emit(e.(failedEmitted := true), Failed)
  }

  // ---- the stages of a pump ----

  function IceEvents(e: Events, reports: seq<bool>): Events {
    if reports == [] then e
    else
      var e1 := IceEvents(e, reports[..|reports| - 1]);
      if reports[|reports| - 1] then Fail(e1) else e1
  }

  /** How many kept packets DTLS is given: all, or up to the one it refuses. */
  function EarlyReads(early: seq<Bytes>, error: Option<nat>): (n: nat)
    ensures n <= |early|
  {
    if error.Some? && error.value < |early| then error.value + 1 else |early|
  }

  /** The role is spent by the attempt, and so is the certificate, even when a layer cannot be created. */
  function Start(t: Transport, layers: Layers): (Transport, bool) {
    if t.started || !layers.selected || !t.role then (t, true)
    else if !t.certificate then (t.(role := false), false)
    else if !layers.dtlsOk || !layers.sctpOk then (t.(role := false, certificate := false), false)
    else
      var n := EarlyReads(t.early, layers.earlyError);
      (Transport(false, false, [], true, t.arrived, t.read + t.early[..n], Some(|t.arrived|), n),
       !(layers.earlyError.Some? && layers.earlyError.value < |t.early|))
  }

  function Opened(c: Channels, o: Opening): Channels {
    Channels(c.reliable || o.reliable, c.unreliable || o.unreliable)
  }

  datatype Drive = Drive(channels: Channels, lost: bool, ok: bool)

  function SctpEvents(controlling: bool, c: Channels, reports: seq<SctpEvent>): Drive {
    if reports == [] then Drive(c, false, true)
    else
      var d := SctpEvents(controlling, c, reports[..|reports| - 1]);
      if !d.ok then d
      else match reports[|reports| - 1]
        case Connected(opening) =>
          if controlling then Drive(Opened(d.channels, opening), d.lost, opening.ok) else d
        case Lost => Drive(d.channels, true, true)
        case OtherEvent => d
  }

  function Association(controlling: bool, c: Channels, layers: Layers): Drive {
    var d := SctpEvents(controlling, c, layers.sctpEvents);
    if !d.ok then d
    else Drive(Opened(d.channels, layers.drained), d.lost, layers.drained.ok && layers.writesOk)
  }

  function AnnounceReady(e: Events, c: Channels): Events {
    if c.reliable && c.unreliable && !e.readyEmitted then Emit(e.(readyEmitted := true), Ready) else e
  }

  function EstablishDeadline(s: State): Option<int> {
    if s.events.readyEmitted || s.events.failedEmitted || s.establishStarted.None? then None
    else Some(s.establishStarted.value + s.establishWithin)
  }

  predicate PastDeadline(s: State, now: int) {
    s.establishStarted.Some? && now >= s.establishStarted.value + s.establishWithin
  }

  function CheckDeadline(e: Events, past: bool): Events {
    if !e.readyEmitted && !e.failedEmitted && past then Fail(e) else e
  }

  function Finish(e: Events, d: Drive, past: bool): Events {
    CheckDeadline(AnnounceReady(if d.lost then Fail(e) else e, d.channels), past)
  }

  function Driven(s: State, started: bool, layers: Layers): Drive {
    if started then Association(s.controlling, s.channels, layers) else Drive(s.channels, false, true)
  }

  function Pump(s: State, layers: Layers, now: int): (State, bool) {
    var e := IceEvents(s.events, layers.iceEvents);
    var (t, ok) := Start(s.transport, layers);
    if !ok then (s.(events := e, transport := t), false)
    else
      var d := Driven(s, t.started, layers);
      (s.(events := if d.ok then Finish(e, d, PastDeadline(s, now)) else e, channels := d.channels, transport := t), d.ok)
  }

  // ---- inputs ----

  function Earliest(a: Option<int>, b: Option<int>): Option<int> {
    if a.None? || (b.Some? && b.value <= a.value) then b else a
  }

  function PushWait(s: State, timeout: Option<int>, now: int): State {
    match Earliest(EstablishDeadline(s), timeout)
    case None => s
    case Some(at) => s.(events := Emit(s.events, Wait(Since(at, now))))
  }

  function PumpAndWait(s: State, layers: Layers, now: int): (State, bool) {
    var (s1, ok) := Pump(s, layers, now);
    if ok then (PushWait(s1, layers.timeout, now), true) else (s1, false)
  }

  datatype Next = Stop(ok: bool) | JustPump | PumpThenWait

  function TakePacket(t: Transport, data: Bytes, ice: Option<bool>, readOk: bool): (Transport, Next) {
    if ice.None? then (t, Stop(false))
    else if ice.value then (t, JustPump)
    else if t.started then
      (t.(arrived := t.arrived + [data], read := t.read + [data]), if readOk then JustPump else Stop(false))
    else
      (t.(arrived := t.arrived + [data], early := if |t.early| < MAX_EARLY_PACKETS then t.early + [data] else t.early),
       Stop(true))
  }

  function Described(s: State, now: int): State {
    s.(transport := s.transport.(role := true),
       establishStarted := if s.establishStarted.None? then Some(now) else s.establishStarted)
  }

  /** What an input does before the layers are pumped. */
  function Prepare(s: State, input: Input): (State, Next) {
    match input
    case Packet(data, ice, readOk, _, _) =>
      var (t, next) := TakePacket(s.transport, data, ice, readOk);
      (s.(transport := t), next)
    case RemoteDescription(ok, _, now) => if ok then (Described(s, now), PumpThenWait) else (s, Stop(false))
    case RemoteCandidate(ok, _, _) => (s, if ok then JustPump else Stop(false))
    case Send(ok, _, _) => (s, if ok then JustPump else Stop(false))
    case Timeout(ok, _, _) => (s, if ok then PumpThenWait else Stop(false))
    case SetEstablishDeadline(within) => (s.(establishWithin := within), Stop(true))
  }

  /** The state after an input, and whether it was handled without an error. */
  function Handle(s: State, input: Input): (State, bool) {
    var (s1, next) := Prepare(s, input);
    match next
    case Stop(ok) => (s1, ok)
    case JustPump => Pump(s1, input.layers, input.now)
    case PumpThenWait => PumpAndWait(s1, input.layers, input.now)
  }

  /** A caller that ignores errors and carries on. */
  function Run(s: State, inputs: seq<Input>): State {
    if inputs == [] then s else Handle(Run(s, inputs[..|inputs| - 1]), inputs[|inputs| - 1]).0
  }
}
