/** Several LAN signalers on one network: what is received was sent.

    The network may lose, duplicate, reorder and misdeliver datagrams and give them any source address; what it
    cannot do is make one up, so every delivered datagram was queued by some signaler before. */
module LanNetwork {
  import opened Std
  import opened Codec
  import opened Lan
  import opened LanRetransmission
  import opened LanGiveUp
  import LanDelivery
  import Packet
  import ServerRecord
  import S = Signals
  import T = Text

  /** The signalers; nothing keeps two of them from using one network id. */
  type World = seq<State>

  datatype Step = Step(node: nat, input: Input)

  // ---- what a signaler may send ----

  ghost predicate Justified(s: State, p: Packet.Packet) {
    match p
    case Request => true
    case Response(data) => exists d :: d in s.published && data == ServerRecord.Serialize(d)
    case Message(target, text) => exists m :: m in s.submissions && Carries(m, target, text)
  }

  predicate Carries(m: S.Signal, target: u64, text: string) {
    Target(m) == Some(target) && text == S.ToText(m)
  }

  ghost predicate Genuine(s: State, buf: seq<u8>) {
    exists p :: Justified(s, p) && Packet.Encode(p, s.networkId) == Some(buf)
  }

  ghost predicate Honest(s: State) {
    && Inv(s)
    && (s.serverData.Some? ==> s.serverData.value in s.published)
    && forall o | o in s.emitted && o.Send? :: Genuine(s, o.buf)
  }

  /** Nothing already sent is disowned when the logs grow. */
  lemma GenuineGrows(s: State, s': State, buf: seq<u8>)
    requires Genuine(s, buf) && s'.networkId == s.networkId
    requires s.submissions <= s'.submissions && s.published <= s'.published
    ensures Genuine(s', buf)
  {
    hide Packet.Encode, ServerRecord.Serialize, S.ToText;
    var p :| Justified(s, p) && Packet.Encode(p, s.networkId) == Some(buf);
    match p
    case Request =>
    case Response(data) =>
      var d :| d in s.published && data == ServerRecord.Serialize(d);
      assert d in s'.published;
    case Message(target, text) =>
      var m :| m in s.submissions && Carries(m, target, text);
      assert m in s'.submissions;
  }

  // ---- what a step puts out ----

  /** Where an output queued by a step comes from. */
  ghost predicate Explained(s': State, input: Input, o: Output) {
    match o
    case Send(buf, _) => Genuine(s', buf)
    case Wait(_) => true
    case Received(signal) =>
      input.Datagram? && exists sender, text ::
        && Packet.Decode(input.buf) == Some((Packet.Message(s'.networkId, text), sender))
        && S.FromText(text, T.Show(sender)) == Some(signal)
    case ServerDiscovered(id, data) =>
      input.Datagram? && exists bytes ::
        && Packet.Decode(input.buf) == Some((Packet.Response(bytes), id))
        && ServerRecord.Decode(bytes) == Some(data)
  }

  ghost predicate StepExplained(s: State, input: Input, s': State) {
    && s.submissions <= s'.submissions && s.published <= s'.published && s'.networkId == s.networkId
    && forall o | o in s'.emitted :: o in s.emitted || Explained(s', input, o)
  }

  lemma MessageGenuine(s: State, m: S.Signal, target: u64, buf: seq<u8>)
    requires m in s.submissions && Target(m) == Some(target)
    requires Packet.Encode(Packet.Message(target, S.ToText(m)), s.networkId) == Some(buf)
    ensures Genuine(s, buf)
  {
    hide Packet.Encode, S.ToText;
    assert Carries(m, target, S.ToText(m));
    assert Justified(s, Packet.Message(target, S.ToText(m)));
  }

  lemma DatagramExplained(s: State, buf: seq<u8>, addr: Net.SocketAddr, now: int)
    requires Honest(s)
    ensures StepExplained(s, Datagram(buf, addr, now), HandleDatagram(s, buf, addr, now).0)
  {
    hide Packet.Encode, Packet.Decode, ServerRecord.Decode, ServerRecord.Serialize, S.FromText, S.ToText, Unanswered, Inv;
    var s' := HandleDatagram(s, buf, addr, now).0;
    if s.serverData.Some? {
      var p := Packet.Response(ServerRecord.Serialize(s.serverData.value));
      assert Justified(s', p);
    }
  }

  lemma SignalExplained(s: State, signal: S.Signal, now: int)
    requires Honest(s)
    ensures StepExplained(s, Submit(signal, now), HandleSignal(s, signal, now).0)
  {
    hide Packet.Encode, S.ToText, T.ParseUnsigned, Inv;
    var s' := HandleSignal(s, signal, now).0;
    match Target(signal)
    case None =>
    case Some(target) =>
      if SendSignal(s, signal, target, |s.submissions|, now).Ok? {
        MessageGenuine(s', signal, target, Packet.Encode(Packet.Message(target, S.ToText(signal)), s.networkId).value);
      }
  }

  lemma {:induction false} SendAllExplained(s: State, due: seq<PendingSignal>, now: int, input: Input)
    requires forall d | d in due :: d.signal in s.submissions && Target(d.signal) == Some(d.target)
    ensures StepExplained(s, input, SendAll(s, due, now))
    decreases |due|
  {
    hide Packet.Encode, S.ToText, Explained;
    var s' := SendAll(s, due, now);
    SendAllSubmissions(s, due, now);
    SendAllConfig(s, due, now);
    if due != [] {
      assert due[0] in due;
      assert forall d | d in due[1..] :: d in due;
      match SendSignal(s, due[0].signal, due[0].target, due[0].tag, now)
      case Ok(s1) =>
        SendAllExplained(s1, due[1..], now, input);
        var o := s1.emitted[|s.emitted|];
        MessageGenuine(s', due[0].signal, due[0].target, o.buf);
        SendIsExplained(s', input, o);
        assert forall x | x in s1.emitted :: x in s.emitted || x == o;
      case Err(_) =>
        SendAllExplained(Forget(s, due[0].signal, due[0].target), due[1..], now, input);
    }
  }

  lemma SendIsExplained(s: State, input: Input, o: Output)
    requires o.Send? && Genuine(s, o.buf)
    ensures Explained(s, input, o)
  {
  }

  lemma UpdateExplained(s: State, now: int)
    requires Honest(s)
    ensures StepExplained(s, Update(now), HandleUpdate(s, now))
  {
    hide Packet.Encode, SendAll, NextTimer, Survivors, Due, Inv;
    var due := Due(s.pending, s.config, now);
    var s0 := s.(pending := Survivors(s.pending, s.config, now));
    DueComesFromSubmissions(s, now);
    SendAllExplained(s0, due, now, Update(now));
    var s1 := SendAll(s0, due, now);
    var s' := HandleUpdate(s, now);
    Packet.EncodeSucceeds(Packet.Request, s.networkId);
    assert Justified(s', Packet.Request);
    forall o | o in s'.emitted
      ensures o in s.emitted || Explained(s', Update(now), o)
    {
      if o in s1.emitted && o !in s.emitted && o.Send? {
        GenuineGrows(s1, s', o.buf);
      }
    }
  }

  lemma DueComesFromSubmissions(s: State, now: int)
    requires Inv(s)
    ensures forall d | d in Due(s.pending, s.config, now) :: d.signal in s.submissions && Target(d.signal) == Some(d.target)
  {
    forall d | d in Due(s.pending, s.config, now)
      ensures d.signal in s.submissions && Target(d.signal) == Some(d.target)
    {
      var i :| 0 <= i < |s.pending| && s.pending[i] == d;
      assert EntryOk(s.config, s.submissions, s.history, s.pending[i]);
    }
  }

  lemma HandleExplained(s: State, input: Input)
    requires Honest(s)
    ensures StepExplained(s, input, Handle(s, input).0)
    ensures Honest(Handle(s, input).0)
  {
    hide HandleDatagram, HandleSignal, HandleUpdate, Inv, Genuine;
    var s' := Handle(s, input).0;
    match input {
      case Datagram(buf, addr, now) => DatagramExplained(s, buf, addr, now);
      case Submit(signal, now) => SignalExplained(s, signal, now);
      case SetServerData(_) =>
      case Update(now) => UpdateExplained(s, now);
    }
    HandleInv(s, input);
    HandleServerData(s, input);
    forall o | o in s'.emitted && o.Send?
      ensures Genuine(s', o.buf)
    {
      if o in s.emitted {
        GenuineGrows(s, s', o.buf);
      }
    }
  }

  lemma HandleServerData(s: State, input: Input)
    ensures var s' := Handle(s, input).0;
            if input.SetServerData? then s'.serverData == Some(input.data) && s'.published == s.published + [input.data]
            else s'.serverData == s.serverData && s'.published == s.published
  {
    hide Packet.Encode, Packet.Decode, ServerRecord.Decode, ServerRecord.Serialize, S.ToText, S.FromText, SendAll, NextTimer;
    if input.Update? {
      var now := input.now;
      SendAllServerData(s.(pending := Survivors(s.pending, s.config, now)), Due(s.pending, s.config, now), now);
    }
  }

  lemma {:induction false} SendAllServerData(s: State, due: seq<PendingSignal>, now: int)
    ensures SendAll(s, due, now).serverData == s.serverData && SendAll(s, due, now).published == s.published
    decreases |due|
  {
    hide Packet.Encode, S.ToText;
    if due != [] {
      match SendSignal(s, due[0].signal, due[0].target, due[0].tag, now)
      case Ok(s1) => SendAllServerData(s1, due[1..], now);
      case Err(_) => SendAllServerData(Forget(s, due[0].signal, due[0].target), due[1..], now);
    }
  }

  /** The records set, in order. */
  function Records(inputs: seq<Input>): seq<ServerRecord.ServerData> {
    if inputs == [] then []
    else
      var last := inputs[|inputs| - 1];
      Records(inputs[..|inputs| - 1]) + if last.SetServerData? then [last.data] else []
  }

  /** In every run the record a signaler answers with is the one set last. */
  lemma {:induction false} LastRecordStands(networkId: u64, config: Config, inputs: seq<Input>)
    ensures var (s, records) := (Run(New(networkId, config), inputs), Records(inputs));
            && s.published == records
            && s.serverData == if records == [] then None else Some(records[|records| - 1])
  {
    hide Handle;
    if inputs != [] {
      LastRecordStands(networkId, config, inputs[..|inputs| - 1]);
      HandleServerData(Run(New(networkId, config), inputs[..|inputs| - 1]), inputs[|inputs| - 1]);
    }
  }

  // ---- the network ----

  ghost predicate OnTheWire(w: World, buf: seq<u8>) {
    exists j, o | 0 <= j < |w| && o in w[j].emitted :: o.Send? && o.buf == buf
  }

  ghost predicate Allowed(w: World, step: Step) {
    step.node < |w| && (step.input.Datagram? ==> OnTheWire(w, step.input.buf))
  }

  function Apply(w: World, step: Step): World
    requires step.node < |w|
  {
    w[step.node := Handle(w[step.node], step.input).0]
  }

  ghost predicate Initial(w: World) {
    forall i | 0 <= i < |w| :: w[i] == New(w[i].networkId, w[i].config)
  }

  /** A run: the worlds it passes through and the steps between them. */
  ghost predicate IsRun(worlds: seq<World>, steps: seq<Step>) {
    && |worlds| == |steps| + 1
    && Initial(worlds[0])
    && forall k | 0 <= k < |steps| :: Allowed(worlds[k], steps[k]) && worlds[k + 1] == Apply(worlds[k], steps[k])
  }

  /** A signal reported under network id `id` was submitted by a signaler of the id it names, to `id`, with the same
      type, connection id and data; a server reported was published as that record, up to the transport layer, by a
      signaler of its id. */
  ghost predicate Traced(w: World, id: u64, o: Output) {
    match o
    case Send(_, _) => true
    case Wait(_) => true
    case Received(signal) =>
      exists j, m | 0 <= j < |w| && m in w[j].submissions ::
        Target(m) == Some(id) && signal == m.(networkId := T.Show(w[j].networkId))
    case ServerDiscovered(server, data) =>
      exists j, d | 0 <= j < |w| && d in w[j].published :: w[j].networkId == server && data == d.(transportLayer := 2)
  }

  ghost predicate Safe(w: World) {
    && (forall i | 0 <= i < |w| :: Honest(w[i]))
    && (forall i, o | 0 <= i < |w| && o in w[i].emitted :: Traced(w, w[i].networkId, o))
  }

  lemma WireIsHonest(w: World, buf: seq<u8>, packet: Packet.Packet, sender: u64) returns (j: nat)
    requires Safe(w) && OnTheWire(w, buf) && Packet.Decode(buf) == Some((packet, sender))
    ensures j < |w| && w[j].networkId == sender && Justified(w[j], packet) && Packet.Encode(packet, sender) == Some(buf)
  {
    hide Packet.Encode, Packet.Decode, Inv;
    var i, o :| 0 <= i < |w| && o in w[i].emitted && o.Send? && o.buf == buf;
    j := i;
    assert Genuine(w[j], buf);
    var p :| Justified(w[j], p) && Packet.Encode(p, w[j].networkId) == Some(buf);
    Packet.RoundTrip(p, w[j].networkId);
  }

  lemma ReceivedIsTraced(w: World, id: u64, buf: seq<u8>, sender: u64, text: string, signal: S.Signal)
    requires Safe(w) && OnTheWire(w, buf)
    requires Packet.Decode(buf) == Some((Packet.Message(id, text), sender))
    requires S.FromText(text, T.Show(sender)) == Some(signal)
    ensures Traced(w, id, Received(signal))
  {
    hide Packet.Encode, Packet.Decode, S.ToText, S.FromText, Inv;
    var j := WireIsHonest(w, buf, Packet.Message(id, text), sender);
    var m :| m in w[j].submissions && Carries(m, id, text);
    S.RoundTrip(m, T.Show(sender));
  }

  lemma DiscoveredIsTraced(w: World, id: u64, buf: seq<u8>, sender: u64, bytes: seq<u8>, data: ServerRecord.ServerData)
    requires Safe(w) && OnTheWire(w, buf)
    requires Packet.Decode(buf) == Some((Packet.Response(bytes), sender))
    requires ServerRecord.Decode(bytes) == Some(data)
    ensures Traced(w, id, ServerDiscovered(sender, data))
  {
    hide Packet.Encode, Packet.Decode, ServerRecord.Decode, ServerRecord.Serialize, Inv;
    var j := WireIsHonest(w, buf, Packet.Response(bytes), sender);
    var d :| d in w[j].published && bytes == ServerRecord.Serialize(d);
    Packet.EncodeSucceeds(Packet.Response(bytes), sender);
    ServerRecord.SerializedSize(d);
    ServerRecord.RoundTrip(d);
  }

  ghost predicate Grows(w: World, w': World) {
    && |w| == |w'|
    && forall i | 0 <= i < |w| ::
         w[i].submissions <= w'[i].submissions && w[i].published <= w'[i].published && w[i].networkId == w'[i].networkId
  }

  lemma TracedGrows(w: World, w': World, id: u64, o: Output)
    requires Traced(w, id, o) && Grows(w, w')
    ensures Traced(w', id, o)
  {
    match o
    case Send(_, _) =>
    case Wait(_) =>
    case Received(signal) =>
      var j, m :| 0 <= j < |w| && m in w[j].submissions
                  && Target(m) == Some(id) && signal == m.(networkId := T.Show(w[j].networkId));
      assert m in w'[j].submissions;
    case ServerDiscovered(server, data) =>
      var j, d :| 0 <= j < |w| && d in w[j].published && w[j].networkId == server && data == d.(transportLayer := 2);
      assert d in w'[j].published;
  }

  lemma NewOutputTraced(w: World, step: Step, o: Output)
    requires Safe(w) && Allowed(w, step)
    requires Explained(Handle(w[step.node], step.input).0, step.input, o)
    ensures Traced(w, w[step.node].networkId, o)
  {
    hide Handle, Packet.Decode, ServerRecord.Decode, S.FromText, Inv;
    HandleConfig(w[step.node], step.input);
    var id := w[step.node].networkId;
    match o
    case Send(_, _) =>
    case Wait(_) =>
    case Received(signal) =>
      var sender, text :|
        && Packet.Decode(step.input.buf) == Some((Packet.Message(id, text), sender))
        && S.FromText(text, T.Show(sender)) == Some(signal);
      ReceivedIsTraced(w, id, step.input.buf, sender, text, signal);
    case ServerDiscovered(server, data) =>
      var bytes :|
        && Packet.Decode(step.input.buf) == Some((Packet.Response(bytes), server))
        && ServerRecord.Decode(bytes) == Some(data);
      DiscoveredIsTraced(w, id, step.input.buf, server, bytes, data);
  }

  lemma ApplySafe(w: World, step: Step)
    requires Safe(w) && Allowed(w, step)
    ensures Safe(Apply(w, step))
  {
    hide Handle, Explained, Traced, Honest;
    var w' := Apply(w, step);
    HandleExplained(w[step.node], step.input);
    assert Grows(w, w');
    forall i, o | 0 <= i < |w'| && o in w'[i].emitted
      ensures Traced(w', w'[i].networkId, o)
    {
      if o !in w[i].emitted {
        NewOutputTraced(w, step, o);
      }
      TracedGrows(w, w', w[i].networkId, o);
    }
  }

  lemma {:induction false} InitialSafe(w: World)
    requires Initial(w)
    ensures Safe(w)
  {
    forall i | 0 <= i < |w|
      ensures Honest(w[i]) && w[i].emitted == []
    {
      RunInv(w[i].networkId, w[i].config, []);
    }
  }

  /** At every moment of every run, every output of every signaler so far is traced: what is reported was sent before. */
  lemma {:induction false} EverythingReceivedWasSent(worlds: seq<World>, steps: seq<Step>, k: nat)
    requires IsRun(worlds, steps) && k <= |steps|
    ensures Safe(worlds[k])
  {
    hide Apply, Safe;
    if k == 0 {
      InitialSafe(worlds[0]);
    } else {
      EverythingReceivedWasSent(worlds, steps, k - 1);
      ApplySafe(worlds[k - 1], steps[k - 1]);
    }
  }

  // ---- what is on the wire gets through ----

  /** A message datagram on the wire that reaches a signaler of the id it is for is reported there as the signal that
      was submitted, unless that signaler hears its sender elsewhere at the time. */
  lemma DeliveredIsReported(w: World, step: Step, text: string, sender: u64) returns (j: nat, m: S.Signal)
    requires Safe(w) && Allowed(w, step) && step.input.Datagram?
    requires Packet.Decode(step.input.buf) == Some((Packet.Message(w[step.node].networkId, text), sender))
    requires sender != w[step.node].networkId
    requires !PinnedElsewhere(w[step.node], sender, step.input.addr, step.input.now)
    ensures j < |w| && w[j].networkId == sender && m in w[j].submissions && Target(m) == Some(w[step.node].networkId)
    ensures Apply(w, step)[step.node].emitted == w[step.node].emitted + [Received(m.(networkId := T.Show(sender)))]
  {
    hide Packet.Encode, Packet.Decode, S.ToText, S.FromText, Inv, HandleDatagram;
    var (id, input) := (w[step.node].networkId, step.input);
    j := WireIsHonest(w, input.buf, Packet.Message(id, text), sender);
    m :| m in w[j].submissions && Carries(m, id, text);
    S.RoundTrip(m, T.Show(sender));
    LanDelivery.MessageIsReported(w[step.node], input.buf, input.addr, input.now, id, text, sender);
  }

  /** Likewise a record, while there is room for it. */
  lemma ServerIsDiscovered(w: World, step: Step, bytes: seq<u8>, sender: u64) returns (j: nat, d: ServerRecord.ServerData)
    requires Safe(w) && Allowed(w, step) && step.input.Datagram?
    requires Packet.Decode(step.input.buf) == Some((Packet.Response(bytes), sender)) && sender != w[step.node].networkId
    requires !PinnedElsewhere(w[step.node], sender, step.input.addr, step.input.now)
    requires |w[step.node].discovered| < w[step.node].config.maxDiscovered || sender in w[step.node].discovered
    ensures j < |w| && w[j].networkId == sender && d in w[j].published
    ensures Apply(w, step)[step.node].emitted == w[step.node].emitted + [ServerDiscovered(sender, d.(transportLayer := 2))]
  {
    hide Packet.Encode, Packet.Decode, ServerRecord.Decode, ServerRecord.Serialize, Inv, HandleDatagram;
    var input := step.input;
    j := WireIsHonest(w, input.buf, Packet.Response(bytes), sender);
    d :| d in w[j].published && bytes == ServerRecord.Serialize(d);
    Packet.EncodeSucceeds(Packet.Response(bytes), sender);
    ServerRecord.SerializedSize(d);
    ServerRecord.RoundTrip(d);
    LanDelivery.ResponseIsReported(w[step.node], input.buf, input.addr, input.now, bytes, sender);
  }
}
