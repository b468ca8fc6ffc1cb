/** Over every run of a session, whatever its layers report. */
module SessionRuns {
  import opened Std
  import opened Session
  import opened SessionLayers

  predicate IceFailed(layers: Layers) {
    true in layers.iceEvents
  }

  lemma {:induction false} IceEventsIs(e: Events, reports: seq<bool>)
    ensures IceEvents(e, reports) == if true in reports then Fail(e) else e
  {
    if reports != [] {
      var init := reports[..|reports| - 1];
      IceEventsIs(e, init);
      assert forall r :: r in reports <==> r in init || r == reports[|reports| - 1];
    }
  }

  lemma {:induction false} LostWasReported(controlling: bool, c: Channels, reports: seq<SctpEvent>)
    ensures SctpEvents(controlling, c, reports).lost ==> Lost in reports
  {
    if reports != [] {
      LostWasReported(controlling, c, reports[..|reports| - 1]);
    }
  }

  // ---- each event at most once ----

  function Times(emitted: seq<Output>, o: Output): nat {
    if emitted == [] then 0
    else Times(emitted[..|emitted| - 1], o) + if emitted[|emitted| - 1] == o then 1 else 0
  }

  predicate Once(e: Events) {
    && Times(e.emitted, Ready) == (if e.readyEmitted then 1 else 0)
    && Times(e.emitted, Failed) == (if e.failedEmitted then 1 else 0)
  }

  lemma TimesSnoc(emitted: seq<Output>, x: Output)
    ensures forall o :: Times(emitted + [x], o) == Times(emitted, o) + if x == o then 1 else 0
  {
    assert (emitted + [x])[..|emitted|] == emitted;
  }

  lemma EmitOnce(e: Events)
    requires Once(e)
    ensures Once(Fail(e))
    ensures forall c :: Once(AnnounceReady(e, c))
    ensures forall d :: Once(Emit(e, Wait(d)))
  {
    hide Times;
    TimesSnoc(e.emitted, Failed);
    TimesSnoc(e.emitted, Ready);
    forall d
      ensures Once(Emit(e, Wait(d)))
    {
      TimesSnoc(e.emitted, Wait(d));
    }
  }

  lemma FinishOnce(e: Events, d: Drive, past: bool)
    requires Once(e)
    ensures Once(Finish(e, d, past))
  {
    hide Once, Fail, AnnounceReady;
    EmitOnce(e);
    var e1 := if d.lost then Fail(e) else e;
    EmitOnce(e1);
    EmitOnce(AnnounceReady(e1, d.channels));
  }

  lemma HandleOnce(s: State, input: Input)
    requires Once(s.events)
    ensures Once(Handle(s, input).0.events)
  {
    hide Once, IceEvents, Start, Driven, Finish, TakePacket, EstablishDeadline, PastDeadline;
    var (s1, next) := Prepare(s, input);
    if !next.Stop? {
      var (layers, now) := (input.layers, input.now);
      IceEventsIs(s.events, layers.iceEvents);
      EmitOnce(s.events);
      FinishOnce(IceEvents(s.events, layers.iceEvents), Driven(s1, Start(s1.transport, layers).0.started, layers),
                 PastDeadline(s1, now));
      EmitOnce(Pump(s1, layers, now).0.events);
    }
  }

  lemma {:induction false} RunOnce(s: State, inputs: seq<Input>)
    requires Once(s.events)
    ensures Once(Run(s, inputs).events)
  {
    hide Handle, Once;
    if inputs != [] {
      RunOnce(s, inputs[..|inputs| - 1]);
      HandleOnce(Run(s, inputs[..|inputs| - 1]), inputs[|inputs| - 1]);
    }
  }

  /** Ready and Failed are each emitted at most once. */
  lemma EventsAreEmittedOnce(controlling: bool, within: nat, inputs: seq<Input>)
    ensures var s := Run(New(controlling, within), inputs);
            Times(s.events.emitted, Ready) <= 1 && Times(s.events.emitted, Failed) <= 1
  {
    hide Run;
    RunOnce(New(controlling, within), inputs);
  }

  // ---- the establish deadline ----

  lemma FinishFails(e: Events, d: Drive, past: bool)
    ensures var e' := Finish(e, d, past);
            e'.failedEmitted <==> e.failedEmitted || d.lost || (!e'.readyEmitted && past)
    ensures e.readyEmitted ==> Finish(e, d, past).readyEmitted
  {
  }

  lemma PumpIs(s: State, layers: Layers, now: int)
    ensures var e := if IceFailed(layers) then Fail(s.events) else s.events;
            var (s', ok) := Pump(s, layers, now);
            && ok == GoesThrough(s, layers)
            && s'.events == if ok then Finish(e, DriveOf(s, layers), PastDeadline(s, now)) else e
  {
    hide IceEvents, Driven, Finish, Start, PastDeadline, Fail;
    IceEventsIs(s.events, layers.iceEvents);
  }

  /** Ready has been emitted after a pump exactly when it was before, or no layer reports an error and both channels are
      open after it, failed or not. */
  lemma ReadyExactlyWhen(s: State, layers: Layers, now: int)
    ensures Pump(s, layers, now).0.events.readyEmitted <==>
              s.events.readyEmitted || (NoError(s, layers) && LeavesOpen(s, layers))
  {
    hide DriveOf, GoesThrough, PastDeadline, Pump, NoError, LeavesReliable, LeavesUnreliable;
    PumpIs(s, layers, now);
    DriveExactly(s, layers);
  }

  /** Failed has been emitted after a pump exactly when it was before, ICE reports a failure, or no layer reports an error
      and the association reports its loss, or the deadline has passed and the session was not and does not become
      ready. */
  lemma FailsExactlyWhen(s: State, layers: Layers, now: int)
    ensures Pump(s, layers, now).0.events.failedEmitted <==>
              || s.events.failedEmitted || IceFailed(layers)
              || (NoError(s, layers)
                  && (Loses(s, layers) || (!s.events.readyEmitted && !LeavesOpen(s, layers) && Overdue(s, now))))
  {
    hide DriveOf, GoesThrough, Finish, PastDeadline, Pump, NoError, LeavesReliable, LeavesUnreliable, Loses, Overdue;
    PumpIs(s, layers, now);
    DriveExactly(s, layers);
    OverdueExactly(s, now);
    ReadyExactlyWhen(s, layers, now);
    FinishFails(if IceFailed(layers) then Fail(s.events) else s.events, DriveOf(s, layers), PastDeadline(s, now));
  }

  /** An input makes the session ready or failed exactly when it leads to a pump that does, in the state it prepares. */
  lemma InputsReport(s: State, input: Input)
    ensures var (s1, e) := (Prepare(s, input).0, Handle(s, input).0.events);
            && (e.failedEmitted <==>
                  || s.events.failedEmitted
                  || (Pumps(s, input)
                      && (IceFailed(input.layers)
                          || (NoError(s1, input.layers)
                              && (Loses(s1, input.layers)
                                  || (!s.events.readyEmitted && !LeavesOpen(s1, input.layers) && Overdue(s1, input.now)))))))
            && (e.readyEmitted <==>
                  || s.events.readyEmitted
                  || (Pumps(s, input) && NoError(s1, input.layers) && LeavesOpen(s1, input.layers)))
  {
    hide Pump, Prepare, NoError, LeavesOpen, Loses, Overdue, Pumps, EstablishDeadline, Earliest;
    PreparesExactly(s, input);
    PumpsBySession(s, input);
    var (s1, next) := Prepare(s, input);
    if !next.Stop? {
      FailsExactlyWhen(s1, input.layers, input.now);
      ReadyExactlyWhen(s1, input.layers, input.now);
    }
  }

  lemma PumpsBySession(s: State, input: Input)
    ensures Pumps(s, input) ==> !input.SetEstablishDeadline?
  {
  }

  predicate LayersFailed(layers: Layers) {
    IceFailed(layers) || Lost in layers.sctpEvents
  }

  lemma PumpSparesReady(s: State, layers: Layers, now: int)
    requires s.events.readyEmitted && !s.events.failedEmitted && Pump(s, layers, now).0.events.failedEmitted
    ensures LayersFailed(layers)
  {
    hide IceEvents, SctpEvents, Finish, Start, PastDeadline;
    IceEventsIs(s.events, layers.iceEvents);
    LostWasReported(s.controlling, s.channels, layers.sctpEvents);
    FinishFails(IceEvents(s.events, layers.iceEvents), Driven(s, Start(s.transport, layers).0.started, layers),
                PastDeadline(s, now));
  }

  /** Once Ready was emitted only a failing layer causes Failed, never the deadline. */
  lemma DeadlineSparesReady(s: State, input: Input)
    requires s.events.readyEmitted && !s.events.failedEmitted && Handle(s, input).0.events.failedEmitted
    ensures !input.SetEstablishDeadline? && LayersFailed(input.layers)
  {
    hide Pump, TakePacket, EstablishDeadline, LayersFailed;
    var (s1, next) := Prepare(s, input);
    if !next.Stop? {
      PumpSparesReady(s1, input.layers, input.now);
    }
  }

  /** The instant of the first remote description that was accepted. */
  function FirstDescription(inputs: seq<Input>): Option<int> {
    if inputs == [] then None
    else
      var init := FirstDescription(inputs[..|inputs| - 1]);
      var last := inputs[|inputs| - 1];
      if init.None? && last.RemoteDescription? && last.ok then Some(last.now) else init
  }

  lemma HandleKeepsStart(s: State, input: Input)
    ensures Handle(s, input).0.establishStarted ==
              if s.establishStarted.None? && input.RemoteDescription? && input.ok then Some(input.now)
              else s.establishStarted
  {
    hide IceEvents, Driven, Finish, Start, TakePacket, EstablishDeadline, PastDeadline;
  }

  /** The deadline counts from the first remote description, whatever comes later. */
  lemma {:induction false} DeadlineIsFixed(controlling: bool, within: nat, inputs: seq<Input>)
    ensures Run(New(controlling, within), inputs).establishStarted == FirstDescription(inputs)
  {
    hide Handle;
    if inputs != [] {
      var init := inputs[..|inputs| - 1];
      DeadlineIsFixed(controlling, within, init);
      HandleKeepsStart(Run(New(controlling, within), init), inputs[|inputs| - 1]);
    }
  }

  /** The instant a wait is for: the deadline while it runs, or what the layers wish. */
  predicate Awaited(s: State, timeout: Option<int>, at: int) {
    || timeout == Some(at)
    || (!s.events.readyEmitted && !s.events.failedEmitted && s.establishStarted.Some?
        && at == s.establishStarted.value + s.establishWithin)
  }

  /** A wait is queued exactly when there is something to wait for, and it ends at the earliest of these instants. */
  lemma WaitEndsByDeadline(s: State, timeout: Option<int>, now: int)
    ensures var s' := PushWait(s, timeout, now);
            if exists at :: Awaited(s, timeout, at) then
              exists at ::
                && Awaited(s, timeout, at) && (forall other | Awaited(s, timeout, other) :: at <= other)
                && s' == s.(events := s.events.(emitted := s.events.emitted + [Wait(if at > now then at - now else 0)]))
            else s' == s
  {
    var deadline := EstablishDeadline(s);
    if deadline.Some? {
      assert Awaited(s, timeout, deadline.value);
    }
    if timeout.Some? {
      assert Awaited(s, timeout, timeout.value);
    }
    if deadline.Some? || timeout.Some? {
      var at := Earliest(deadline, timeout).value;
      assert Awaited(s, timeout, at);
    }
  }

  /** A wait follows a description or a timeout whose pump met no error, and nothing else. */
  lemma InputsWait(s: State, input: Input)
    ensures var (s1, s') := (Prepare(s, input).0, Handle(s, input).0);
            if !Pumps(s, input) then s' == s1
            else
              var pumped := Pump(s1, input.layers, input.now).0;
              s' == if (input.RemoteDescription? || input.Timeout?) && NoError(s1, input.layers)
                    then PushWait(pumped, input.layers.timeout, input.now) else pumped
  {
    hide Pump, Prepare, NoError, PushWait, Pumps, GoesThrough;
    PreparesExactly(s, input);
    PumpsBySession(s, input);
    if Pumps(s, input) {
      var s1 := Prepare(s, input).0;
      PumpIs(s1, input.layers, input.now);
      DriveExactly(s1, input.layers);
    }
  }

  // ---- a start that failed ----

  lemma HandleStartsNot(s: State, input: Input)
    requires !s.transport.certificate && !s.transport.started
    ensures var t := Handle(s, input).0.transport; !t.certificate && !t.started && t.read == s.transport.read
  {
    hide IceEvents, Driven, Finish, EstablishDeadline, PastDeadline;
  }

  /** A session whose layers could not be created never starts, whatever descriptions and pairs come later. */
  lemma {:induction false} FailedStartIsFinal(s: State, inputs: seq<Input>)
    requires !s.transport.certificate && !s.transport.started
    ensures var t := Run(s, inputs).transport; !t.started && !t.certificate && t.read == s.transport.read
  {
    hide Handle;
    if inputs != [] {
      FailedStartIsFinal(s, inputs[..|inputs| - 1]);
      HandleStartsNot(Run(s, inputs[..|inputs| - 1]), inputs[|inputs| - 1]);
    }
  }

  // ---- early packets ----

  function First(arrived: seq<Bytes>, n: nat): seq<Bytes> {
    arrived[..Min(n, |arrived|)]
  }

  /** What DTLS was given: the packets kept from before the start, then every packet after it. */
  predicate InOrder(t: Transport) {
    if !t.started then t.startedAt.None? && t.read == [] && t.early == First(t.arrived, MAX_EARLY_PACKETS)
    else
      && t.startedAt.Some? && t.startedAt.value <= |t.arrived| && t.early == []
      && t.earlyRead <= Min(MAX_EARLY_PACKETS, t.startedAt.value)
      && t.read == t.arrived[..t.earlyRead] + t.arrived[t.startedAt.value..]
  }

  predicate AllEarlyRead(t: Transport) {
    t.started ==> t.startedAt.Some? && t.earlyRead == Min(MAX_EARLY_PACKETS, t.startedAt.value)
  }

  lemma StartInOrder(t: Transport, layers: Layers)
    requires InOrder(t)
    ensures InOrder(Start(t, layers).0)
    ensures AllEarlyRead(t) && layers.earlyError.None? ==> AllEarlyRead(Start(t, layers).0)
  {
    var t' := Start(t, layers).0;
    if !t.started && t'.started {
      assert t.early[..t'.earlyRead] == t.arrived[..t'.earlyRead];
      assert t.arrived[|t.arrived|..] == [];
    }
  }

  lemma TakeInOrder(t: Transport, data: Bytes, ice: Option<bool>, readOk: bool)
    requires InOrder(t)
    ensures InOrder(TakePacket(t, data, ice, readOk).0)
    ensures AllEarlyRead(t) ==> AllEarlyRead(TakePacket(t, data, ice, readOk).0)
  {
    if ice == Some(false) && t.started {
      var k := t.startedAt.value;
      assert (t.arrived + [data])[k..] == t.arrived[k..] + [data];
      assert (t.arrived + [data])[..t.earlyRead] == t.arrived[..t.earlyRead];
    }
  }

  lemma PrepareInOrder(s: State, input: Input)
    requires InOrder(s.transport)
    ensures InOrder(Prepare(s, input).0.transport)
    ensures AllEarlyRead(s.transport) ==> AllEarlyRead(Prepare(s, input).0.transport)
  {
    hide TakePacket;
    if input.Packet? {
      TakeInOrder(s.transport, input.data, input.ice, input.readOk);
    }
  }

  predicate NoEarlyError(input: Input) {
    input.SetEstablishDeadline? || input.layers.earlyError.None?
  }

  lemma HandleTransport(s: State, input: Input)
    ensures var (s1, next) := Prepare(s, input);
            Handle(s, input).0.transport == if next.Stop? then s1.transport else Start(s1.transport, input.layers).0
  {
    hide IceEvents, Driven, Finish, Start, TakePacket, EstablishDeadline, PastDeadline;
  }

  lemma HandleInOrder(s: State, input: Input)
    requires InOrder(s.transport)
    ensures InOrder(Handle(s, input).0.transport)
    ensures AllEarlyRead(s.transport) && NoEarlyError(input) ==> AllEarlyRead(Handle(s, input).0.transport)
  {
    hide Handle, InOrder, AllEarlyRead, Start, TakePacket;
    PrepareInOrder(s, input);
    HandleTransport(s, input);
    var (s1, next) := Prepare(s, input);
    if !next.Stop? {
      StartInOrder(s1.transport, input.layers);
    }
  }

  /** At every moment DTLS was given the first packets that arrived before the transports started, at most eight and
      in order, and after them every later packet in order; all of the kept ones unless it refused one of them. */
  lemma {:induction false} EarlyPacketsComeFirst(controlling: bool, within: nat, inputs: seq<Input>)
    ensures var t := Run(New(controlling, within), inputs).transport;
            InOrder(t) && ((forall i | 0 <= i < |inputs| :: NoEarlyError(inputs[i])) ==> AllEarlyRead(t))
  {
    hide Handle;
    if inputs != [] {
      hide InOrder, AllEarlyRead;
      var init := inputs[..|inputs| - 1];
      EarlyPacketsComeFirst(controlling, within, init);
      HandleInOrder(Run(New(controlling, within), init), inputs[|inputs| - 1]);
    }
  }
}
