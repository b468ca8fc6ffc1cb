/** How a session reports its end: readiness after failure, and losses that are never reported. */
module SessionReports {
  import opened Std
  import opened Session
  import opened SessionLayers
  import opened SessionRuns

  // ---- Ready after Failed ----

  /** Some Failed stands before a Ready. */
  predicate Late(emitted: seq<Output>) {
    exists i, j | 0 <= i < j < |emitted| :: emitted[i] == Failed && emitted[j] == Ready
  }

  lemma LateSnoc(emitted: seq<Output>, x: Output)
    ensures Late(emitted + [x]) <==> Late(emitted) || (x == Ready && Failed in emitted)
  {
    var all := emitted + [x];
    if Late(emitted) {
      var i, j :| 0 <= i < j < |emitted| && emitted[i] == Failed && emitted[j] == Ready;
      assert all[i] == Failed && all[j] == Ready;
    }
    if x == Ready && Failed in emitted {
      var i :| 0 <= i < |emitted| && emitted[i] == Failed;
      assert all[i] == Failed && all[|emitted|] == Ready;
    }
    if Late(all) {
      var i, j :| 0 <= i < j < |all| && all[i] == Failed && all[j] == Ready;
      assert emitted[i] == Failed;
      assert j < |emitted| ==> emitted[j] == Ready;
    }
  }

  lemma {:induction false} TimesCounts(emitted: seq<Output>, o: Output)
    ensures Times(emitted, o) > 0 <==> o in emitted
  {
    if emitted != [] {
      var init := emitted[..|emitted| - 1];
      TimesCounts(init, o);
      assert o in emitted <==> o in init || o == emitted[|emitted| - 1];
    }
  }

  lemma FailLate(e: Events)
    ensures Late(Fail(e).emitted) == Late(e.emitted)
  {
    hide Late;
    LateSnoc(e.emitted, Failed);
  }

  lemma ReadyLate(e: Events, c: Channels)
    requires Once(e)
    ensures Late(AnnounceReady(e, c).emitted) <==> Late(e.emitted) || (BothOpen(c) && !e.readyEmitted && e.failedEmitted)
  {
    hide Late, Times;
    LateSnoc(e.emitted, Ready);
    TimesCounts(e.emitted, Failed);
  }

  lemma FinishLate(e: Events, d: Drive, past: bool)
    requires Once(e)
    ensures Late(Finish(e, d, past).emitted) <==>
              Late(e.emitted) || (BothOpen(d.channels) && !e.readyEmitted && (e.failedEmitted || d.lost))
  {
    hide Late, Once;
    EmitOnce(e);
    FailLate(e);
    var e1 := if d.lost then Fail(e) else e;
    ReadyLate(e1, d.channels);
    FailLate(AnnounceReady(e1, d.channels));
  }

  /** No layer reports an error, both channels are open after the pump, the session was not ready, and it had failed, ICE
      reports a failure or the association its loss. */
  predicate LatePump(s: State, layers: Layers) {
    && NoError(s, layers) && LeavesOpen(s, layers) && !s.events.readyEmitted
    && (s.events.failedEmitted || IceFailed(layers) || Loses(s, layers))
  }

  lemma PumpLate(s: State, layers: Layers, now: int)
    requires Once(s.events)
    ensures Late(Pump(s, layers, now).0.events.emitted) <==> Late(s.events.emitted) || LatePump(s, layers)
  {
    hide Late, Once, Pump, DriveOf, GoesThrough, Finish, PastDeadline, NoError, LeavesReliable, LeavesUnreliable, Loses;
    PumpIs(s, layers, now);
    DriveExactly(s, layers);
    EmitOnce(s.events);
    FailLate(s.events);
    FinishLate(if IceFailed(layers) then Fail(s.events) else s.events, DriveOf(s, layers), PastDeadline(s, now));
  }

  /** The input leads to such a pump. */
  predicate LateStep(s: State, input: Input) {
    var (s1, next) := Prepare(s, input);
    !next.Stop? && LatePump(s1, input.layers)
  }

  lemma PrepareSilent(s: State, input: Input)
    ensures Prepare(s, input).0.events == s.events
    ensures input.SetEstablishDeadline? ==> Prepare(s, input).1.Stop?
  {
    hide TakePacket;
  }

  lemma WaitLate(s: State, timeout: Option<int>, now: int)
    ensures Late(PushWait(s, timeout, now).events.emitted) == Late(s.events.emitted)
  {
    hide Late, EstablishDeadline, Earliest;
    var at := Earliest(EstablishDeadline(s), timeout);
    if at.Some? {
      LateSnoc(s.events.emitted, Wait(Since(at.value, now)));
    }
  }

  lemma HandleLate(s: State, input: Input)
    requires Once(s.events)
    ensures Late(Handle(s, input).0.events.emitted) <==> Late(s.events.emitted) || LateStep(s, input)
  {
    hide Late, Once, Pump, Prepare, PushWait, LatePump;
    var (s1, next) := Prepare(s, input);
    PrepareSilent(s, input);
    if !next.Stop? {
      PumpLate(s1, input.layers, input.now);
      WaitLate(Pump(s1, input.layers, input.now).0, input.layers.timeout, input.now);
    }
  }

  predicate LateAt(s: State, inputs: seq<Input>, k: nat)
    requires k < |inputs|
  {
    LateStep(Run(s, inputs[..k]), inputs[k])
  }

  lemma NothingIsLate()
    ensures !Late([]) && Once(Events(false, false, []))
  {
  }

  /** In every run Ready follows Failed exactly when some input of the run leads to a late pump. */
  lemma {:induction false} ReadyFollowsFailedExactlyWhen(controlling: bool, within: nat, inputs: seq<Input>)
    ensures var s := New(controlling, within);
            Late(Run(s, inputs).events.emitted) <==> exists k | 0 <= k < |inputs| :: LateAt(s, inputs, k)
  {
    hide Late, LateStep, Handle, Once;
    var s := New(controlling, within);
    if inputs == [] {
      NothingIsLate();
    } else {
      var (init, last) := (inputs[..|inputs| - 1], inputs[|inputs| - 1]);
      ReadyFollowsFailedExactlyWhen(controlling, within, init);
      assert Once(s.events) by { NothingIsLate(); }
      RunOnce(s, init);
      HandleLate(Run(s, init), last);
      forall k | 0 <= k < |init|
        ensures LateAt(s, inputs, k) == LateAt(s, init, k)
      {
        assert inputs[..k] == init[..k];
      }
      assert LateAt(s, inputs, |init|) == LateStep(Run(s, init), last);
    }
  }

  /** The shortest such run: one pump reports a failure and then readiness. */
  lemma ReadyAfterFailed(within: nat, now: int)
    ensures exists layers ::
              Run(New(true, within), [RemoteDescription(true, layers, now)]).events.emitted == [Failed, Ready]
  {
    var both := Opening(true, true, true);
    var layers := Layers([true], true, true, true, None, [Connected(both)], both, true, None);
    var (s, input) := (New(true, within), RemoteDescription(true, layers, now));
    var s1 := Described(s, now);
    assert [true][..0] == [] && [Connected(both)][..0] == [];
    assert IceEvents(s1.events, [true]) == Fail(s1.events);
    assert SctpEvents(true, s1.channels, [Connected(both)]) == Drive(Channels(true, true), false, true) by {
      assert SctpEvents(true, s1.channels, []) == Drive(s1.channels, false, true);
    }
    assert Driven(s1, true, layers) == Drive(Channels(true, true), false, true);
    assert Start(s1.transport, layers).1 && Start(s1.transport, layers).0.started;
    assert Fail(s1.events).emitted == [Failed];
    assert Pump(s1, layers, now).0.events.emitted == [Failed, Ready];
    assert [input][..0] == [];
    assert Run(s, [input]) == Handle(s, input).0;
  }

  // ---- losses ----

  /** A session whose transports run and whose association reports its loss reports Failed in that pump exactly when no
      layer reports an error: one swallows the loss, wherever in the pump it comes. */
  lemma LossReportedExactlyWhen(s: State, layers: Layers, now: int)
    requires Loses(s, layers) && !s.events.failedEmitted && !IceFailed(layers)
    ensures Pump(s, layers, now).0.events.failedEmitted <==> NoError(s, layers)
  {
    hide Pump, NoError, LeavesOpen, Loses, Overdue;
    FailsExactlyWhen(s, layers, now);
  }

  // ---- what is left to report a failure ----

  /** No layer reports a failure or a loss. */
  predicate Calm(input: Input) {
    input.SetEstablishDeadline? || !LayersFailed(input.layers)
  }

  ghost predicate AllCalm(inputs: seq<Input>) {
    forall i | 0 <= i < |inputs| :: Calm(inputs[i])
  }

  /** The input leads to a pump without an error that finds the session still not ready after its deadline. */
  predicate Caught(s: State, input: Input) {
    var s1 := Prepare(s, input).0;
    && Pumps(s, input) && NoError(s1, input.layers)
    && !s.events.readyEmitted && !LeavesOpen(s1, input.layers) && Overdue(s1, input.now)
  }

  predicate CaughtAt(s: State, inputs: seq<Input>, k: nat)
    requires k < |inputs|
  {
    Caught(Run(s, inputs[..k]), inputs[k])
  }

  lemma CalmStep(s: State, input: Input)
    requires Calm(input)
    ensures Handle(s, input).0.events.failedEmitted <==> s.events.failedEmitted || Caught(s, input)
    ensures s.events.readyEmitted ==> Handle(s, input).0.events.readyEmitted
  {
    hide Handle, Prepare, NoError, LeavesOpen, Overdue;
    InputsReport(s, input);
  }

  /** From any session that has not failed, while no layer reports a failure or a loss, Failed is emitted exactly when
      the deadline catches the session unready. */
  lemma {:induction false} DeadlineCatchesExactlyWhen(s: State, inputs: seq<Input>)
    requires !s.events.failedEmitted && AllCalm(inputs)
    ensures Run(s, inputs).events.failedEmitted <==> exists k | 0 <= k < |inputs| :: CaughtAt(s, inputs, k)
  {
    hide Handle, Calm, Caught;
    if inputs != [] {
      var (init, last) := (inputs[..|inputs| - 1], inputs[|inputs| - 1]);
      DeadlineCatchesExactlyWhen(s, init);
      CalmStep(Run(s, init), last);
      forall k | 0 <= k < |init|
        ensures CaughtAt(s, inputs, k) == CaughtAt(s, init, k)
      {
        assert inputs[..k] == init[..k];
      }
      assert CaughtAt(s, inputs, |init|) == Caught(Run(s, init), last);
    }
  }

  /** From any ready session that has not failed, while no layer reports a failure or a loss, Failed is never emitted. */
  lemma {:induction false} ReadyNeverFailsUnreported(s: State, inputs: seq<Input>)
    requires s.events.readyEmitted && !s.events.failedEmitted && AllCalm(inputs)
    ensures Run(s, inputs).events.readyEmitted && !Run(s, inputs).events.failedEmitted
  {
    hide Handle, Calm;
    if inputs != [] {
      var (init, last) := (inputs[..|inputs| - 1], inputs[|inputs| - 1]);
      ReadyNeverFailsUnreported(s, init);
      CalmStep(Run(s, init), last);
      PrepareSilent(Run(s, init), last);
    }
  }

  const OPENING := Layers([], true, true, true, None, [], Opening(true, true, true), true, None)

  const LOSING := Layers([], true, true, true, None, [Lost], Opening(false, false, true), false, None)

  lemma OpensAtOnce(controlling: bool, within: nat, now: int)
    ensures var s := Handle(New(controlling, within), RemoteDescription(true, OPENING, now)).0;
            s.transport.started && s.events == Events(true, false, [Ready])
  {
    var s1 := Described(New(controlling, within), now);
    assert Driven(s1, true, OPENING) == Drive(Channels(true, true), false, true);
    assert Start(s1.transport, OPENING).1 && Start(s1.transport, OPENING).0.started;
  }

  lemma LosesInSilence(s: State, now: int)
    requires s.transport.started
    ensures Handle(s, Timeout(true, LOSING, now)).0.events == s.events
  {
    assert [Lost][..0] == [];
    assert SctpEvents(s.controlling, s.channels, []) == Drive(s.channels, false, true);
    assert SctpEvents(s.controlling, s.channels, [Lost]) == Drive(s.channels, true, true);
  }

  lemma RunOfTwo(s: State, first: Input, second: Input)
    ensures Run(s, [first, second]) == Handle(Handle(s, first).0, second).0
  {
    hide Handle;
    assert [first, second][..1] == [first] && [first][..0] == [];
    assert Run(s, [first]) == Handle(s, first).0;
  }

  lemma HandleStarted(s: State, input: Input)
    requires s.transport.started
    ensures Handle(s, input).0.transport.started
  {
    HandleTransport(s, input);
  }

  /** A session that becomes ready and then loses its association while a write fails: whatever follows, unless a layer
      reports a failure or a loss of its own, Failed is never emitted. */
  lemma LossGoesUnreported(controlling: bool, within: nat, now: int, later: int)
    ensures var s := Run(New(controlling, within), [RemoteDescription(true, OPENING, now), Timeout(true, LOSING, later)]);
            && s.transport.started && s.events.emitted == [Ready]
            && forall rest | AllCalm(rest) :: Failed !in Run(s, rest).events.emitted
  {
    var s := New(controlling, within);
    var (first, second) := (RemoteDescription(true, OPENING, now), Timeout(true, LOSING, later));
    OpensAtOnce(controlling, within, now);
    LosesInSilence(Handle(s, first).0, later);
    HandleStarted(Handle(s, first).0, second);
    RunOfTwo(s, first, second);
    var s2 := Run(s, [first, second]);
    forall rest | AllCalm(rest)
      ensures Failed !in Run(s2, rest).events.emitted
    {
      hide Run;
      ReadyNeverFailsUnreported(s2, rest);
      assert Once(s.events) by { NothingIsLate(); }
      RunOnce(s, [first, second]);
      RunOnce(s2, rest);
      TimesCounts(Run(s2, rest).events.emitted, Failed);
    }
  }
}
