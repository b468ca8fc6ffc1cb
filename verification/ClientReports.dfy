/** Session, pool and HTTP client together: what the client reports of one connection. */
module ClientReports {
  import opened HttpClient
  import opened HttpClientEpochs
  import P = SessionPool
  import S = Session
  import R = SessionRuns

  // ---- from the session to the pool ----

  /** What a session put out among the items polled from it. */
  function Outputs(items: seq<P.Item>): seq<S.Output> {
    if items == [] then []
    else
      var last := items[|items| - 1];
      Outputs(items[..|items| - 1]) + if last.Output? then [last.output] else []
  }

  lemma {:induction false} EndsAreCounted(items: seq<P.Item>)
    ensures |P.Ends(items)| == R.Times(Outputs(items), S.Failed)
    ensures Failed !in P.Passed(items)
  {
    if items != [] {
      var (init, last) := (items[..|items| - 1], items[|items| - 1]);
      EndsAreCounted(init);
      if last.Output? {
        R.TimesSnoc(Outputs(init), last.output);
      } else {
        assert Outputs(items) == Outputs(init);
      }
    }
  }

  lemma {:induction false} FewerBefore(a: seq<S.Output>, b: seq<S.Output>, o: S.Output)
    requires a <= b
    ensures R.Times(a, o) <= R.Times(b, o)
  {
    if a == b {
    } else {
      FewerBefore(a, b[..|b| - 1], o);
    }
  }

  /** Session number `n` of the pool puts out what a run of a session does, as far as it was polled. */
  ghost predicate Drives(p: P.Pool, n: nat, controlling: bool, within: nat, inputs: seq<S.Input>) {
    Outputs(P.From(p.polled, n)) <= S.Run(S.New(controlling, within), inputs).events.emitted
  }

  predicate FailsLast(stream: seq<PoolEvent>) {
    forall i | 0 <= i < |stream| - 1 :: !stream[i].Failed?
  }

  /** Whatever a session does and however its outputs fall into passes, a failure is the last the pool sends of it. */
  lemma PoolFailsLast(steps: seq<P.Step>, n: nat, controlling: bool, within: nat, inputs: seq<S.Input>)
    requires Drives(P.Run(steps), n, controlling, within, inputs)
    ensures FailsLast(P.About(P.Run(steps).sent, n))
  {
    hide P.Run, P.From, P.About, P.Passed, P.Ends, S.Run, R.Times, Outputs;
    P.PoolDelivers(steps, n);
    var items := P.From(P.Run(steps).polled, n);
    EndsAreCounted(items);
    R.EventsAreEmittedOnce(controlling, within, inputs);
    FewerBefore(Outputs(items), S.Run(S.New(controlling, within), inputs).events.emitted, S.Failed);
    var stream := P.About(P.Run(steps).sent, n);
    assert forall i | 0 <= i < |stream| - 1 :: stream[i] == P.Passed(items)[i];
  }

  // ---- from the pool to the client ----

  lemma PieceBehaves(stream: seq<PoolEvent>, lo: nat, hi: nat)
    requires FailsLast(stream) && lo <= hi <= |stream|
    ensures Behaved(stream[lo..hi])
  {
  }

  /** What the client takes from its pool over a run: the batches of the updates that drive one. */
  function Taken(s: State, calls: seq<Call>): seq<PoolEvent> {
    if calls == [] then []
    else
      var (init, last) := (calls[..|calls| - 1], calls[|calls| - 1]);
      Taken(s, init) + if Driven(Run(s, init), last) then last.events else []
  }

  lemma {:induction false} TakenBehaves(s: State, calls: seq<Call>, stream: seq<PoolEvent>)
    requires FailsLast(stream) && Taken(s, calls) <= stream
    ensures AllBehaved(s, calls)
  {
    hide Run, Stepped, FailsLast, Behaved;
    if calls != [] {
      var (init, last) := (calls[..|calls| - 1], calls[|calls| - 1]);
      TakenBehaves(s, init, stream);
      if Driven(Run(s, init), last) {
        var (lo, hi) := (|Taken(s, init)|, |Taken(s, calls)|);
        assert stream[lo..hi] == last.events;
        PieceBehaves(stream, lo, hi);
      }
    }
  }

  /** For every run of a session, every cutting of it into passes of the pool and batches of the client, and every
      sequence of calls from a successful connect to the next: the client reports a beginning of a failure, or of an
      opening and a closing. */
  lemma ConnectionIsReportedOnce(s: State, at: int, calls: seq<Call>, steps: seq<P.Step>, n: nat,
                                 controlling: bool, within: nat, inputs: seq<S.Input>)
    requires s.connected == s.pool && NoConnect(calls)
    requires Drives(P.Run(steps), n, controlling, within, inputs)
    requires Taken(HandleConnect(s, true, at), calls) <= P.About(P.Run(steps).sent, n)
    ensures var s' := Run(HandleConnect(s, true, at), calls);
            |s.emitted| <= |s'.emitted| && Good(Log(s', |s.emitted|))
  {
    hide *;
    PoolFailsLast(steps, n, controlling, within, inputs);
    TakenBehaves(HandleConnect(s, true, at), calls, P.About(P.Run(steps).sent, n));
    EpochEvents(s, at, calls);
  }

  lemma PassOfTwo()
    ensures P.Walk(map[0 := 0], [P.Visit(0, [P.Output(S.Failed), P.Output(S.Ready)], false)]) ==
              [P.Polled(0, 0, P.Output(S.Failed)), P.Polled(0, 0, P.Output(S.Ready))]
  {
    var visit := P.Visit(0, [P.Output(S.Failed), P.Output(S.Ready)], false);
    assert [visit][..0] == [];
    assert P.Walk(map[0 := 0], [visit]) == P.Tagged(0, 0, P.Items(visit));
    var items := [P.Output(S.Failed), P.Output(S.Ready)];
    assert P.Items(visit) == items && items[..1] == [P.Output(S.Failed)] && items[..1][..0] == [];
    assert P.Tagged(0, 0, items[..1]) == [P.Polled(0, 0, P.Output(S.Failed))];
  }

  /** Even a session that reports readiness after failing, in one pass: the pool sends the failure last, and the client
      reports an opening and a closing. */
  lemma LateReadyOpensAndCloses(s: State, at: int)
    requires s.connected == s.pool
    ensures var pass := P.Pass([P.Visit(0, [P.Output(S.Failed), P.Output(S.Ready)], false)]);
            var batch := P.About(P.Run([P.Add(0), pass]).sent, 0);
            && batch == [Ready, Failed]
            && Run(HandleConnect(s, true, at), [Update(at, Accepted, batch, false, at)]).emitted ==
                 s.emitted + [Connected, Disconnected]
  {
    PoolReorders();
    ClientOpensAndCloses(s, at);
  }

  lemma PolledByTwo(pass: P.Step, x: P.Polled, y: P.Polled)
    requires pass.Pass? && P.Walk(map[0 := 0], pass.visits) == [x, y]
    ensures P.Run([P.Add(0), pass]).polled == [x, y]
  {
    hide P.Walk, P.Failures, P.Forwarded, P.Ids;
    assert [P.Add(0), pass][..1] == [P.Add(0)] && [P.Add(0)][..0] == [];
    assert P.Run([P.Add(0)]) == P.Pool(map[0 := 0], 1, [], []);
  }

  lemma PoolReorders()
    ensures var pass := P.Pass([P.Visit(0, [P.Output(S.Failed), P.Output(S.Ready)], false)]);
            P.About(P.Run([P.Add(0), pass]).sent, 0) == [Ready, Failed]
  {
    hide P.Walk, P.About, P.From, P.Passed, P.Ends, P.Run;
    var pass := P.Pass([P.Visit(0, [P.Output(S.Failed), P.Output(S.Ready)], false)]);
    var (x, y) := (P.Polled(0, 0, P.Output(S.Failed)), P.Polled(0, 0, P.Output(S.Ready)));
    PassOfTwo();
    PolledByTwo(pass, x, y);
    P.PoolDelivers([P.Add(0), pass], 0);
    P.Nothing(0);
    P.FromSnoc([], x, 0);
    P.FromSnoc([x], y, 0);
    assert [] + [x] == [x] && [x] + [y] == [x, y];
    P.ItemSnoc([], x.item);
    P.ItemSnoc([x.item], y.item);
    assert [] + [x.item] == [x.item] && [x.item] + [y.item] == [x.item, y.item];
  }

  lemma ClientOpensAndCloses(s: State, at: int)
    requires s.connected == s.pool
    ensures Run(HandleConnect(s, true, at), [Update(at, Accepted, [Ready, Failed], false, at)]).emitted ==
              s.emitted + [Connected, Disconnected]
  {
    var s1 := HandleConnect(s, true, at);
    var s2 := Stepped(s1, at, Accepted);
    assert [Ready, Failed][..1] == [Ready] && [Ready][..0] == [];
    assert HandleEvents(s2, [Ready]) == HandleEvent(s2, Ready);
    assert HandleEvents(s2, [Ready, Failed]) == Drop(HandleEvent(s2, Ready));
    var call := Update(at, Accepted, [Ready, Failed], false, at);
    assert [call][..0] == [];
    assert Run(s1, [call]) == Handle(s1, call);
  }

  // ---- one pool for one connect ----

  /** The update makes a pool. */
  predicate Makes(s: State, call: Call) {
    call.Update? && s.join && call.step.Accepted?
  }

  function PoolsMade(s: State, calls: seq<Call>): nat {
    if calls == [] then 0
    else
      var (init, last) := (calls[..|calls| - 1], calls[|calls| - 1]);
      PoolsMade(s, init) + if Makes(Run(s, init), last) then 1 else 0
  }

  /** There is a pool, or there was one and nothing will make another. */
  predicate Settled(s: State) {
    !s.join && (s.pool || s.deadline.None?)
  }

  lemma {:induction false} EventsSettle(s: State, events: seq<PoolEvent>)
    requires Settled(s)
    ensures Settled(HandleEvents(s, events))
  {
    if events != [] {
      EventsSettle(s, events[..|events| - 1]);
    }
  }

  lemma CallSettles(s: State, call: Call)
    requires !call.Connect? && (Settled(s) || Makes(s, call))
    ensures Settled(Handle(s, call))
  {
    hide HandleEvents;
    if call.Update? {
      EventsSettle(Stepped(s, call.now, call.step), call.events);
    }
  }

  /** From one connect to the next at most one pool is made, so all the client takes comes from one session. */
  lemma {:induction false} OnePool(s: State, calls: seq<Call>)
    requires NoConnect(calls)
    ensures PoolsMade(s, calls) <= 1
    ensures PoolsMade(s, calls) == 1 ==> Settled(Run(s, calls))
  {
    hide Handle, Settled;
    if calls != [] {
      var (init, last) := (calls[..|calls| - 1], calls[|calls| - 1]);
      OnePool(s, init);
      if PoolsMade(s, init) == 1 || Makes(Run(s, init), last) {
        CallSettles(Run(s, init), last);
      }
      if PoolsMade(s, init) == 1 {
        SettledMakesNone(Run(s, init), last);
      }
    }
  }

  lemma SettledMakesNone(s: State, call: Call)
    requires Settled(s)
    ensures !Makes(s, call)
  {
  }

  // ---- the objects ----

  lemma {:induction false} RunJoins(s: State, before: seq<Call>, after: seq<Call>)
    ensures Run(s, before + after) == Run(Run(s, before), after)
  {
    hide Handle;
    if after == [] {
      assert before + after == before;
    } else {
      RunJoins(s, before, after[..|after| - 1]);
      assert (before + after)[..|before + after| - 1] == before + after[..|after| - 1];
    }
  }

  ghost function Before(x: NetherHttpClient, k: nat): State
    requires k <= |x.calls|
    reads x
  {
    Run(New(x.config, x.initialAttempts), x.calls[..k])
  }

  lemma LifeSince(x: NetherHttpClient, k: nat)
    requires x.Valid() && k < |x.calls|
    ensures x.Life() == Run(Handle(Before(x, k), x.calls[k]), x.calls[k + 1..])
  {
    hide Handle;
    var s := New(x.config, x.initialAttempts);
    RunJoins(s, x.calls[..k + 1], x.calls[k + 1..]);
    assert x.calls[..k + 1] + x.calls[k + 1..] == x.calls;
    assert x.calls[..k + 1][..k] == x.calls[..k];
  }

  /** Since its last connect every client, whatever was called, has begun no more joins than it was allowed, and if that
      connect succeeded its events are those of one connection exactly when the batches it was given are behaved. */
  lemma ClientKeepsPromises(x: NetherHttpClient, k: nat)
    requires x.Valid() && k < |x.calls| && x.calls[k].Connect? && NoConnect(x.calls[k + 1..])
    ensures var s := Before(x, k);
            var call := x.calls[k];
            && x.begun - s.begun <= (if s.attempts > 1 then s.attempts else 1)
            && (call.beginOk ==>
                  && |s.emitted| <= |x.taken + x.events|
                  && (Good((x.taken + x.events)[|s.emitted|..]) <==>
                      AllBehaved(HandleConnect(s, true, call.at), x.calls[k + 1..])))
  {
    hide Run, Good, AllBehaved, HandleConnect;
    var (s, call) := (Before(x, k), x.calls[k]);
    LifeSince(x, k);
    AlwaysConnectedIsPool(x.config, x.initialAttempts, x.calls[..k]);
    JoinsAreLimited(s, call.beginOk, call.at, x.calls[k + 1..]);
    if call.beginOk {
      EpochEvents(s, call.at, x.calls[k + 1..]);
    }
  }

  /** A client given nothing but what it takes from a pool has, since its last successful connect, reported a beginning
      of a failure, or of an opening and a closing. */
  lemma ClientOnPool(x: NetherHttpClient, k: nat, t: P.PoolThread, n: nat,
                     controlling: bool, within: nat, inputs: seq<S.Input>)
    requires x.Valid() && k < |x.calls| && x.calls[k].Connect? && x.calls[k].beginOk && NoConnect(x.calls[k + 1..])
    requires t.Valid() && Drives(t.Life(), n, controlling, within, inputs)
    requires Taken(HandleConnect(Before(x, k), true, x.calls[k].at), x.calls[k + 1..]) <= P.About(t.taken, n)
    ensures var base := |Before(x, k).emitted|;
            base <= |x.taken + x.events| && Good((x.taken + x.events)[base..])
  {
    hide Run, Good, AllBehaved, HandleConnect, P.Run, P.About, Taken, FailsLast, Drives;
    PoolFailsLast(t.steps, n, controlling, within, inputs);
    P.AboutJoins(t.taken, t.events, n);
    ClientKeepsPromises(x, k);
    TakenBehaves(HandleConnect(Before(x, k), true, x.calls[k].at), x.calls[k + 1..], P.About(t.taken + t.events, n));
  }
}
