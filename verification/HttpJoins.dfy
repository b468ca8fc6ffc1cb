/** Over every run of the HTTP signaler: no request is lost, and every join is resolved exactly once. */
module HttpJoins {
  import opened Std
  import opened Codec
  import opened Http
  import Candidates

  function ResponsesTo(emitted: seq<Output>, connection: u64): nat {
    if emitted == [] then 0
    else
      var last := emitted[|emitted| - 1];
      ResponsesTo(emitted[..|emitted| - 1], connection)
      + if last.Respond? && last.connection == connection then 1 else 0
  }

  function Responses(emitted: seq<Output>): nat {
    if emitted == [] then 0
    else Responses(emitted[..|emitted| - 1]) + if emitted[|emitted| - 1].Respond? then 1 else 0
  }

  // ---- the three promises, as properties of a state ----

  /** On each connection every request was responded to, is a waiting join, or was lost when the connection closed. */
  ghost predicate Balanced(s: State) {
    forall c: u64 :: s.asked[c] == ResponsesTo(s.emitted, c) + |WaitingOn(s.pending, c)| + s.lost[c]
  }

  ghost predicate TotalBalanced(s: State) {
    |s.asked| == Responses(s.emitted) + |s.pending| + |s.lost|
  }

  function Resolutions(s: State, id: u64): nat {
    s.answered[id] + s.rejected[id] + s.timedOut[id] + s.dropped[id]
  }

  /** Every join was begun once and is either waiting or was resolved in exactly one way, once. */
  ghost predicate Settled(s: State) {
    forall id: u64 :: s.begun[id] <= 1 && s.begun[id] == Resolutions(s, id) + if id in s.pending then 1 else 0
  }

  predicate Capped(s: State) {
    |s.pending| <= s.config.maxPendingJoins
  }

  ghost predicate Inv(s: State) {
    Balanced(s) && TotalBalanced(s) && Settled(s) && Capped(s)
  }

  // ---- counting ----

  lemma ResponsesSnoc(emitted: seq<Output>, o: Output)
    ensures forall c :: ResponsesTo(emitted + [o], c)
                     == ResponsesTo(emitted, c) + if o.Respond? && o.connection == c then 1 else 0
    ensures Responses(emitted + [o]) == Responses(emitted) + if o.Respond? then 1 else 0
  {
    assert (emitted + [o])[..|emitted|] == emitted;
  }

  lemma OneMoreWaiting(pending: map<u64, Pending>, id: u64, p: Pending, c: u64)
    requires id !in pending
    ensures |WaitingOn(pending[id := p], c)| == |WaitingOn(pending, c)| + if p.connection == c then 1 else 0
  {
    assert WaitingOn(pending[id := p], c) == WaitingOn(pending, c) + if p.connection == c then {id} else {};
  }

  lemma WaitingMore(pending: map<u64, Pending>, id: u64, p: Pending)
    requires id !in pending
    ensures |pending[id := p]| == |pending| + 1
    ensures forall c :: |WaitingOn(pending[id := p], c)| == |WaitingOn(pending, c)| + if p.connection == c then 1 else 0
  {
    hide WaitingOn;
    forall c: u64 {
      OneMoreWaiting(pending, id, p, c);
    }
  }

  lemma WaitingLess(pending: map<u64, Pending>, id: u64)
    requires id in pending
    ensures |Without(pending, id)| == |pending| - 1
    ensures forall c :: |WaitingOn(pending, c)|
                     == |WaitingOn(Without(pending, id), c)| + if pending[id].connection == c then 1 else 0
  {
    var less := Without(pending, id);
    WaitingMore(less, id, pending[id]);
    assert less[id := pending[id]] == pending;
  }

  // ---- each kind of step ----

  lemma ResolveInv(s: State, id: u64, response: Response)
    requires id in s.pending && Balanced(s) && TotalBalanced(s)
    ensures Balanced(Resolve(s, id, response)) && TotalBalanced(Resolve(s, id, response))
    ensures |Resolve(s, id, response).pending| < |s.pending|
  {
    WaitingLess(s.pending, id);
    ResponsesSnoc(s.emitted, Respond(s.pending[id].connection, response, s.pending[id].keepAlive));
  }

  lemma AnswerInv(s: State, id: u64, sdp: string)
    requires Inv(s)
    ensures Inv(HandleAnswer(s, id, sdp).0)
  {
    hide Candidates.WithAdvertised, Body, WaitingOn, ResponsesTo, Responses;
    if id in s.pending {
      var response := Body(Candidates.WithAdvertised(sdp, s.config.advertisedAddresses), "application/sdp");
      ResolveInv(s, id, response);
    }
  }

  lemma RejectInv(s: State, id: u64, reason: Reason)
    requires Inv(s)
    ensures Inv(HandleReject(s, id, reason).0)
  {
    hide WaitingOn, ResponsesTo, Responses;
    if id in s.pending {
      ResolveInv(s, id, Bare(StatusOf(reason)));
    }
  }

  lemma TimeOutInv(s: State, id: u64)
    requires Inv(s)
    ensures Inv(TimeOutOne(s, id)) && TimeOutOne(s, id).config == s.config
  {
    hide WaitingOn, ResponsesTo, Responses;
    if id in s.pending {
      ResolveInv(s, id, Bare(StatusOf(Timeout)));
    }
  }

  lemma {:induction false} TimeOutAllInv(s: State, ids: seq<u64>)
    requires Inv(s)
    ensures Inv(TimeOutAll(s, ids))
  {
    hide Inv, TimeOutOne;
    if ids != [] {
      TimeOutAllInv(s, ids[..|ids| - 1]);
      TimeOutInv(TimeOutAll(s, ids[..|ids| - 1]), ids[|ids| - 1]);
    }
  }

  lemma EmitInv(s: State, o: Output)
    requires Inv(s) && !o.Respond?
    ensures Inv(Emit(s, o))
  {
    hide WaitingOn, ResponsesTo, Responses;
    ResponsesSnoc(s.emitted, o);
  }

  lemma UpdateInv(s: State, now: int, order: seq<u64>)
    requires Inv(s)
    ensures Inv(HandleUpdate(s, now, order))
  {
    hide Inv, TimeOutAll, NextWait, Overdue;
    TimeOutAllInv(s, Overdue(s.pending, order, now));
    var s1 := TimeOutAll(s, Overdue(s.pending, order, now));
    EmitInv(s1, Wait(NextWait(s1, order, now)));
  }

  lemma RespondNowBalances(s: State, connection: u64, response: Response, keepAlive: bool)
    requires Balanced(s) && TotalBalanced(s)
    ensures var s' := Emit(s.(asked := s.asked + multiset{connection}), Respond(connection, response, keepAlive));
            Balanced(s') && TotalBalanced(s')
  {
    hide WaitingOn, ResponsesTo, Responses;
    ResponsesSnoc(s.emitted, Respond(connection, response, keepAlive));
  }

  lemma RespondNowInv(s: State, connection: u64, response: Response, keepAlive: bool)
    requires Inv(s)
    ensures Inv(Emit(s.(asked := s.asked + multiset{connection}), Respond(connection, response, keepAlive)))
  {
    hide Balanced, TotalBalanced;
    RespondNowBalances(s, connection, response, keepAlive);
  }

  /** Opening a join keeps the balance on every connection exactly when its id is not already waiting. */
  lemma OpenBalances(s: State, connection: u64, joinId: u64, p: Pending, o: Output)
    requires Balanced(s) && TotalBalanced(s) && p.connection == connection && o.Offered?
    ensures var s' := Emit(s.(asked := s.asked + multiset{connection}, pending := s.pending[joinId := p]), o);
            && (Balanced(s') <==> joinId !in s.pending)
            && (TotalBalanced(s') <==> joinId !in s.pending)
  {
    hide WaitingOn, ResponsesTo, Responses;
    ResponsesSnoc(s.emitted, o);
    if joinId in s.pending {
      var s' := Emit(s.(asked := s.asked + multiset{connection}, pending := s.pending[joinId := p]), o);
      var less := Without(s.pending, joinId);
      assert s.pending[joinId := p] == less[joinId := p];
      WaitingMore(less, joinId, p);
      WaitingLess(s.pending, joinId);
      var c := s.pending[joinId].connection;
      assert s'.asked[c] != ResponsesTo(s'.emitted, c) + |WaitingOn(s'.pending, c)| + s'.lost[c];
    } else {
      WaitingMore(s.pending, joinId, p);
    }
  }

  lemma FreshSettled(s: State, s': State, id: u64)
    requires Settled(s) && id !in s.begun && s'.begun == s.begun + multiset{id}
    requires s'.pending.Keys == s.pending.Keys + {id}
    requires s'.answered == s.answered && s'.rejected == s.rejected && s'.timedOut == s.timedOut && s'.dropped == s.dropped
    ensures id !in s.pending && Settled(s')
  {
    assert s.begun[id] == 0;
    assert forall x: u64 :: x in s'.pending <==> x in s'.pending.Keys;
  }

  lemma BalanceIgnoresIds(s: State, s': State)
    requires s' == s.(begun := s'.begun)
    ensures Balanced(s) == Balanced(s') && TotalBalanced(s) == TotalBalanced(s')
  {
  }

  lemma OpenInv(s: State, connection: u64, request: Request, now: int, joinId: u64, networkId: string, player: Option<Player>)
    requires Inv(s) && joinId !in s.begun && |s.pending| < s.config.maxPendingJoins
    ensures Inv(Open(s.(asked := s.asked + multiset{connection}), connection, request, now, joinId, networkId, player))
  {
    hide ClientAddress, KeepAlive, Balanced, TotalBalanced, Settled;
    var s1 := s.(asked := s.asked + multiset{connection});
    var p := Pending(connection, KeepAlive(request), now + s.config.answerTimeout);
    var o := Offered(Offer(joinId, networkId, request.body, ClientAddress(s1, connection, request), request.host, player));
    assert joinId !in s.pending && Settled(Open(s1, connection, request, now, joinId, networkId, player)) by {
      FreshSettled(s, Open(s1, connection, request, now, joinId, networkId, player), joinId);
    }
    var s2 := Emit(s1.(pending := s.pending[joinId := p]), o);
    OpenBalances(s, connection, joinId, p, o);
    BalanceIgnoresIds(s2, s2.(begun := s.begun + multiset{joinId}));
    assert |s.pending[joinId := p]| == |s.pending| + 1;
  }

  /** A request keeps the balance, on every connection and in total, unless it opens a join under an id that is already
      waiting; then it breaks both. */
  lemma AskBalancesExactlyWhen(s: State, connection: u64, request: Request, now: int, joinId: u64, outside: Outside)
    requires Balanced(s) && TotalBalanced(s)
    ensures var s' := HandleAsk(s, connection, request, now, joinId, outside);
            var collides := Judge(s, connection, request, outside).Later? && joinId in s.pending;
            (Balanced(s') <==> !collides) && (TotalBalanced(s') <==> !collides)
  {
    hide Balanced, TotalBalanced, Judge, ClientAddress, KeepAlive;
    match Judge(s, connection, request, outside)
    case Now(response) => RespondNowBalances(s, connection, response, KeepAlive(request));
    case Later(networkId, player) =>
      var s1 := s.(asked := s.asked + multiset{connection});
      var p := Pending(connection, KeepAlive(request), now + s.config.answerTimeout);
      var o := Offered(Offer(joinId, networkId, request.body, ClientAddress(s1, connection, request), request.host, player));
      var s2 := Emit(s1.(pending := s.pending[joinId := p]), o);
      OpenBalances(s, connection, joinId, p, o);
      BalanceIgnoresIds(s2, s2.(begun := s.begun + multiset{joinId}));
  }

  lemma AskInv(s: State, connection: u64, request: Request, now: int, joinId: u64, outside: Outside)
    requires Inv(s) && joinId !in s.begun
    ensures Inv(HandleAsk(s, connection, request, now, joinId, outside))
  {
    hide Inv, ClientAddress, KeepAlive, NetworkOf, Open, Body, Emit, Authenticate;
    match Judge(s, connection, request, outside)
    case Now(response) => RespondNowInv(s, connection, response, KeepAlive(request));
    case Later(networkId, player) => OpenInv(s, connection, request, now, joinId, networkId, player);
  }

  /** The joins left when a connection closes. */
  lemma OthersWait(pending: map<u64, Pending>, connection: u64)
    ensures var left := WaitingElsewhere(pending, connection);
            && WaitingOn(pending, connection) <= pending.Keys
            && left.Keys == pending.Keys - WaitingOn(pending, connection)
            && |left| == |pending| - |WaitingOn(pending, connection)|
            && forall c :: |WaitingOn(left, c)| == if c == connection then 0 else |WaitingOn(pending, c)|
  {
    var left := WaitingElsewhere(pending, connection);
    assert left.Keys == pending.Keys - WaitingOn(pending, connection);
    forall c: u64
      ensures WaitingOn(left, c) == if c == connection then {} else WaitingOn(pending, c)
    {
    }
  }

  lemma DroppedSettled(s: State, s': State, gone: set<u64>)
    requires Settled(s) && gone <= s.pending.Keys
    requires s'.pending.Keys == s.pending.Keys - gone && s'.dropped == s.dropped + multiset(gone)
    requires s'.begun == s.begun && s'.answered == s.answered && s'.rejected == s.rejected && s'.timedOut == s.timedOut
    ensures Settled(s')
  {
    assert forall x: u64 :: x in s'.pending <==> x in s'.pending.Keys;
  }

  lemma CloseInv(s: State, connection: u64)
    requires Inv(s)
    ensures Inv(Disconnect(s, connection))
  {
    hide ResponsesTo, Responses, Release, Settled, Net.Normalize, WaitingOn, WaitingElsewhere;
    if connection in s.connections {
      var s' := Disconnect(s, connection);
      OthersWait(s.pending, connection);
      MoreOf(s.lost, connection, |WaitingOn(s.pending, connection)|);
      DroppedSettled(s, s', WaitingOn(s.pending, connection));
    }
  }

  lemma OtherFields(s: State, s': State)
    requires Inv(s) && s' == s.(connections := s'.connections, perAddress := s'.perAddress, serverData := s'.serverData,
                                trust := s'.trust)
    ensures Inv(s')
  {
    hide ResponsesTo, Responses, WaitingOn;
  }

  lemma ConnectInv(s: State, connection: u64, addr: Net.SocketAddr)
    requires Inv(s)
    ensures Inv(Connect(s, connection, addr))
  {
    hide Inv, Net.Normalize, Full;
    var s' := Connect(s, connection, addr);
    var s1 := s.(connections := s'.connections, perAddress := s'.perAddress);
    OtherFields(s, s1);
    EmitInv(s1, Close(connection));
  }

  lemma HandleInv(s: State, input: Input)
    requires Inv(s) && Legal(s, input)
    ensures Inv(Handle(s, input).0)
  {
    hide Inv, HandleAsk, HandleAnswer, HandleReject, HandleUpdate, Disconnect, Connect;
    match input
    case Connected(connection, addr) => ConnectInv(s, connection, addr);
    case Ask(connection, request, now, joinId, outside) => AskInv(s, connection, request, now, joinId, outside);
    case Answer(id, sdp) => AnswerInv(s, id, sdp);
    case Reject(id, reason) => RejectInv(s, id, reason);
    case SetServerData(json) => OtherFields(s, s.(serverData := Some(json)));
    case SetTokenTrust(trust) => OtherFields(s, s.(trust := trust));
    case Closed(connection) => CloseInv(s, connection);
    case Update(now, order) => UpdateInv(s, now, order);
  }

  lemma {:induction false} RunInv(s: State, inputs: seq<Input>)
    requires Inv(s) && LegalRun(s, inputs)
    ensures Inv(Run(s, inputs))
  {
    hide Handle, Legal, Inv;
    if inputs != [] {
      RunInv(s, inputs[..|inputs| - 1]);
      HandleInv(Run(s, inputs[..|inputs| - 1]), inputs[|inputs| - 1]);
    }
  }

  /** At every moment of every run: requests are responses, waiting joins and joins lost with their connection, on
      each connection and in total; every join is waiting or was resolved once; no more wait than allowed. */
  lemma NoRequestIsLost(config: Config, trust: Option<Trust>, inputs: seq<Input>)
    requires LegalRun(New(config, trust), inputs)
    ensures var s := Run(New(config, trust), inputs);
            Balanced(s) && TotalBalanced(s) && Settled(s) && Capped(s)
  {
    hide Handle, Legal, Run;
    RunInv(New(config, trust), inputs);
  }

  // ---- once resolved, for good ----

  lemma {:induction false} TimeOutAllKeepsResolutions(s: State, ids: seq<u64>, id: u64)
    ensures Resolutions(s, id) <= Resolutions(TimeOutAll(s, ids), id)
  {
    if ids != [] {
      TimeOutAllKeepsResolutions(s, ids[..|ids| - 1], id);
    }
  }

  lemma AskKeepsResolutions(s: State, connection: u64, request: Request, now: int, joinId: u64, outside: Outside, id: u64)
    ensures Resolutions(HandleAsk(s, connection, request, now, joinId, outside), id) == Resolutions(s, id)
  {
    hide Judge, ClientAddress, KeepAlive;
  }

  lemma ResolvingAdds(s: State, target: u64, sdp: string, reason: Reason, id: u64)
    ensures Resolutions(s, id) <= Resolutions(HandleAnswer(s, target, sdp).0, id)
    ensures Resolutions(s, id) <= Resolutions(HandleReject(s, target, reason).0, id)
  {
    hide Candidates.WithAdvertised, Body;
  }

  lemma ClosingAdds(s: State, connection: u64, id: u64)
    ensures Resolutions(s, id) <= Resolutions(Disconnect(s, connection), id)
  {
    hide Release, WaitingOn, Net.Normalize;
  }

  lemma ResolutionsStay(s: State, input: Input, id: u64)
    ensures Resolutions(s, id) <= Resolutions(Handle(s, input).0, id)
  {
    hide TimeOutAll, HandleAsk, HandleAnswer, HandleReject, Disconnect, NextWait, Overdue, Net.Normalize;
    match input
    case Update(now, order) => TimeOutAllKeepsResolutions(s, Overdue(s.pending, order, now), id);
    case Ask(connection, request, now, joinId, outside) =>
      AskKeepsResolutions(s, connection, request, now, joinId, outside, id);
    case Answer(target, sdp) => ResolvingAdds(s, target, sdp, Timeout, id);
    case Reject(target, reason) => ResolvingAdds(s, target, "", reason, id);
    case Closed(connection) => ClosingAdds(s, connection, id);
    case _ =>
  }

  lemma {:induction false} RunKeepsResolutions(s: State, inputs: seq<Input>, id: u64)
    ensures Resolutions(s, id) <= Resolutions(Run(s, inputs), id)
  {
    hide Handle, Resolutions;
    if inputs != [] {
      RunKeepsResolutions(s, inputs[..|inputs| - 1], id);
      ResolutionsStay(Run(s, inputs[..|inputs| - 1]), inputs[|inputs| - 1], id);
    }
  }

  /** A join that was answered, rejected, timed out or lost is never waiting again: whatever happens next, a further
      answer or rejection is refused and changes nothing. */
  lemma ResolvedForGood(s: State, inputs: seq<Input>, id: u64, sdp: string, reason: Reason)
    requires Inv(s) && LegalRun(s, inputs) && Resolutions(s, id) > 0
    ensures var s' := Run(s, inputs);
            && Handle(s', Answer(id, sdp)) == (s', Some(UnknownConnection(id)))
            && Handle(s', Reject(id, reason)) == (s', Some(UnknownConnection(id)))
  {
    hide Run, LegalRun, Candidates.WithAdvertised, Balanced, TotalBalanced;
    RunInv(s, inputs);
    RunKeepsResolutions(s, inputs, id);
    var s' := Run(s, inputs);
    assert s'.begun[id] == Resolutions(s', id) + if id in s'.pending then 1 else 0;
  }
}
