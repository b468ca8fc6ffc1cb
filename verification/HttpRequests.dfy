/** What the HTTP signaler makes of a request, and where the response to a join goes. */
module HttpRequests {
  import opened Std
  import opened Codec
  import opened Net
  import opened Text
  import opened Http
  import I = Identity
  import IdentityProofs
  import IdentityValidity
  import Candidates
  import HttpCounts
  import HttpJoins

  // ---- paths ----

  predicate Segment(id: string) {
    id != "" && '/' !in id
  }

  lemma NetworkOfExactly(path: string, id: string)
    ensures NetworkOf(path) == Some(id) <==> Segment(id) && path == JOIN_PREFIX + id
  {
    if JOIN_PREFIX <= path {
      assert path == JOIN_PREFIX + path[|JOIN_PREFIX|..];
    }
    assert (JOIN_PREFIX + id)[|JOIN_PREFIX|..] == id;
  }

  ghost predicate IsJoinPath(path: string) {
    exists id :: Segment(id) && path == JOIN_PREFIX + id
  }

  lemma JoinPathIsNotStatus(path: string)
    requires IsJoinPath(path)
    ensures path != JOIN_PATH && NetworkOf(path).Some?
  {
    var id :| Segment(id) && path == JOIN_PREFIX + id;
    NetworkOfExactly(path, id);
    assert |path| > |JOIN_PATH|;
  }

  lemma OtherPathsAreUnknown(path: string)
    requires !IsJoinPath(path)
    ensures NetworkOf(path) == None
  {
    if NetworkOf(path).Some? {
      NetworkOfExactly(path, NetworkOf(path).value);
    }
  }

  // ---- verdicts ----

  ghost predicate IsPost(request: Request) {
    IsJoinPath(request.path) && request.verb == Post
  }

  predicate IsFull(s: State) {
    |s.pending| >= s.config.maxPendingJoins
  }

  /** A request becomes a join exactly when it posts to one network, there is room and its identity is accepted; without
      room it is refused before any identity is looked at. */
  lemma JoinsExactlyWhen(s: State, connection: u64, request: Request, outside: Outside)
    ensures var v := Judge(s, connection, request, outside);
            && (v.Later? <==> IsPost(request) && !IsFull(s) && Authenticate(s.trust, request.body, outside).Ok?)
            && (v.Later? ==> request.path == JOIN_PREFIX + v.networkId && Segment(v.networkId)
                             && (v.player.Some? <==> s.trust.Some?))
            && (IsPost(request) && IsFull(s) ==> v == Now(Bare(503)))
  {
    hide I.ValidateSdp, ClientAddress, NetworkOf, IsJoinPath;
    if IsJoinPath(request.path) {
      JoinPathIsNotStatus(request.path);
      NetworkOfExactly(request.path, NetworkOf(request.path).value);
    } else {
      OtherPathsAreUnknown(request.path);
    }
  }

  /** Each status stands for one reason. */
  lemma StatusesExactly(s: State, connection: u64, request: Request, outside: Outside)
    requires Judge(s, connection, request, outside).Now?
    ensures var status := Judge(s, connection, request, outside).response.status;
            var (asksStatus, posts) := (request.path == JOIN_PATH, IsPost(request));
            var served := s.serverData.Some? && s.config.serveMotd;
            && (status == 200 <==> asksStatus && request.verb == Get && served)
            && (status == 404 <==> if asksStatus then request.verb == Get && !served else !IsJoinPath(request.path))
            && (status == 405 <==> if asksStatus then request.verb != Get else IsJoinPath(request.path) && !posts)
            && (status == 503 <==> posts && IsFull(s))
            && (status == 401 <==> posts && !IsFull(s) && Authenticate(s.trust, request.body, outside).Err?)
  {
    hide I.ValidateSdp, ClientAddress, NetworkOf, IsJoinPath;
    if IsJoinPath(request.path) {
      JoinPathIsNotStatus(request.path);
    } else {
      OtherPathsAreUnknown(request.path);
    }
  }

  /** An offer signed as `augment` signs it is taken, with the claims minted for it, wherever there is room: any
      unexpired identity is trusted under `Any`. */
  lemma SignedOfferIsTaken(s: State, connection: u64, request: Request, outside: Outside, signer: I.Server, offer: string,
                           now: int, networkId: string)
    requires IdentityValidity.Signable(signer, offer, now) && IdentityProofs.Delimited(offer)
    requires signer.lifetime.Some? && outside.time <= (I.Seconds(now + signer.lifetime.value) + 60) * I.NANOS
    requires request.body == I.Augmented(signer, offer, now).value
    requires request.verb == Post && Segment(networkId) && request.path == JOIN_PREFIX + networkId
    requires s.trust == Some(Any) && |s.pending| < s.config.maxPendingJoins
    ensures var player := Player(I.Minted(signer, now), networkId, ClientAddress(s, connection, request));
            Judge(s, connection, request, outside) == Later(networkId, Some(player))
  {
    hide I.ValidateSdp, ClientAddress, NetworkOf, IdentityValidity.Signable, I.Augmented, IdentityProofs.Delimited, I.Minted,
      I.Seconds, I.Fingerprints;
    IdentityValidity.ValidatesExactlyWhen(signer, offer, now, outside.time);
    NetworkOfExactly(request.path, networkId);
    assert |request.path| > |JOIN_PATH|;
  }

  // ---- client addresses ----

  lemma PeerSpeaksForItself(s: State, connection: u64, request: Request)
    requires connection in s.connections && !Trusted(s, s.connections[connection].addr)
    ensures ClientAddress(s, connection, request) == Some(s.connections[connection].addr)
  {
  }

  /** Whatever a peer that is no trusted proxy claims to forward for, the signaler ends in the same state. */
  lemma ForwardedIsIgnored(s: State, connection: u64, request: Request, claimed: Option<string>, now: int, joinId: u64,
                           outside: Outside)
    requires connection in s.connections && !Trusted(s, s.connections[connection].addr)
    ensures HandleAsk(s, connection, request.(forwardedFor := claimed), now, joinId, outside)
         == HandleAsk(s, connection, request, now, joinId, outside)
  {
    hide ClientAddress, Authenticate, NetworkOf, Body;
    var s1 := s.(asked := s.asked + multiset{connection});
    PeerSpeaksForItself(s, connection, request);
    PeerSpeaksForItself(s1, connection, request);
    PeerSpeaksForItself(s, connection, request.(forwardedFor := claimed));
    PeerSpeaksForItself(s1, connection, request.(forwardedFor := claimed));
  }

  predicate Unwrapped(c: char) {
    !White(c) && c != ',' && c != '[' && c != ']'
  }

  /** The first entry of the header is found among others, within blanks and within square brackets. */
  lemma FirstEntryIsFound(before: string, address: string, bracketed: bool, after: string, rest: string)
    requires (forall i | 0 <= i < |before| :: White(before[i])) && (forall i | 0 <= i < |after| :: White(after[i]))
    requires address != "" && forall i | 0 <= i < |address| :: Unwrapped(address[i])
    ensures var entry := if bracketed then "[" + address + "]" else address;
            FirstForwarded(before + entry + after + "," + rest) == address
            && FirstForwarded(before + entry + after) == address
  {
    hide Trim, Pieces;
    var entry := if bracketed then "[" + address + "]" else address;
    var text := before + entry + after;
    assert Free(text, {','});
    PiecesOfFree(text, {','});
    PiecesAppend(text, ',', rest, {','});
    assert text + "," + rest == text + [','] + rest;
    assert !White(entry[0]) && !White(entry[|entry| - 1]);
    TrimBlanks(before, entry, after);
    if bracketed {
      assert entry[1..] == address + "]";
      assert (address + "]")[..|address|] == address;
    }
  }

  // ---- responses to joins ----

  /** The request a waiting join came from. */
  predicate Asked(config: Config, input: Input, id: u64, p: Pending) {
    && input.Ask? && input.joinId == id
    && p == Pending(input.connection, KeepAlive(input.request), input.now + config.answerTimeout)
  }

  ghost predicate Explained(config: Config, inputs: seq<Input>, pending: map<u64, Pending>) {
    forall id | id in pending :: exists k | 0 <= k < |inputs| :: Asked(config, inputs[k], id, pending[id])
  }

  lemma {:induction false} TimeOutAllShrinks(s: State, ids: seq<u64>)
    ensures forall id | id in TimeOutAll(s, ids).pending :: id in s.pending && TimeOutAll(s, ids).pending[id] == s.pending[id]
  {
    if ids != [] {
      TimeOutAllShrinks(s, ids[..|ids| - 1]);
    }
  }

  lemma AskAdds(s: State, input: Input)
    requires input.Ask?
    ensures var s' := Handle(s, input).0;
            forall id | id in s'.pending ::
              (id in s.pending && s'.pending[id] == s.pending[id]) || Asked(s.config, input, id, s'.pending[id])
  {
    hide Judge, ClientAddress, KeepAlive;
  }

  lemma StepShrinks(s: State, input: Input)
    requires !input.Ask?
    ensures var s' := Handle(s, input).0;
            forall id | id in s'.pending :: id in s.pending && s'.pending[id] == s.pending[id]
  {
    hide TimeOutAll, Overdue, NextWait, Candidates.WithAdvertised, Body, Release, Normalize, HandleAsk;
    if input.Update? {
      TimeOutAllShrinks(s, Overdue(s.pending, input.order, input.now));
    }
  }

  lemma {:induction false} TimeOutAllConfig(s: State, ids: seq<u64>)
    ensures TimeOutAll(s, ids).config == s.config
  {
    if ids != [] {
      TimeOutAllConfig(s, ids[..|ids| - 1]);
    }
  }

  lemma HandleConfig(s: State, input: Input)
    ensures Handle(s, input).0.config == s.config
  {
    hide TimeOutAll, Overdue, NextWait, Candidates.WithAdvertised, Body, Release, Normalize, Judge, ClientAddress, KeepAlive,
      WaitingOn, WaitingElsewhere, Without;
    if input.Update? {
      TimeOutAllConfig(s, Overdue(s.pending, input.order, input.now));
    }
  }

  /** In every run a waiting join is one that was asked for: it will be responded to on the connection of its request,
      kept alive as that request wished, and no later than its deadline. */
  lemma {:induction false} WaitsForItsRequest(config: Config, trust: Option<Trust>, inputs: seq<Input>)
    ensures var s := Run(New(config, trust), inputs); s.config == config && Explained(config, inputs, s.pending)
  {
    hide Handle, KeepAlive;
    if inputs != [] {
      var (init, last) := (inputs[..|inputs| - 1], inputs[|inputs| - 1]);
      var s := Run(New(config, trust), init);
      var s' := Run(New(config, trust), inputs);
      WaitsForItsRequest(config, trust, init);
      HandleConfig(s, last);
      if last.Ask? {
        AskAdds(s, last);
      } else {
        StepShrinks(s, last);
      }
      forall id | id in s'.pending
        ensures exists k | 0 <= k < |inputs| :: Asked(config, inputs[k], id, s'.pending[id])
      {
        if id in s.pending && s'.pending[id] == s.pending[id] {
          var k :| 0 <= k < |init| && Asked(config, init[k], id, s.pending[id]);
          assert inputs[k] == init[k];
        } else {
          assert Asked(config, inputs[|inputs| - 1], id, s'.pending[id]);
        }
      }
    }
  }

  /** Requests come on open connections only. */
  ghost predicate AsksOpen(s: State, inputs: seq<Input>) {
    inputs == [] ||
    var (init, last) := (inputs[..|inputs| - 1], inputs[|inputs| - 1]);
    AsksOpen(s, init) && (last.Ask? ==> last.connection in Run(s, init).connections)
  }

  predicate WaitersOpen(s: State) {
    forall id | id in s.pending :: s.pending[id].connection in s.connections
  }

  lemma ConnectionsStay(s: State, input: Input)
    ensures forall c | c in s.connections && !(input.Closed? && input.connection == c) :: c in Handle(s, input).0.connections
  {
    hide TimeOutAll, Overdue, NextWait, Candidates.WithAdvertised, Body, Release, Normalize, Judge, ClientAddress, KeepAlive,
      WaitingOn, WaitingElsewhere;
    if input.Update? {
      HttpCounts.TimeOutAllFrame(s, Overdue(s.pending, input.order, input.now));
    }
  }

  lemma ClosedWaitsNoMore(s: State, connection: u64)
    requires WaitersOpen(s)
    ensures WaitersOpen(Disconnect(s, connection))
  {
    hide Release, WaitingOn, Normalize;
  }

  lemma StepWaitersOpen(s: State, input: Input)
    requires WaitersOpen(s) && (input.Ask? ==> input.connection in s.connections)
    ensures WaitersOpen(Handle(s, input).0)
  {
    if input.Closed? {
      hide HandleAsk, HandleAnswer, HandleReject, HandleUpdate, Disconnect, Connect;
      ClosedWaitsNoMore(s, input.connection);
    } else {
      hide Handle;
      ConnectionsStay(s, input);
      if input.Ask? {
        AskAdds(s, input);
      } else {
        StepShrinks(s, input);
      }
    }
  }

  /** While requests come on open connections only, joins wait on open connections only. */
  lemma {:induction false} WaitersStayOpen(config: Config, trust: Option<Trust>, inputs: seq<Input>)
    requires AsksOpen(New(config, trust), inputs)
    ensures WaitersOpen(Run(New(config, trust), inputs))
  {
    hide Handle, KeepAlive;
    if inputs != [] {
      var (init, last) := (inputs[..|inputs| - 1], inputs[|inputs| - 1]);
      var s := Run(New(config, trust), init);
      WaitersStayOpen(config, trust, init);
      StepWaitersOpen(s, last);
    }
  }

  lemma AnswerEmits(s: State, id: u64, sdp: string)
    requires id in s.pending
    ensures var body := Candidates.WithAdvertised(sdp, s.config.advertisedAddresses);
            HandleAnswer(s, id, sdp).0.emitted ==
              s.emitted + [Respond(s.pending[id].connection, Body(body, "application/sdp"), s.pending[id].keepAlive)]
  {
    hide Candidates.WithAdvertised, Body;
  }

  lemma TheAsk(config: Config, inputs: seq<Input>, pending: map<u64, Pending>, id: u64) returns (k: nat)
    requires Explained(config, inputs, pending) && id in pending
    ensures k < |inputs| && inputs[k].Ask? && inputs[k].joinId == id && inputs[k].connection == pending[id].connection
    ensures KeepAlive(inputs[k].request) == pending[id].keepAlive
  {
    hide KeepAlive;
    k :| 0 <= k < |inputs| && Asked(config, inputs[k], id, pending[id]);
  }

  /** An answer goes out on the connection that posted the offer, with its candidates rewritten. */
  lemma AnswerReturnsToAsker(config: Config, trust: Option<Trust>, inputs: seq<Input>, id: u64, sdp: string)
    requires id in Run(New(config, trust), inputs).pending
    ensures var s := Run(New(config, trust), inputs);
            var body := Candidates.WithAdvertised(sdp, config.advertisedAddresses);
            exists k | 0 <= k < |inputs| ::
              && inputs[k].Ask? && inputs[k].joinId == id
              && HandleAnswer(s, id, sdp).0.emitted ==
                   s.emitted + [Respond(inputs[k].connection, Body(body, "application/sdp"), KeepAlive(inputs[k].request))]
  {
    hide *;
    WaitsForItsRequest(config, trust, inputs);
    var s := Run(New(config, trust), inputs);
    AnswerEmits(s, id, sdp);
    var k := TheAsk(config, inputs, s.pending, id);
  }

  // ---- two joins under one id ----

  const POST := Request(Post, JOIN_PREFIX + "n", false, None, None, None, "")

  lemma PostIsTaken(s: State, connection: u64, outside: Outside)
    requires s.trust.None? && !IsFull(s)
    ensures Judge(s, connection, POST, outside) == Later("n", None)
  {
    hide NetworkOf, ClientAddress, I.ValidateSdp;
    NetworkOfExactly(POST.path, "n");
    assert |POST.path| > |JOIN_PATH|;
  }

  lemma PostOpens(s: State, connection: u64, outside: Outside)
    requires s.trust.None? && !IsFull(s)
    ensures var s' := HandleAsk(s, connection, POST, 0, 9, outside);
            && s'.config == s.config && s'.trust == s.trust && s'.lost == s.lost && s'.connections == s.connections
            && s'.asked == s.asked + multiset{connection}
            && s'.pending == s.pending[9 := Pending(connection, KeepAlive(POST), s.config.answerTimeout)]
            && |s'.emitted| == |s.emitted| + 1 && s'.emitted[..|s.emitted|] == s.emitted && s'.emitted[|s.emitted|].Offered?
  {
    hide Judge, ClientAddress, KeepAlive;
    PostIsTaken(s, connection, outside);
  }

  lemma RunOfFive(s: State, a: Input, b: Input, c: Input, d: Input, e: Input)
    ensures Run(s, [a, b]) == Handle(Handle(s, a).0, b).0
    ensures Run(s, [a, b, c, d, e]) == Handle(Handle(Handle(Run(s, [a, b]), c).0, d).0, e).0
  {
    hide Handle;
    assert [a, b][..1] == [a] && [a][..0] == [];
    assert Run(s, [a]) == Handle(s, a).0;
    assert [a, b, c, d, e][..4] == [a, b, c, d] && [a, b, c, d][..3] == [a, b, c] && [a, b, c][..2] == [a, b];
    assert Run(s, [a, b, c]) == Handle(Run(s, [a, b]), c).0;
    assert Run(s, [a, b, c, d]) == Handle(Handle(Run(s, [a, b]), c).0, d).0;
  }

  /** A connection is taken while its address holds fewer than allowed. */
  lemma PeerOpens(s: State, connection: u64, addr: SocketAddr)
    requires !Full(s, Normalize(addr.ip))
    ensures var s' := Connect(s, connection, addr);
            && s' == s.(connections := s'.connections, perAddress := s'.perAddress)
            && s'.connections.Keys == s.connections.Keys + {connection}
            && forall peer :: HeldBy(s', peer) <= HeldBy(s, peer) + 1
  {
    hide Normalize;
  }

  /** The emitted outputs of two opened joins and one answer. */
  lemma OneResponse(emitted: seq<Output>, connection: u64)
    requires |emitted| == 3 && emitted[0].Offered? && emitted[1].Offered?
    requires emitted[2].Respond? && emitted[2].connection == connection
    ensures forall c :: HttpJoins.ResponsesTo(emitted, c) == if c == connection then 1 else 0
  {
    hide HttpJoins.Responses;
    HttpJoins.ResponsesSnoc([], emitted[0]);
    HttpJoins.ResponsesSnoc([emitted[0]], emitted[1]);
    HttpJoins.ResponsesSnoc([emitted[0], emitted[1]], emitted[2]);
    assert [] + [emitted[0]] == [emitted[0]];
    assert [emitted[0]] + [emitted[1]] == [emitted[0], emitted[1]];
    assert [emitted[0], emitted[1]] + [emitted[2]] == emitted;
  }

  lemma TwoConnect(config: Config, one: SocketAddr, two: SocketAddr)
    requires config.maxConnectionsPerAddress >= 2
    ensures var s := Connect(Connect(New(config, None), 1, one), 2, two);
            && s == New(config, None).(connections := s.connections, perAddress := s.perAddress)
            && s.connections.Keys == {1, 2}
  {
    hide Normalize, Connect;
    PeerOpens(New(config, None), 1, one);
    PeerOpens(Connect(New(config, None), 1, one), 2, two);
  }

  /** Two clients connect and post, drawing the same id, then the answer comes: the first connection is open and asked
      once, got no response, and nothing of it is waiting or was lost by closing. */
  lemma CollidingJoinIsLost(config: Config, one: SocketAddr, two: SocketAddr, outside: Outside, sdp: string)
    requires config.maxPendingJoins >= 2 && config.maxConnectionsPerAddress >= 2
    ensures var s := Run(New(config, None),
                         [Connected(1, one), Connected(2, two), Ask(1, POST, 0, 9, outside), Ask(2, POST, 0, 9, outside),
                          Answer(9, sdp)]);
            && s.asked[1] == 1 && HttpJoins.ResponsesTo(s.emitted, 1) == 0
            && WaitingOn(s.pending, 1) == {} && s.lost[1] == 0
            && HttpJoins.ResponsesTo(s.emitted, 2) == 1
            && s.connections.Keys == {1, 2}
  {
    hide Candidates.WithAdvertised, Body, KeepAlive, HandleAsk, Run, HttpJoins.ResponsesTo, Connect;
    RunOfFive(New(config, None), Connected(1, one), Connected(2, two), Ask(1, POST, 0, 9, outside),
              Ask(2, POST, 0, 9, outside), Answer(9, sdp));
    TwoConnect(config, one, two);
    var s0 := Connect(Connect(New(config, None), 1, one), 2, two);
    var s1 := HandleAsk(s0, 1, POST, 0, 9, outside);
    var s2 := HandleAsk(s1, 2, POST, 0, 9, outside);
    var s3 := HandleAnswer(s2, 9, sdp).0;
    PostOpens(s0, 1, outside);
    PostOpens(s1, 2, outside);
    AnswerEmits(s2, 9, sdp);
    assert s3.emitted[0] == s1.emitted[0] && s3.emitted[1] == s2.emitted[1];
    OneResponse(s3.emitted, 2);
    assert s3.pending == map[];
  }
}
