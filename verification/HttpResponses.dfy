/** What the HTTP signaler puts out for each input: the offer a request becomes, and the responses. */
module HttpResponses {
  import opened Std
  import opened Codec
  import opened Net
  import opened Text
  import opened Http
  import opened HttpRequests
  import Candidates
  import Endpoint
  import I = Identity
  import Utf8

  // ---- keeping connections ----

  ghost predicate Says(request: Request, word: string) {
    exists h :: request.connection == Some(h) && EqIgnoreCase(h, word)
  }

  /** HTTP/1.0 closes unless asked to keep the connection, later versions keep it unless asked to close. */
  lemma KeepAliveExactly(request: Request)
    ensures KeepAlive(request) <==> if request.http10 then Says(request, "keep-alive") else !Says(request, "close")
  {
    assert !EqIgnoreCase("", "keep-alive") && !EqIgnoreCase("", "close");
  }

  // ---- the address of a client ----

  /** Nobody, the peer itself, or whom a trusted proxy names, at the proxy's port. */
  predicate SpeaksFor(s: State, connection: u64, request: Request, address: Option<SocketAddr>) {
    if connection !in s.connections then address == None
    else
      var peer := s.connections[connection].addr;
      if Normalize(peer.ip) !in s.config.trustedProxies then address == Some(peer)
      else
        var ip := if request.forwardedFor.None? then None else Endpoint.Parse(FirstForwarded(request.forwardedFor.value));
        address == if ip.None? then None else Some(SocketAddr(ip.value, peer.port, 0, 0))
  }

  lemma AddressExactly(s: State, connection: u64, request: Request)
    ensures SpeaksFor(s, connection, request, ClientAddress(s, connection, request))
  {
    hide FirstForwarded, Endpoint.Parse;
  }

  /** The client a trusted proxy forwards for is the first address of the header, at the proxy's port. */
  lemma ProxyNamesItsClient(s: State, connection: u64, request: Request, before: string, address: string, bracketed: bool,
                            after: string, rest: string)
    requires connection in s.connections && Normalize(s.connections[connection].addr.ip) in s.config.trustedProxies
    requires (forall i | 0 <= i < |before| :: White(before[i])) && (forall i | 0 <= i < |after| :: White(after[i]))
    requires address != "" && (forall i | 0 <= i < |address| :: Unwrapped(address[i])) && Endpoint.Parse(address).Some?
    requires request.forwardedFor ==
               Some(before + (if bracketed then "[" + address + "]" else address) + after + "," + rest)
    ensures ClientAddress(s, connection, request) ==
              Some(SocketAddr(Endpoint.Parse(address).value, s.connections[connection].addr.port, 0, 0))
  {
    hide FirstForwarded, Endpoint.Parse, Unwrapped, White;
    FirstEntryIsFound(before, address, bracketed, after, rest);
  }

  // ---- offers ----

  /** The player is who the trust says signed the offer, if a trust is set. */
  predicate Authenticated(s: State, request: Request, outside: Outside, o: Offer) {
    match s.trust
    case None => o.player == None
    case Some(Any) =>
      && o.player.Some? && I.ValidateSdp(request.body, outside.time) == Ok(o.player.value.claims)
      && o.player.value.networkId == o.networkId && o.player.value.clientAddress == o.clientAddress
    case Some(Minecraft) =>
      && o.player.Some? && outside.minecraft == Some(o.player.value.claims)
      && o.player.value.networkId == o.networkId && o.player.value.clientAddress == o.clientAddress
  }

  /** A request that is taken puts out one offer: under the join's id, for the network in the path, with the body, the
      host, the client's address and the player; and the join waits on its connection for the answer timeout. */
  lemma OfferHoldsTheRequest(s: State, connection: u64, request: Request, now: int, joinId: u64, outside: Outside)
    requires Judge(s, connection, request, outside).Later?
    ensures var s' := HandleAsk(s, connection, request, now, joinId, outside);
            && |s'.emitted| == |s.emitted| + 1 && s'.emitted[..|s.emitted|] == s.emitted
            && s'.emitted[|s.emitted|].Offered?
            && var o := s'.emitted[|s.emitted|].offer;
            && o.connectionId == joinId && request.path == "/v1/join/" + o.networkId && o.sdp == request.body
            && o.host == request.host && SpeaksFor(s, connection, request, o.clientAddress)
            && Authenticated(s, request, outside, o)
            && joinId in s'.pending
            && var p := s'.pending[joinId];
            && p.connection == connection && p.deadline == now + s.config.answerTimeout && p.keepAlive == KeepAlive(request)
            && s'.pending == s.pending[joinId := p]
            && s' == s.(pending := s'.pending, emitted := s'.emitted, asked := s'.asked, begun := s'.begun)
  {
    hide ClientAddress, NetworkOf, KeepAlive, I.ValidateSdp, SpeaksFor;
    var s1 := s.(asked := s.asked + multiset{connection});
    AddressExactly(s, connection, request);
    SameAddress(s, s1, connection, request);
    NetworkOfExactly(request.path, Judge(s, connection, request, outside).networkId);
  }

  lemma SameAddress(s: State, s1: State, connection: u64, request: Request)
    requires s1 == s.(asked := s1.asked)
    ensures ClientAddress(s1, connection, request) == ClientAddress(s, connection, request)
  {
  }

  // ---- responses ----

  /** Empty, or text with its type and its length in bytes. */
  predicate WellFormed(r: Response) {
    && r.contentLength == |Utf8.Encode(r.body)|
    && (r.contentType == None <==> r.status != 200)
    && (r.status != 200 ==> r.body == "" && r.contentLength == 0)
  }

  /** Any other request is responded to at once, on its connection, kept or closed as it asks; with the server data, or
      with nothing but a status. */
  lemma AskIsResponded(s: State, connection: u64, request: Request, now: int, joinId: u64, outside: Outside)
    requires Judge(s, connection, request, outside).Now?
    ensures var s' := HandleAsk(s, connection, request, now, joinId, outside);
            var r := Judge(s, connection, request, outside).response;
            && s'.emitted == s.emitted + [Respond(connection, r, KeepAlive(request))]
            && s' == s.(emitted := s'.emitted, asked := s'.asked)
            && WellFormed(r)
            && (r.status == 200 ==>
                  r.contentType == Some("application/json") && s.serverData == Some(r.body))
  {
    hide NetworkOf, KeepAlive, Authenticate, Utf8.Encode, ClientAddress;
    NothingEncoded();
  }

  lemma NothingEncoded()
    ensures Utf8.Encode("") == []
  {
  }

  /** The output resolves the waiting join: on its connection, kept or closed as its request asked. */
  predicate Resolves(s: State, s': State, id: u64, r: Response)
    requires id in s.pending
  {
    && s'.emitted == s.emitted + [Respond(s.pending[id].connection, r, s.pending[id].keepAlive)]
    && s'.pending == (map other | other in s.pending && other != id :: s.pending[other])
    && s'.connections == s.connections && s'.perAddress == s.perAddress && s'.config == s.config
    && s'.serverData == s.serverData && s'.trust == s.trust
  }

  /** An answer is passed on as text with its length in bytes and its candidates rewritten; an unknown id is an error. */
  lemma AnswerIsPassedOn(s: State, id: u64, sdp: string)
    ensures var (s', error) := HandleAnswer(s, id, sdp);
            if id !in s.pending then s' == s && error == Some(UnknownConnection(id))
            else
              && error == None
              && var body := Candidates.WithAdvertised(sdp, s.config.advertisedAddresses);
              Resolves(s, s', id, Response(200, Some("application/sdp"), |Utf8.Encode(body)|, body))
  {
    hide Candidates.WithAdvertised, Utf8.Encode;
  }

  /** A rejection responds with the status of its reason and nothing else. */
  lemma RejectionIsPassedOn(s: State, id: u64, reason: Reason)
    ensures var (s', error) := HandleReject(s, id, reason);
            if id !in s.pending then s' == s && error == Some(UnknownConnection(id))
            else
              && error == None
              && exists status ::
                   && Resolves(s, s', id, Response(status, None, 0, ""))
                   && (status == 403 <==> reason == Rejected)
                   && (status == 504 <==> reason == Timeout)
                   && (status == 503 <==> reason == Unavailable)
  {
    if id in s.pending {
      var s' := HandleReject(s, id, reason).0;
      var status := s'.emitted[|s.emitted|].response.status;
      assert Resolves(s, s', id, Response(status, None, 0, ""));
    }
  }

  /** A connection is closed at once exactly when its address is no trusted proxy and already holds all it may; otherwise
      it is taken, under its address. */
  lemma ConnectionIsTakenOrClosed(s: State, connection: u64, addr: SocketAddr)
    ensures var s' := Connect(s, connection, addr);
            var peer := Normalize(addr.ip);
            if peer !in s.config.trustedProxies && HeldBy(s, peer) >= s.config.maxConnectionsPerAddress then
              s'.emitted == s.emitted + [Close(connection)] && s'.connections == s.connections
            else
              && s'.emitted == s.emitted
              && s'.connections ==
                   s.connections[connection := Connection(addr, peer !in s.config.trustedProxies)]
  {
    hide Normalize;
  }

  // ---- settings ----

  /** The server data and the trust after a list of inputs. */
  function Settings(trust: Option<Trust>, inputs: seq<Input>): (Option<string>, Option<Trust>) {
    if inputs == [] then (None, trust)
    else
      var (data, before) := Settings(trust, inputs[..|inputs| - 1]);
      match inputs[|inputs| - 1]
      case SetServerData(json) => (Some(json), before)
      case SetTokenTrust(now) => (data, now)
      case _ => (data, before)
  }

  lemma {:induction false} TimeOutAllSettings(s: State, ids: seq<u64>)
    ensures TimeOutAll(s, ids).serverData == s.serverData && TimeOutAll(s, ids).trust == s.trust
  {
    if ids != [] {
      TimeOutAllSettings(s, ids[..|ids| - 1]);
    }
  }

  lemma StepSettings(s: State, input: Input)
    ensures var s' := Handle(s, input).0;
            && s'.serverData == (if input.SetServerData? then Some(input.json) else s.serverData)
            && s'.trust == (if input.SetTokenTrust? then input.trust else s.trust)
  {
    hide Judge, KeepAlive, ClientAddress, Candidates.WithAdvertised, Body, TimeOutAll, Overdue, NextWait, Normalize, Release;
    if input.Update? {
      TimeOutAllSettings(s, Overdue(s.pending, input.order, input.now));
    }
  }

  /** In every run the server data and the trust that requests meet are those set last. */
  lemma {:induction false} LastSettingsStand(config: Config, trust: Option<Trust>, inputs: seq<Input>)
    ensures var s := Run(New(config, trust), inputs); (s.serverData, s.trust) == Settings(trust, inputs)
  {
    hide Handle;
    if inputs != [] {
      LastSettingsStand(config, trust, inputs[..|inputs| - 1]);
      StepSettings(Run(New(config, trust), inputs[..|inputs| - 1]), inputs[|inputs| - 1]);
    }
  }
}
