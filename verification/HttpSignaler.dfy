/** The HTTP signaler as the object it is: fields updated in place, each method doing what its step function says. */
module HttpSignalerObject {
  import opened Std
  import opened Codec
  import opened Net
  import Candidates
  import Endpoint
  import H = Http
  import HttpCounts
  import HttpJoins
  import HttpRequests
  import HttpTimer

  class HttpSignaler {
    const config: H.Config

    var connections: map<u64, H.Connection>
    var perAddress: map<Ip, nat>
    var pending: map<u64, H.Pending>
    var serverData: Option<string>
    var trust: Option<H.Trust>
    var output: seq<H.Output>

    ghost var polled: seq<H.Output>
    ghost var asked: multiset<u64>
    ghost var lost: multiset<u64>
    ghost var begun: multiset<u64>
    ghost var answered: multiset<u64>
    ghost var rejected: multiset<u64>
    ghost var timedOut: multiset<u64>
    ghost var dropped: multiset<u64>

    /** The trust the signaler was made with, and every input handled so far. */
    ghost const initialTrust: Option<H.Trust>
    ghost var inputs: seq<H.Input>

    /** The signaler is where the transition system gets on the inputs handled so far. */
    ghost predicate Valid()
      reads this
    {
      State() == H.Run(H.New(config, initialTrust), inputs)
    }

    ghost function State(): H.State
      reads this
    {
      H.State(config, connections, perAddress, pending, serverData, trust, polled + output, asked, lost, begun,
              answered, rejected, timedOut, dropped)
    }

    constructor (config: H.Config, trust: Option<H.Trust>)
      ensures Valid() && inputs == [] && State() == H.New(config, trust)
    {
      this.config, this.trust, initialTrust, inputs := config, trust, trust, [];
      connections, perAddress, pending, serverData, output := map[], map[], map[], None, [];
      polled, asked, lost, begun := [], multiset{}, multiset{}, multiset{};
      answered, rejected, timedOut, dropped := multiset{}, multiset{}, multiset{}, multiset{};
    }

    /** Handles an input; the order in which an update walks the table is the signaler's own. */
    method Handle(input: H.Input) returns (error: Option<H.Error>, ghost handled: H.Input)
      requires Valid()
      modifies this
      ensures Valid() && inputs == old(inputs) + [handled] && polled == old(polled)
      ensures (State(), error) == H.Handle(old(State()), handled)
      ensures if input.Update? then handled.Update? && handled.now == input.now && H.Enumerates(handled.order, old(pending))
              else handled == input
    {
      hide H.Handle, H.Enumerates;
      error, handled := Dispatch(input);
      inputs := inputs + [handled];
      RunSnoc(H.New(config, initialTrust), old(inputs), handled);
    }

    method Dispatch(input: H.Input) returns (error: Option<H.Error>, ghost handled: H.Input)
      modifies this`connections, this`perAddress, this`pending, this`serverData, this`trust, this`output, this`asked,
               this`lost, this`begun, this`answered, this`rejected, this`timedOut, this`dropped
      ensures (State(), error) == H.Handle(old(State()), handled)
      ensures if input.Update? then handled.Update? && handled.now == input.now && H.Enumerates(handled.order, old(pending))
              else handled == input
    {
      hide H.Connect, H.HandleAsk, H.HandleAnswer, H.HandleReject, H.Disconnect, H.HandleUpdate, H.Enumerates;
      error, handled := None, input;
      match input {
        case Connected(connection, addr) => Connected(connection, addr);
        case Ask(connection, request, now, joinId, outside) => HandleRequest(connection, request, now, joinId, outside);
        case Answer(id, sdp) => error := Answer(id, sdp);
        case Reject(id, reason) => error := Reject(id, reason);
        case SetServerData(json) => serverData := Some(json);
        case SetTokenTrust(newTrust) => trust := newTrust;
        case Closed(connection) => Closed(connection);
        case Update(now, _) =>
          ghost var order := HandleUpdate(now);
          handled := H.Update(now, order);
      }
    }

    /** Outputs leave in the order they were queued. */
    method Poll() returns (o: Option<H.Output>)
      requires Valid()
      modifies this`output, this`polled
      ensures Valid() && State() == old(State())
      ensures if old(output) == [] then o == None && polled == old(polled)
              else o == Some(old(output)[0]) && polled == old(polled) + [old(output)[0]]
    {
      if output == [] {
        return None;
      }
      o := Some(output[0]);
      polled := polled + [output[0]];
      output := output[1..];
      assert polled + output == old(polled + output);
    }

    method Push(o: H.Output)
      modifies this`output
      ensures State() == H.Emit(old(State()), o)
    {
      output := output + [o];
      assert polled + output == old(polled + output) + [o];
    }

    method Connected(connection: u64, addr: SocketAddr)
      modifies this`connections, this`perAddress, this`output
      ensures State() == H.Connect(old(State()), connection, addr)
    {
      hide Normalize, H.Full;
      if Normalize(addr.ip) in config.trustedProxies {
        connections := connections[connection := H.Connection(addr, false)];
      } else {
        var admitted := Admit(Normalize(addr.ip));
        if admitted {
          connections := connections[connection := H.Connection(addr, true)];
        } else {
          Push(H.Close(connection));
        }
      }
    }

    /** Counts a newcomer, and takes it back when that is one too many. */
    method Admit(peer: Ip) returns (admitted: bool)
      modifies this`perAddress
      ensures admitted == !H.Full(old(State()), peer)
      ensures perAddress == old(perAddress)[peer := H.HeldBy(old(State()), peer) + if admitted then 1 else 0]
    {
      if peer !in perAddress {
        perAddress := perAddress[peer := 0];
      }
      perAddress := perAddress[peer := perAddress[peer] + 1];
      admitted := perAddress[peer] <= config.maxConnectionsPerAddress;
      if !admitted {
        perAddress := perAddress[peer := perAddress[peer] - 1];
      }
    }

    method Closed(connection: u64)
      modifies this`connections, this`perAddress, this`pending, this`lost, this`dropped
      ensures State() == H.Disconnect(old(State()), connection)
    {
      hide Normalize, H.WaitingOn, H.WaitingElsewhere, H.Release, H.Without;
      if connection in connections {
        var entry := connections[connection];
        ghost var after := H.Disconnect(State(), connection);
        connections := H.Without(connections, connection);
        if entry.counted {
          Release(entry.Peer());
        }
        pending := H.WaitingElsewhere(pending, connection);
        lost, dropped := after.lost, after.dropped;
      }
    }

    method Release(peer: Ip)
      modifies this`perAddress
      ensures perAddress == H.Release(old(perAddress), peer)
    {
      if peer in perAddress {
        var held := if perAddress[peer] > 0 then perAddress[peer] - 1 else 0;
        perAddress := perAddress[peer := held];
        if held == 0 {
          perAddress := perAddress - {peer};
          assert perAddress == H.Without(old(perAddress), peer);
        }
      }
    }

    method HandleRequest(connection: u64, request: H.Request, now: int, joinId: u64, outside: H.Outside)
      modifies this`pending, this`output, this`asked, this`begun
      ensures State() == H.HandleAsk(old(State()), connection, request, now, joinId, outside)
    {
      hide H.KeepAlive, H.ClientAddress, H.NetworkOf, H.Body, H.Open, H.Authenticate;
      var keepAlive := H.KeepAlive(request);
      asked := asked + multiset{connection};
      ghost var s1 := State();
      assert H.Judge(old(State()), connection, request, outside) == H.Judge(s1, connection, request, outside) by {
        JudgeFrame(old(State()), s1, connection, request, outside);
      }
      if request.path == H.JOIN_PATH {
        ServeStatus(connection, request, keepAlive);
      } else {
        ServeJoin(connection, request, keepAlive, now, joinId, outside);
      }
    }

    method ServeJoin(connection: u64, request: H.Request, keepAlive: bool, now: int, joinId: u64, outside: H.Outside)
      requires request.path != H.JOIN_PATH && keepAlive == H.KeepAlive(request)
      modifies this`pending, this`output, this`begun
      ensures match H.Judge(old(State()), connection, request, outside)
              case Now(response) => State() == H.Emit(old(State()), H.Respond(connection, response, keepAlive))
              case Later(networkId, player) =>
                State() == H.Open(old(State()), connection, request, now, joinId, networkId, player)
    {
      hide H.KeepAlive, H.ClientAddress, H.NetworkOf, H.Body, H.Open, H.Authenticate;
      var networkId := H.NetworkOf(request.path);
      if networkId.None? {
        Push(H.Respond(connection, H.Bare(404), keepAlive));
      } else if request.verb != H.Post {
        Push(H.Respond(connection, H.Bare(405), keepAlive));
      } else {
        Join(connection, networkId.value, request, keepAlive, now, joinId, outside);
      }
    }

    method ServeStatus(connection: u64, request: H.Request, keepAlive: bool)
      requires request.path == H.JOIN_PATH
      modifies this`output
      ensures forall outside :: State() == H.Emit(old(State()),
                H.Respond(connection, H.Judge(old(State()), connection, request, outside).response, keepAlive))
    {
      hide H.NetworkOf, H.Body, H.ClientAddress, H.Authenticate;
      if request.verb != H.Get {
        Push(H.Respond(connection, H.Bare(405), keepAlive));
      } else if serverData.None? || !config.serveMotd {
        Push(H.Respond(connection, H.Bare(404), keepAlive));
      } else {
        Push(H.Respond(connection, H.Body(serverData.value, "application/json"), keepAlive));
      }
    }

    method Join(connection: u64, networkId: string, request: H.Request, keepAlive: bool, now: int, joinId: u64,
                outside: H.Outside)
      requires request.path != H.JOIN_PATH && H.NetworkOf(request.path) == Some(networkId) && request.verb == H.Post
      requires keepAlive == H.KeepAlive(request)
      modifies this`pending, this`output, this`begun
      ensures match H.Judge(old(State()), connection, request, outside)
              case Now(response) => State() == H.Emit(old(State()), H.Respond(connection, response, keepAlive))
              case Later(_, player) => State() == H.Open(old(State()), connection, request, now, joinId, networkId, player)
    {
      hide H.KeepAlive, H.NetworkOf, H.Body, H.ClientAddress, H.Authenticate;
      if |pending| >= config.maxPendingJoins {
        Push(H.Respond(connection, H.Bare(503), keepAlive));
        return;
      }
      var client := ClientAddress(connection, request);
      var claims := H.Authenticate(trust, request.body, outside);
      if claims.Err? {
        Push(H.Respond(connection, H.Bare(401), keepAlive));
        return;
      }
      var player := if claims.value.None? then None else Some(H.Player(claims.value.value, networkId, client));
      pending := pending[joinId := H.Pending(connection, keepAlive, now + config.answerTimeout)];
      begun := begun + multiset{joinId};
      Push(H.Offered(H.Offer(joinId, networkId, request.body, client, request.host, player)));
    }

    method ClientAddress(connection: u64, request: H.Request) returns (r: Option<SocketAddr>)
      ensures r == H.ClientAddress(State(), connection, request)
    {
      if connection !in connections {
        return None;
      }
      var remote := connections[connection].addr;
      if Normalize(remote.ip) !in config.trustedProxies {
        return Some(remote);
      }
      if request.forwardedFor.None? {
        return None;
      }
      var ip := Endpoint.Parse(H.FirstForwarded(request.forwardedFor.value));
      r := if ip.None? then None else Some(NewAddr(ip.value, remote.port));
    }

    method Answer(id: u64, sdp: string) returns (error: Option<H.Error>)
      modifies this`pending, this`output, this`answered
      ensures (State(), error) == H.HandleAnswer(old(State()), id, sdp)
    {
      hide Candidates.WithAdvertised, H.Body;
      if id !in pending {
        return Some(H.UnknownConnection(id));
      }
      var join := pending[id];
      pending := pending - {id};
      assert pending == H.Without(old(pending), id);
      answered := answered + multiset{id};
      var body := Candidates.WithAdvertisedCandidates(sdp, config.advertisedAddresses);
      Push(H.Respond(join.connection, H.Body(body, "application/sdp"), join.keepAlive));
      error := None;
    }

    method Reject(id: u64, reason: H.Reason) returns (error: Option<H.Error>)
      modifies this`pending, this`output, this`rejected
      ensures (State(), error) == H.HandleReject(old(State()), id, reason)
    {
      error := Refuse(id, reason);
      if error.None? {
        rejected := rejected + multiset{id};
      }
    }

    method Refuse(id: u64, reason: H.Reason) returns (error: Option<H.Error>)
      modifies this`pending, this`output
      ensures if id in old(pending) then error == None && State() == H.Resolve(old(State()), id, H.Bare(H.StatusOf(reason)))
              else error == Some(H.UnknownConnection(id)) && State() == old(State())
    {
      if id !in pending {
        return Some(H.UnknownConnection(id));
      }
      var join := pending[id];
      pending := pending - {id};
      assert pending == H.Without(old(pending), id);
      Push(H.Respond(join.connection, H.Bare(H.StatusOf(reason)), join.keepAlive));
      error := None;
    }

    /** The table of joins is walked in an order of its own, which the caller does not learn. */
    method HandleUpdate(now: int) returns (ghost order: seq<u64>)
      modifies this`pending, this`output, this`timedOut
      ensures H.Enumerates(order, old(pending))
      ensures State() == H.HandleUpdate(old(State()), now, order)
    {
      hide H.Overdue, H.Soonest, H.TimeOutOne;
      var expired;
      expired, order := CollectOverdue(now);
      for i := 0 to |expired|
        invariant State() == H.TimeOutAll(old(State()), expired[..i])
      {
        assert expired[..i + 1][..i] == expired[..i];
        TimeOut(expired[i]);
      }
      assert expired[..|expired|] == expired;
      RestWaits(old(State()), order, now);
      var wait := NextWait(now, order);
      Push(H.Wait(wait));
    }

    method TimeOut(id: u64)
      modifies this`pending, this`output, this`timedOut
      ensures State() == H.TimeOutOne(old(State()), id)
    {
      var error := Refuse(id, H.Timeout);
      if error.None? {
        timedOut := timedOut + multiset{id};
      }
    }

    method CollectOverdue(now: int) returns (expired: seq<u64>, ghost order: seq<u64>)
      ensures H.Enumerates(order, pending) && expired == H.Overdue(pending, order, now)
    {
      expired, order := [], [];
      var left := pending.Keys;
      while left != {}
        invariant left <= pending.Keys
        invariant forall id :: id in order <==> id in pending && id !in left
        invariant HttpTimer.Distinct(order)
        invariant expired == H.Overdue(pending, order, now)
      {
        var id :| id in left;
        left := left - {id};
        if pending[id].deadline <= now {
          expired := expired + [id];
        }
        OverdueSnoc(pending, order, id, now);
        order := order + [id];
      }
    }

    method NextWait(now: int, ghost order: seq<u64>) returns (wait: nat)
      requires forall id | id in pending :: id in order
      ensures wait == H.NextWait(State(), order, now)
    {
      hide H.Soonest;
      var soonest: Option<nat> := None;
      var left := pending.Keys;
      ghost var seen: seq<u64> := [];
      NothingIsSoonest(pending, now);
      while left != {}
        invariant left <= pending.Keys
        invariant forall id :: id in seen <==> id in pending && id !in left
        invariant soonest == H.Soonest(pending, seen, now)
      {
        var id :| id in left;
        left := left - {id};
        var until := Since(pending[id].deadline, now);
        SoonestSnoc(pending, seen, id, now);
        soonest := Some(if soonest.None? then until else Min(soonest.value, until));
        seen := seen + [id];
      }
      SoonestSame(pending, seen, order, now);
      wait := if soonest.None? then config.answerTimeout else soonest.value;
    }
  }

  lemma JudgeFrame(s: H.State, s': H.State, connection: u64, request: H.Request, outside: H.Outside)
    requires s' == s.(asked := s'.asked)
    ensures H.Judge(s, connection, request, outside) == H.Judge(s', connection, request, outside)
    ensures H.ClientAddress(s, connection, request) == H.ClientAddress(s', connection, request)
  {
    hide H.NetworkOf, H.Body, H.Authenticate, Normalize, H.FirstForwarded, Endpoint.Parse;
  }

  lemma OverdueSnoc(pending: map<u64, H.Pending>, order: seq<u64>, id: u64, now: int)
    requires id in pending
    ensures H.Overdue(pending, order + [id], now)
         == H.Overdue(pending, order, now) + if pending[id].deadline <= now then [id] else []
  {
    KeepSnoc(order, id, (id: u64) => id in pending && pending[id].deadline <= now);
  }

  lemma NothingIsSoonest(pending: map<u64, H.Pending>, now: int)
    ensures H.Soonest(pending, [], now) == None
  {
  }

  lemma SoonestSnoc(pending: map<u64, H.Pending>, ids: seq<u64>, id: u64, now: int)
    requires id in pending
    ensures var (init, until) := (H.Soonest(pending, ids, now), Since(pending[id].deadline, now));
            H.Soonest(pending, ids + [id], now) == Some(if init.None? then until else Min(init.value, until))
  {
    assert (ids + [id])[..|ids|] == ids;
  }

  /** The minimum does not depend on the order of iteration. */
  lemma SoonestSame(pending: map<u64, H.Pending>, xs: seq<u64>, ys: seq<u64>, now: int)
    requires forall id | id in pending :: id in xs && id in ys
    ensures H.Soonest(pending, xs, now) == H.Soonest(pending, ys, now)
  {
    hide H.Soonest;
    HttpTimer.SoonestIsMinimum(pending, xs, now);
    HttpTimer.SoonestIsMinimum(pending, ys, now);
  }

  lemma RestWaits(s: H.State, order: seq<u64>, now: int)
    requires H.Enumerates(order, s.pending)
    ensures forall id | id in H.TimeOutAll(s, H.Overdue(s.pending, order, now)).pending :: id in order
  {
    hide H.Overdue, H.TimeOutAll;
    HttpTimer.OverdueMembers(s.pending, order, now);
    var ids := H.Overdue(s.pending, order, now);
    assert forall i | 0 <= i < |ids| :: ids[i] in ids;
    HttpTimer.TimeOutAllIs(s, ids);
  }

  lemma RunSnoc(s: H.State, inputs: seq<H.Input>, input: H.Input)
    ensures H.Run(s, inputs + [input]) == H.Handle(H.Run(s, inputs), input).0
  {
    hide H.Handle;
    assert (inputs + [input])[..|inputs|] == inputs;
  }

  /** What every run promises, every signaler keeps, whatever it has handled: with join ids that are never repeated no
      request is lost, and with connection ids not reused while open every address is counted exactly. */
  lemma SignalerKeepsPromises(x: HttpSignaler)
    requires x.Valid()
    ensures H.LegalRun(H.New(x.config, x.initialTrust), x.inputs) ==> HttpJoins.Inv(x.State())
    ensures HttpCounts.NoReuse(H.New(x.config, x.initialTrust), x.inputs) ==> HttpCounts.Inv(x.State())
    ensures HttpRequests.Explained(x.config, x.inputs, x.pending)
  {
    hide H.Run, H.LegalRun, HttpCounts.NoReuse, HttpCounts.Inv, HttpRequests.Explained, HttpJoins.Balanced,
      HttpJoins.TotalBalanced, HttpJoins.Settled, HttpJoins.Capped;
    if H.LegalRun(H.New(x.config, x.initialTrust), x.inputs) {
      HttpJoins.NoRequestIsLost(x.config, x.initialTrust, x.inputs);
    }
    if HttpCounts.NoReuse(H.New(x.config, x.initialTrust), x.inputs) {
      HttpCounts.CountsAreExact(x.config, x.initialTrust, x.inputs);
    }
    HttpRequests.WaitsForItsRequest(x.config, x.initialTrust, x.inputs);
  }
}
