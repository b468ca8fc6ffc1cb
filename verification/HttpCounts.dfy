/** The connection counts of the HTTP signaler against the connections that are open. */
module HttpCounts {
  import opened Std
  import opened Codec
  import opened Net
  import opened Http
  import Candidates

  /** The open connections counted for an address. */
  function OpenFrom(connections: map<u64, Connection>, peer: Ip): set<u64> {
    set c | c in connections && connections[c].counted && connections[c].Peer() == peer
  }

  ghost predicate Exact(s: State) {
    forall peer: Ip :: HeldBy(s, peer) == |OpenFrom(s.connections, peer)|
  }

  ghost predicate Bounded(s: State) {
    forall peer: Ip :: HeldBy(s, peer) <= s.config.maxConnectionsPerAddress
  }

  /** Trusted proxies are never counted, and an idle entry is kept only where no connection is allowed at all. */
  ghost predicate Tidy(s: State) {
    forall peer | peer in s.perAddress ::
      peer !in s.config.trustedProxies && (s.perAddress[peer] == 0 ==> s.config.maxConnectionsPerAddress == 0)
  }

  ghost predicate Inv(s: State) {
    Exact(s) && Bounded(s) && Tidy(s)
  }

  // ---- one more, one fewer ----

  lemma OpenMore(connections: map<u64, Connection>, id: u64, c: Connection, peer: Ip)
    requires id !in connections
    ensures |OpenFrom(connections[id := c], peer)|
         == |OpenFrom(connections, peer)| + if c.counted && c.Peer() == peer then 1 else 0
  {
    hide Normalize;
    if c.counted && c.Peer() == peer {
      assert OpenFrom(connections[id := c], peer) == OpenFrom(connections, peer) + {id};
    } else {
      assert OpenFrom(connections[id := c], peer) == OpenFrom(connections, peer);
    }
  }

  lemma OpenLess(connections: map<u64, Connection>, id: u64, peer: Ip)
    requires id in connections
    ensures |OpenFrom(connections, peer)| == |OpenFrom(Without(connections, id), peer)|
                                           + if connections[id].counted && connections[id].Peer() == peer then 1 else 0
  {
    hide Normalize, OpenFrom;
    var less := Without(connections, id);
    OpenMore(less, id, connections[id], peer);
    assert less[id := connections[id]] == connections;
  }

  lemma OpenReplaced(connections: map<u64, Connection>, id: u64, c: Connection, peer: Ip)
    requires id in connections
    ensures |OpenFrom(connections[id := c], peer)|
              + (if connections[id].counted && connections[id].Peer() == peer then 1 else 0)
         == |OpenFrom(connections, peer)| + (if c.counted && c.Peer() == peer then 1 else 0)
  {
    hide Normalize, OpenFrom;
    var less := Without(connections, id);
    OpenMore(less, id, c, peer);
    OpenLess(connections, id, peer);
    assert less[id := c] == connections[id := c];
  }

  // ---- connecting ----

  predicate Admitted(s: State, addr: SocketAddr) {
    Trusted(s, addr) || !Full(s, Normalize(addr.ip))
  }

  /** A connection id in use again: the counts stay exact unless a counted connection is displaced by an admitted one. */
  lemma ExactAfterConnect(s: State, connection: u64, addr: SocketAddr)
    requires Exact(s)
    ensures Exact(Connect(s, connection, addr))
       <==> !(connection in s.connections && s.connections[connection].counted && Admitted(s, addr))
  {
    hide Normalize, OpenFrom;
    var s' := Connect(s, connection, addr);
    var c := Connection(addr, !Trusted(s, addr));
    if !Admitted(s, addr) {
      assert forall peer :: HeldBy(s', peer) == HeldBy(s, peer);
    } else {
      assert s'.connections == s.connections[connection := c];
      assert forall peer :: HeldBy(s', peer) == HeldBy(s, peer) + if c.counted && c.Peer() == peer then 1 else 0;
      if connection in s.connections {
        forall peer: Ip {
          OpenReplaced(s.connections, connection, c, peer);
        }
        var was := s.connections[connection];
        if was.counted {
          assert HeldBy(s', was.Peer()) != |OpenFrom(s'.connections, was.Peer())|;
        }
      } else {
        forall peer: Ip {
          OpenMore(s.connections, connection, c, peer);
        }
      }
    }
  }

  lemma ConnectInv(s: State, connection: u64, addr: SocketAddr)
    requires Inv(s) && connection !in s.connections
    ensures Inv(Connect(s, connection, addr))
  {
    hide Normalize, Exact;
    ExactAfterConnect(s, connection, addr);
    var (s', comer) := (Connect(s, connection, addr), Normalize(addr.ip));
    assert forall peer | peer != comer :: HeldBy(s', peer) == HeldBy(s, peer);
    assert HeldBy(s', comer) <= s.config.maxConnectionsPerAddress;
    assert Tidy(s');
  }

  /** Closing a refused connection changes nothing. */
  lemma RefusedLeavesNoTrace(s: State, connection: u64, addr: SocketAddr)
    requires connection !in s.connections && !Admitted(s, addr)
    ensures var s' := Connect(s, connection, addr);
            Disconnect(s', connection) == s' && forall peer :: HeldBy(s', peer) == HeldBy(s, peer)
  {
    hide Normalize;
  }

  // ---- closing ----

  lemma DisconnectInv(s: State, connection: u64)
    requires Inv(s)
    ensures Inv(Disconnect(s, connection))
  {
    hide Normalize, OpenFrom, WaitingOn;
    if connection in s.connections {
      var s' := Disconnect(s, connection);
      var entry := s.connections[connection];
      forall peer: Ip {
        OpenLess(s.connections, connection, peer);
      }
      assert forall peer :: HeldBy(s', peer) == HeldBy(s, peer) - if entry.counted && entry.Peer() == peer then 1 else 0;
      assert s'.connections == Without(s.connections, connection);
    }
  }

  // ---- runs ----

  lemma SameCounts(s: State, s': State)
    requires Inv(s) && s'.config == s.config && s'.connections == s.connections && s'.perAddress == s.perAddress
    ensures Inv(s')
  {
    hide OpenFrom;
    assert forall peer :: HeldBy(s', peer) == HeldBy(s, peer);
  }

  lemma {:induction false} TimeOutAllFrame(s: State, ids: seq<u64>)
    ensures var s' := TimeOutAll(s, ids);
            s'.config == s.config && s'.connections == s.connections && s'.perAddress == s.perAddress
  {
    if ids != [] {
      TimeOutAllFrame(s, ids[..|ids| - 1]);
    }
  }

  lemma OtherFrame(s: State, input: Input)
    requires !input.Connected? && !input.Closed?
    ensures var s' := Handle(s, input).0;
            s'.config == s.config && s'.connections == s.connections && s'.perAddress == s.perAddress
  {
    hide TimeOutAll, Judge, Candidates.WithAdvertised, NextWait, Overdue, ClientAddress, KeepAlive, Body, Without, Bare;
    if input.Update? {
      TimeOutAllFrame(s, Overdue(s.pending, input.order, input.now));
    }
  }

  ghost predicate NoReuse(s: State, inputs: seq<Input>) {
    inputs == [] ||
    var (init, last) := (inputs[..|inputs| - 1], inputs[|inputs| - 1]);
    NoReuse(s, init) && (last.Connected? ==> last.connection !in Run(s, init).connections)
  }

  lemma StepInv(s: State, input: Input)
    requires Inv(s) && (input.Connected? ==> input.connection !in s.connections)
    ensures Inv(Handle(s, input).0)
  {
    hide Inv, Connect, Disconnect, HandleAsk, HandleAnswer, HandleReject, HandleUpdate;
    match input
    case Connected(connection, addr) => ConnectInv(s, connection, addr);
    case Closed(connection) => DisconnectInv(s, connection);
    case _ =>
      OtherFrame(s, input);
      SameCounts(s, Handle(s, input).0);
  }

  /** While no id is reused for an open connection, every address is counted exactly, within its limit, and trusted
      proxies are not counted at all. */
  lemma {:induction false} CountsAreExact(config: Config, trust: Option<Trust>, inputs: seq<Input>)
    requires NoReuse(New(config, trust), inputs)
    ensures Inv(Run(New(config, trust), inputs))
  {
    hide Handle;
    var s := New(config, trust);
    if inputs == [] {
      assert forall peer :: OpenFrom(map[], peer) == {};
    } else {
      hide Inv;
      var (init, last) := (inputs[..|inputs| - 1], inputs[|inputs| - 1]);
      CountsAreExact(config, trust, init);
      StepInv(Run(s, init), last);
    }
  }

  /** An id used twice from one address and then closed: one connection is counted though none is open. */
  lemma ReuseLeaksACount(config: Config, trust: Option<Trust>, addr: SocketAddr)
    requires config.trustedProxies == {} && config.maxConnectionsPerAddress >= 2
    ensures var s := Disconnect(Connect(Connect(New(config, trust), 7, addr), 7, addr), 7);
            s.connections == map[] && HeldBy(s, Normalize(addr.ip)) == 1
  {
    hide Normalize;
  }
}
