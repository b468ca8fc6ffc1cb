/** The shared socket and its per-session routes as objects; every method runs under the socket's lock. */
module SharedSocketObject {
  import opened Std
  import opened Net
  import R = Router

  const ROUTE_CHANNEL_CAPACITY: nat := 1024

  /** A datagram and where it came from. */
  type Received = (R.Datagram, SocketAddr)

  /** No session that routes is without a sender, so dispatching is routing. */
  lemma NothingRoutedIsLost(steps: seq<R.Step>, from: SocketAddr, d: R.Datagram)
    ensures R.Route(R.Run(steps).tables, from, d) <= R.Run(steps).senders
  {
    R.RunInv(steps);
    R.RoutesLikeScan(steps, from, d);
  }

  class SharedSocket {
    var nextId: nat
    var sessions: map<nat, seq<Received>>
    var byAddr: map<SocketAddr, nat>
    var provisional: map<SocketAddr, set<nat>>
    var byUfrag: map<string, nat>

    ghost var live: map<nat, R.Session>
    ghost var newest: map<string, nat>

    /** Every step taken so far. */
    ghost var steps: seq<R.Step>

    ghost function State(): R.State
      reads this
    {
      R.State(nextId, sessions.Keys, R.Tables(byAddr, provisional, byUfrag), live, newest)
    }

    /** The socket is where the transition system gets on the steps taken so far. */
    ghost predicate Valid()
      reads this
    {
      State() == R.Run(steps)
    }

    constructor ()
      ensures Valid() && steps == [] && State() == R.EMPTY
    {
      nextId, sessions := 0, map[];
      byAddr, provisional, byUfrag := map[], map[], map[];
      live, newest, steps := map[], map[], [];
    }

    /** Records a step that has just been taken. */
    ghost method Took(was: R.State, step: R.Step)
      requires was == R.Run(steps) && State() == R.Next(was, step)
      modifies this`steps
      ensures Valid() && steps == old(steps) + [step]
    {
      hide R.Next;
      R.RunSnoc(steps, step);
      steps := steps + [step];
    }

    method Route(localUfrag: string) returns (route: SharedRoute)
      requires Valid()
      modifies this
      ensures Valid() && steps == old(steps) + [R.Register(localUfrag)]
      ensures fresh(route) && route.shared == this && route.id == old(nextId) && route.localUfrag == localUfrag
      ensures route.remoteAddr == None && route.Attached()
      ensures State() == R.Next(old(State()), R.Register(localUfrag))
      ensures sessions == old(sessions)[route.id := []]
    {
      hide R.Run;
      var id := nextId;
      nextId := nextId + 1;
      sessions := sessions[id := []];
      byUfrag := byUfrag[localUfrag := id];
      live := live[id := R.Session(localUfrag, None, {})];
      newest := newest[localUfrag := id];
      route := new SharedRoute(id, localUfrag, this);
      Took(old(State()), R.Register(localUfrag));
    }

    /** `Router::route`. */
    method RouteDatagram(from: SocketAddr, d: R.Datagram) returns (ids: set<nat>)
      ensures ids == R.Route(State().tables, from, d)
    {
      var a := R.Canonical(from);
      if a in byAddr {
        return {byAddr[a]};
      }
      if !d.isStun {
        return {};
      }
      if d.localUfrag.Some? && d.localUfrag.value in byUfrag {
        return {byUfrag[d.localUfrag.value]};
      }
      ids := if a in provisional then provisional[a] else {};
    }

    /** Every session routed to has a channel, and gets the datagram unless that channel is full. */
    method Dispatch(from: SocketAddr, d: R.Datagram)
      requires Valid()
      modifies this`sessions
      ensures Valid() && State() == old(State())
      ensures R.Route(State().tables, from, d) <= sessions.Keys
      ensures forall id | id in sessions ::
                sessions[id] == Offered(old(sessions)[id], id in R.Route(State().tables, from, d), (d, from))
    {
      hide R.Run, R.Route;
      var ids := RouteDatagram(from, d);
      NothingRoutedIsLost(steps, from, d);
      var left := ids;
      while left != {}
        invariant left <= ids && sessions.Keys == old(sessions.Keys)
        invariant forall id | id in sessions ::
                    sessions[id] == Offered(old(sessions)[id], id in ids && id !in left, (d, from))
      {
        var id :| id in left;
        left := left - {id};
        if id in sessions && |sessions[id]| < ROUTE_CHANNEL_CAPACITY {
          sessions := sessions[id := sessions[id] + [(d, from)]];
        }
      }
    }
  }

  /** `try_send`: a full channel loses what is offered to it. */
  function Offered(queue: seq<Received>, offered: bool, x: Received): seq<Received> {
    if offered && |queue| < ROUTE_CHANNEL_CAPACITY then queue + [x] else queue
  }

  class SharedRoute {
    const id: nat
    const localUfrag: string
    const shared: SharedSocket
    var remoteAddr: Option<SocketAddr>

    constructor (id: nat, localUfrag: string, shared: SharedSocket)
      ensures this.id == id && this.localUfrag == localUfrag && this.shared == shared && remoteAddr == None
    {
      this.id, this.localUfrag, this.shared, remoteAddr := id, localUfrag, shared, None;
    }

    /** The route is registered and the socket's record of it is up to date. */
    ghost predicate Attached()
      reads this, shared
    {
      && shared.Valid()
      && id in shared.live && id in shared.sessions
      && shared.live[id].ufrag == localUfrag
      && shared.live[id].remoteAddr == remoteAddr
    }

    /** Datagrams are received in the order they were dispatched. */
    method Receive() returns (x: Option<Received>)
      requires Attached()
      modifies shared`sessions
      ensures Attached() && shared.State() == old(shared.State())
      ensures var queue := old(shared.sessions)[id];
              if queue == [] then x == None && shared.sessions == old(shared.sessions)
              else x == Some(queue[0]) && shared.sessions == old(shared.sessions)[id := queue[1..]]
    {
      var queue := shared.sessions[id];
      if queue == [] {
        return None;
      }
      x := Some(queue[0]);
      shared.sessions := shared.sessions[id := queue[1..]];
      assert shared.sessions.Keys == old(shared.sessions.Keys);
    }

    method SendTo(to: SocketAddr)
      requires Attached()
      modifies shared
      ensures Attached() && shared.steps == old(shared.steps) + [R.SendTo(id, to)]
      ensures shared.State() == R.Next(old(shared.State()), R.SendTo(id, to))
      ensures shared.sessions == old(shared.sessions)
    {
      hide R.Run;
      if remoteAddr.None? {
        var a := R.Canonical(to);
        var ids := if a in shared.provisional then shared.provisional[a] else {};
        shared.provisional := shared.provisional[a := ids + {id}];
        shared.live := shared.live[id := shared.live[id].(sentTo := shared.live[id].sentTo + {a})];
      }
      shared.Took(old(shared.State()), R.SendTo(id, to));
    }

    method Claim(addr: SocketAddr)
      requires Attached()
      modifies this, shared
      ensures Attached() && shared.steps == old(shared.steps) + [R.Claim(id, addr)]
      ensures shared.State() == R.Next(old(shared.State()), R.Claim(id, addr))
      ensures shared.sessions == old(shared.sessions)
    {
      hide R.Run;
      if remoteAddr.None? {
        var a := R.Canonical(addr);
        if a !in shared.byAddr {
          shared.byAddr := shared.byAddr[a := id];
        }
        if shared.byAddr[a] == id {
          remoteAddr := Some(addr);
          shared.live := shared.live[id := shared.live[id].(remoteAddr := Some(addr))];
        }
      }
      shared.Took(old(shared.State()), R.Claim(id, addr));
    }

    method Drop()
      requires Attached()
      modifies shared
      ensures shared.Valid() && shared.steps == old(shared.steps) + [R.Drop(id)]
      ensures shared.State() == R.Next(old(shared.State()), R.Drop(id))
      ensures shared.sessions == old(shared.sessions) - {id}
    {
      hide R.Run;
      shared.sessions := shared.sessions - {id};
      if localUfrag in shared.byUfrag && shared.byUfrag[localUfrag] == id {
        shared.byUfrag := shared.byUfrag - {localUfrag};
      }
      if remoteAddr.Some? {
        var a := R.Canonical(remoteAddr.value);
        if a in shared.byAddr && shared.byAddr[a] == id {
          shared.byAddr := shared.byAddr - {a};
        }
      }
      shared.provisional :=
        map a | a in shared.provisional && shared.provisional[a] - {id} != {} :: shared.provisional[a] - {id};
      shared.live := shared.live - {id};
      shared.Took(old(shared.State()), R.Drop(id));
    }
  }

  /** What every interleaving promises, every socket keeps: its tables route as a scan of the live sessions does. */
  lemma SocketRoutesLikeScan(x: SharedSocket, from: SocketAddr, d: R.Datagram)
    requires x.Valid()
    ensures R.Route(x.State().tables, from, d) ==
              R.Scan(x.State(), from, d, if d.localUfrag.Some? then R.NamedLast(x.State(), d.localUfrag.value) else {})
  {
    hide R.Run, R.Route, R.Scan, R.NamedLast;
    R.RoutesLikeScan(x.steps, from, d);
  }
}
