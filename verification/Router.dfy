/** Routing of the datagrams of one shared UDP socket (`transport/shared.rs`). */
module Router {
  import opened Std
  import opened Net

  /** What the router reads off a datagram: whether it is STUN, and the local half of its user name. */
  datatype Datagram = Datagram(isStun: bool, localUfrag: Option<string>)

  datatype Tables = Tables(
    byAddr: map<SocketAddr, nat>,
    provisional: map<SocketAddr, set<nat>>,
    byUfrag: map<string, nat>)

  /** A registered session: its fragment, the address it has claimed and, before that, the addresses it sent to. */
  datatype Session = Session(ufrag: string, remoteAddr: Option<SocketAddr>, sentTo: set<SocketAddr>)

  /** `live` holds the sessions; `newest` remembers the latest session registered under each fragment. */
  datatype State = State(nextId: nat, senders: set<nat>, tables: Tables, live: map<nat, Session>, newest: map<string, nat>)

  datatype Step = Register(ufrag: string) | SendTo(id: nat, to: SocketAddr) | Claim(id: nat, addr: SocketAddr) | Drop(id: nat)

  function Canonical(addr: SocketAddr): SocketAddr {
    NewAddr(Normalize(addr.ip), addr.port)
  }

  // ---- the tables ----

  function Route(t: Tables, from: SocketAddr, d: Datagram): set<nat> {
    var a := Canonical(from);
    if a in t.byAddr then {t.byAddr[a]}
    else if !d.isStun then {}
    else if d.localUfrag.Some? && d.localUfrag.value in t.byUfrag then {t.byUfrag[d.localUfrag.value]}
    else if a in t.provisional then t.provisional[a]
    else {}
  }

  function RegisterUfrag(t: Tables, ufrag: string, id: nat): Tables {
    t.(byUfrag := t.byUfrag[ufrag := id])
  }

  /** The first session to claim an address keeps it. */
  function ClaimAddr(t: Tables, addr: SocketAddr, id: nat): (Tables, bool) {
    var a := Canonical(addr);
    if a in t.byAddr then (t, t.byAddr[a] == id) else (t.(byAddr := t.byAddr[a := id]), true)
  }

  function NoteSent(t: Tables, addr: SocketAddr, id: nat): Tables {
    var a := Canonical(addr);
    t.(provisional := t.provisional[a := (if a in t.provisional then t.provisional[a] else {}) + {id}])
  }

  function Release(t: Tables, id: nat, ufrag: string, addr: Option<SocketAddr>): Tables {
    var byUfrag := if ufrag in t.byUfrag && t.byUfrag[ufrag] == id then t.byUfrag - {ufrag} else t.byUfrag;
    var byAddr :=
      if addr.Some? && Canonical(addr.value) in t.byAddr && t.byAddr[Canonical(addr.value)] == id
      then t.byAddr - {Canonical(addr.value)} else t.byAddr;
    Tables(byAddr,
           map a | a in t.provisional && t.provisional[a] - {id} != {} :: t.provisional[a] - {id},
           byUfrag)
  }

  // ---- runs ----

  const EMPTY: State := State(0, {}, Tables(map[], map[], map[]), map[], map[])

  /** A step of a session that is not registered (any more) cannot happen and is skipped. */
  function Next(s: State, step: Step): State {
    match step
    case Register(ufrag) =>
      State(s.nextId + 1, s.senders + {s.nextId}, RegisterUfrag(s.tables, ufrag, s.nextId),
            s.live[s.nextId := Session(ufrag, None, {})], s.newest[ufrag := s.nextId])
    case SendTo(id, to) =>
      if id !in s.live || s.live[id].remoteAddr.Some? then s
      else
        s.(tables := NoteSent(s.tables, to, id),
           live := s.live[id := s.live[id].(sentTo := s.live[id].sentTo + {Canonical(to)})])
    case Claim(id, addr) =>
      if id !in s.live || s.live[id].remoteAddr.Some? then s
      else
        var (tables, owned) := ClaimAddr(s.tables, addr, id);
        if owned then s.(tables := tables, live := s.live[id := s.live[id].(remoteAddr := Some(addr))])
        else s.(tables := tables)
    case Drop(id) =>
      if id !in s.live then s
      else
        s.(senders := s.senders - {id}, live := s.live - {id},
           tables := Release(s.tables, id, s.live[id].ufrag, s.live[id].remoteAddr))
  }

  function Run(steps: seq<Step>): State {
    if steps == [] then EMPTY else Next(Run(steps[..|steps| - 1]), steps[|steps| - 1])
  }

  lemma RunSnoc(steps: seq<Step>, step: Step)
    ensures Run(steps + [step]) == Next(Run(steps), step)
  {
    assert (steps + [step])[..|steps|] == steps;
  }

  // ---- the reference: scan the live sessions ----

  ghost function Owners(s: State, a: SocketAddr): set<nat> {
    set id | id in s.live && s.live[id].remoteAddr.Some? && Canonical(s.live[id].remoteAddr.value) == a
  }

  ghost function SentTo(s: State, a: SocketAddr): set<nat> {
    set id | id in s.live && a in s.live[id].sentTo
  }

  ghost function Named(s: State, ufrag: string): set<nat> {
    set id | id in s.live && s.live[id].ufrag == ufrag
  }

  /** Of the sessions with this fragment, the one registered last, if it is still live. */
  ghost function NamedLast(s: State, ufrag: string): set<nat> {
    set id | id in s.live && s.live[id].ufrag == ufrag && ufrag in s.newest && s.newest[ufrag] == id
  }

  ghost function Scan(s: State, from: SocketAddr, d: Datagram, named: set<nat>): set<nat> {
    var a := Canonical(from);
    if Owners(s, a) != {} then Owners(s, a)
    else if !d.isStun then {}
    else if d.localUfrag.Some? && named != {} then named
    else SentTo(s, a)
  }

  /** The owner of the address; else, for STUN, the session the fragment names; else every session that sent there. */
  ghost function NaiveRoute(s: State, from: SocketAddr, d: Datagram): set<nat> {
    Scan(s, from, d, if d.localUfrag.Some? then Named(s, d.localUfrag.value) else {})
  }

  // ---- what every step keeps ----

  ghost predicate AddrsOk(s: State) {
    && (forall a | a in s.tables.byAddr :: s.tables.byAddr[a] in Owners(s, a))
    && (forall id | id in s.live && s.live[id].remoteAddr.Some? ::
          var a := Canonical(s.live[id].remoteAddr.value);
          a in s.tables.byAddr && s.tables.byAddr[a] == id)
  }

  ghost predicate ProvisionalOk(s: State) {
    && (forall a | a in s.tables.provisional :: s.tables.provisional[a] == SentTo(s, a) != {})
    && (forall id, a | id in s.live && a in s.live[id].sentTo :: a in s.tables.provisional)
  }

  ghost predicate UfragsOk(s: State) {
    && (forall u | u in s.tables.byUfrag :: s.tables.byUfrag[u] in NamedLast(s, u))
    && (forall id | id in s.live ::
          && s.live[id].ufrag in s.newest
          && (s.newest[s.live[id].ufrag] == id ==> s.live[id].ufrag in s.tables.byUfrag))
  }

  ghost predicate Inv(s: State) {
    && s.senders == s.live.Keys
    && (forall id | id in s.live :: id < s.nextId)
    && AddrsOk(s)
    && ProvisionalOk(s)
    && UfragsOk(s)
  }

  lemma RegisterUfrags(s: State, ufrag: string)
    requires Inv(s)
    ensures UfragsOk(Next(s, Register(ufrag)))
  {
    var s' := Next(s, Register(ufrag));
    forall u | u in s'.tables.byUfrag
      ensures s'.tables.byUfrag[u] in NamedLast(s', u)
    {
      if u != ufrag {
        assert s.tables.byUfrag[u] in NamedLast(s, u);
      }
    }
  }

  lemma RegisterInv(s: State, ufrag: string)
    requires Inv(s)
    ensures Inv(Next(s, Register(ufrag)))
  {
    hide UfragsOk;
    var s' := Next(s, Register(ufrag));
    RegisterUfrags(s, ufrag);
    forall a
      ensures SentTo(s', a) == SentTo(s, a)
      ensures Owners(s', a) == Owners(s, a)
    {
    }
  }

  lemma SendToProvisional(s: State, id: nat, to: SocketAddr)
    requires Inv(s) && id in s.live && s.live[id].remoteAddr.None?
    ensures ProvisionalOk(Next(s, SendTo(id, to)))
  {
    hide UfragsOk, AddrsOk;
    var s' := Next(s, SendTo(id, to));
    forall a
      ensures SentTo(s', a) == if a == Canonical(to) then SentTo(s, a) + {id} else SentTo(s, a)
    {
    }
    assert Canonical(to) !in s.tables.provisional ==> SentTo(s, Canonical(to)) == {};
  }

  lemma SendToInv(s: State, id: nat, to: SocketAddr)
    requires Inv(s)
    ensures Inv(Next(s, SendTo(id, to)))
  {
    hide ProvisionalOk;
    var s' := Next(s, SendTo(id, to));
    if s' != s {
      SendToProvisional(s, id, to);
      forall a
        ensures Owners(s', a) == Owners(s, a)
      {
      }
      forall u
        ensures NamedLast(s', u) == NamedLast(s, u)
      {
      }
    }
  }

  lemma ClaimInv(s: State, id: nat, addr: SocketAddr)
    requires Inv(s)
    ensures Inv(Next(s, Claim(id, addr)))
  {
    var s' := Next(s, Claim(id, addr));
    if s' != s {
      forall a
        ensures SentTo(s', a) == SentTo(s, a)
      {
      }
      forall u
        ensures NamedLast(s', u) == NamedLast(s, u)
      {
      }
      forall a | a in s'.tables.byAddr
        ensures s'.tables.byAddr[a] in Owners(s', a)
      {
        if a != Canonical(addr) {
          assert s.tables.byAddr[a] in Owners(s, a);
        }
      }
    }
  }

  lemma DropInv(s: State, id: nat)
    requires Inv(s)
    ensures Inv(Next(s, Drop(id)))
  {
    var s' := Next(s, Drop(id));
    if s' != s {
      forall a
        ensures SentTo(s', a) == SentTo(s, a) - {id}
        ensures Owners(s', a) == Owners(s, a) - {id}
      {
      }
      forall u
        ensures NamedLast(s', u) == NamedLast(s, u) - {id}
      {
      }
      forall a | a in s'.tables.byAddr
        ensures s'.tables.byAddr[a] in Owners(s', a)
      {
        assert s.tables.byAddr[a] in Owners(s, a);
      }
      forall u | u in s'.tables.byUfrag
        ensures s'.tables.byUfrag[u] in NamedLast(s', u)
      {
        assert s.tables.byUfrag[u] in NamedLast(s, u);
      }
      forall other, a | other in s'.live && a in s'.live[other].sentTo
        ensures a in s'.tables.provisional
      {
        assert other in SentTo(s, a) - {id};
      }
    }
  }

  lemma NextInv(s: State, step: Step)
    requires Inv(s)
    ensures Inv(Next(s, step))
  {
    match step
    case Register(ufrag) => RegisterInv(s, ufrag);
    case SendTo(id, to) => SendToInv(s, id, to);
    case Claim(id, addr) => ClaimInv(s, id, addr);
    case Drop(id) => DropInv(s, id);
  }

  lemma {:induction false} RunInv(steps: seq<Step>)
    ensures Inv(Run(steps))
  {
    hide Next;
    if steps != [] {
      RunInv(steps[..|steps| - 1]);
      NextInv(Run(steps[..|steps| - 1]), steps[|steps| - 1]);
    }
  }

  // ---- the results ----

  lemma OneOwner(s: State, a: SocketAddr)
    requires Inv(s)
    ensures Owners(s, a) == if a in s.tables.byAddr then {s.tables.byAddr[a]} else {}
  {
  }

  lemma OneNamed(s: State, u: string)
    requires Inv(s)
    ensures NamedLast(s, u) == if u in s.tables.byUfrag then {s.tables.byUfrag[u]} else {}
  {
    if u in s.tables.byUfrag {
      assert s.tables.byUfrag[u] in NamedLast(s, u);
    }
  }

  /** After any interleaving of steps the three tables route every datagram as a scan of the live sessions does,
      where among sessions of one fragment only the last registered answers to it. */
  lemma RoutesLikeScan(steps: seq<Step>, from: SocketAddr, d: Datagram)
    ensures var s := Run(steps);
            Route(s.tables, from, d) ==
            Scan(s, from, d, if d.localUfrag.Some? then NamedLast(s, d.localUfrag.value) else {})
  {
    var s := Run(steps);
    RunInv(steps);
    OneOwner(s, Canonical(from));
    if d.localUfrag.Some? {
      OneNamed(s, d.localUfrag.value);
    }
    assert Canonical(from) !in s.tables.provisional ==> SentTo(s, Canonical(from)) == {};
  }

  /** No live session's fragment has been registered again since. */
  ghost predicate FragmentsUnique(s: State) {
    forall id | id in s.live :: s.live[id].ufrag in s.newest && s.newest[s.live[id].ufrag] == id
  }

  /** Every fragment registered is one no live session uses. */
  ghost predicate RegistersFresh(steps: seq<Step>) {
    forall k | 0 <= k < |steps| && steps[k].Register? :: Named(Run(steps[..k]), steps[k].ufrag) == {}
  }

  lemma {:induction false} FreshKeepsUnique(steps: seq<Step>)
    requires RegistersFresh(steps)
    ensures FragmentsUnique(Run(steps))
  {
    if steps != [] {
      var init := steps[..|steps| - 1];
      assert forall k | 0 <= k < |init| :: init[..k] == steps[..k];
      FreshKeepsUnique(init);
      var s, step := Run(init), steps[|steps| - 1];
      if step.Register? {
        forall id | id in s.live
          ensures s.live[id].ufrag != step.ufrag
        {
          assert id !in Named(s, step.ufrag);
        }
      }
    }
  }

  /** With fragments that are distinct among live sessions, routing is the plain scan. */
  lemma RoutesLikeNaiveScan(steps: seq<Step>, from: SocketAddr, d: Datagram)
    requires RegistersFresh(steps)
    ensures Route(Run(steps).tables, from, d) == NaiveRoute(Run(steps), from, d)
  {
    var s := Run(steps);
    RoutesLikeScan(steps, from, d);
    FreshKeepsUnique(steps);
    if d.localUfrag.Some? {
      assert NamedLast(s, d.localUfrag.value) == Named(s, d.localUfrag.value);
    }
  }

  /** Live sessions whose fragment has been registered again since. */
  ghost function Superseded(s: State, ufrag: string): set<nat> {
    Named(s, ufrag) - NamedLast(s, ufrag)
  }

  /** Exactly when, datagram by datagram: routing is the plain scan unless a STUN request from an address nobody has
      claimed names a fragment with a superseded session; and then only if the last session of that fragment is gone and
      the superseded ones are the very sessions that sent to the address. */
  lemma NaiveScanExactlyWhen(steps: seq<Step>, from: SocketAddr, d: Datagram)
    ensures var s := Run(steps); var a := Canonical(from);
            Route(s.tables, from, d) == NaiveRoute(s, from, d) <==>
              || Owners(s, a) != {} || !d.isStun || d.localUfrag.None?
              || Superseded(s, d.localUfrag.value) == {}
              || (NamedLast(s, d.localUfrag.value) == {} && SentTo(s, a) == Superseded(s, d.localUfrag.value))
  {
    hide Route, Run;
    RoutesLikeScan(steps, from, d);
    var s := Run(steps);
    if d.localUfrag.Some? {
      var u := d.localUfrag.value;
      assert NamedLast(s, u) <= Named(s, u);
      if Superseded(s, u) == {} {
        assert forall id | id in Named(s, u) :: id !in Superseded(s, u);
        assert Named(s, u) == NamedLast(s, u);
      }
      assert NamedLast(s, u) == {} ==> Superseded(s, u) == Named(s, u);
    }
  }

  /** All fragments at once: from an address no session has sent to or claimed, a STUN request is routed like the plain scan
      for every fragment if and only if no live session's fragment has been registered again. */
  lemma NaiveScanExactlyWhenUnique(steps: seq<Step>, from: SocketAddr)
    requires Owners(Run(steps), Canonical(from)) == {} && SentTo(Run(steps), Canonical(from)) == {}
    ensures (forall u :: Route(Run(steps).tables, from, Datagram(true, Some(u)))
                      == NaiveRoute(Run(steps), from, Datagram(true, Some(u))))
            <==> FragmentsUnique(Run(steps))
  {
    var s := Run(steps);
    RunInv(steps);
    forall u
      ensures Route(s.tables, from, Datagram(true, Some(u))) == NamedLast(s, u)
      ensures NaiveRoute(s, from, Datagram(true, Some(u))) == Named(s, u)
    {
      RoutesLikeScan(steps, from, Datagram(true, Some(u)));
    }
    if FragmentsUnique(s) {
      forall u
        ensures NamedLast(s, u) == Named(s, u)
      {
      }
    } else {
      var id :| id in s.live && s.newest[s.live[id].ufrag] != id;
      var u := s.live[id].ufrag;
      assert id in Named(s, u) && id !in NamedLast(s, u);
    }
  }

  /** Registering a fragment in use and dropping the newcomer leaves the first session unreachable by its fragment. */
  lemma ReusedFragmentIsLost(u: string, from: SocketAddr)
    ensures var s := Run([Register(u), Register(u), Drop(1)]);
            var d := Datagram(true, Some(u));
            NaiveRoute(s, from, d) == {0} && Route(s.tables, from, d) == {}
  {
    RunSnoc([], Register(u));
    RunSnoc([Register(u)], Register(u));
    RunSnoc([Register(u), Register(u)], Drop(1));
    assert [] + [Register(u)] == [Register(u)];
    assert [Register(u)] + [Register(u)] == [Register(u), Register(u)];
    assert [Register(u), Register(u)] + [Drop(1)] == [Register(u), Register(u), Drop(1)];
    var s := Run([Register(u), Register(u), Drop(1)]);
    assert s == Next(Next(Next(EMPTY, Register(u)), Register(u)), Drop(1));
    assert Owners(s, Canonical(from)) == {};
    assert Named(s, u) == {0};
  }

  /** A dropped session is left in no table. */
  lemma DroppedIsGone(steps: seq<Step>, id: nat)
    requires id !in Run(steps).live
    ensures var t := Run(steps).tables;
            && id !in Run(steps).senders
            && (forall a | a in t.byAddr :: t.byAddr[a] != id)
            && (forall a | a in t.provisional :: id !in t.provisional[a])
            && (forall u | u in t.byUfrag :: t.byUfrag[u] != id)
  {
    var s := Run(steps);
    RunInv(steps);
    forall a | a in s.tables.byAddr
      ensures s.tables.byAddr[a] != id
    {
      assert s.tables.byAddr[a] in Owners(s, a);
    }
    forall u | u in s.tables.byUfrag
      ensures s.tables.byUfrag[u] != id
    {
      assert s.tables.byUfrag[u] in NamedLast(s, u);
    }
  }

  // ---- one peer, two spellings ----

  /** The router takes two socket addresses for one exactly when port and host are the same; flow and scope do not count. */
  lemma SamePeerExactly(a: SocketAddr, b: SocketAddr)
    ensures Canonical(a) == Canonical(b) <==> a.port == b.port && SameHost(a.ip, b.ip)
  {
    hide Normalize;
    NormalizeExactly(a.ip, b.ip);
  }

  /** After every run a session that claimed an address gets, alone, every datagram from it, in whichever form the socket
      reports the peer. */
  lemma ClaimedHearsBothForms(steps: seq<Step>, id: nat, from: SocketAddr, d: Datagram)
    requires id in Run(steps).live && Run(steps).live[id].remoteAddr.Some?
    requires var claimed := Run(steps).live[id].remoteAddr.value; claimed.port == from.port && SameHost(claimed.ip, from.ip)
    ensures Route(Run(steps).tables, from, d) == {id}
  {
    hide Run, Normalize, Inv, SameHost;
    var s := Run(steps);
    RunInv(steps);
    SamePeerExactly(s.live[id].remoteAddr.value, from);
    OneOwner(s, Canonical(from));
    assert id in Owners(s, Canonical(from));
  }

  /** Likewise a session that sent to an address nobody has claimed gets what comes back from it without the fragment of
      a session. */
  lemma SentHearsBothForms(steps: seq<Step>, id: nat, from: SocketAddr, to: SocketAddr, d: Datagram)
    requires id in Run(steps).live && Canonical(to) in Run(steps).live[id].sentTo
    requires to.port == from.port && SameHost(to.ip, from.ip) && Owners(Run(steps), Canonical(from)) == {}
    requires d.isStun && (d.localUfrag.Some? ==> d.localUfrag.value !in Run(steps).tables.byUfrag)
    ensures id in Route(Run(steps).tables, from, d)
  {
    hide Run, Normalize, Inv, SameHost;
    var s := Run(steps);
    SamePeerExactly(to, from);
    RoutesLikeScan(steps, from, d);
    RunInv(steps);
    if d.localUfrag.Some? {
      OneNamed(s, d.localUfrag.value);
    }
    assert id in SentTo(s, Canonical(from));
  }

  // ---- what each step does ----

  /** Registering adds a new session under its fragment; sending and claiming work on a session that has not claimed
      yet, and a claim succeeds exactly when no other session holds the address; dropping takes out that session alone. */
  lemma StepsExactly(s: State, step: Step)
    requires Inv(s)
    ensures var s' := Next(s, step);
            match step
            case Register(ufrag) =>
              && s.nextId !in s.live && s'.nextId == s.nextId + 1 && s'.senders == s.senders + {s.nextId}
              && s'.live == s.live[s.nextId := Session(ufrag, None, {})]
            case SendTo(id, to) =>
              if id in s.live && s.live[id].remoteAddr.None? then
                s'.live == s.live[id := Session(s.live[id].ufrag, None, s.live[id].sentTo + {Canonical(to)})]
              else s' == s
            case Claim(id, addr) =>
              if id in s.live && s.live[id].remoteAddr.None? && Owners(s, Canonical(addr)) == {} then
                s'.live == s.live[id := Session(s.live[id].ufrag, Some(addr), s.live[id].sentTo)]
              else s'.live == s.live
            case Drop(id) =>
              && s'.live.Keys == s.live.Keys - {id} && s'.senders == s.senders - {id}
              && forall other | other in s'.live :: s'.live[other] == s.live[other]
  {
    hide Canonical;
    if step.Claim? {
      OneOwner(s, Canonical(step.addr));
    }
  }
}
