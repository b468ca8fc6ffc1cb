/** The thread that drives the sessions of the Bevy plugin (`SessionPool` of `connection.rs`): what it sends to the
    plugin about each session.

    The socket, the commands that only feed a session and the sessions themselves are the surroundings: each pass is
    given the order in which the sessions are visited and what polling each of them yields. `added` numbers the
    sessions, so that one stays apart from a later one under the same id; `polled` is everything ever polled and
    `sent` everything ever sent. The numbers and the logs are not read by a step. */
module SessionPool {
  import opened Std
  import C = HttpClient
  import S = Session

  /** Output: an event or a wait of the session. Rtt: the round-trip time, reported after the outputs. */
  datatype Item = Output(output: S.Output) | Message | Datagram | Rtt

  datatype Polled = Polled(id: nat, session: nat, item: Item)

  datatype Sent = Sent(id: nat, session: nat, event: C.PoolEvent)

  datatype Visit = Visit(id: nat, outputs: seq<Item>, rtt: bool)

  datatype Step = Add(id: nat) | Remove(id: nat) | Pass(visits: seq<Visit>)

  datatype Pool = Pool(entries: map<nat, nat>, added: nat, polled: seq<Polled>, sent: seq<Sent>)

  const EMPTY := Pool(map[], 0, [], [])

  /** What is sent at once; a failure is only noted. */
  function AtOnce(item: Item): Option<C.PoolEvent> {
    match item
    case Output(o) => if o.Ready? then Some(C.Ready) else None
    case Datagram => None
    case Message => Some(C.Other)
    case Rtt => Some(C.Other)
  }

  function Noted(item: Item): Option<C.PoolEvent> {
    if item == Output(S.Failed) then Some(C.Failed) else None
  }

  function Event(e: Option<C.PoolEvent>): seq<C.PoolEvent> {
    if e.Some? then [e.value] else []
  }

  function Told(x: Polled, e: Option<C.PoolEvent>): seq<Sent> {
    if e.Some? then [Sent(x.id, x.session, e.value)] else []
  }

  function Forwarded(polled: seq<Polled>): seq<Sent> {
    if polled == [] then []
    else Forwarded(polled[..|polled| - 1]) + Told(polled[|polled| - 1], AtOnce(polled[|polled| - 1].item))
  }

  function Failures(polled: seq<Polled>): seq<Sent> {
    if polled == [] then []
    else Failures(polled[..|polled| - 1]) + Told(polled[|polled| - 1], Noted(polled[|polled| - 1].item))
  }

  function Items(visit: Visit): seq<Item> {
    visit.outputs + if visit.rtt then [Rtt] else []
  }

  function Walk(entries: map<nat, nat>, visits: seq<Visit>): seq<Polled> {
    if visits == [] then []
    else
      var last := visits[|visits| - 1];
      Walk(entries, visits[..|visits| - 1])
      + if last.id in entries then Tagged(last.id, entries[last.id], Items(last)) else []
  }

  function Tagged(id: nat, session: nat, items: seq<Item>): (tagged: seq<Polled>)
    ensures forall x | x in tagged :: x.id == id && x.session == session
  {
    if items == [] then [] else Tagged(id, session, items[..|items| - 1]) + [Polled(id, session, items[|items| - 1])]
  }

  function Ids(sent: seq<Sent>): (ids: set<nat>)
    ensures forall x | x in sent :: x.id in ids
  {
    if sent == [] then {} else Ids(sent[..|sent| - 1]) + {sent[|sent| - 1].id}
  }

  /** A pass in which `walk` was polled. */
  function Passing(p: Pool, walk: seq<Polled>): Pool {
    Pool(p.entries - Ids(Failures(walk)), p.added, p.polled + walk, p.sent + Forwarded(walk) + Failures(walk))
  }

  function Next(p: Pool, step: Step): Pool {
    match step
    case Add(id) => p.(entries := p.entries[id := p.added], added := p.added + 1)
    case Remove(id) => p.(entries := p.entries - {id})
    case Pass(visits) => Passing(p, Walk(p.entries, visits))
  }

  function Run(steps: seq<Step>): Pool {
    if steps == [] then EMPTY else Next(Run(steps[..|steps| - 1]), steps[|steps| - 1])
  }

  // ---- what concerns one session ----

  function About(sent: seq<Sent>, n: nat): seq<C.PoolEvent> {
    if sent == [] then []
    else About(sent[..|sent| - 1], n) + if sent[|sent| - 1].session == n then [sent[|sent| - 1].event] else []
  }

  function From(polled: seq<Polled>, n: nat): seq<Item> {
    if polled == [] then []
    else From(polled[..|polled| - 1], n) + if polled[|polled| - 1].session == n then [polled[|polled| - 1].item] else []
  }

  function Passed(items: seq<Item>): seq<C.PoolEvent> {
    if items == [] then [] else Passed(items[..|items| - 1]) + Event(AtOnce(items[|items| - 1]))
  }

  function Ends(items: seq<Item>): seq<C.PoolEvent> {
    if items == [] then [] else Ends(items[..|items| - 1]) + Event(Noted(items[|items| - 1]))
  }

  lemma Nothing(n: nat)
    ensures About([], n) == [] && From([], n) == [] && Passed([]) == [] && Ends([]) == []
    ensures Forwarded([]) == [] && Failures([]) == []
    ensures forall id :: Tagged(id, n, []) == []
  {
  }

  lemma AboutSnoc(sent: seq<Sent>, x: Sent, n: nat)
    ensures About(sent + [x], n) == About(sent, n) + if x.session == n then [x.event] else []
  {
    assert (sent + [x])[..|sent|] == sent;
  }

  lemma FromSnoc(polled: seq<Polled>, x: Polled, n: nat)
    ensures From(polled + [x], n) == From(polled, n) + if x.session == n then [x.item] else []
  {
    assert (polled + [x])[..|polled|] == polled;
  }

  lemma ItemSnoc(items: seq<Item>, item: Item)
    ensures Passed(items + [item]) == Passed(items) + Event(AtOnce(item))
    ensures Ends(items + [item]) == Ends(items) + Event(Noted(item))
  {
    assert (items + [item])[..|items|] == items;
  }

  lemma PolledSnoc(polled: seq<Polled>, x: Polled)
    ensures Forwarded(polled + [x]) == Forwarded(polled) + Told(x, AtOnce(x.item))
    ensures Failures(polled + [x]) == Failures(polled) + Told(x, Noted(x.item))
  {
    assert (polled + [x])[..|polled|] == polled;
  }

  lemma {:induction false} AboutJoins(a: seq<Sent>, b: seq<Sent>, n: nat)
    ensures About(a + b, n) == About(a, n) + About(b, n)
  {
    hide *;
    if b == [] {
      Nothing(n);
      assert a + b == a && About(a, n) + [] == About(a, n);
    } else {
      var (init, last) := (b[..|b| - 1], b[|b| - 1]);
      AboutJoins(a, init, n);
      AboutSnoc(a + init, last, n);
      AboutSnoc(init, last, n);
      assert a + init + [last] == a + b && init + [last] == b;
      var more := if last.session == n then [last.event] else [];
      assert About(a, n) + About(init, n) + more == About(a, n) + (About(init, n) + more);
    }
  }

  lemma {:induction false} FromJoins(a: seq<Polled>, b: seq<Polled>, n: nat)
    ensures From(a + b, n) == From(a, n) + From(b, n)
  {
    hide *;
    if b == [] {
      Nothing(n);
      assert a + b == a && From(a, n) + [] == From(a, n);
    } else {
      var (init, last) := (b[..|b| - 1], b[|b| - 1]);
      FromJoins(a, init, n);
      FromSnoc(a + init, last, n);
      FromSnoc(init, last, n);
      assert a + init + [last] == a + b && init + [last] == b;
      var more := if last.session == n then [last.item] else [];
      assert From(a, n) + From(init, n) + more == From(a, n) + (From(init, n) + more);
    }
  }

  lemma {:induction false} PassedJoins(a: seq<Item>, b: seq<Item>)
    ensures Passed(a + b) == Passed(a) + Passed(b)
  {
    hide *;
    if b == [] {
      Nothing(0);
      assert a + b == a && Passed(a) + [] == Passed(a);
    } else {
      var (init, last) := (b[..|b| - 1], b[|b| - 1]);
      PassedJoins(a, init);
      ItemSnoc(a + init, last);
      ItemSnoc(init, last);
      assert a + init + [last] == a + b && init + [last] == b;
      var more := Event(AtOnce(last));
      assert Passed(a) + Passed(init) + more == Passed(a) + (Passed(init) + more);
    }
  }

  lemma {:induction false} EndsJoin(a: seq<Item>, b: seq<Item>)
    ensures Ends(a + b) == Ends(a) + Ends(b)
  {
    hide *;
    if b == [] {
      Nothing(0);
      assert a + b == a && Ends(a) + [] == Ends(a);
    } else {
      var (init, last) := (b[..|b| - 1], b[|b| - 1]);
      EndsJoin(a, init);
      ItemSnoc(a + init, last);
      ItemSnoc(init, last);
      assert a + init + [last] == a + b && init + [last] == b;
      var more := Event(Noted(last));
      assert Ends(a) + Ends(init) + more == Ends(a) + (Ends(init) + more);
    }
  }

  lemma {:induction false} ForwardedJoins(a: seq<Polled>, b: seq<Polled>)
    ensures Forwarded(a + b) == Forwarded(a) + Forwarded(b)
  {
    hide *;
    if b == [] {
      Nothing(0);
      assert a + b == a && Forwarded(a) + [] == Forwarded(a);
    } else {
      var (init, last) := (b[..|b| - 1], b[|b| - 1]);
      ForwardedJoins(a, init);
      PolledSnoc(a + init, last);
      PolledSnoc(init, last);
      assert a + init + [last] == a + b && init + [last] == b;
      var more := Told(last, AtOnce(last.item));
      assert Forwarded(a) + Forwarded(init) + more == Forwarded(a) + (Forwarded(init) + more);
    }
  }

  lemma {:induction false} FailuresJoin(a: seq<Polled>, b: seq<Polled>)
    ensures Failures(a + b) == Failures(a) + Failures(b)
  {
    hide *;
    if b == [] {
      Nothing(0);
      assert a + b == a && Failures(a) + [] == Failures(a);
    } else {
      var (init, last) := (b[..|b| - 1], b[|b| - 1]);
      FailuresJoin(a, init);
      PolledSnoc(a + init, last);
      PolledSnoc(init, last);
      assert a + init + [last] == a + b && init + [last] == b;
      var more := Told(last, Noted(last.item));
      assert Failures(a) + Failures(init) + more == Failures(a) + (Failures(init) + more);
    }
  }

  lemma AboutTold(x: Polled, e: Option<C.PoolEvent>, n: nat)
    ensures About(Told(x, e), n) == if x.session == n then Event(e) else []
  {
    if e.Some? {
      assert Told(x, e)[..0] == [];
    }
  }

  /** Of each session the pass sends what its own items ask for. */
  lemma {:induction false} OwnItems(walk: seq<Polled>, n: nat)
    ensures About(Forwarded(walk), n) == Passed(From(walk, n))
    ensures About(Failures(walk), n) == Ends(From(walk, n))
  {
    hide AtOnce, Noted, Told, Event, About;
    if walk == [] {
      Nothing(n);
    } else {
      var (init, last) := (walk[..|walk| - 1], walk[|walk| - 1]);
      OwnItems(init, n);
      AboutTold(last, AtOnce(last.item), n);
      AboutTold(last, Noted(last.item), n);
      AboutJoins(Forwarded(init), Told(last, AtOnce(last.item)), n);
      AboutJoins(Failures(init), Told(last, Noted(last.item)), n);
      if last.session == n {
        ItemSnoc(From(init, n), last.item);
      } else {
        assert From(walk, n) == From(init, n);
      }
    }
  }

  /** Readiness, messages and round-trip times are forwarded. */
  predicate IsForwarded(item: Item) {
    item == Output(S.Ready) || item == Message || item == Rtt
  }

  predicate IsFailure(item: Item) {
    item == Output(S.Failed)
  }

  /** What is sent for a list of items: readiness as such, messages and round-trip times as other events, in order; and
      one failure for each. */
  lemma {:induction false} SentExactly(items: seq<Item>)
    ensures var (passed, kept) := (Passed(items), Keep(items, IsForwarded));
            && |passed| == |kept|
            && forall i | 0 <= i < |kept| :: passed[i] == if kept[i] == Output(S.Ready) then C.Ready else C.Other
    ensures var (ends, kept) := (Ends(items), Keep(items, IsFailure));
            |ends| == |kept| && forall i | 0 <= i < |ends| :: ends[i] == C.Failed
  {
    if items != [] {
      SentExactly(items[..|items| - 1]);
    }
  }

  // ---- runs ----

  ghost predicate Live(p: Pool, n: nat) {
    exists id :: id in p.entries && p.entries[id] == n
  }

  /** Ids name different sessions, all of them added before. */
  ghost predicate Numbered(p: Pool) {
    && (forall id | id in p.entries :: p.entries[id] < p.added)
    && (forall id, other | id in p.entries && other in p.entries && p.entries[id] == p.entries[other] :: id == other)
  }

  /** What was sent about a session: all its items ask for, and its failures last; it is dropped once it failed. */
  ghost predicate InFull(p: Pool, n: nat) {
    var items := From(p.polled, n);
    && About(p.sent, n) == Passed(items) + Ends(items)
    && (Live(p, n) ==> Ends(items) == [])
    && (n >= p.added ==> items == [])
  }

  lemma {:induction false} WalkIsLive(entries: map<nat, nat>, visits: seq<Visit>)
    ensures forall x | x in Walk(entries, visits) :: x.id in entries && x.session == entries[x.id]
  {
    if visits != [] {
      WalkIsLive(entries, visits[..|visits| - 1]);
    }
  }

  lemma {:induction false} FromNobody(walk: seq<Polled>, n: nat)
    requires forall x | x in walk :: x.session != n
    ensures From(walk, n) == []
  {
    if walk != [] {
      FromNobody(walk[..|walk| - 1], n);
    }
  }

  lemma {:induction false} SomeAbout(sent: seq<Sent>, n: nat)
    requires About(sent, n) != []
    ensures exists x | x in sent :: x.session == n
  {
    if sent[|sent| - 1].session == n {
      assert sent[|sent| - 1] in sent;
    } else {
      SomeAbout(sent[..|sent| - 1], n);
    }
  }

  lemma {:induction false} FailuresWerePolled(walk: seq<Polled>, f: Sent)
    requires f in Failures(walk)
    ensures exists x | x in walk :: x.id == f.id && x.session == f.session
  {
    var (init, last) := (walk[..|walk| - 1], walk[|walk| - 1]);
    if f in Failures(init) {
      FailuresWerePolled(init, f);
    } else {
      assert last in walk;
    }
  }

  lemma PassInFull(p: Pool, walk: seq<Polled>, n: nat)
    requires Numbered(p) && InFull(p, n)
    requires forall x | x in walk :: x.id in p.entries && x.session == p.entries[x.id]
    ensures InFull(Passing(p, walk), n)
  {
    hide Forwarded, Failures, About, From, Passed, Ends, Ids;
    var p' := Passing(p, walk);
    var (before, now) := (From(p.polled, n), From(walk, n));
    FromJoins(p.polled, walk, n);
    PassedJoins(before, now);
    EndsJoin(before, now);
    OwnItems(walk, n);
    AboutJoins(p.sent, Forwarded(walk), n);
    AboutJoins(p.sent + Forwarded(walk), Failures(walk), n);
    if !Live(p, n) {
      FromNobody(walk, n);
      Nothing(n);
    } else {
      var id :| id in p.entries && p.entries[id] == n;
      if Ends(now) != [] {
        SomeAbout(Failures(walk), n);
        var f :| f in Failures(walk) && f.session == n;
        FailuresWerePolled(walk, f);
        assert f.id == id && id !in p'.entries;
      }
    }
  }

  lemma StepInFull(p: Pool, step: Step, n: nat)
    requires Numbered(p) && InFull(p, n)
    ensures Numbered(Next(p, step)) && InFull(Next(p, step), n)
  {
    hide Walk, Forwarded, Failures, About, From, Passed, Ends;
    Nothing(n);
    match step
    case Add(id) =>
      var p' := Next(p, step);
      if Live(p', n) && n != p.added {
        assert Live(p, n);
      }
    case Remove(id) =>
      assert Live(Next(p, step), n) ==> Live(p, n);
    case Pass(visits) =>
      WalkIsLive(p.entries, visits);
      PassInFull(p, Walk(p.entries, visits), n);
  }

  lemma EmptyInFull(n: nat)
    ensures InFull(EMPTY, n)
  {
  }

  /** In every run of the pool, about every session: each of its readiness, messages and round-trip times is sent, in
      order, then one failure for each it reported, and nothing after. */
  lemma {:induction false} PoolDelivers(steps: seq<Step>, n: nat)
    ensures Numbered(Run(steps)) && InFull(Run(steps), n)
  {
    hide Next, InFull;
    if steps == [] {
      EmptyInFull(n);
    } else {
      PoolDelivers(steps[..|steps| - 1], n);
      StepInFull(Run(steps[..|steps| - 1]), steps[|steps| - 1], n);
    }
  }

  // ---- the thread and the handle that takes its events ----

  lemma TaggedSnoc(id: nat, session: nat, items: seq<Item>, item: Item)
    ensures var before := Tagged(id, session, items);
            var after := Tagged(id, session, items + [item]);
            && Forwarded(after) == Forwarded(before) + Told(Polled(id, session, item), AtOnce(item))
            && Failures(after) == Failures(before) + Told(Polled(id, session, item), Noted(item))
  {
    hide AtOnce, Noted, Told;
    var before := Tagged(id, session, items);
    assert (items + [item])[..|items|] == items;
    assert (before + [Polled(id, session, item)])[..|before|] == before;
  }

  lemma RunSnoc(steps: seq<Step>, step: Step)
    ensures Run(steps + [step]) == Next(Run(steps), step)
  {
    hide Next;
    assert (steps + [step])[..|steps|] == steps;
  }

  /** The thread's entries and the channel; `taken` is what was already taken out of the channel. */
  class PoolThread {
    var entries: map<nat, nat>
    var added: nat
    var events: seq<Sent>

    ghost var polled: seq<Polled>
    ghost var taken: seq<Sent>
    ghost var steps: seq<Step>

    ghost predicate Valid()
      reads this
    {
      Life() == Run(steps)
    }

    ghost function Life(): Pool
      reads this
    {
      Pool(entries, added, polled, taken + events)
    }

    constructor ()
      ensures Valid() && steps == [] && Life() == EMPTY
    {
      entries, added, events := map[], 0, [];
      polled, taken, steps := [], [], [];
    }

    method Register(id: nat)
      requires Valid()
      modifies this
      ensures Valid() && steps == old(steps) + [Add(id)] && taken == old(taken)
      ensures Life() == Next(old(Life()), Add(id))
    {
      RunSnoc(steps, Add(id));
      entries, added := entries[id := added], added + 1;
      steps := steps + [Add(id)];
    }

    method Unregister(id: nat)
      requires Valid()
      modifies this
      ensures Valid() && steps == old(steps) + [Remove(id)] && taken == old(taken)
      ensures Life() == Next(old(Life()), Remove(id))
    {
      RunSnoc(steps, Remove(id));
      entries := entries - {id};
      steps := steps + [Remove(id)];
    }

    /** Everything in the channel, in order. */
    method TakeAll() returns (batch: seq<Sent>)
      requires Valid()
      modifies this`events, this`taken
      ensures Valid() && Life() == old(Life())
      ensures batch == old(events) && events == [] && taken == old(taken) + batch
    {
      batch := [];
      while events != []
        invariant taken == old(taken) + batch && batch + events == old(events)
        decreases |events|
      {
        batch, taken := batch + [events[0]], taken + [events[0]];
        events := events[1..];
      }
      assert taken + events == old(taken + events);
    }

    method Poll(id: nat, session: nat, items: seq<Item>) returns (failed: seq<Sent>)
      modifies this`events
      ensures events == old(events) + Forwarded(Tagged(id, session, items))
      ensures failed == Failures(Tagged(id, session, items))
    {
      hide Forwarded, Failures, Tagged;
      Nothing(session);
      failed := [];
      for i := 0 to |items|
        invariant events == old(events) + Forwarded(Tagged(id, session, items[..i]))
        invariant failed == Failures(Tagged(id, session, items[..i]))
      {
        assert items[..i + 1] == items[..i] + [items[i]];
        TaggedSnoc(id, session, items[..i], items[i]);
        match items[i] {
          case Output(o) =>
            if o.Ready? {
              events := events + [Sent(id, session, C.Ready)];
            } else if o.Failed? {
              failed := failed + [Sent(id, session, C.Failed)];
            }
          case Message => events := events + [Sent(id, session, C.Other)];
          case Rtt => events := events + [Sent(id, session, C.Other)];
          case Datagram =>
        }
      }
      assert items[..|items|] == items;
    }

    method VisitAll(visits: seq<Visit>) returns (failed: seq<Sent>)
      requires forall v | v in visits :: v.id in entries
      modifies this`events
      ensures events == old(events) + Forwarded(Walk(entries, visits))
      ensures failed == Failures(Walk(entries, visits))
    {
      hide Forwarded, Failures, Tagged;
      Nothing(0);
      failed := [];
      for i := 0 to |visits|
        invariant events == old(events) + Forwarded(Walk(entries, visits[..i]))
        invariant failed == Failures(Walk(entries, visits[..i]))
      {
        var visit := visits[i];
        var own := Poll(visit.id, entries[visit.id], visit.outputs + if visit.rtt then [Rtt] else []);
        failed := failed + own;
        assert visits[..i + 1][..i] == visits[..i];
        ForwardedJoins(Walk(entries, visits[..i]), Tagged(visit.id, entries[visit.id], Items(visit)));
        FailuresJoin(Walk(entries, visits[..i]), Tagged(visit.id, entries[visit.id], Items(visit)));
      }
      assert visits[..|visits|] == visits;
    }

    method DropFailed(failed: seq<Sent>)
      modifies this`entries, this`events
      ensures entries == old(entries) - Ids(failed) && events == old(events) + failed
    {
      for i := 0 to |failed|
        invariant entries == old(entries) - Ids(failed[..i])
        invariant events == old(events) + failed[..i]
      {
        entries := entries - {failed[i].id};
        events := events + [failed[i]];
        assert failed[..i + 1][..i] == failed[..i];
      }
      assert failed[..|failed|] == failed;
    }

    /** One pass over the entries, in the order of `visits`, and then the failures it came upon. */
    method DrivePass(visits: seq<Visit>)
      requires Valid()
      requires forall i, j | 0 <= i < j < |visits| :: visits[i].id != visits[j].id
      requires (set v | v in visits :: v.id) == entries.Keys
      modifies this
      ensures Valid() && steps == old(steps) + [Pass(visits)] && taken == old(taken)
      ensures Life() == Next(old(Life()), Pass(visits))
    {
      hide Run, Walk, Forwarded, Failures;
      ghost var walk := Walk(entries, visits);
      forall v | v in visits
        ensures v.id in entries
      {
        assert v.id in entries.Keys;
      }
      var failed := VisitAll(visits);
      DropFailed(failed);
      polled := polled + walk;
      assert taken + events == old(taken + events) + Forwarded(walk) + failed;
      RunSnoc(steps, Pass(visits));
      steps := steps + [Pass(visits)];
    }
  }
}
