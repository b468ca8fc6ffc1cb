/** The life cycle of the HTTP client (`http_client.rs` of the Bevy plugin).

    Sockets, the HTTP exchange and the session are the surroundings: each update is given how far the join request
    got, the events the session pool produced, and whether starting a join anew succeeds. `emitted` is every
    connection event ever queued and `begun` the number of joins begun; neither is read by a step. */
module HttpClient {
  import opened Std

  datatype Event = Connected | ConnectFailed | Disconnected

  /** Accepted: a valid answer the connection took. Refused: any other answer. */
  datatype JoinStep = Pending | Accepted | Refused | Broken

  /** Other: a round-trip time or a message. */
  datatype PoolEvent = Ready | Failed | Other

  datatype Call =
    | Connect(beginOk: bool, at: int)
    | Update(now: int, step: JoinStep, events: seq<PoolEvent>, beginOk: bool, at: int)
    | Disconnect
    | SetAttempts(attempts: nat)

  datatype Config = Config(negotiation: nat, establish: nat)

  datatype State = State(
    config: Config,
    attempts: nat,
    attemptsLeft: nat,
    join: bool,
    pool: bool,
    connected: bool,
    ready: bool,
    deadline: Option<int>,
    emitted: seq<Event>,
    begun: nat)

  function New(config: Config, attempts: nat): State {
    State(config, attempts, 0, false, false, false, false, None, [], 0)
  }

  function Emit(s: State, e: Event): State {
    s.(emitted := s.emitted + [e])
  }

  /** Spends an attempt even when it fails. */
  function Begin(s: State, ok: bool, at: int): State {
    var s1 := s.(attemptsLeft := if s.attemptsLeft > 0 then s.attemptsLeft - 1 else 0, begun := s.begun + 1);
    if ok then s1.(join := true, deadline := Some(at + s.config.negotiation)) else s1
  }

  /** A deadline left by an earlier connection stays when this one cannot begin. */
  function HandleConnect(s: State, ok: bool, at: int): State {
    Begin(s.(join := false, pool := false, connected := false, ready := false,
                 attemptsLeft := if s.attempts > 1 then s.attempts else 1), ok, at)
  }

  function HandleDisconnect(s: State): State {
    var s1 := s.(join := false, pool := false, connected := false, deadline := None);
    if s.ready then Emit(s1.(ready := false), Disconnected) else s1
  }

  function Stepped(s: State, now: int, step: JoinStep): State {
    if !s.join then s
    else match step
      case Pending => s
      case Accepted =>
        s.(join := false, pool := true, connected := true, deadline := Some(now + s.config.establish))
      case Refused => Emit(s.(join := false, deadline := None), ConnectFailed)
      case Broken => Emit(s.(join := false, deadline := None), ConnectFailed)
  }

  function Drop(s: State): State {
    Emit(s.(join := false, pool := false, connected := false, deadline := None, ready := false),
         if s.ready then Disconnected else ConnectFailed)
  }

  function HandleEvent(s: State, e: PoolEvent): State {
    match e
    case Ready => if s.ready then s else Emit(s.(ready := true, deadline := None), Connected)
    case Failed => Drop(s)
    case Other => s
  }

  function HandleEvents(s: State, events: seq<PoolEvent>): State {
    if events == [] then s else HandleEvent(HandleEvents(s, events[..|events| - 1]), events[|events| - 1])
  }

  predicate Overdue(s: State, now: int) {
    s.deadline.Some? && now >= s.deadline.value
  }

  function CheckDeadline(s: State, now: int, beginOk: bool, at: int): State {
    if !Overdue(s, now) then s
    else if !s.pool && s.attemptsLeft > 0 then
      var s1 := Begin(s, beginOk, at);
      if beginOk then s1 else Drop(s1)
    else Drop(s)
  }

  function HandleUpdate(s: State, now: int, step: JoinStep, events: seq<PoolEvent>, beginOk: bool, at: int): State {
    var s1 := Stepped(s, now, step);
    var s2 := if s1.pool then HandleEvents(s1, events) else s1;
    CheckDeadline(s2, now, beginOk, at)
  }

  function Handle(s: State, call: Call): State {
    match call
    case Connect(beginOk, at) => HandleConnect(s, beginOk, at)
    case Update(now, step, events, beginOk, at) => HandleUpdate(s, now, step, events, beginOk, at)
    case Disconnect => HandleDisconnect(s)
    case SetAttempts(attempts) => s.(attempts := attempts)
  }

  function Run(s: State, calls: seq<Call>): State {
    if calls == [] then s else Handle(Run(s, calls[..|calls| - 1]), calls[|calls| - 1])
  }

  /** The client as the object it is. */
  class NetherHttpClient {
    const config: Config
    var attempts: nat
    var attemptsLeft: nat
    var join: bool
    var pool: bool
    var connected: bool
    var ready: bool
    var deadline: Option<int>
    var events: seq<Event>

    ghost var taken: seq<Event>
    ghost var begun: nat

    /** The attempts the client was made with, and every call so far. */
    ghost const initialAttempts: nat
    ghost var calls: seq<Call>

    /** The client is where the transition system gets on the calls so far. */
    ghost predicate Valid()
      reads this
    {
      Life() == Run(New(config, initialAttempts), calls)
    }

    ghost function Life(): State
      reads this
    {
      State(config, attempts, attemptsLeft, join, pool, connected, ready, deadline, taken + events, begun)
    }

    constructor (config: Config, attempts: nat)
      ensures Valid() && calls == [] && Life() == New(config, attempts)
    {
      initialAttempts, calls := attempts, [];
      this.config, this.attempts, attemptsLeft := config, attempts, 0;
      join, pool, connected, ready, deadline, events := false, false, false, false, None, [];
      taken, begun := [], 0;
    }

    method Push(e: Event)
      modifies this`events
      ensures Life() == Emit(old(Life()), e)
    {
      events := events + [e];
      assert taken + events == old(taken + events) + [e];
    }

    method NextEvent() returns (e: Option<Event>)
      requires Valid()
      modifies this`events, this`taken
      ensures Valid() && Life() == old(Life())
      ensures if old(events) == [] then e == None && taken == old(taken)
              else e == Some(old(events)[0]) && taken == old(taken) + [old(events)[0]]
    {
      if events == [] {
        return None;
      }
      e := Some(events[0]);
      taken := taken + [events[0]];
      events := events[1..];
      assert taken + events == old(taken + events);
    }

    /** `ok`: resolving, binding, describing, signing and dialling all succeed. */
    method BeginJoin(ok: bool, at: int)
      modifies this`attemptsLeft, this`join, this`deadline, this`begun
      ensures Life() == Begin(old(Life()), ok, at)
    {
      attemptsLeft := if attemptsLeft > 0 then attemptsLeft - 1 else 0;
      begun := begun + 1;
      if ok {
        join := true;
        deadline := Some(at + config.negotiation);
      }
    }

    method Connect(ok: bool, at: int)
      requires Valid()
      modifies this
      ensures Valid() && calls == old(calls) + [Call.Connect(ok, at)] && taken == old(taken)
      ensures Life() == HandleConnect(old(Life()), ok, at)
    {
      hide Run, HandleUpdate, HandleDisconnect;
      join, pool, connected, ready := false, false, false, false;
      attemptsLeft := if attempts > 1 then attempts else 1;
      BeginJoin(ok, at);
      Called(old(Life()), Call.Connect(ok, at));
    }

    method Disconnect()
      requires Valid()
      modifies this
      ensures Valid() && calls == old(calls) + [Call.Disconnect] && taken == old(taken)
      ensures Life() == HandleDisconnect(old(Life()))
    {
      hide Run, HandleUpdate, HandleConnect;
      join, pool, connected, deadline := false, false, false, None;
      if ready {
        ready := false;
        Push(Disconnected);
      }
      Called(old(Life()), Call.Disconnect);
    }

    method SetAttempts(attempts: nat)
      requires Valid()
      modifies this
      ensures Valid() && calls == old(calls) + [Call.SetAttempts(attempts)] && taken == old(taken)
      ensures Life() == old(Life()).(attempts := attempts)
    {
      hide Run, HandleUpdate, HandleConnect, HandleDisconnect;
      this.attempts := attempts;
      Called(old(Life()), Call.SetAttempts(attempts));
    }

    /** Records a call that has just done its step. */
    ghost method Called(was: State, call: Call)
      requires was == Run(New(config, initialAttempts), calls) && Life() == Handle(was, call)
      modifies this`calls
      ensures Valid() && calls == old(calls) + [call]
    {
      hide Handle;
      calls := calls + [call];
      assert calls[..|calls| - 1] == old(calls);
    }

    /** Sending unwraps the pool only when there is one. */
    method SendOn() returns (sent: bool)
      requires Valid()
      ensures sent == connected && (sent ==> pool)
    {
      AlwaysConnectedIsPool(config, initialAttempts, calls);
      if !connected {
        return false;
      }
      assert pool;
      sent := true;
    }

    method DropConnection()
      modifies this`join, this`pool, this`connected, this`deadline, this`ready, this`events
      ensures Life() == Drop(old(Life()))
    {
      var wasReady := ready;
      join, pool, connected, deadline, ready := false, false, false, None, false;
      Push(if wasReady then Disconnected else ConnectFailed);
    }

    method DriveJoin(now: int, step: JoinStep)
      modifies this`join, this`pool, this`connected, this`deadline, this`events
      ensures Life() == Stepped(old(Life()), now, step)
    {
      if join {
        match step {
          case Pending =>
          case Accepted =>
            join, pool, connected := false, true, true;
            deadline := Some(now + config.establish);
          case Refused =>
            join, deadline := false, None;
            Push(ConnectFailed);
          case Broken =>
            join, deadline := false, None;
            Push(ConnectFailed);
        }
      }
    }

    method DrivePool(produced: seq<PoolEvent>)
      modifies this`join, this`pool, this`connected, this`deadline, this`ready, this`events
      ensures Life() == HandleEvents(old(Life()), produced)
    {
      for i := 0 to |produced|
        invariant Life() == HandleEvents(old(Life()), produced[..i])
      {
        assert produced[..i + 1][..i] == produced[..i];
        match produced[i] {
          case Ready =>
            if !ready {
              ready, deadline := true, None;
              Push(Connected);
            }
          case Failed =>
            DropConnection();
          case Other =>
        }
      }
      assert produced[..|produced|] == produced;
    }

    method Update(now: int, step: JoinStep, produced: seq<PoolEvent>, beginOk: bool, at: int)
      requires Valid()
      modifies this
      ensures Valid() && calls == old(calls) + [Call.Update(now, step, produced, beginOk, at)] && taken == old(taken)
      ensures Life() == HandleUpdate(old(Life()), now, step, produced, beginOk, at)
    {
      hide Run, HandleUpdate, HandleConnect, HandleDisconnect;
      Tick(now, step, produced, beginOk, at);
      Called(old(Life()), Call.Update(now, step, produced, beginOk, at));
    }

    method Tick(now: int, step: JoinStep, produced: seq<PoolEvent>, beginOk: bool, at: int)
      modifies this`attemptsLeft, this`join, this`pool, this`connected, this`ready, this`deadline, this`events, this`begun
      ensures Life() == HandleUpdate(old(Life()), now, step, produced, beginOk, at)
    {
      hide Stepped, HandleEvents, Drop, Begin, Emit;
      DriveJoin(now, step);
      if pool {
        DrivePool(produced);
      }
      if deadline.Some? && now >= deadline.value {
        var retried := false;
        if !pool && attemptsLeft > 0 {
          BeginJoin(beginOk, at);
          retried := beginOk;
        }
        if !retried {
          DropConnection();
        }
      }
    }
  }

  lemma {:induction false} EventsKeepPool(s: State, events: seq<PoolEvent>)
    requires s.connected == s.pool
    ensures var s' := HandleEvents(s, events); s'.connected == s'.pool
  {
    if events != [] {
      EventsKeepPool(s, events[..|events| - 1]);
    }
  }

  /** Whatever the surroundings do, `connected` says exactly whether there is a pool. */
  lemma ConnectedIsPool(s: State, call: Call)
    requires s.connected == s.pool
    ensures Handle(s, call).connected == Handle(s, call).pool
  {
    if call.Update? {
      EventsKeepPool(Stepped(s, call.now, call.step), call.events);
    }
  }

  lemma {:induction false} AlwaysConnectedIsPool(config: Config, attempts: nat, calls: seq<Call>)
    ensures var s := Run(New(config, attempts), calls); s.connected == s.pool
  {
    hide Handle;
    if calls != [] {
      AlwaysConnectedIsPool(config, attempts, calls[..|calls| - 1]);
      ConnectedIsPool(Run(New(config, attempts), calls[..|calls| - 1]), calls[|calls| - 1]);
    }
  }
}
