/** From one successful `connect` of the HTTP client to the next: which events it emits and how many joins it begins. */
module HttpClientEpochs {
  import opened Std
  import opened HttpClient

  function Log(s: State, base: nat): seq<Event>
    requires base <= |s.emitted|
  {
    s.emitted[base..]
  }

  /** A connection fails, or opens and later closes. */
  predicate Good(log: seq<Event>) {
    log <= [ConnectFailed] || log <= [Connected, Disconnected]
  }

  /** Nothing but other events follows a failure. */
  predicate Behaved(events: seq<PoolEvent>) {
    forall i, j | 0 <= i < j < |events| && events[i].Failed? :: events[j].Other?
  }

  predicate HasFailed(events: seq<PoolEvent>) {
    exists i | 0 <= i < |events| :: events[i].Failed?
  }

  predicate Idle(s: State) {
    !s.join && !s.pool && !s.connected && !s.ready && s.deadline.None?
  }

  predicate Open(s: State) {
    s.ready && s.pool && s.connected && !s.join && s.deadline.None?
  }

  predicate Opening(s: State) {
    !s.ready && !(s.join && s.pool) && s.connected == s.pool && (s.deadline.Some? || Idle(s))
  }

  /** What the events so far say about the state. */
  predicate Inv(s: State, base: nat) {
    && base <= |s.emitted|
    && var log := Log(s, base);
    && Good(log)
    && (if log == [] then Opening(s) else if log == [Connected] then Open(s) else Idle(s))
  }

  lemma EmitExtends(s: State, base: nat, e: Event)
    requires base <= |s.emitted|
    ensures Log(Emit(s, e), base) == Log(s, base) + [e]
  {
  }

  lemma GoodLogs(log: seq<Event>)
    ensures Good(log) <==> log == [] || log == [ConnectFailed] || log == [Connected] || log == [Connected, Disconnected]
  {
    assert [ConnectFailed][..1] == [ConnectFailed];
    assert [Connected, Disconnected][..1] == [Connected];
  }

  /** Once the events are not those of one connection, they never are again. */
  lemma BadStaysBad(log: seq<Event>, more: seq<Event>)
    requires !Good(log)
    ensures !Good(log + more)
  {
    assert (log + more)[..|log|] == log;
    GoodLogs(log);
    GoodLogs(log + more);
    assert [Connected, Disconnected][..1] == [Connected];
  }

  // ---- one batch of pool events ----

  lemma BehavedSnoc(events: seq<PoolEvent>, e: PoolEvent)
    ensures Behaved(events + [e]) <==> Behaved(events) && (HasFailed(events) ==> e.Other?)
    ensures HasFailed(events + [e]) <==> HasFailed(events) || e.Failed?
  {
    var all := events + [e];
    assert all[|events|] == e;
    assert forall i | 0 <= i < |events| :: all[i] == events[i];
  }

  lemma EventStep(s: State, base: nat, e: PoolEvent, failed: bool)
    requires Inv(s, base) && (if failed then Idle(s) && Log(s, base) != [] else s.pool)
    ensures var s' := HandleEvent(s, e);
            && base <= |s'.emitted|
            && (if failed && !e.Other? then !Good(Log(s', base))
                else Inv(s', base) && if failed || e.Failed? then Idle(s') && Log(s', base) != [] else s'.pool)
  {
    GoodLogs(Log(s, base));
    EmitExtends(s, base, Connected);
    EmitExtends(s, base, Disconnected);
    EmitExtends(s, base, ConnectFailed);
    var s' := HandleEvent(s, e);
    GoodLogs(Log(s', base));
    if failed && !e.Other? {
      var added := if e.Ready? then Connected else ConnectFailed;
      assert Log(s', base) == Log(s, base) + [added];
      assert |Log(s', base)| == |Log(s, base)| + 1 && Log(s', base)[0] == Log(s, base)[0];
    }
  }

  lemma EventGrows(s: State, e: PoolEvent, base: nat)
    requires base <= |s.emitted| && !Good(Log(s, base))
    ensures base <= |HandleEvent(s, e).emitted| && !Good(Log(HandleEvent(s, e), base))
  {
    var s' := HandleEvent(s, e);
    if s'.emitted != s.emitted {
      var added := s'.emitted[|s.emitted|];
      EmitExtends(s, base, added);
      BadStaysBad(Log(s, base), [added]);
    }
  }

  lemma InvBase(s: State, base: nat)
    ensures Inv(s, base) ==> base <= |s.emitted|
  {
  }

  lemma NothingHappened()
    ensures Behaved([]) && !HasFailed([])
  {
  }

  /** A batch keeps to one connection exactly when it is behaved. */
  lemma {:induction false} Batch(s: State, base: nat, events: seq<PoolEvent>)
    requires Inv(s, base) && s.pool
    ensures var s' := HandleEvents(s, events);
            && base <= |s'.emitted|
            && (if !Behaved(events) then !Good(Log(s', base))
                else Inv(s', base) && if HasFailed(events) then Idle(s') && Log(s', base) != [] else s'.pool)
  {
    hide Inv, Idle, Good, Log, HandleEvent, Behaved, HasFailed;
    if events == [] {
      NothingHappened();
      InvBase(s, base);
    } else {
      var (init, last) := (events[..|events| - 1], events[|events| - 1]);
      Batch(s, base, init);
      BehavedSnoc(init, last);
      assert init + [last] == events;
      if Behaved(init) {
        EventStep(HandleEvents(s, init), base, last, HasFailed(init));
      } else {
        EventGrows(HandleEvents(s, init), last, base);
      }
    }
  }

  // ---- one call ----

  /** The update gets as far as driving the pool. */
  predicate Driven(s: State, call: Call) {
    call.Update? && Stepped(s, call.now, call.step).pool
  }

  lemma SteppedInv(s: State, base: nat, now: int, step: JoinStep)
    requires Inv(s, base)
    ensures Inv(Stepped(s, now, step), base)
  {
    EmitExtends(s, base, ConnectFailed);
    GoodLogs(Log(s, base));
    GoodLogs(Log(Stepped(s, now, step), base));
  }

  lemma DeadlineInv(s: State, base: nat, now: int, beginOk: bool, at: int)
    requires Inv(s, base)
    ensures Inv(CheckDeadline(s, now, beginOk, at), base)
  {
    EmitExtends(s, base, ConnectFailed);
    GoodLogs(Log(s, base));
    GoodLogs(Log(CheckDeadline(s, now, beginOk, at), base));
  }

  lemma DisconnectInv(s: State, base: nat)
    requires Inv(s, base)
    ensures Inv(HandleDisconnect(s), base)
  {
    EmitExtends(s, base, Disconnected);
    GoodLogs(Log(s, base));
    GoodLogs(Log(HandleDisconnect(s), base));
  }

  lemma {:induction false} EventsGrow(s: State, events: seq<PoolEvent>)
    ensures s.emitted <= HandleEvents(s, events).emitted
  {
    if events != [] {
      EventsGrow(s, events[..|events| - 1]);
    }
  }

  lemma SteppedGrows(s: State, now: int, step: JoinStep)
    ensures s.emitted <= Stepped(s, now, step).emitted
  {
  }

  lemma DeadlineGrows(s: State, now: int, beginOk: bool, at: int)
    ensures s.emitted <= CheckDeadline(s, now, beginOk, at).emitted
  {
  }

  lemma HandleGrows(s: State, call: Call)
    ensures s.emitted <= Handle(s, call).emitted
  {
    hide Stepped, HandleEvents, CheckDeadline;
    match call
    case Update(now, step, events, beginOk, at) =>
      var s1 := Stepped(s, now, step);
      SteppedGrows(s, now, step);
      EventsGrow(s1, events);
      DeadlineGrows(if s1.pool then HandleEvents(s1, events) else s1, now, beginOk, at);
    case _ =>
  }

  lemma StillBad(s: State, s': State, base: nat)
    requires s.emitted <= s'.emitted && base <= |s.emitted| && !Good(Log(s, base))
    ensures !Good(Log(s', base))
  {
    var more := s'.emitted[|s.emitted|..];
    assert Log(s', base) == Log(s, base) + more;
    BadStaysBad(Log(s, base), more);
  }

  lemma SameInv(s: State, s': State, base: nat)
    requires Inv(s, base) && s' == s.(attempts := s'.attempts)
    ensures Inv(s', base) && base <= |s'.emitted|
  {
  }

  /** One call keeps to one connection exactly when the batch it drives, if any, is behaved. */
  lemma CallInv(s: State, base: nat, call: Call)
    requires Inv(s, base) && !call.Connect?
    ensures base <= |Handle(s, call).emitted|
    ensures if Driven(s, call) && !Behaved(call.events) then !Good(Log(Handle(s, call), base))
            else Inv(Handle(s, call), base)
  {
    hide Inv, Behaved, HasFailed, Good, Log, CheckDeadline, HandleEvents, Stepped, HandleDisconnect;
    match call
    case Update(now, step, events, beginOk, at) =>
      var s1 := Stepped(s, now, step);
      SteppedInv(s, base, now, step);
      var s2 := if s1.pool then HandleEvents(s1, events) else s1;
      if s1.pool {
        Batch(s1, base, events);
      }
      if s1.pool && !Behaved(events) {
        DeadlineGrows(s2, now, beginOk, at);
        StillBad(s2, Handle(s, call), base);
      } else {
        DeadlineInv(s2, base, now, beginOk, at);
      }
      InvBase(s2, base);
      DeadlineGrows(s2, now, beginOk, at);
    case Disconnect =>
      DisconnectInv(s, base);
      InvBase(Handle(s, call), base);
    case SetAttempts(attempts) => SameInv(s, s.(attempts := attempts), base);
  }

  // ---- one epoch ----

  ghost predicate NoConnect(calls: seq<Call>) {
    forall i | 0 <= i < |calls| :: !calls[i].Connect?
  }

  predicate AllBehaved(s: State, calls: seq<Call>) {
    calls == [] ||
    var (init, last) := (calls[..|calls| - 1], calls[|calls| - 1]);
    AllBehaved(s, init) && (Driven(Run(s, init), last) ==> Behaved(last.events))
  }

  lemma {:induction false} EpochInv(s: State, base: nat, calls: seq<Call>)
    requires Inv(s, base) && NoConnect(calls)
    ensures base <= |Run(s, calls).emitted|
    ensures if AllBehaved(s, calls) then Inv(Run(s, calls), base) else !Good(Log(Run(s, calls), base))
  {
    hide Inv, Good, Log, Handle, Driven, Behaved;
    if calls == [] {
      InvBase(s, base);
    } else {
      var (init, last) := (calls[..|calls| - 1], calls[|calls| - 1]);
      EpochInv(s, base, init);
      HandleGrows(Run(s, init), last);
      if AllBehaved(s, init) {
        CallInv(Run(s, init), base, last);
      } else {
        StillBad(Run(s, init), Run(s, calls), base);
      }
    }
  }

  lemma ConnectStarts(s: State, at: int)
    requires s.connected == s.pool
    ensures Inv(HandleConnect(s, true, at), |s.emitted|)
  {
    assert Log(HandleConnect(s, true, at), |s.emitted|) == [];
  }

  /** After a successful connect, until the next one: the connection events are a beginning of a failure, or of an
      opening and a closing, exactly when no batch of the session says more after failing. */
  lemma EpochEvents(s: State, at: int, calls: seq<Call>)
    requires s.connected == s.pool && NoConnect(calls)
    ensures var s1 := HandleConnect(s, true, at); var s' := Run(s1, calls);
            && |s.emitted| <= |s'.emitted|
            && (Good(Log(s', |s.emitted|)) <==> AllBehaved(s1, calls))
  {
    hide Good, Handle, Driven, Behaved, AllBehaved, Run, HandleConnect;
    ConnectStarts(s, at);
    EpochInv(HandleConnect(s, true, at), |s.emitted|, calls);
  }

  /** The loop alone, given a batch that no pool sends, reports a failed connection and then opens it. */
  lemma ReadyAfterFailed(s: State, at: int)
    requires s.connected == s.pool
    ensures var s1 := HandleConnect(s, true, at);
            var s' := Run(s1, [Update(at, Accepted, [Failed, Ready], false, at)]);
            s'.emitted == s.emitted + [ConnectFailed, Connected] && s'.ready && !s'.pool
  {
    var s1 := HandleConnect(s, true, at);
    var s2 := Stepped(s1, at, Accepted);
    assert [Failed, Ready][..1] == [Failed] && [Failed][..0] == [];
    assert HandleEvents(s2, [Failed]) == Drop(s2);
    assert HandleEvents(s2, [Failed, Ready]) == HandleEvent(Drop(s2), Ready);
    var call := Update(at, Accepted, [Failed, Ready], false, at);
    assert [call][..0] == [];
    assert Run(s1, [call]) == Handle(s1, call);
  }

  // ---- joins ----

  lemma {:induction false} EventsBeginNothing(s: State, events: seq<PoolEvent>)
    ensures var s' := HandleEvents(s, events); s'.begun == s.begun && s'.attemptsLeft == s.attemptsLeft
  {
    if events != [] {
      EventsBeginNothing(s, events[..|events| - 1]);
    }
  }

  lemma DropBeginsNothing()
    ensures forall s :: Drop(s).begun == s.begun && Drop(s).attemptsLeft == s.attemptsLeft
    ensures forall s, e :: Emit(s, e).begun == s.begun && Emit(s, e).attemptsLeft == s.attemptsLeft
  {
  }

  lemma CallSpends(s: State, call: Call)
    requires !call.Connect?
    ensures var s' := Handle(s, call); s'.begun + s'.attemptsLeft == s.begun + s.attemptsLeft
  {
    hide HandleEvents, Drop, Emit;
    DropBeginsNothing();
    if call.Update? {
      EventsBeginNothing(Stepped(s, call.now, call.step), call.events);
    }
  }

  lemma {:induction false} EpochSpends(s: State, calls: seq<Call>)
    requires NoConnect(calls)
    ensures var s' := Run(s, calls); s'.begun + s'.attemptsLeft == s.begun + s.attemptsLeft
  {
    hide Handle;
    if calls != [] {
      EpochSpends(s, calls[..|calls| - 1]);
      CallSpends(Run(s, calls[..|calls| - 1]), calls[|calls| - 1]);
    }
  }

  /** A connect and what follows it, until the next, begin at most as many joins as attempts were set, and at least
      one is always allowed. */
  lemma JoinsAreLimited(s: State, ok: bool, at: int, calls: seq<Call>)
    requires NoConnect(calls)
    ensures Run(HandleConnect(s, ok, at), calls).begun - s.begun <= if s.attempts > 1 then s.attempts else 1
  {
    hide Run;
    EpochSpends(HandleConnect(s, ok, at), calls);
  }

  // ---- a connect that could not begin ----

  lemma {:induction false} IdleStaysIdle(s: State, calls: seq<Call>)
    requires NoConnect(calls) && Idle(s)
    ensures var s' := Run(s, calls); Idle(s') && s'.emitted == s.emitted && s'.begun == s.begun
  {
    if calls != [] {
      IdleStaysIdle(s, calls[..|calls| - 1]);
    }
  }

  lemma {:induction false} BegunGrows(s: State, calls: seq<Call>)
    ensures s.begun <= Run(s, calls).begun
  {
    hide HandleEvents, Drop, Emit;
    DropBeginsNothing();
    if calls != [] {
      var s1 := Run(s, calls[..|calls| - 1]);
      var last := calls[|calls| - 1];
      BegunGrows(s, calls[..|calls| - 1]);
      if last.Update? {
        EventsBeginNothing(Stepped(s1, last.now, last.step), last.events);
      }
    }
  }

  /** After a connect that returned an error no join is begun, whatever the updates bring, exactly when no deadline was
      left over from before or there was only one attempt to spend. */
  lemma NoJoinAfterFailedConnect(s: State, at: int)
    ensures (forall calls | NoConnect(calls) ::
               Run(HandleConnect(s, false, at), calls).begun == HandleConnect(s, false, at).begun)
       <==> s.deadline.None? || s.attempts <= 1
  {
    var s1 := HandleConnect(s, false, at);
    if s.deadline.None? || s.attempts <= 1 {
      hide Run;
      forall calls | NoConnect(calls)
        ensures Run(s1, calls).begun == s1.begun
      {
        if s.deadline.None? {
          IdleStaysIdle(s1, calls);
        } else {
          EpochSpends(s1, calls);
          BegunGrows(s1, calls);
        }
      }
    } else {
      var call := Update(s.deadline.value, Pending, [], false, at);
      assert [call][..0] == [];
      assert Run(s1, [call]) == Handle(s1, call);
      assert NoConnect([call]) && Handle(s1, call).begun == s1.begun + 1;
    }
  }

  /** After a connect that returned an error the client stays silent, whatever the updates bring, exactly when no
      deadline was left over from before. */
  lemma SilentAfterFailedConnect(s: State, at: int)
    ensures (forall calls | NoConnect(calls) ::
               Run(HandleConnect(s, false, at), calls).emitted == HandleConnect(s, false, at).emitted)
       <==> s.deadline.None?
  {
    var s1 := HandleConnect(s, false, at);
    if s.deadline.None? {
      hide Run;
      forall calls | NoConnect(calls)
        ensures Run(s1, calls).emitted == s1.emitted
      {
        IdleStaysIdle(s1, calls);
      }
    } else {
      var call := Update(s.deadline.value, Pending, [], false, at);
      assert [call][..0] == [];
      assert Run(s1, [call]) == Handle(s1, call);
      assert NoConnect([call]) && Handle(s1, call).emitted != s1.emitted;
    }
  }

  lemma RunOfThree(s: State, a: Call, b: Call, c: Call)
    ensures Run(s, [a, b, c]) == Handle(Handle(Handle(s, a), b), c)
  {
    hide Handle;
    assert [a, b, c][..2] == [a, b] && [a, b][..1] == [a] && [a][..0] == [];
    assert Run(s, [a]) == Handle(s, a);
    assert Run(s, [a, b]) == Handle(Handle(s, a), b);
  }

  /** A new client connects, then fails to connect: the first connect's deadline begins a join or, if none can begin,
      reports ConnectFailed. */
  lemma EarlierDeadlineFires(config: Config, attempts: nat, at: int, beginOk: bool)
    ensures var s := Run(New(config, attempts), [Connect(true, at), Connect(false, at),
                                                 Update(at + config.negotiation, Pending, [], beginOk, at)]);
            if attempts > 1 && beginOk then s.join && s.begun == 3 && s.emitted == []
            else s.begun == (if attempts > 1 then 3 else 2) && s.emitted == [ConnectFailed]
  {
    hide Run;
    RunOfThree(New(config, attempts), Connect(true, at), Connect(false, at),
               Update(at + config.negotiation, Pending, [], beginOk, at));
  }

  // ---- each stage of a connection ----

  /** A join is under way and has until then. */
  predicate Joining(s: State, deadline: int) {
    s.join && !s.pool && !s.connected && !s.ready && s.deadline == Some(deadline)
  }

  /** A session is being established and has until then. */
  predicate Establishing(s: State, deadline: int) {
    !s.join && s.pool && s.connected && !s.ready && s.deadline == Some(deadline)
  }

  /** A successful connect begins a join that has the negotiation timeout, and leaves the other attempts for retries. */
  lemma ConnectJoins(s: State, at: int)
    ensures var s' := HandleConnect(s, true, at);
            && Joining(s', at + s.config.negotiation) && s'.emitted == s.emitted && s'.begun == s.begun + 1
            && s'.attemptsLeft == (if s.attempts > 1 then s.attempts - 1 else 0)
  {
  }

  /** What an update makes of a join: nothing while it is pending in time; the next join or a failure when time is up; a
      failure when it is refused; and a session with its own time to be established when it is accepted. */
  lemma JoinUpdates(s: State, deadline: int, now: int, step: JoinStep, events: seq<PoolEvent>, beginOk: bool, at: int)
    requires Joining(s, deadline)
    ensures var s' := HandleUpdate(s, now, step, events, beginOk, at);
            match step
            case Pending =>
              if now < deadline then s' == s
              else if s.attemptsLeft > 0 && beginOk then
                && Joining(s', at + s.config.negotiation) && s'.emitted == s.emitted
                && s'.begun == s.begun + 1 && s'.attemptsLeft == s.attemptsLeft - 1
              else Idle(s') && s'.emitted == s.emitted + [ConnectFailed]
            case Refused => Idle(s') && s'.emitted == s.emitted + [ConnectFailed] && s'.begun == s.begun
            case Broken => Idle(s') && s'.emitted == s.emitted + [ConnectFailed] && s'.begun == s.begun
            case Accepted =>
              events == [] && s.config.establish > 0 ==> Establishing(s', now + s.config.establish) && s'.emitted == s.emitted
  {
  }

  /** What an update makes of a session being established, from the first event that matters to it. */
  lemma EstablishUpdates(s: State, deadline: int, now: int, step: JoinStep, event: PoolEvent, beginOk: bool, at: int)
    requires Establishing(s, deadline)
    ensures var s' := HandleUpdate(s, now, step, [event], beginOk, at);
            && s'.begun == s.begun
            && match event
               case Ready => Open(s') && s'.emitted == s.emitted + [Connected]
               case Failed => Idle(s') && s'.emitted == s.emitted + [ConnectFailed]
               case Other =>
                 if now < deadline then s' == s else Idle(s') && s'.emitted == s.emitted + [ConnectFailed]
  {
    assert [event][..0] == [];
    assert HandleEvents(s, [event]) == HandleEvent(s, event);
  }

  /** An open connection ends only with its session or by the caller. */
  lemma OpenUpdates(s: State, now: int, step: JoinStep, event: PoolEvent, beginOk: bool, at: int)
    requires Open(s)
    ensures var s' := HandleUpdate(s, now, step, [event], beginOk, at);
            if event.Failed? then Idle(s') && s'.emitted == s.emitted + [Disconnected] else s' == s
    ensures Idle(HandleDisconnect(s)) && HandleDisconnect(s).emitted == s.emitted + [Disconnected]
  {
    assert [event][..0] == [];
    assert HandleEvents(s, [event]) == HandleEvent(s, event);
  }

  // ---- settings ----

  /** The attempts set last. */
  function AttemptsSet(attempts: nat, calls: seq<Call>): nat {
    if calls == [] then attempts
    else if calls[|calls| - 1].SetAttempts? then calls[|calls| - 1].attempts
    else AttemptsSet(attempts, calls[..|calls| - 1])
  }

  lemma {:induction false} EventsKeepAttempts(s: State, events: seq<PoolEvent>)
    ensures HandleEvents(s, events).attempts == s.attempts
  {
    if events != [] {
      EventsKeepAttempts(s, events[..|events| - 1]);
    }
  }

  lemma CallAttempts(s: State, call: Call)
    ensures Handle(s, call).attempts == if call.SetAttempts? then call.attempts else s.attempts
  {
    hide HandleEvents;
    if call.Update? {
      EventsKeepAttempts(Stepped(s, call.now, call.step), call.events);
    }
  }

  /** In every run a connect has the attempts set last. */
  lemma {:induction false} LastAttemptsStand(config: Config, attempts: nat, calls: seq<Call>)
    ensures Run(New(config, attempts), calls).attempts == AttemptsSet(attempts, calls)
  {
    hide Handle;
    if calls != [] {
      LastAttemptsStand(config, attempts, calls[..|calls| - 1]);
      CallAttempts(Run(New(config, attempts), calls[..|calls| - 1]), calls[|calls| - 1]);
    }
  }
}
