/** What a pump finds, told from what the layers report while it runs. */
module SessionLayers {
  import opened Std
  import opened Session

  // ---- the association's events ----

  /** A controlling session opens the channels itself when the association is up, which may fail. */
  predicate Errs(controlling: bool, e: SctpEvent) {
    controlling && e.Connected? && !e.opening.ok
  }

  predicate OpensReliable(controlling: bool, e: SctpEvent) {
    controlling && e.Connected? && e.opening.reliable
  }

  predicate OpensUnreliable(controlling: bool, e: SctpEvent) {
    controlling && e.Connected? && e.opening.unreliable
  }

  /** No event before this one stops the loop. */
  predicate Reached(controlling: bool, reports: seq<SctpEvent>, i: nat)
    requires i <= |reports|
  {
    forall j | 0 <= j < i :: !Errs(controlling, reports[j])
  }

  predicate SomeLost(controlling: bool, reports: seq<SctpEvent>) {
    exists i | 0 <= i < |reports| :: Reached(controlling, reports, i) && reports[i].Lost?
  }

  predicate SomeReliable(controlling: bool, reports: seq<SctpEvent>) {
    exists i | 0 <= i < |reports| :: Reached(controlling, reports, i) && OpensReliable(controlling, reports[i])
  }

  predicate SomeUnreliable(controlling: bool, reports: seq<SctpEvent>) {
    exists i | 0 <= i < |reports| :: Reached(controlling, reports, i) && OpensUnreliable(controlling, reports[i])
  }

  lemma OneMoreReport(controlling: bool, init: seq<SctpEvent>, last: SctpEvent)
    ensures var all := init + [last];
            var reached := Reached(controlling, init, |init|);
            && (Reached(controlling, all, |all|) <==> reached && !Errs(controlling, last))
            && (SomeLost(controlling, all) <==> SomeLost(controlling, init) || (reached && last.Lost?))
            && (SomeReliable(controlling, all) <==> SomeReliable(controlling, init) || (reached && OpensReliable(controlling, last)))
            && (SomeUnreliable(controlling, all) <==>
                  SomeUnreliable(controlling, init) || (reached && OpensUnreliable(controlling, last)))
  {
    hide Errs, OpensReliable, OpensUnreliable;
    var all := init + [last];
    assert forall i | 0 <= i < |init| :: all[i] == init[i];
    assert all[|init|] == last;
    assert forall i | 0 <= i <= |init| :: Reached(controlling, all, i) == Reached(controlling, init, i);
  }

  /** The events up to the first error count: a loss among them is noted, and the channels they open are open. */
  lemma {:induction false} EventsExactly(controlling: bool, c: Channels, reports: seq<SctpEvent>)
    ensures var d := SctpEvents(controlling, c, reports);
            && (d.ok <==> Reached(controlling, reports, |reports|))
            && (d.lost <==> SomeLost(controlling, reports))
            && (d.channels.reliable <==> c.reliable || SomeReliable(controlling, reports))
            && (d.channels.unreliable <==> c.unreliable || SomeUnreliable(controlling, reports))
  {
    hide Reached, SomeLost, SomeReliable, SomeUnreliable;
    if reports == [] {
      NothingReported(controlling);
    } else {
      var (init, last) := (reports[..|reports| - 1], reports[|reports| - 1]);
      EventsExactly(controlling, c, init);
      assert init + [last] == reports;
      OneMoreReport(controlling, init, last);
    }
  }

  lemma NothingReported(controlling: bool)
    ensures Reached(controlling, [], 0)
    ensures !SomeLost(controlling, []) && !SomeReliable(controlling, []) && !SomeUnreliable(controlling, [])
  {
  }

  // ---- starting the transports ----

  /** A pair is selected for the first time since a description gave the session its role. */
  predicate Tries(t: Transport, layers: Layers) {
    !t.started && layers.selected && t.role
  }

  predicate Creates(t: Transport, layers: Layers) {
    t.certificate && layers.dtlsOk && layers.sctpOk
  }

  /** DTLS refuses one of the packets kept for it. */
  predicate Refuses(t: Transport, layers: Layers) {
    layers.earlyError.Some? && layers.earlyError.value < |t.early|
  }

  /** The transports run when the association is looked at. */
  predicate Runs(t: Transport, layers: Layers) {
    t.started || (Tries(t, layers) && Creates(t, layers))
  }

  /** An attempt spends the role and the certificate; it starts the transports if both layers can be created, and it
      fails if one cannot or DTLS refuses a kept packet. */
  lemma StartsExactly(t: Transport, layers: Layers)
    ensures var (t', ok) := Start(t, layers);
            && (t'.started <==> Runs(t, layers))
            && (ok <==> Tries(t, layers) ==> Creates(t, layers) && !Refuses(t, layers))
            && (t'.role <==> t.role && !Tries(t, layers))
            && (t'.certificate <==> t.certificate && !Tries(t, layers))
  {
  }

  // ---- a pump ----

  /** No layer stops the pump with an error. */
  predicate NoError(s: State, layers: Layers) {
    && (Tries(s.transport, layers) ==> Creates(s.transport, layers) && !Refuses(s.transport, layers))
    && (Runs(s.transport, layers) ==>
          && layers.drained.ok && layers.writesOk
          && (forall e | e in layers.sctpEvents :: !Errs(s.controlling, e)))
  }

  predicate Loses(s: State, layers: Layers) {
    Runs(s.transport, layers) && Lost in layers.sctpEvents
  }

  /** The channel is open after a pump without an error: it was, the peer opened it, or this side did. */
  predicate LeavesReliable(s: State, layers: Layers) {
    || s.channels.reliable
    || (Runs(s.transport, layers)
        && (layers.drained.reliable || exists e | e in layers.sctpEvents :: OpensReliable(s.controlling, e)))
  }

  predicate LeavesUnreliable(s: State, layers: Layers) {
    || s.channels.unreliable
    || (Runs(s.transport, layers)
        && (layers.drained.unreliable || exists e | e in layers.sctpEvents :: OpensUnreliable(s.controlling, e)))
  }

  predicate LeavesOpen(s: State, layers: Layers) {
    LeavesReliable(s, layers) && LeavesUnreliable(s, layers)
  }

  /** The deadline counts from the first description. */
  predicate Overdue(s: State, now: int) {
    s.establishStarted.Some? && now >= s.establishStarted.value + s.establishWithin
  }

  /** What the association does in a pump. */
  function DriveOf(s: State, layers: Layers): Drive {
    Driven(s, Start(s.transport, layers).0.started, layers)
  }

  predicate GoesThrough(s: State, layers: Layers) {
    Start(s.transport, layers).1 && DriveOf(s, layers).ok
  }

  predicate BothOpen(c: Channels) {
    c.reliable && c.unreliable
  }

  lemma ReachedAll(controlling: bool, reports: seq<SctpEvent>)
    ensures Reached(controlling, reports, |reports|) <==> forall e | e in reports :: !Errs(controlling, e)
    ensures Reached(controlling, reports, |reports|) ==>
              && (SomeLost(controlling, reports) <==> Lost in reports)
              && (SomeReliable(controlling, reports) <==> exists e | e in reports :: OpensReliable(controlling, e))
              && (SomeUnreliable(controlling, reports) <==> exists e | e in reports :: OpensUnreliable(controlling, e))
  {
    hide Errs, OpensReliable, OpensUnreliable;
    if Reached(controlling, reports, |reports|) {
      assert forall i | 0 <= i < |reports| :: Reached(controlling, reports, i) && reports[i] in reports;
    }
  }

  /** A pump goes through exactly when no layer reports an error, and then leaves what the reports say. */
  lemma DriveExactly(s: State, layers: Layers)
    ensures var d := DriveOf(s, layers);
            && (GoesThrough(s, layers) <==> NoError(s, layers))
            && (NoError(s, layers) ==>
                  && (d.lost <==> Loses(s, layers))
                  && (d.channels.reliable <==> LeavesReliable(s, layers))
                  && (d.channels.unreliable <==> LeavesUnreliable(s, layers)))
  {
    hide SctpEvents, Start, Errs, OpensReliable, OpensUnreliable, Tries, Creates, Refuses;
    StartsExactly(s.transport, layers);
    EventsExactly(s.controlling, s.channels, layers.sctpEvents);
    ReachedAll(s.controlling, layers.sctpEvents);
  }

  lemma OverdueExactly(s: State, now: int)
    ensures PastDeadline(s, now) <==> Overdue(s, now)
  {
  }

  // ---- inputs ----

  /** Whether an input gets as far as pumping the layers. */
  predicate Pumps(s: State, input: Input) {
    match input
    case Packet(_, ice, readOk, _, _) => ice == Some(true) || (ice == Some(false) && s.transport.started && readOk)
    case RemoteDescription(ok, _, _) => ok
    case RemoteCandidate(ok, _, _) => ok
    case Send(ok, _, _) => ok
    case Timeout(ok, _, _) => ok
    case SetEstablishDeadline(_) => false
  }

  /** Before the layers are pumped an accepted description gives the session its role and starts the deadline if it is
      the first, and a new deadline is taken; nothing else a pump depends on changes, but for packets kept or read. */
  lemma PreparesExactly(s: State, input: Input)
    ensures var (s1, next) := Prepare(s, input);
            var described := input.RemoteDescription? && input.ok;
            && (next.Stop? <==> !Pumps(s, input))
            && (next == PumpThenWait <==> Pumps(s, input) && (input.RemoteDescription? || input.Timeout?))
            && s1.controlling == s.controlling && s1.events == s.events && s1.channels == s.channels
            && s1.transport.started == s.transport.started && s1.transport.certificate == s.transport.certificate
            && (s1.transport.role <==> s.transport.role || described)
            && s1.establishWithin == (if input.SetEstablishDeadline? then input.within else s.establishWithin)
            && s1.establishStarted ==
                 (if described && s.establishStarted.None? then Some(input.now) else s.establishStarted)
  {
  }
}
