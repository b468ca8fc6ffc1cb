/** The session as the object it is: fields updated in place, each method doing what its step function says. */
module SessionObject {
  import opened Std
  import S = Session
  import R = SessionRuns
  import SR = SessionReports

  class Session {
    const controlling: bool

    var certificate: bool
    var role: bool
    var early: seq<S.Bytes>
    var started: bool
    var reliable: bool
    var unreliable: bool
    var readyEmitted: bool
    var failedEmitted: bool
    var establishWithin: nat
    var establishStarted: Option<int>
    var output: seq<S.Output>

    ghost var polled: seq<S.Output>
    ghost var arrived: seq<S.Bytes>
    ghost var read: seq<S.Bytes>
    ghost var startedAt: Option<nat>
    ghost var earlyRead: nat

    /** The deadline the session was made with, and every input handled so far. */
    ghost const within: nat
    ghost var inputs: seq<S.Input>

    /** The session is where the transition system gets on the inputs handled so far. */
    ghost predicate Valid()
      reads this
    {
      Life() == S.Run(S.New(controlling, within), inputs)
    }

    ghost function Events(): S.Events
      reads this
    {
      S.Events(readyEmitted, failedEmitted, polled + output)
    }

    ghost function Transport(): S.Transport
      reads this
    {
      S.Transport(certificate, role, early, started, arrived, read, startedAt, earlyRead)
    }

    ghost function Life(): S.State
      reads this
    {
      S.State(controlling, Events(), S.Channels(reliable, unreliable), Transport(), establishWithin, establishStarted)
    }

    constructor (controlling: bool, within: nat)
      ensures Valid() && inputs == [] && Life() == S.New(controlling, within)
    {
      this.controlling, this.within, inputs := controlling, within, [];
      certificate, role, early, started := true, false, [], false;
      reliable, unreliable, readyEmitted, failedEmitted := false, false, false, false;
      establishWithin, establishStarted, output := within, None, [];
      polled, arrived, read, startedAt, earlyRead := [], [], [], None, 0;
    }

    /** Outputs leave in the order they were queued. */
    method Poll() returns (o: Option<S.Output>)
      requires Valid()
      modifies this`output, this`polled
      ensures Valid() && Life() == old(Life())
      ensures if old(output) == [] then o == None && polled == old(polled)
              else o == Some(old(output)[0]) && polled == old(polled) + [old(output)[0]]
    {
      if output == [] {
        return None;
      }
      o := Some(output[0]);
      polled := polled + [output[0]];
      output := output[1..];
      assert polled + output == old(polled + output);
    }

    method Push(o: S.Output)
      modifies this`output
      ensures Events() == S.Emit(old(Events()), o)
    {
      output := output + [o];
      assert polled + output == old(polled + output) + [o];
    }

    method Fail()
      modifies this`failedEmitted, this`output
      ensures Events() == S.Fail(old(Events()))
    {
      if !failedEmitted {
        failedEmitted := true;
        Push(S.Failed);
      }
    }

    method PollIce(events: seq<bool>)
      modifies this`failedEmitted, this`output
      ensures Events() == S.IceEvents(old(Events()), events)
    {
      hide S.Fail;
      for i := 0 to |events|
        invariant Events() == S.IceEvents(old(Events()), events[..i])
      {
        assert events[..i + 1][..i] == events[..i];
        if events[i] {
          Fail();
        }
      }
      assert events[..|events|] == events;
    }

    /** Creates the layers on the selected pair and hands over the packets kept until then, in order. */
    method StartOnSelectedPair(layers: S.Layers) returns (ok: bool)
      modifies this`certificate, this`role, this`early, this`started, this`read, this`startedAt, this`earlyRead
      ensures (Transport(), ok) == S.Start(old(Transport()), layers)
    {
      if started || !layers.selected || !role {
        return true;
      }
      role := false;
      if !certificate {
        return false;
      }
      certificate := false;
      if !layers.dtlsOk || !layers.sctpOk {
        return false;
      }
      started, startedAt := true, Some(|arrived|);
      ok := ReadEarly(layers.earlyError);
    }

    method ReadEarly(error: Option<nat>) returns (ok: bool)
      modifies this`early, this`read, this`earlyRead
      ensures earlyRead == S.EarlyReads(old(early), error)
      ensures early == [] && read == old(read) + old(early)[..earlyRead]
      ensures ok == !(error.Some? && error.value < |old(early)|)
    {
      var packets := early;
      early, earlyRead := [], 0;
      assert read + packets[..0] == read;
      for i := 0 to |packets|
        invariant earlyRead == i && early == [] && read == old(read) + packets[..i]
        invariant error.Some? ==> error.value >= i
      {
        read := read + [packets[i]];
        earlyRead := i + 1;
        assert read == old(read) + packets[..i + 1];
        if error == Some(i) {
          return false;
        }
      }
      ok := true;
    }

    method Open(o: S.Opening)
      modifies this`reliable, this`unreliable
      ensures S.Channels(reliable, unreliable) == S.Opened(old(S.Channels(reliable, unreliable)), o)
    {
      if o.reliable {
        reliable := true;
      }
      if o.unreliable {
        unreliable := true;
      }
    }

    method PollSctp(events: seq<S.SctpEvent>) returns (lost: bool, ok: bool)
      modifies this`reliable, this`unreliable
      ensures S.Drive(S.Channels(reliable, unreliable), lost, ok)
           == S.SctpEvents(controlling, old(S.Channels(reliable, unreliable)), events)
    {
      hide S.Opened;
      lost := false;
      for i := 0 to |events|
        invariant S.Drive(S.Channels(reliable, unreliable), lost, true)
               == S.SctpEvents(controlling, old(S.Channels(reliable, unreliable)), events[..i])
      {
        assert events[..i + 1][..i] == events[..i];
        match events[i] {
          case Connected(opening) =>
            if controlling {
              Open(opening);
              if !opening.ok {
                FirstErrorWins(controlling, old(S.Channels(reliable, unreliable)), events, i + 1);
                return lost, false;
              }
            }
          case Lost =>
            lost := true;
          case OtherEvent =>
        }
      }
      assert events[..|events|] == events;
      ok := true;
    }

    method Pump(layers: S.Layers, now: int) returns (ok: bool)
      modifies this`certificate, this`role, this`early, this`started, this`read, this`startedAt, this`earlyRead,
               this`reliable, this`unreliable, this`readyEmitted, this`failedEmitted, this`output
      ensures (Life(), ok) == S.Pump(old(Life()), layers, now)
    {
      hide S.IceEvents, S.Start, S.Association, S.Fail, S.AnnounceReady, S.CheckDeadline;
      PollIce(layers.iceEvents);
      ok := StartOnSelectedPair(layers);
      if !ok {
        return;
      }
      var lost;
      lost, ok := DriveAssociation(layers);
      if !ok {
        return;
      }
      if lost {
        Fail();
      }
      AnnounceReady();
      CheckDeadline(now);
    }

    method DriveAssociation(layers: S.Layers) returns (lost: bool, ok: bool)
      modifies this`reliable, this`unreliable
      ensures S.Drive(S.Channels(reliable, unreliable), lost, ok) == S.Driven(old(Life()), started, layers)
    {
      hide S.SctpEvents;
      lost, ok := false, true;
      if started {
        lost, ok := PollSctp(layers.sctpEvents);
        if ok {
          Open(layers.drained);
          ok := layers.drained.ok && layers.writesOk;
        }
      }
    }

    method AnnounceReady()
      modifies this`readyEmitted, this`output
      ensures Events() == S.AnnounceReady(old(Events()), S.Channels(reliable, unreliable))
    {
      if reliable && unreliable && !readyEmitted {
        readyEmitted := true;
        Push(S.Ready);
      }
    }

    method CheckDeadline(now: int)
      modifies this`failedEmitted, this`output
      ensures Events() == S.CheckDeadline(old(Events()), S.PastDeadline(Life(), now))
    {
      if !readyEmitted && !failedEmitted && establishStarted.Some? && now >= establishStarted.value + establishWithin {
        Fail();
      }
    }

    method PushWait(timeout: Option<int>, now: int)
      modifies this`output
      ensures Life() == S.PushWait(old(Life()), timeout, now)
    {
      var next := timeout;
      if !readyEmitted && !failedEmitted && establishStarted.Some? {
        var deadline := establishStarted.value + establishWithin;
        if next.None? || deadline < next.value {
          next := Some(deadline);
        }
      }
      if next.Some? {
        Push(S.Wait(Since(next.value, now)));
      }
    }

    method Handle(input: S.Input) returns (ok: bool)
      requires Valid()
      modifies this
      ensures Valid() && inputs == old(inputs) + [input] && polled == old(polled)
      ensures (Life(), ok) == S.Handle(old(Life()), input)
    {
      hide S.Handle;
      ok := Dispatch(input);
      inputs := inputs + [input];
      RunSnoc(S.New(controlling, within), old(inputs), input);
    }

    method Dispatch(input: S.Input) returns (ok: bool)
      modifies this`certificate, this`role, this`early, this`started, this`read, this`startedAt, this`earlyRead,
               this`reliable, this`unreliable, this`readyEmitted, this`failedEmitted, this`output, this`arrived,
               this`establishStarted, this`establishWithin
      ensures (Life(), ok) == S.Handle(old(Life()), input)
    {
      hide S.Pump, S.PumpAndWait, S.TakePacket;
      ok := false;
      match input {
        case Packet(data, ice, readOk, layers, now) =>
          var next := TakePacket(data, ice, readOk);
          if next.JustPump? {
            ok := Pump(layers, now);
          } else {
            ok := next.ok;
          }
        case RemoteDescription(accepted, layers, now) =>
          if accepted {
            role := true;
            if establishStarted.None? {
              establishStarted := Some(now);
            }
            ok := PumpAndWait(layers, now);
          }
        case RemoteCandidate(accepted, layers, now) =>
          if accepted {
            ok := Pump(layers, now);
          }
        case Send(accepted, layers, now) =>
          if accepted {
            ok := Pump(layers, now);
          }
        case Timeout(accepted, layers, now) =>
          if accepted {
            ok := PumpAndWait(layers, now);
          }
        case SetEstablishDeadline(within) =>
          establishWithin := within;
          ok := true;
      }
    }

    method PumpAndWait(layers: S.Layers, now: int) returns (ok: bool)
      modifies this`certificate, this`role, this`early, this`started, this`read, this`startedAt, this`earlyRead,
               this`reliable, this`unreliable, this`readyEmitted, this`failedEmitted, this`output
      ensures (Life(), ok) == S.PumpAndWait(old(Life()), layers, now)
    {
      hide S.Pump, S.PushWait;
      ok := Pump(layers, now);
      if ok {
        PushWait(layers.timeout, now);
      }
    }

    /** A packet ICE does not take goes to DTLS, or is kept until there is one. */
    method TakePacket(data: S.Bytes, ice: Option<bool>, readOk: bool) returns (next: S.Next)
      modifies this`early, this`read, this`arrived
      ensures (Transport(), next) == S.TakePacket(old(Transport()), data, ice, readOk)
      ensures !next.PumpThenWait?
    {
      if ice.None? {
        next := S.Stop(false);
      } else if ice.value {
        next := S.JustPump;
      } else {
        arrived := arrived + [data];
        if started {
          read := read + [data];
          next := if readOk then S.JustPump else S.Stop(false);
        } else {
          if |early| < S.MAX_EARLY_PACKETS {
            early := early + [data];
          }
          next := S.Stop(true);
        }
      }
    }
  }

  lemma {:induction false} FirstErrorWins(controlling: bool, c: S.Channels, events: seq<S.SctpEvent>, i: nat)
    requires i <= |events| && !S.SctpEvents(controlling, c, events[..i]).ok
    ensures S.SctpEvents(controlling, c, events) == S.SctpEvents(controlling, c, events[..i])
    decreases |events|
  {
    if i == |events| {
      assert events[..i] == events;
    } else {
      assert events[..|events| - 1][..i] == events[..i];
      FirstErrorWins(controlling, c, events[..|events| - 1], i);
    }
  }

  lemma RunSnoc(s: S.State, inputs: seq<S.Input>, input: S.Input)
    ensures S.Run(s, inputs + [input]) == S.Handle(S.Run(s, inputs), input).0
  {
    hide S.Handle;
    assert (inputs + [input])[..|inputs|] == inputs;
  }

  /** What every run promises, every session keeps, whatever it has handled. */
  lemma SessionKeepsPromises(x: Session)
    requires x.Valid()
    ensures R.Times(x.polled + x.output, S.Ready) <= 1 && R.Times(x.polled + x.output, S.Failed) <= 1
    ensures x.establishStarted == R.FirstDescription(x.inputs)
    ensures R.InOrder(x.Transport())
    ensures (forall i | 0 <= i < |x.inputs| :: R.NoEarlyError(x.inputs[i])) ==> R.AllEarlyRead(x.Transport())
    ensures SR.Late(x.polled + x.output) <==>
              exists k | 0 <= k < |x.inputs| :: SR.LateAt(S.New(x.controlling, x.within), x.inputs, k)
  {
    hide S.Run, R.Times, R.FirstDescription, R.InOrder, R.AllEarlyRead, R.NoEarlyError, SR.Late, SR.LateAt;
    R.EventsAreEmittedOnce(x.controlling, x.within, x.inputs);
    R.DeadlineIsFixed(x.controlling, x.within, x.inputs);
    R.EarlyPacketsComeFirst(x.controlling, x.within, x.inputs);
    SR.ReadyFollowsFailedExactlyWhen(x.controlling, x.within, x.inputs);
  }
}
