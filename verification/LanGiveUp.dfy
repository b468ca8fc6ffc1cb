/** A pending signal is given up: every due update uses up part of a budget that nothing refills. */
module LanGiveUp {
  import opened Std
  import opened Lan
  import opened LanRetransmission
  import Packet
  import ServerRecord
  import S = Signals

  function Find(pending: seq<PendingSignal>, tag: nat): (r: Option<PendingSignal>)
    ensures r.Some? ==> r.value in pending && r.value.tag == tag
    ensures r.None? ==> forall p | p in pending :: p.tag != tag
  {
    if pending == [] then None
    else if pending[|pending| - 1].tag == tag then Some(pending[|pending| - 1])
    else Find(pending[..|pending| - 1], tag)
  }

  /** Due updates a pending signal can still outlast, counting the one that drops it; zero once it is gone. */
  function Left(s: State, tag: nat): int {
    match Find(s.pending, tag)
    case None => 0
    case Some(p) => 2 + s.config.signalRetries - p.attempts
  }

  predicate IsDue(s: State, input: Input, tag: nat) {
    var p := Find(s.pending, tag);
    input.Update? && p.Some? && p.value.nextSend <= input.now
  }

  function DueUpdates(s: State, inputs: seq<Input>, tag: nat): nat {
    if inputs == [] then 0
    else
      var init := inputs[..|inputs| - 1];
      DueUpdates(s, init, tag) + if IsDue(Run(s, init), inputs[|inputs| - 1], tag) then 1 else 0
  }

  lemma {:induction false} SendAllShrinks(s: State, due: seq<PendingSignal>, now: int)
    ensures forall p | p in SendAll(s, due, now).pending :: p in s.pending
    decreases |due|
  {
    hide Packet.Encode, S.ToText;
    if due != [] {
      match SendSignal(s, due[0].signal, due[0].target, due[0].tag, now)
      case Ok(s1) => SendAllShrinks(s1, due[1..], now);
      case Err(_) => SendAllShrinks(Forget(s, due[0].signal, due[0].target), due[1..], now);
    }
  }

  /** Where an entry found after a step comes from. */
  ghost predicate Origin(s: State, input: Input, e: PendingSignal) {
    e.tag == |s.submissions| || exists p :: p in s.pending && Continues(s, input, p, e)
  }

  predicate Continues(s: State, input: Input, p: PendingSignal, e: PendingSignal) {
    if input.Update? then Survives(p, e, s.config, input.now) else e == p
  }

  lemma UpdateOrigin(s: State, now: int)
    requires Inv(s)
    ensures forall e | e in HandleUpdate(s, now).pending :: Origin(s, Update(now), e)
  {
    hide SendAll, NextTimer;
    var s1 := s.(pending := Survivors(s.pending, s.config, now));
    SurvivorsOrigin(s.pending, s.config, now);
    SendAllShrinks(s1, Due(s.pending, s.config, now), now);
    forall e | e in HandleUpdate(s, now).pending
      ensures Origin(s, Update(now), e)
    {
      assert e in s1.pending;
      var p :| p in s.pending && Survives(p, e, s.config, now);
      assert Continues(s, Update(now), p, e);
    }
  }

  lemma OtherOrigin(s: State, input: Input)
    requires !input.Update?
    ensures forall e | e in Handle(s, input).0.pending :: e.tag == |s.submissions| || e in s.pending
  {
    hide Packet.Encode, Packet.Decode, ServerRecord.Decode, ServerRecord.Serialize, S.ToText, S.FromText;
  }

  lemma HandleOrigin(s: State, input: Input)
    requires Inv(s)
    ensures forall e | e in Handle(s, input).0.pending :: Origin(s, input, e)
  {
    hide HandleDatagram, HandleSignal, HandleUpdate;
    if input.Update? {
      UpdateOrigin(s, input.now);
    } else {
      OtherOrigin(s, input);
      forall e | e in Handle(s, input).0.pending
        ensures Origin(s, input, e)
      {
        assert e in s.pending ==> Continues(s, input, e, e);
      }
    }
  }

  /** The budget never grows, and a due update spends from it. */
  lemma StepSpends(s: State, input: Input, tag: nat)
    requires Inv(s) && tag < |s.submissions|
    ensures (if IsDue(s, input, tag) then 1 else 0) + Left(Handle(s, input).0, tag) <= Left(s, tag)
  {
    hide Handle;
    var s' := Handle(s, input).0;
    HandleInv(s, input);
    HandleOrigin(s, input);
    HandleConfig(s, input);
    var before := Find(s.pending, tag);
    match Find(s'.pending, tag)
    case None =>
      if before.Some? {
        var i :| 0 <= i < |s.pending| && s.pending[i] == before.value;
        assert EntryOk(s.config, s.submissions, s.history, s.pending[i]);
      }
    case Some(e) =>
      assert Origin(s, input, e);
      var p :| p in s.pending && Continues(s, input, p, e);
      UniqueTag(s.pending, p, before.value);
  }

  lemma LeftBound(s: State, tag: nat)
    requires Inv(s)
    ensures 0 <= Left(s, tag) <= 1 + s.config.signalRetries
    ensures Left(s, tag) == 0 <==> Find(s.pending, tag).None?
  {
    var p := Find(s.pending, tag);
    if p.Some? {
      var i :| 0 <= i < |s.pending| && s.pending[i] == p.value;
      assert EntryOk(s.config, s.submissions, s.history, s.pending[i]);
    }
  }

  lemma SubmissionsGrow(s: State, input: Input)
    ensures s.submissions <= Handle(s, input).0.submissions
  {
    hide Packet.Encode, Packet.Decode, ServerRecord.Decode, ServerRecord.Serialize, S.ToText, S.FromText, SendAll, NextTimer;
    if input.Update? {
      var now := input.now;
      SendAllSubmissions(s.(pending := Survivors(s.pending, s.config, now)), Due(s.pending, s.config, now), now);
    }
  }

  lemma {:induction false} SendAllSubmissions(s: State, due: seq<PendingSignal>, now: int)
    ensures SendAll(s, due, now).submissions == s.submissions && SendAll(s, due, now).published == s.published
    decreases |due|
  {
    hide Packet.Encode, S.ToText;
    if due != [] {
      match SendSignal(s, due[0].signal, due[0].target, due[0].tag, now)
      case Ok(s1) => SendAllSubmissions(s1, due[1..], now);
      case Err(_) => SendAllSubmissions(Forget(s, due[0].signal, due[0].target), due[1..], now);
    }
  }

  lemma {:induction false} RunSpends(s: State, inputs: seq<Input>, tag: nat)
    requires Inv(s) && tag < |s.submissions|
    ensures Inv(Run(s, inputs)) && tag < |Run(s, inputs).submissions|
    ensures DueUpdates(s, inputs, tag) + Left(Run(s, inputs), tag) <= Left(s, tag)
  {
    hide Handle, IsDue, Left;
    if inputs != [] {
      var init, last := inputs[..|inputs| - 1], inputs[|inputs| - 1];
      var s1 := Run(s, init);
      RunSpends(s, init, tag);
      StepSpends(s1, last, tag);
      HandleInv(s1, last);
      SubmissionsGrow(s1, last);
    }
  }

  /** Whatever happens after any run, a signal sees at most `signal_retries + 1` due updates, and once it has seen
      them all it is no longer pending. */
  lemma GivenUp(networkId: Codec.u64, config: Config, before: seq<Input>, after: seq<Input>, tag: nat)
    requires tag < |Run(New(networkId, config), before).submissions|
    ensures var s := Run(New(networkId, config), before);
            && DueUpdates(s, after, tag) <= 1 + config.signalRetries
            && (DueUpdates(s, after, tag) == 1 + config.signalRetries ==> Find(Run(s, after).pending, tag).None?)
  {
    var s := Run(New(networkId, config), before);
    RunInv(networkId, config, before);
    RunConfig(networkId, config, before);
    RunSpends(s, after, tag);
    LeftBound(s, tag);
    LeftBound(Run(s, after), tag);
  }
}
