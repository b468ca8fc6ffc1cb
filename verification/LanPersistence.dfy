/** A signal that is not answered is transmitted again at every due update until its retries are used up. */
module LanPersistence {
  import opened Std
  import opened Codec
  import opened Lan
  import opened LanRetransmission
  import opened LanGiveUp
  import opened LanDelivery
  import opened LanUpdates
  import Packet
  import ServerRecord
  import Utf8
  import S = Signals
  import T = Text

  lemma {:induction false} FindIs(pending: seq<PendingSignal>, e: PendingSignal)
    requires e in pending && DistinctTags(pending)
    ensures Find(pending, e.tag) == Some(e)
  {
    UniqueTag(pending, e, Find(pending, e.tag).value);
  }

  lemma {:induction false} SendAllKeeps(s: State, due: seq<PendingSignal>, now: int, e: PendingSignal)
    requires e in s.pending && Sendable(s, e)
    ensures e in SendAll(s, due, now).pending
    decreases |due|
  {
    hide SendSignal, Fits, Carries;
    if due != [] {
      SendExactly(s, due[0], now);
      match SendSignal(s, due[0].signal, due[0].target, due[0].tag, now)
      case Ok(s1) => SendAllKeeps(s1, due[1..], now, e);
      case Err(_) => SendAllKeeps(Forget(s, due[0].signal, due[0].target), due[1..], now, e);
    }
  }

  lemma {:induction false} SurvivorsHave(pending: seq<PendingSignal>, config: Config, now: int, p: PendingSignal, e: PendingSignal)
    requires p in pending && Survives(p, e, config, now)
    ensures e in Survivors(pending, config, now)
  {
    if pending[|pending| - 1] != p {
      assert p in pending[..|pending| - 1];
      SurvivorsHave(pending[..|pending| - 1], config, now, p, e);
    }
  }

  /** Whether the tag is sent among these. */
  predicate SentAmong(s: State, due: seq<PendingSignal>, tag: nat) {
    exists i | 0 <= i < |due| :: due[i].tag == tag && Sendable(s, due[i])
  }

  lemma {:induction false} SendAllCounts(s: State, due: seq<PendingSignal>, now: int, tag: nat)
    requires DistinctTags(due)
    ensures SentCount(SendAll(s, due, now).history, tag) ==
              SentCount(s.history, tag) + if SentAmong(s, due, tag) then 1 else 0
    decreases |due|
  {
    hide SendSignal, Fits, Carries;
    if due != [] {
      var rest := due[1..];
      assert forall i | 0 < i < |due| :: due[i] == rest[i - 1];
      SendExactly(s, due[0], now);
      match SendSignal(s, due[0].signal, due[0].target, due[0].tag, now)
      case Ok(s1) =>
        SentCountSnoc(s.history, Sent(due[0].tag, now), tag);
        SendAllCounts(s1, rest, now, tag);
        AmongRest(s, s1, due, tag);
      case Err(_) =>
        var s1 := Forget(s, due[0].signal, due[0].target);
        SendAllCounts(s1, rest, now, tag);
        AmongRest(s, s1, due, tag);
    }
  }

  lemma AmongRest(s: State, s': State, due: seq<PendingSignal>, tag: nat)
    requires due != [] && s'.addresses == s.addresses && DistinctTags(due)
    ensures SentAmong(s, due, tag) <==> SentAmong(s', due[1..], tag) || (due[0].tag == tag && Sendable(s, due[0]))
    ensures due[0].tag == tag ==> !SentAmong(s', due[1..], tag)
  {
    hide Fits;
    var rest := due[1..];
    assert forall i | 0 <= i < |rest| :: rest[i] == due[i + 1];
    if SentAmong(s, due, tag) {
      var i :| 0 <= i < |due| && due[i].tag == tag && Sendable(s, due[i]);
      assert i > 0 ==> rest[i - 1] == due[i];
    }
  }

  /** The same signal, `n` transmissions later. */
  predicate Later(p: PendingSignal, e: PendingSignal, n: nat) {
    e.signal == p.signal && e.target == p.target && e.tag == p.tag && e.attempts == p.attempts + n
  }

  lemma TagsDiffer(s: State)
    requires Inv(s)
    ensures DistinctTags(s.pending)
  {
  }

  lemma DueIsSent(s: State, s0: State, due: seq<PendingSignal>, now: int, p: PendingSignal)
    requires DistinctTags(s.pending) && p in s.pending && Sendable(s, p) && s0.addresses == s.addresses
    requires due == Due(s.pending, s.config, now)
    ensures SentAmong(s0, due, p.tag) <==> p.nextSend <= now && p.attempts <= s.config.signalRetries
  {
    hide Fits;
    if p.nextSend <= now && p.attempts <= s.config.signalRetries {
      assert p in due;
      var i :| 0 <= i < |due| && due[i] == p;
    }
    if SentAmong(s0, due, p.tag) {
      var i :| 0 <= i < |due| && due[i].tag == p.tag;
      assert due[i] in due;
      UniqueTag(s.pending, p, due[i]);
    }
  }

  lemma Exhausted(s: State, now: int, p: PendingSignal)
    requires Inv(s) && p in s.pending && p.nextSend <= now && p.attempts > s.config.signalRetries
    ensures Find(HandleUpdate(s, now).pending, p.tag) == None
  {
    hide HandleUpdate, Handle;
    UpdateOrigin(s, now);
    TagIsOld(s, p);
    forall q | q in s.pending && q.tag == p.tag
      ensures q == p
    {
      UniqueTag(s.pending, p, q);
    }
  }

  lemma TagIsOld(s: State, p: PendingSignal)
    requires Inv(s) && p in s.pending
    ensures p.tag < |s.submissions|
  {
    var i :| 0 <= i < |s.pending| && s.pending[i] == p;
    assert EntryOk(s.config, s.submissions, s.history, s.pending[i]);
  }

  lemma UpdateCounts(s: State, now: int, p: PendingSignal)
    requires Inv(s) && p in s.pending && Sendable(s, p)
    ensures SentCount(HandleUpdate(s, now).history, p.tag) ==
              SentCount(s.history, p.tag) + if p.nextSend <= now && p.attempts <= s.config.signalRetries then 1 else 0
  {
    hide SendAll, NextTimer, Survivors, RequestDatagram, Fits, Inv, SentCount;
    var due := Due(s.pending, s.config, now);
    var s0 := s.(pending := Survivors(s.pending, s.config, now));
    TagsDiffer(s);
    var f := (q: PendingSignal) => q.nextSend <= now && q.attempts <= s.config.signalRetries;
    KeepDistinct(s.pending, f);
    SendAllCounts(s0, due, now, p.tag);
    DueIsSent(s, s0, due, now, p);
  }

  lemma UpdateKeeps(s: State, now: int, p: PendingSignal)
    requires Inv(s) && p in s.pending && Sendable(s, p) && (p.nextSend > now || p.attempts <= s.config.signalRetries)
    ensures var e := if p.nextSend > now then p else Rearmed(p, s.config, now);
            Find(HandleUpdate(s, now).pending, p.tag) == Some(e)
  {
    hide SendAll, NextTimer, Survivors, RequestDatagram, Fits, Inv;
    var s0 := s.(pending := Survivors(s.pending, s.config, now));
    var e := if p.nextSend > now then p else Rearmed(p, s.config, now);
    SurvivorsHave(s.pending, s.config, now, p, e);
    SendAllKeeps(s0, Due(s.pending, s.config, now), now, e);
    HandleInv(s, Update(now));
    TagsDiffer(HandleUpdate(s, now));
    FindIs(HandleUpdate(s, now).pending, e);
  }

  /** An update transmits a due signal once and schedules the next transmission an interval later, until its retries are
      used up; then it drops it. It leaves a signal that is not due alone. */
  lemma UpdatePersists(s: State, now: int, p: PendingSignal)
    requires Inv(s) && p in s.pending && Sendable(s, p)
    ensures var s' := HandleUpdate(s, now);
            var sent := SentCount(s'.history, p.tag) - SentCount(s.history, p.tag);
            if p.nextSend > now then sent == 0 && Find(s'.pending, p.tag) == Some(p)
            else if p.attempts > s.config.signalRetries then sent == 0 && Find(s'.pending, p.tag) == None
            else
              && sent == 1
              && var e := Find(s'.pending, p.tag);
              e.Some? && Later(p, e.value, 1) && e.value.nextSend >= now
              && Interval(s.config, p.signal, e.value.nextSend - now)
  {
    hide HandleUpdate, Inv, SentCount, Find, Fits;
    UpdateCounts(s, now, p);
    if p.nextSend > now || p.attempts <= s.config.signalRetries {
      UpdateKeeps(s, now, p);
    } else {
      Exhausted(s, now, p);
    }
  }

  // ---- every input ----

  /** The input brings a signal from this peer under this connection id. */
  predicate Replies(s: State, input: Input, peer: u64, connectionId: u64) {
    && input.Datagram? && Heard(s, input.buf, input.addr, input.now)
    && var (packet, sender) := Packet.Decode(input.buf).value;
    && packet.Message? && packet.recipientId == s.networkId && sender == peer
    && var m := S.FromText(packet.data, T.Show(sender));
    && m.Some? && m.value.connectionId == connectionId
  }

  lemma DatagramPersists(s: State, input: Input, p: PendingSignal)
    requires input.Datagram? && p in s.pending && !Replies(s, input, p.target, p.signal.connectionId)
    ensures var s' := Handle(s, input).0;
            p in s'.pending && SentCount(s'.history, p.tag) == SentCount(s.history, p.tag)
  {
    hide Packet.Decode, Packet.Encode, ServerRecord.Decode, ServerRecord.Serialize, S.FromText, SentCount;
    var (buf, addr, now) := (input.buf, input.addr, input.now);
    if !Heard(s, buf, addr, now) {
      UnheardIsIgnored(s, buf, addr, now);
    } else {
      var (packet, sender) := Packet.Decode(buf).value;
      SentCountSnoc(s.history, Accepted(sender, addr, now), p.tag);
      if packet.Message? && S.FromText(packet.data, T.Show(sender)).Some? {
        var m := S.FromText(packet.data, T.Show(sender)).value;
        SentCountSnoc(s.history + [Accepted(sender, addr, now)], Replied(sender, m.connectionId, |s.submissions|), p.tag);
      }
    }
  }

  lemma SubmitPersists(s: State, signal: S.Signal, now: int, p: PendingSignal)
    requires Inv(s) && p in s.pending
    ensures var s' := HandleSignal(s, signal, now).0;
            p in s'.pending && SentCount(s'.history, p.tag) == SentCount(s.history, p.tag)
  {
    hide Packet.Encode, S.ToText, T.ParseUnsigned, SentCount, Inv;
    TagIsOld(s, p);
    SentCountSnoc(s.history, Sent(|s.submissions|, now), p.tag);
  }

  /** No other input costs a pending signal anything, unless it is the answer. */
  lemma OthersPersist(s: State, input: Input, p: PendingSignal)
    requires Inv(s) && p in s.pending && !input.Update? && !Replies(s, input, p.target, p.signal.connectionId)
    ensures var s' := Handle(s, input).0;
            Find(s'.pending, p.tag) == Some(p) && SentCount(s'.history, p.tag) == SentCount(s.history, p.tag)
  {
    hide HandleDatagram, HandleSignal, SentCount, Inv, Replies;
    HandleInv(s, input);
    TagsDiffer(Handle(s, input).0);
    match input {
      case Datagram(_, _, _) => DatagramPersists(s, input, p);
      case Submit(signal, now) => SubmitPersists(s, signal, now, p);
      case SetServerData(_) =>
    }
    FindIs(Handle(s, input).0.pending, p);
  }

  lemma {:induction false} GoneStaysGone(s: State, input: Input, tag: nat)
    requires Inv(s) && tag < |s.submissions| && Find(s.pending, tag) == None
    ensures Find(Handle(s, input).0.pending, tag) == None
  {
    hide Handle, Inv;
    HandleOrigin(s, input);
  }

  // ---- runs ----

  /** All along the peer's address is known and no answer comes. */
  ghost predicate NoAnswer(s: State, inputs: seq<Input>, peer: u64, connectionId: u64) {
    forall k | 0 <= k < |inputs| ::
      var s1 := Run(s, inputs[..k]);
      peer in s1.addresses && !Replies(s1, inputs[k], peer, connectionId)
  }

  /** After `due` due updates, from `left` transmissions left. */
  predicate Tried(s: State, s': State, p: PendingSignal, due: nat, left: nat) {
    && SentCount(s'.history, p.tag) == SentCount(s.history, p.tag) + Min(due, left)
    && var e := Find(s'.pending, p.tag);
    if due <= left then e.Some? && Later(p, e.value, due) else e.None?
  }

  lemma StepTries(s: State, s1: State, input: Input, p: PendingSignal, due: nat, left: nat)
    requires Inv(s1) && p.tag < |s1.submissions| && Fits(p.signal) && s1.config == s.config
    requires left == 1 + s.config.signalRetries - p.attempts && Tried(s, s1, p, due, left)
    requires p.target in s1.addresses && !Replies(s1, input, p.target, p.signal.connectionId)
    ensures Tried(s, Handle(s1, input).0, p, due + if IsDue(s1, input, p.tag) then 1 else 0, left)
  {
    hide Handle, Inv, SentCount, Find, Fits, Replies;
    if due <= left {
      var e := Find(s1.pending, p.tag).value;
      if input.Update? {
        HandleIsUpdate(s1, input.now);
        UpdatePersists(s1, input.now, e);
      } else {
        OthersPersist(s1, input, e);
      }
    } else {
      GoneStaysGone(s1, input, p.tag);
      GoneIsSilent(s1, input, p.tag);
    }
  }

  lemma HandleIsUpdate(s: State, now: int)
    ensures Handle(s, Update(now)).0 == HandleUpdate(s, now)
  {
    hide HandleUpdate;
  }

  lemma GoneIsSilent(s: State, input: Input, tag: nat)
    requires Inv(s) && tag < |s.submissions| && Find(s.pending, tag) == None
    ensures SentCount(Handle(s, input).0.history, tag) == SentCount(s.history, tag)
  {
    hide Packet.Decode, Packet.Encode, ServerRecord.Decode, ServerRecord.Serialize, S.FromText, S.ToText, T.ParseUnsigned,
      SentCount, Inv, SendAll, NextTimer, Survivors, Fits, RequestDatagram;
    match input
    case Datagram(buf, addr, now) =>
      if Packet.Decode(buf).Some? {
        var (packet, sender) := Packet.Decode(buf).value;
        SentCountSnoc(s.history, Accepted(sender, addr, now), tag);
        if packet.Message? && S.FromText(packet.data, T.Show(sender)).Some? {
          var m := S.FromText(packet.data, T.Show(sender)).value;
          SentCountSnoc(s.history + [Accepted(sender, addr, now)], Replied(sender, m.connectionId, |s.submissions|), tag);
        }
      }
    case Submit(signal, now) => SentCountSnoc(s.history, Sent(|s.submissions|, now), tag);
    case SetServerData(_) =>
    case Update(now) =>
      var due := Due(s.pending, s.config, now);
      TagsDiffer(s);
      var f := (q: PendingSignal) => q.nextSend <= now && q.attempts <= s.config.signalRetries;
      KeepDistinct(s.pending, f);
      SendAllCounts(s.(pending := Survivors(s.pending, s.config, now)), due, now, tag);
      assert forall i | 0 <= i < |due| :: due[i] in due;
  }

  /** While its target is known and does not answer, a pending signal is transmitted once at every due update until its
      retries are used up, and stays pending until the update after that. */
  lemma {:induction false} KeepsTrying(s: State, inputs: seq<Input>, p: PendingSignal)
    requires Inv(s) && p in s.pending && Fits(p.signal)
    requires NoAnswer(s, inputs, p.target, p.signal.connectionId)
    ensures p.attempts <= 1 + s.config.signalRetries && Inv(Run(s, inputs)) && p.tag < |Run(s, inputs).submissions|
    ensures Run(s, inputs).config == s.config
    ensures Tried(s, Run(s, inputs), p, DueUpdates(s, inputs, p.tag), 1 + s.config.signalRetries - p.attempts)
  {
    hide Handle, Inv, SentCount, Find, Fits, Replies, IsDue;
    AttemptsBounded(s, p);
    if inputs == [] {
      TagIsOld(s, p);
      TagsDiffer(s);
      FindIs(s.pending, p);
    } else {
      var (init, last) := (inputs[..|inputs| - 1], inputs[|inputs| - 1]);
      var s1 := Run(s, init);
      assert forall k | 0 <= k < |init| :: inputs[..k] == init[..k];
      assert p.target in s1.addresses && !Replies(s1, last, p.target, p.signal.connectionId) by {
        assert inputs[..|init|] == init;
      }
      KeepsTrying(s, init, p);
      StepTries(s, s1, last, p, DueUpdates(s, init, p.tag), 1 + s.config.signalRetries - p.attempts);
      HandleInv(s1, last);
      HandleConfig(s1, last);
      SubmissionsGrow(s1, last);
    }
  }

  lemma AttemptsBounded(s: State, p: PendingSignal)
    requires Inv(s) && p in s.pending
    ensures 1 <= p.attempts <= 1 + s.config.signalRetries
  {
    var i :| 0 <= i < |s.pending| && s.pending[i] == p;
    assert EntryOk(s.config, s.submissions, s.history, s.pending[i]);
  }

  /** A signal that was accepted while retries are allowed is transmitted once, and once more at every due update until
      it has been transmitted `1 + signal_retries` times, as long as its target is known and does not answer. */
  lemma SubmissionKeepsTrying(s: State, signal: S.Signal, now: int, inputs: seq<Input>)
    requires Inv(s) && s.config.signalRetries > 0 && HandleSignal(s, signal, now).1 == None
    requires NoAnswer(HandleSignal(s, signal, now).0, inputs,
                      T.ParseUnsigned(signal.networkId, T.MAX_U64).value, signal.connectionId)
    ensures var s1 := HandleSignal(s, signal, now).0;
            SentCount(Run(s1, inputs).history, |s.submissions|) ==
              1 + Min(DueUpdates(s1, inputs, |s.submissions|), s.config.signalRetries)
  {
    hide HandleSignal, Handle, Inv, SentCount, Fits, Replies, IsDue, T.ParseUnsigned, Run, DueUpdates, Find, Carries;
    SubmissionIsSent(s, signal, now);
    var s1 := HandleSignal(s, signal, now).0;
    var p := s1.pending[|s.pending|];
    SubmitInv(s, signal, now);
    FirstTransmission(s, signal, now);
    KeepsTrying(s1, inputs, p);
  }

  lemma SubmitInv(s: State, signal: S.Signal, now: int)
    requires Inv(s)
    ensures Inv(HandleSignal(s, signal, now).0)
  {
    hide HandleSignal, Inv;
    HandleSignalInv(s, signal, now);
  }

  lemma FirstTransmission(s: State, signal: S.Signal, now: int)
    requires Inv(s) && HandleSignal(s, signal, now).1 == None
    ensures SentCount(HandleSignal(s, signal, now).0.history, |s.submissions|) == 1
  {
    hide Packet.Encode, S.ToText, T.ParseUnsigned, SentCount;
    UnknownNeverSent(s.submissions, s.history, |s.submissions|);
    SentCountSnoc(s.history, Sent(|s.submissions|, now), |s.submissions|);
  }
}
