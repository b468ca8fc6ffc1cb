/** Over every run of a LAN signaler: how often, how densely and until when a signal is transmitted. */
module LanRetransmission {
  import opened Std
  import opened Codec
  import opened Text
  import opened Lan
  import S = Signals
  import Packet
  import ServerRecord

  function Target(signal: S.Signal): Option<nat> {
    ParseUnsigned(signal.networkId, MAX_U64)
  }

  function SentCount(history: seq<Event>, tag: nat): nat {
    if history == [] then 0
    else
      var last := history[|history| - 1];
      SentCount(history[..|history| - 1], tag) + if last.Sent? && last.tag == tag then 1 else 0
  }

  // ---- the three promises, as properties of a history ----

  ghost predicate AtMost(history: seq<Event>, limit: nat) {
    forall tag: nat :: SentCount(history, tag) <= limit
  }

  ghost predicate Spaced(config: Config, submissions: seq<S.Signal>, history: seq<Event>) {
    forall i, j | 0 <= i < j < |history| && history[i].Sent? && history[j].Sent?
                  && history[i].tag == history[j].tag < |submissions| ::
      history[i].at + RetryInterval(config, submissions[history[i].tag]) <= history[j].at
  }

  predicate Answers(reply: Event, submissions: seq<S.Signal>, tag: nat)
    requires reply.Replied?
  {
    && tag < |submissions|
    && tag < reply.submitted
    && Target(submissions[tag]) == Some(reply.peer)
    && submissions[tag].connectionId == reply.connectionId
  }

  ghost predicate SilentOnceAnswered(submissions: seq<S.Signal>, history: seq<Event>) {
    forall i, j | 0 <= i < j < |history| && history[i].Replied? && history[j].Sent? ::
      !Answers(history[i], submissions, history[j].tag)
  }

  // ---- the invariant behind them ----

  ghost predicate Known(submissions: seq<S.Signal>, history: seq<Event>) {
    forall i | 0 <= i < |history| ::
      && (history[i].Sent? ==> history[i].tag < |submissions|)
      && (history[i].Replied? ==> history[i].submitted <= |submissions|)
  }

  ghost predicate Good(config: Config, submissions: seq<S.Signal>, history: seq<Event>) {
    && AtMost(history, 1 + config.signalRetries)
    && Spaced(config, submissions, history)
    && SilentOnceAnswered(submissions, history)
    && Known(submissions, history)
  }

  ghost predicate NotSentAfter(history: seq<Event>, tag: nat, interval: nat, next: int) {
    forall i | 0 <= i < |history| && history[i].Sent? && history[i].tag == tag :: history[i].at + interval <= next
  }

  ghost predicate Unreplied(submissions: seq<S.Signal>, history: seq<Event>, tag: nat) {
    forall i | 0 <= i < |history| && history[i].Replied? :: !Answers(history[i], submissions, tag)
  }

  ghost predicate EntryOk(config: Config, submissions: seq<S.Signal>, history: seq<Event>, e: PendingSignal) {
    && e.tag < |submissions|
    && submissions[e.tag] == e.signal
    && Target(e.signal) == Some(e.target)
    && 1 <= e.attempts <= 1 + config.signalRetries
    && SentCount(history, e.tag) <= e.attempts
    && NotSentAfter(history, e.tag, RetryInterval(config, e.signal), e.nextSend)
    && Unreplied(submissions, history, e.tag)
  }

  ghost predicate EntriesOk(config: Config, submissions: seq<S.Signal>, history: seq<Event>, es: seq<PendingSignal>) {
    forall i | 0 <= i < |es| :: EntryOk(config, submissions, history, es[i])
  }

  predicate DistinctTags(es: seq<PendingSignal>) {
    forall i, j | 0 <= i < j < |es| :: es[i].tag != es[j].tag
  }

  ghost predicate Inv(s: State) {
    && Good(s.config, s.submissions, s.history)
    && EntriesOk(s.config, s.submissions, s.history, s.pending)
    && DistinctTags(s.pending)
  }

  // ---- growing the history ----

  lemma SentCountSnoc(history: seq<Event>, x: Event, tag: nat)
    ensures SentCount(history + [x], tag) == SentCount(history, tag) + if x.Sent? && x.tag == tag then 1 else 0
  {
    assert (history + [x])[..|history|] == history;
  }

  lemma {:induction false} UnknownNeverSent(submissions: seq<S.Signal>, history: seq<Event>, tag: nat)
    requires Known(submissions, history) && tag >= |submissions|
    ensures SentCount(history, tag) == 0
  {
    if history != [] {
      UnknownNeverSent(submissions, history[..|history| - 1], tag);
    }
  }

  /** A transmission is fine when the tag has one left, its interval has passed and no reply answers it. */
  lemma GoodSent(config: Config, submissions: seq<S.Signal>, history: seq<Event>, tag: nat, now: int)
    requires Good(config, submissions, history)
    requires tag < |submissions|
    requires SentCount(history, tag) <= config.signalRetries
    requires NotSentAfter(history, tag, RetryInterval(config, submissions[tag]), now)
    requires Unreplied(submissions, history, tag)
    ensures Good(config, submissions, history + [Sent(tag, now)])
  {
    forall t: nat {
      SentCountSnoc(history, Sent(tag, now), t);
    }
  }

  lemma GoodOther(config: Config, submissions: seq<S.Signal>, history: seq<Event>, x: Event)
    requires Good(config, submissions, history)
    requires x.Accepted? || (x.Replied? && x.submitted <= |submissions|)
    ensures Good(config, submissions, history + [x])
  {
    forall t: nat {
      SentCountSnoc(history, x, t);
    }
  }

  lemma GoodSubmission(config: Config, submissions: seq<S.Signal>, history: seq<Event>, signal: S.Signal)
    requires Good(config, submissions, history)
    ensures Good(config, submissions + [signal], history)
  {
  }

  /** An event that neither sends nor answers an entry leaves it as it was. */
  lemma EntryFrame(config: Config, submissions: seq<S.Signal>, history: seq<Event>, x: Event, e: PendingSignal)
    requires EntryOk(config, submissions, history, e)
    requires x.Sent? ==> x.tag != e.tag
    requires x.Replied? ==> !Answers(x, submissions, e.tag)
    ensures EntryOk(config, submissions, history + [x], e)
  {
    SentCountSnoc(history, x, e.tag);
  }

  lemma DistinctSnoc(es: seq<PendingSignal>, e: PendingSignal)
    requires DistinctTags(es) && forall x | x in es :: x.tag != e.tag
    ensures DistinctTags(es + [e])
  {
    forall i | 0 <= i < |es|
      ensures (es + [e])[i].tag != e.tag
    {
      assert es[i] in es;
    }
  }

  lemma KeepDistinct(es: seq<PendingSignal>, f: PendingSignal -> bool)
    requires DistinctTags(es)
    ensures DistinctTags(Keep(es, f))
  {
    KeepPairwise(es, f, (a: PendingSignal, b: PendingSignal) => a.tag != b.tag);
  }

  lemma KeepEntries(config: Config, submissions: seq<S.Signal>, history: seq<Event>, es: seq<PendingSignal>,
                    f: PendingSignal -> bool)
    requires EntriesOk(config, submissions, history, es)
    ensures EntriesOk(config, submissions, history, Keep(es, f))
  {
    var r := Keep(es, f);
    KeepMembers(es, f);
    forall i | 0 <= i < |r|
      ensures EntryOk(config, submissions, history, r[i])
    {
      assert r[i] in r;
    }
  }

  // ---- datagrams ----

  lemma AcceptInv(s: State, sender: u64, addr: Net.SocketAddr, now: int)
    requires Inv(s)
    ensures Inv(Accept(s, sender, addr, now))
  {
    var x := Accepted(sender, addr, now);
    GoodOther(s.config, s.submissions, s.history, x);
    forall i | 0 <= i < |s.pending| {
      EntryFrame(s.config, s.submissions, s.history, x, s.pending[i]);
    }
  }

  lemma ReceiveInv(s: State, sender: u64, recipient: u64, text: string)
    requires Inv(s)
    ensures Inv(Receive(s, sender, recipient, text))
  {
    var s' := Receive(s, sender, recipient, text);
    if s' != s {
      var signal := S.FromText(text, Show(sender)).value;
      var x := Replied(sender, signal.connectionId, |s.submissions|);
      var f := (p: PendingSignal) => p.target != sender || p.signal.connectionId != signal.connectionId;
      assert s'.pending == Keep(s.pending, f);
      GoodOther(s.config, s.submissions, s.history, x);
      KeepDistinct(s.pending, f);
      KeepEntries(s.config, s.submissions, s.history, s.pending, f);
      forall i | 0 <= i < |s'.pending|
        ensures EntryOk(s.config, s.submissions, s'.history, s'.pending[i])
      {
        assert s'.pending[i] in s'.pending;
        EntryFrame(s.config, s.submissions, s.history, x, s'.pending[i]);
      }
    }
  }

  lemma HandleDatagramInv(s: State, buf: seq<u8>, addr: Net.SocketAddr, now: int)
    requires Inv(s)
    ensures Inv(HandleDatagram(s, buf, addr, now).0)
  {
    hide Packet.Encode, Packet.Decode, ServerRecord.Decode, ServerRecord.Serialize, Receive;
    match Packet.Decode(buf)
    case None =>
    case Some((packet, sender)) =>
      if sender != s.networkId && !PinnedElsewhere(s, sender, addr, now) {
        AcceptInv(s, sender, addr, now);
        if packet.Message? {
          ReceiveInv(Accept(s, sender, addr, now), sender, packet.recipientId, packet.data);
        }
      }
  }

  // ---- signals ----

  lemma SubmittedInv(s: State, signal: S.Signal, target: u64, now: int)
    requires Inv(s) && Target(signal) == Some(target)
    requires SendSignal(s, signal, target, |s.submissions|, now).Ok?
    ensures Inv(Submitted(SendSignal(s, signal, target, |s.submissions|, now).value, signal, target, now))
  {
    hide Packet.Encode, S.ToText, Text.ParseUnsigned, AtMost, Spaced, SilentOnceAnswered, DistinctTags;
    var tag := |s.submissions|;
    var x := Sent(tag, now);
    var s1 := SendSignal(s, signal, target, tag, now).value;
    var s' := Submitted(s1, signal, target, now);
    UnknownNeverSent(s.submissions, s.history, tag);
    GoodSubmission(s.config, s.submissions, s.history, signal);
    GoodSent(s.config, s'.submissions, s.history, tag, now);
    SentCountSnoc(s.history, x, tag);
    forall i | 0 <= i < |s.pending|
      ensures EntryOk(s.config, s'.submissions, s'.history, s.pending[i])
    {
      EntryFrame(s.config, s.submissions, s.history, x, s.pending[i]);
    }
    if s.config.signalRetries > 0 {
      DistinctSnoc(s.pending, s'.pending[|s.pending|]);
    }
  }

  lemma HandleSignalInv(s: State, signal: S.Signal, now: int)
    requires Inv(s)
    ensures Inv(HandleSignal(s, signal, now).0)
  {
    match Target(signal)
    case None =>
    case Some(target) =>
      if SendSignal(s, signal, target, |s.submissions|, now).Ok? {
        SubmittedInv(s, signal, target, now);
      }
  }

  // ---- updates ----

  ghost predicate DueOk(s: State, now: int, d: PendingSignal) {
    EntryOk(s.config, s.submissions, s.history, d) && d.attempts <= s.config.signalRetries && d.nextSend <= now
  }

  ghost predicate Matched(s: State, now: int, due: seq<PendingSignal>) {
    forall i, j | 0 <= i < |due| && 0 <= j < |s.pending| && s.pending[j].tag == due[i].tag ::
      s.pending[j] == Rearmed(due[i], s.config, now)
  }

  lemma SendOneInv(s: State, due: seq<PendingSignal>, now: int)
    requires due != [] && Inv(s) && DistinctTags(due) && Matched(s, now, due)
    requires forall i | 0 <= i < |due| :: DueOk(s, now, due[i])
    requires SendSignal(s, due[0].signal, due[0].target, due[0].tag, now).Ok?
    ensures var s1 := SendSignal(s, due[0].signal, due[0].target, due[0].tag, now).value;
            && Inv(s1) && Matched(s1, now, due[1..])
            && forall i | 0 <= i < |due[1..]| :: DueOk(s1, now, due[1..][i])
  {
    hide Packet.Encode, S.ToText;
    var d := due[0];
    var x := Sent(d.tag, now);
    var s1 := SendSignal(s, d.signal, d.target, d.tag, now).value;
    GoodSent(s.config, s.submissions, s.history, d.tag, now);
    forall i | 0 <= i < |s.pending|
      ensures EntryOk(s.config, s.submissions, s1.history, s.pending[i])
    {
      var e := s.pending[i];
      if e.tag == d.tag {
        SentCountSnoc(s.history, x, d.tag);
      } else {
        EntryFrame(s.config, s.submissions, s.history, x, e);
      }
    }
    forall i | 0 <= i < |due[1..]|
      ensures DueOk(s1, now, due[1..][i])
    {
      assert DueOk(s, now, due[i + 1]);
      EntryFrame(s.config, s.submissions, s.history, x, due[i + 1]);
    }
  }

  lemma ForgetInv(s: State, due: seq<PendingSignal>, now: int, signal: S.Signal, target: u64)
    requires Inv(s) && Matched(s, now, due)
    ensures Inv(Forget(s, signal, target)) && Matched(Forget(s, signal, target), now, due)
  {
    var f := (p: PendingSignal) => p.target != target || p.signal != signal;
    KeepDistinct(s.pending, f);
    KeepEntries(s.config, s.submissions, s.history, s.pending, f);
    var s' := Forget(s, signal, target);
    forall i, j | 0 <= i < |due| && 0 <= j < |s'.pending| && s'.pending[j].tag == due[i].tag
      ensures s'.pending[j] == Rearmed(due[i], s.config, now)
    {
      assert s'.pending[j] in s.pending;
    }
  }

  lemma {:induction false} SendAllInv(s: State, due: seq<PendingSignal>, now: int)
    requires Inv(s) && DistinctTags(due) && Matched(s, now, due)
    requires forall i | 0 <= i < |due| :: DueOk(s, now, due[i])
    ensures Inv(SendAll(s, due, now))
    decreases |due|
  {
    hide SendSignal;
    if due != [] {
      match SendSignal(s, due[0].signal, due[0].target, due[0].tag, now)
      case Ok(s1) =>
        SendOneInv(s, due, now);
        SendAllInv(s1, due[1..], now);
      case Err(_) =>
        ForgetInv(s, due, now, due[0].signal, due[0].target);
        var s1 := Forget(s, due[0].signal, due[0].target);
        forall i | 0 <= i < |due[1..]|
          ensures DueOk(s1, now, due[1..][i])
        {
          assert DueOk(s, now, due[i + 1]);
        }
        SendAllInv(s1, due[1..], now);
    }
  }

  /** Every survivor is an entry that waits or an entry rearmed, under the same tag and in the same order. */
  lemma {:induction false} SurvivorsOrigin(pending: seq<PendingSignal>, config: Config, now: int)
    requires DistinctTags(pending)
    ensures DistinctTags(Survivors(pending, config, now))
    ensures forall e | e in Survivors(pending, config, now) :: exists p :: p in pending && Survives(p, e, config, now)
  {
    if pending != [] {
      var init, p := pending[..|pending| - 1], pending[|pending| - 1];
      var r := Survivors(init, config, now);
      SurvivorsOrigin(init, config, now);
      assert p in pending;
      assert forall q | q in init :: q in pending && q.tag != p.tag;
      forall e | e in r
        ensures e.tag != p.tag
        ensures exists q :: q in pending && Survives(q, e, config, now)
      {
        var q :| q in init && Survives(q, e, config, now);
      }
      DistinctSnoc(r, p);
      DistinctSnoc(r, Rearmed(p, config, now));
    }
  }

  predicate Survives(p: PendingSignal, e: PendingSignal, config: Config, now: int) {
    if p.nextSend > now then e == p else p.attempts <= config.signalRetries && e == Rearmed(p, config, now)
  }

  lemma SurvivorOk(s: State, p: PendingSignal, e: PendingSignal, now: int)
    requires EntryOk(s.config, s.submissions, s.history, p) && Survives(p, e, s.config, now)
    ensures EntryOk(s.config, s.submissions, s.history, e)
  {
  }

  lemma UniqueTag(es: seq<PendingSignal>, p: PendingSignal, q: PendingSignal)
    requires DistinctTags(es) && p in es && q in es && p.tag == q.tag
    ensures p == q
  {
    var i :| 0 <= i < |es| && es[i] == p;
    var j :| 0 <= j < |es| && es[j] == q;
  }

  lemma RetransmitInv(s: State, now: int)
    requires Inv(s)
    ensures Inv(Retransmit(s, now))
  {
    var due := Due(s.pending, s.config, now);
    var s1 := s.(pending := Survivors(s.pending, s.config, now));
    SurvivorsOrigin(s.pending, s.config, now);
    KeepDistinct(s.pending, (p: PendingSignal) => p.nextSend <= now && p.attempts <= s.config.signalRetries);
    forall i | 0 <= i < |s1.pending|
      ensures EntryOk(s.config, s.submissions, s.history, s1.pending[i])
      ensures forall j | 0 <= j < |due| && due[j].tag == s1.pending[i].tag :: s1.pending[i] == Rearmed(due[j], s.config, now)
    {
      var e := s1.pending[i];
      assert e in s1.pending;
      var p :| p in s.pending && Survives(p, e, s.config, now);
      SurvivorOk(s, p, e, now);
      forall j | 0 <= j < |due| && due[j].tag == e.tag
        ensures e == Rearmed(due[j], s.config, now)
      {
        assert due[j] in due;
        UniqueTag(s.pending, p, due[j]);
      }
    }
    forall i | 0 <= i < |due|
      ensures DueOk(s1, now, due[i])
    {
      assert due[i] in due;
    }
    SendAllInv(s1, due, now);
  }

  lemma HandleInv(s: State, input: Input)
    requires Inv(s)
    ensures Inv(Handle(s, input).0)
  {
    hide HandleDatagram, HandleSignal, Retransmit, NextTimer;
    match input
    case Datagram(buf, addr, now) => HandleDatagramInv(s, buf, addr, now);
    case Submit(signal, now) => HandleSignalInv(s, signal, now);
    case SetServerData(_) =>
    case Update(now) => RetransmitInv(s, now);
  }

  lemma {:induction false} RunInv(networkId: u64, config: Config, inputs: seq<Input>)
    ensures Inv(Run(New(networkId, config), inputs))
  {
    hide Handle;
    if inputs != [] {
      RunInv(networkId, config, inputs[..|inputs| - 1]);
      HandleInv(Run(New(networkId, config), inputs[..|inputs| - 1]), inputs[|inputs| - 1]);
    }
  }

  lemma {:induction false} SendAllConfig(s: State, due: seq<PendingSignal>, now: int)
    ensures SendAll(s, due, now).config == s.config && SendAll(s, due, now).networkId == s.networkId
    decreases |due|
  {
    hide Packet.Encode, S.ToText;
    if due != [] {
      match SendSignal(s, due[0].signal, due[0].target, due[0].tag, now)
      case Ok(s1) => SendAllConfig(s1, due[1..], now);
      case Err(_) => SendAllConfig(Forget(s, due[0].signal, due[0].target), due[1..], now);
    }
  }

  lemma HandleConfig(s: State, input: Input)
    ensures Handle(s, input).0.config == s.config && Handle(s, input).0.networkId == s.networkId
  {
    hide Packet.Encode, Packet.Decode, ServerRecord.Decode, ServerRecord.Serialize, S.ToText, S.FromText, SendAll, NextTimer;
    if input.Update? {
      var now := input.now;
      SendAllConfig(s.(pending := Survivors(s.pending, s.config, now)), Due(s.pending, s.config, now), now);
    }
  }

  lemma {:induction false} RunConfig(networkId: u64, config: Config, inputs: seq<Input>)
    ensures var s := Run(New(networkId, config), inputs); s.config == config && s.networkId == networkId
  {
    hide Handle;
    if inputs != [] {
      RunConfig(networkId, config, inputs[..|inputs| - 1]);
      HandleConfig(Run(New(networkId, config), inputs[..|inputs| - 1]), inputs[|inputs| - 1]);
    }
  }

  /** In every run each signal is transmitted at most once plus `signal_retries` times, transmissions of one signal
      are at least its retry interval apart, and none follows an accepted reply on its peer and connection id. */
  lemma TransmissionsAreLimited(networkId: u64, config: Config, inputs: seq<Input>)
    ensures var s := Run(New(networkId, config), inputs);
            && AtMost(s.history, 1 + config.signalRetries)
            && Spaced(config, s.submissions, s.history)
            && SilentOnceAnswered(s.submissions, s.history)
  {
    RunInv(networkId, config, inputs);
    RunConfig(networkId, config, inputs);
  }
}
