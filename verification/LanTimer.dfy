/** The `Wait` a LAN signaler asks for is neither too long nor needlessly short. */
module LanTimer {
  import opened Std
  import opened Lan
  import opened LanGiveUp
  import opened LanRetransmission

  lemma {:induction false} PendingWaitBounds(wait: nat, pending: seq<PendingSignal>, now: int)
    ensures PendingWait(wait, pending, now) <= wait
    ensures forall p | p in pending :: PendingWait(wait, pending, now) <= Since(p.nextSend, now)
    ensures PendingWait(wait, pending, now) == wait
            || exists p :: p in pending && Since(p.nextSend, now) == PendingWait(wait, pending, now)
  {
    if pending != [] {
      PendingWaitBounds(wait, pending[..|pending| - 1], now);
      assert pending[|pending| - 1] in pending;
    }
  }

  /** Nothing rearmed or left waiting is scheduled in the past. */
  lemma {:induction false} SurvivorsAreAhead(pending: seq<PendingSignal>, config: Config, now: int)
    ensures forall p | p in Survivors(pending, config, now) :: p.nextSend >= now
  {
    if pending != [] {
      SurvivorsAreAhead(pending[..|pending| - 1], config, now);
    }
  }

  lemma {:induction false} NothingDue(pending: seq<PendingSignal>, config: Config, now: int)
    requires forall p | p in pending :: p.nextSend > now
    ensures Survivors(pending, config, now) == pending && Due(pending, config, now) == []
  {
    if pending != [] {
      var init := pending[..|pending| - 1];
      assert forall p | p in init :: p in pending;
      NothingDue(init, config, now);
      assert pending == init + [pending[|pending| - 1]];
    }
  }

  lemma EmitKeepsTimer(s: State, o: Output, now: int)
    ensures NextTimer(Emit(s, o), now) == NextTimer(s, now)
  {
  }

  /** What an update leaves behind: nothing overdue, and a `Wait` for the next thing to do. */
  lemma UpdateSchedule(s: State, now: int)
    ensures var s1 := HandleUpdate(s, now);
            && s1.config == s.config
            && (forall p | p in s1.pending :: p.nextSend >= now)
            && s1.emitted != [] && s1.emitted[|s1.emitted| - 1] == Wait(NextTimer(s1, now))
            && (s.config.broadcastAddress.Some? ==>
                  && s1.lastBroadcast.Some?
                  && (s1.lastBroadcast == Some(now)
                      || Since(now, s1.lastBroadcast.value) < s.config.broadcastInterval))
  {
    hide SendAll, NextTimer, Survivors, Due, RequestDatagram;
    var s0 := s.(pending := Survivors(s.pending, s.config, now));
    SurvivorsAreAhead(s.pending, s.config, now);
    SendAllShrinks(s0, Due(s.pending, s.config, now), now);
    SendAllConfig(s0, Due(s.pending, s.config, now), now);
    var s1 := Expire(Broadcast(Retransmit(s, now), now), now);
    EmitKeepsTimer(s1, Wait(NextTimer(s1, now)), now);
  }

  /** The wait reaches no further than any pending signal or the next broadcast, and exactly as far as one of them
      when it is shorter than `address_timeout`. */
  lemma TimerBounds(s: State, now: int)
    ensures NextTimer(s, now) <= s.config.addressTimeout
    ensures forall p | p in s.pending :: NextTimer(s, now) <= Since(p.nextSend, now)
    ensures s.config.broadcastAddress.Some? && s.lastBroadcast.Some? ==>
              NextTimer(s, now) <= Since(s.lastBroadcast.value + s.config.broadcastInterval, now)
    ensures NextTimer(s, now) < s.config.addressTimeout ==>
              || (exists p :: p in s.pending && Since(p.nextSend, now) == NextTimer(s, now))
              || (s.config.broadcastAddress.Some?
                  && (s.lastBroadcast.Some? ==>
                        Since(s.lastBroadcast.value + s.config.broadcastInterval, now) == NextTimer(s, now)))
  {
    var wait := s.config.addressTimeout;
    var wait1 :=
      if s.config.broadcastAddress.None? then wait
      else if s.lastBroadcast.None? then 0
      else Min(wait, Since(s.lastBroadcast.value + s.config.broadcastInterval, now));
    PendingWaitBounds(wait1, s.pending, now);
  }

  lemma NothingToSend(s: State, now: int)
    ensures SendAll(s, [], now) == s
  {
  }

  /** An update before the wait is over sends nothing and changes no schedule: all it queues is another `Wait`. */
  lemma WaitIsSafe(s: State, now: int, t: int)
    requires now <= t < now + NextTimer(HandleUpdate(s, now), now)
    ensures var s1, s2 := HandleUpdate(s, now), HandleUpdate(HandleUpdate(s, now), t);
            && s2.emitted == s1.emitted + [Wait(NextTimer(s2, t))]
            && s2.pending == s1.pending && s2.lastBroadcast == s1.lastBroadcast && s2.history == s1.history
  {
    hide SendAll, NextTimer, Survivors, Due, RequestDatagram;
    var s1 := HandleUpdate(s, now);
    UpdateSchedule(s, now);
    TimerBounds(s1, now);
    NothingDue(s1.pending, s1.config, t);
    NothingToSend(s1, t);
    var s2 := Expire(Broadcast(s1, t), t);
    EmitKeepsTimer(s2, Wait(NextTimer(s2, t)), t);
  }

  /** The wait is not cut short either: unless it is the whole `address_timeout`, something is due when it is over. */
  lemma WaitIsTight(s: State, now: int)
    requires NextTimer(HandleUpdate(s, now), now) < s.config.addressTimeout
    ensures var s1 := HandleUpdate(s, now);
            var t := now + NextTimer(s1, now);
            || (exists p :: p in s1.pending && p.nextSend <= t)
            || (s1.config.broadcastAddress.Some? && BroadcastDue(s1, t))
  {
    hide SendAll, NextTimer, Survivors, Due, RequestDatagram, HandleUpdate;
    UpdateSchedule(s, now);
    TimerBounds(HandleUpdate(s, now), now);
  }
}
