/** Updates of the HTTP signaler: which joins they time out, and why the queued wait is right. */
module HttpTimer {
  import opened Std
  import opened Codec
  import opened Http

  predicate IsOverdue(pending: map<u64, Pending>, id: u64, now: int) {
    id in pending && pending[id].deadline <= now
  }

  predicate Distinct(ids: seq<u64>) {
    forall i, j | 0 <= i < j < |ids| :: ids[i] != ids[j]
  }

  function TimeoutOf(p: Pending): Output {
    Respond(p.connection, Bare(504), p.keepAlive)
  }

  function Timeouts(pending: map<u64, Pending>, ids: seq<u64>): seq<Output>
    requires forall i | 0 <= i < |ids| :: ids[i] in pending
  {
    seq(|ids|, i requires 0 <= i < |ids| => TimeoutOf(pending[ids[i]]))
  }

  function Left(pending: map<u64, Pending>, ids: seq<u64>): map<u64, Pending> {
    map id | id in pending && id !in ids :: pending[id]
  }

  lemma KeepDistinct(ids: seq<u64>, f: u64 -> bool)
    requires Distinct(ids)
    ensures Distinct(Keep(ids, f))
  {
    KeepPairwise(ids, f, (a: u64, b: u64) => a != b);
  }

  lemma OverdueMembers(pending: map<u64, Pending>, order: seq<u64>, now: int)
    requires Enumerates(order, pending)
    ensures var ids := Overdue(pending, order, now);
            Distinct(ids) && forall id :: id in ids <==> IsOverdue(pending, id, now)
  {
    var f := (id: u64) => id in pending && pending[id].deadline <= now;
    KeepMembers(order, f);
    KeepDistinct(order, f);
  }

  lemma TimeOutOneMore(s: State, s1: State, ids: seq<u64>, id: u64)
    requires s1.pending == Left(s.pending, ids) && id in s.pending && id !in ids
    ensures TimeOutOne(s1, id) == s1.(pending := Left(s.pending, ids + [id]),
                                      emitted := s1.emitted + [TimeoutOf(s.pending[id])],
                                      timedOut := s1.timedOut + multiset{id})
  {
    assert Without(s1.pending, id) == Left(s.pending, ids + [id]);
  }

  lemma {:induction false} TimeOutAllIs(s: State, ids: seq<u64>)
    requires Distinct(ids) && forall i | 0 <= i < |ids| :: ids[i] in s.pending
    ensures TimeOutAll(s, ids) == s.(pending := Left(s.pending, ids), emitted := s.emitted + Timeouts(s.pending, ids),
                                     timedOut := s.timedOut + multiset(ids))
  {
    hide TimeOutOne, TimeoutOf;
    if ids == [] {
      assert s.pending == Left(s.pending, ids);
    } else {
      var (init, last) := (ids[..|ids| - 1], ids[|ids| - 1]);
      assert ids == init + [last] && last !in init;
      TimeOutAllIs(s, init);
      TimeOutOneMore(s, TimeOutAll(s, init), init, last);
      assert Timeouts(s.pending, ids) == Timeouts(s.pending, init) + [TimeoutOf(s.pending[last])];
      assert multiset(ids) == multiset(init) + multiset{last};
    }
  }

  /** After an update exactly the joins whose deadline has passed are gone, each answered 504 on its own connection. */
  lemma UpdateTimesOutTheOverdue(s: State, now: int, order: seq<u64>)
    requires Enumerates(order, s.pending)
    ensures var s' := HandleUpdate(s, now, order);
            var ids := Overdue(s.pending, order, now);
            && Distinct(ids) && (forall i | 0 <= i < |ids| :: ids[i] in s.pending)
            && (forall id :: id in ids <==> IsOverdue(s.pending, id, now))
            && s'.pending == (map id | id in s.pending && s.pending[id].deadline > now :: s.pending[id])
            && s'.emitted == s.emitted + Timeouts(s.pending, ids) + [Wait(NextWait(s', order, now))]
            && s'.timedOut == s.timedOut + multiset(ids)
            && s' == s.(pending := s'.pending, emitted := s'.emitted, timedOut := s'.timedOut)
  {
    hide Overdue, TimeOutAll, Soonest;
    var ids := Overdue(s.pending, order, now);
    OverdueMembers(s.pending, order, now);
    assert forall i | 0 <= i < |ids| :: ids[i] in ids;
    TimeOutAllIs(s, ids);
    assert Left(s.pending, ids) == map id | id in s.pending && s.pending[id].deadline > now :: s.pending[id];
  }

  /** The minimum over the waiting joins. */
  lemma {:induction false} SoonestIsMinimum(pending: map<u64, Pending>, ids: seq<u64>, now: int)
    ensures var r := Soonest(pending, ids, now);
            && (r.None? <==> forall id | id in ids :: id !in pending)
            && (r.Some? ==> (forall id | id in ids && id in pending :: r.value <= Since(pending[id].deadline, now))
                            && exists id :: id in ids && id in pending && r.value == Since(pending[id].deadline, now))
  {
    if ids != [] {
      var (init, last) := (ids[..|ids| - 1], ids[|ids| - 1]);
      SoonestIsMinimum(pending, init, now);
      assert forall id :: id in ids <==> id in init || id == last;
    }
  }

  lemma WaitBounds(s: State, now: int, order: seq<u64>)
    requires Enumerates(order, s.pending)
    ensures var s' := HandleUpdate(s, now, order); var wait := NextWait(s', order, now);
            && (forall id | id in s'.pending :: now + wait <= s'.pending[id].deadline)
            && (s'.pending != map[] ==> exists id :: id in s'.pending && s'.pending[id].deadline == now + wait)
            && (s'.pending == map[] ==> wait == s.config.answerTimeout)
  {
    hide Soonest, HandleUpdate;
    UpdateTimesOutTheOverdue(s, now, order);
    var s' := HandleUpdate(s, now, order);
    SoonestIsMinimum(s'.pending, order, now);
    if s'.pending != map[] {
      var id :| id in s'.pending;
      assert id in order;
    }
  }

  /** With no other input, an update before the announced wait is over times out no join and sends no response. */
  lemma WaitIsSafe(s: State, now: int, order: seq<u64>, t: int, order': seq<u64>)
    requires Enumerates(order, s.pending)
    requires var s' := HandleUpdate(s, now, order); Enumerates(order', s'.pending) && t < now + NextWait(s', order, now)
    ensures var s' := HandleUpdate(s, now, order); var s'' := HandleUpdate(s', t, order');
            s''.pending == s'.pending && s''.emitted == s'.emitted + [Wait(NextWait(s'', order', t))]
  {
    hide HandleUpdate, NextWait, Overdue;
    WaitBounds(s, now, order);
    var s' := HandleUpdate(s, now, order);
    UpdateTimesOutTheOverdue(s', t, order');
    var ids := Overdue(s'.pending, order', t);
    SomeElement(ids);
    assert ids == [];
    assert s'.emitted + [] == s'.emitted;
  }

  /** An update when the wait is over times out a join, unless none was waiting. */
  lemma WaitIsTight(s: State, now: int, order: seq<u64>, order': seq<u64>)
    requires Enumerates(order, s.pending)
    requires var s' := HandleUpdate(s, now, order); Enumerates(order', s'.pending) && s'.pending != map[]
    ensures var s' := HandleUpdate(s, now, order);
            HandleUpdate(s', now + NextWait(s', order, now), order').pending != s'.pending
  {
    hide HandleUpdate, NextWait, Overdue;
    WaitBounds(s, now, order);
    var s' := HandleUpdate(s, now, order);
    UpdateTimesOutTheOverdue(s', now + NextWait(s', order, now), order');
  }
}
