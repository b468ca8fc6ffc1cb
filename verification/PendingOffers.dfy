/** Offers answered but not yet established, counted per network id (`transport/pending.rs` of the tokio driver). */
module PendingOffers {
  import opened Std

  type Counts = map<string, nat>

  /** `values().sum()`. */
  ghost function Total(counts: Counts): nat {
    if counts == map[] then 0
    else
      var id :| id in counts;
      counts[id] + Total(counts - {id})
  }

  predicate Admits(total: nat, held: nat, maxPending: nat, maxPerId: nat) {
    total < maxPending && held < maxPerId
  }

  function HeldBy(counts: Counts, id: string): nat {
    if id in counts then counts[id] else 0
  }

  function Freed(counts: Counts, id: string): Counts {
    if id !in counts then counts
    else if counts[id] <= 1 then counts - {id}
    else counts[id := counts[id] - 1]
  }

  // ---- runs ----

  datatype Step = Admit(id: string) | Drop(id: string)

  /** The table beside the slots that are alive, by network id. */
  datatype State = State(counts: Counts, live: multiset<string>)

  ghost function Next(s: State, step: Step, maxPending: nat, maxPerId: nat): State {
    match step
    case Admit(id) =>
      if Admits(Total(s.counts), HeldBy(s.counts, id), maxPending, maxPerId) then
        State(s.counts[id := HeldBy(s.counts, id) + 1], s.live + multiset{id})
      else s
    case Drop(id) => State(Freed(s.counts, id), s.live - multiset{id})
  }

  ghost function Run(steps: seq<Step>, maxPending: nat, maxPerId: nat): State {
    if steps == [] then State(map[], multiset{})
    else Next(Run(steps[..|steps| - 1], maxPending, maxPerId), steps[|steps| - 1], maxPending, maxPerId)
  }

  /** Only slots that are alive are dropped, each once. */
  ghost predicate Legal(steps: seq<Step>, maxPending: nat, maxPerId: nat) {
    steps == [] ||
    var (init, last) := (steps[..|steps| - 1], steps[|steps| - 1]);
    Legal(init, maxPending, maxPerId) && (last.Drop? ==> last.id in Run(init, maxPending, maxPerId).live)
  }

  /** The table has an entry for exactly the ids with live slots, and it is their number. */
  ghost predicate Exact(s: State) {
    forall id: string :: (id in s.counts <==> id in s.live) && HeldBy(s.counts, id) == s.live[id]
  }

  lemma WithoutId(live: multiset<string>, id: string)
    ensures |live| == live[id] + |live[id := 0]|
  {
    var n := live[id];
    MoreOf(live[id := 0], id, n);
    assert live[id := 0][id := 0 + n] == live;
  }

  /** The sum of the counts is the number of live slots. */
  lemma {:induction false} TotalIsLive(s: State)
    requires Exact(s)
    ensures Total(s.counts) == |s.live|
    decreases |s.counts|
  {
    if s.counts == map[] {
      assert s.live == multiset{};
    } else {
      var id :| id in s.counts && Total(s.counts) == s.counts[id] + Total(s.counts - {id});
      TotalIsLive(State(s.counts - {id}, s.live[id := 0]));
      WithoutId(s.live, id);
    }
  }

  ghost predicate Inv(s: State, maxPending: nat, maxPerId: nat) {
    && Exact(s)
    && |s.live| <= maxPending
    && forall id: string :: s.live[id] <= maxPerId
  }

  lemma AdmitExact(s: State, id: string)
    requires Exact(s)
    ensures Exact(State(s.counts[id := HeldBy(s.counts, id) + 1], s.live + multiset{id}))
  {
    assert HeldBy(s.counts, id) == s.live[id];
  }

  lemma DropExact(s: State, id: string)
    requires Exact(s) && id in s.live
    ensures Exact(State(Freed(s.counts, id), s.live - multiset{id}))
  {
    assert HeldBy(s.counts, id) == s.live[id];
  }

  lemma ExactAt(s: State, id: string)
    requires Exact(s)
    ensures HeldBy(s.counts, id) == s.live[id]
  {
  }

  lemma StepInv(s: State, step: Step, maxPending: nat, maxPerId: nat)
    requires Inv(s, maxPending, maxPerId) && (step.Drop? ==> step.id in s.live)
    ensures Inv(Next(s, step, maxPending, maxPerId), maxPending, maxPerId)
  {
    hide Total, Freed, Exact;
    TotalIsLive(s);
    assert HeldBy(s.counts, step.id) == s.live[step.id] by { ExactAt(s, step.id); }
    match step
    case Admit(id) => AdmitExact(s, id);
    case Drop(id) => DropExact(s, id);
  }

  /** Over every interleaving of admissions and drops: each count is the number of its live slots, none is zero, their
      sum is all live slots, and both limits hold. */
  lemma {:induction false} CountsAreLive(steps: seq<Step>, maxPending: nat, maxPerId: nat)
    requires Legal(steps, maxPending, maxPerId)
    ensures var s := Run(steps, maxPending, maxPerId);
            Inv(s, maxPending, maxPerId) && Total(s.counts) == |s.live|
  {
    if steps != [] {
      CountsAreLive(steps[..|steps| - 1], maxPending, maxPerId);
      StepInv(Run(steps[..|steps| - 1], maxPending, maxPerId), steps[|steps| - 1], maxPending, maxPerId);
    }
    TotalIsLive(Run(steps, maxPending, maxPerId));
  }

  // ---- the table as the object it is ----

  class Offers {
    var counts: Counts
    ghost var live: multiset<string>

    ghost predicate Valid()
      reads this
    {
      Exact(State(counts, live))
    }

    constructor ()
      ensures Valid() && counts == map[] && live == multiset{}
    {
      counts, live := map[], multiset{};
    }

    method Sum() returns (total: nat)
      requires Valid()
      ensures total == |live| == Total(counts)
    {
      total := 0;
      var left := counts.Keys;
      ghost var rest := live;
      while left != {}
        invariant left <= counts.Keys
        invariant forall id: string :: rest[id] == if id in left then live[id] else 0
        invariant total + |rest| == |live|
      {
        var id :| id in left;
        WithoutId(rest, id);
        assert HeldBy(counts, id) == live[id];
        left := left - {id};
        rest := rest[id := 0];
        total := total + counts[id];
      }
      assert rest == multiset{};
      TotalIsLive(State(counts, live));
    }

    /** Grants a slot, to be given back with `Drop`. */
    method TryAdmit(id: string, maxPending: nat, maxPerId: nat) returns (admitted: bool)
      requires Valid()
      modifies this
      ensures Valid()
      ensures State(counts, live) == Next(old(State(counts, live)), Admit(id), maxPending, maxPerId)
      ensures admitted == Admits(|old(live)|, old(live)[id], maxPending, maxPerId)
    {
      var total := Sum();
      var held := HeldBy(counts, id);
      assert held == live[id];
      admitted := !(total >= maxPending || held >= maxPerId);
      if admitted {
        counts := counts[id := held + 1];
        live := live + multiset{id};
      }
    }

    /** Dropping a live slot never takes a count below zero. */
    method Drop(id: string)
      requires Valid() && id in live
      modifies this
      ensures Valid() && State(counts, live) == Next(old(State(counts, live)), Step.Drop(id), 0, 0)
    {
      hide Total, Exact;
      ExactAt(State(counts, live), id);
      DropExact(State(counts, live), id);
      if id in counts {
        var count: nat := counts[id] - 1;
        counts := counts[id := count];
        if count == 0 {
          counts := counts - {id};
        }
      }
      live := live - multiset{id};
      assert counts == Freed(old(counts), id);
    }
  }

  /** In every run an offer is admitted exactly while fewer offers than both limits are live, and a drop ends one. */
  lemma StepsExactly(steps: seq<Step>, step: Step, maxPending: nat, maxPerId: nat)
    requires Legal(steps, maxPending, maxPerId)
    ensures var s := Run(steps, maxPending, maxPerId);
            var live := Next(s, step, maxPending, maxPerId).live;
            match step
            case Admit(id) =>
              live == if |s.live| < maxPending && s.live[id] < maxPerId then s.live + multiset{id} else s.live
            case Drop(id) => live == s.live - multiset{id}
  {
    hide Run, Total;
    CountsAreLive(steps, maxPending, maxPerId);
    TotalIsLive(Run(steps, maxPending, maxPerId));
  }
}
