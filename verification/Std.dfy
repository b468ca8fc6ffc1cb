/** Result types shared by every module. */
module Std {

  datatype Option<+T> = None | Some(value: T) {
    predicate IsFailure() {
      None?
    }

    function PropagateFailure<U>(): Option<U>
      requires None?
    {
      None
    }

    function Extract(): T
      requires Some?
    {
      value
    }
  }

  datatype Result<+T, +E> = Ok(value: T) | Err(error: E) {
    predicate IsFailure() {
      Err?
    }

    function PropagateFailure<U>(): Result<U, E>
      requires Err?
    {
      Err(error)
    }

    function Extract(): T
      requires Ok?
    {
      value
    }
  }

  /** `saturating_duration_since`: how long after `earlier` the instant `now` is, or zero. */
  function Since(now: int, earlier: int): (d: nat) {
    if now > earlier then now - earlier else 0
  }

  function Min(a: nat, b: nat): nat {
    if a < b then a else b
  }

  /** `Vec::retain`. */
  function Keep<T>(xs: seq<T>, f: T -> bool): seq<T> {
    if xs == [] then []
    else
      var init := Keep(xs[..|xs| - 1], f);
      if f(xs[|xs| - 1]) then init + [xs[|xs| - 1]] else init
  }

  lemma {:induction false} KeepMembers<T(!new)>(xs: seq<T>, f: T -> bool)
    ensures forall x :: x in Keep(xs, f) <==> x in xs && f(x)
  {
    if xs != [] {
      KeepMembers(xs[..|xs| - 1], f);
    }
  }

  lemma KeepSnoc<T>(xs: seq<T>, x: T, f: T -> bool)
    ensures Keep(xs + [x], f) == Keep(xs, f) + if f(x) then [x] else []
  {
    assert (xs + [x])[..|xs|] == xs;
  }

  lemma KeepNothing<T>(f: T -> bool)
    ensures Keep([], f) == []
  {
  }

  lemma {:induction false} KeepAppend<T>(a: seq<T>, b: seq<T>, f: T -> bool)
    ensures Keep(a + b, f) == Keep(a, f) + Keep(b, f)
  {
    if b == [] {
      assert a + b == a;
    } else {
      var init := b[..|b| - 1];
      KeepAppend(a, init, f);
      assert a + b == (a + init) + [b[|b| - 1]];
      KeepSnoc(a + init, b[|b| - 1], f);
    }
  }

  lemma {:induction false} KeepTwice<T>(xs: seq<T>, f: T -> bool, g: T -> bool)
    requires forall x | x in xs && g(x) :: f(x)
    ensures Keep(Keep(xs, f), g) == Keep(xs, g)
  {
    if xs != [] {
      var (init, last) := (xs[..|xs| - 1], xs[|xs| - 1]);
      KeepTwice(init, f, g);
      KeepSnoc(Keep(init, f), last, g);
    }
  }

  lemma {:induction false} KeepAll<T>(xs: seq<T>, f: T -> bool)
    requires forall x | x in xs :: f(x)
    ensures Keep(xs, f) == xs
  {
    if xs != [] {
      KeepAll(xs[..|xs| - 1], f);
    }
  }

  lemma {:induction false} KeepNone<T>(xs: seq<T>, f: T -> bool)
    requires forall x | x in xs :: !f(x)
    ensures Keep(xs, f) == []
  {
    if xs != [] {
      KeepNone(xs[..|xs| - 1], f);
    }
  }

  lemma SomeElement<T>(xs: seq<T>)
    ensures xs != [] ==> exists x :: x in xs
  {
    if xs != [] {
      assert xs[0] in xs;
    }
  }

  /** Filtering keeps whatever holds between every two elements. */
  lemma {:induction false} KeepPairwise<T>(xs: seq<T>, f: T -> bool, r: (T, T) -> bool)
    requires forall i, j | 0 <= i < j < |xs| :: r(xs[i], xs[j])
    ensures forall i, j | 0 <= i < j < |Keep(xs, f)| :: r(Keep(xs, f)[i], Keep(xs, f)[j])
    ensures forall i | 0 <= i < |Keep(xs, f)| :: Keep(xs, f)[i] in xs
  {
    if xs != [] {
      KeepPairwise(xs[..|xs| - 1], f, r);
    }
  }

  lemma {:induction false} MoreOf<T>(m: multiset<T>, x: T, n: nat)
    ensures |m[x := m[x] + n]| == |m| + n
  {
    if n == 0 {
      assert m[x := m[x] + 0] == m;
    } else {
      MoreOf(m, x, n - 1);
      assert m[x := m[x] + n] == m[x := m[x] + (n - 1)] + multiset{x};
    }
  }
}
