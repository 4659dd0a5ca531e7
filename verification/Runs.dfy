/** Runs of a system whose next step is chosen by a scheduler. A schedule names every action; it is valid
    when each action is possible where it is taken. */
module Runs {

  datatype System<!S, !A> = System(can: (S, A) -> bool, next: (S, A) -> S)

  predicate Valid<S, A>(m: System<S, A>, s: S, acts: seq<A>) {
    acts == [] || (m.can(s, acts[0]) && Valid(m, m.next(s, acts[0]), acts[1..]))
  }

  function After<S, A>(m: System<S, A>, s: S, acts: seq<A>): S {
    if acts == [] then s else After(m, m.next(s, acts[0]), acts[1..])
  }

  /** One schedule after another. */
  lemma {:induction false} Compose<S, A>(m: System<S, A>, s: S, a: seq<A>, b: seq<A>)
    ensures Valid(m, s, a + b) <==> Valid(m, s, a) && Valid(m, After(m, s, a), b)
    ensures After(m, s, a + b) == After(m, After(m, s, a), b)
  {
    var c := a + b;
    if a == [] {
      assert c == b;
    } else {
      assert c[0] == a[0] && c[1..] == a[1..] + b;
      Compose(m, m.next(s, a[0]), a[1..], b);
    }
  }

  lemma Extend<S, A>(m: System<S, A>, s: S, a: seq<A>, x: A)
    requires Valid(m, s, a) && m.can(After(m, s, a), x)
    ensures Valid(m, s, a + [x]) && After(m, s, a + [x]) == m.next(After(m, s, a), x)
  {
    Compose(m, s, a, [x]);
    assert [x][1..] == [];
  }

  /** One action before a schedule. */
  lemma Prepend<S, A>(m: System<S, A>, s: S, a: A, acts: seq<A>) returns (all: seq<A>)
    requires m.can(s, a) && Valid(m, m.next(s, a), acts)
    ensures all == [a] + acts && Valid(m, s, all) && After(m, s, all) == After(m, m.next(s, a), acts)
  {
    all := [a] + acts;
    assert all[0] == a && all[1..] == acts;
  }

  /** The last action of a run. */
  lemma Last<S, A>(m: System<S, A>, s: S, acts: seq<A>)
    requires acts != [] && Valid(m, s, acts)
    ensures var n := |acts| - 1;
            var t := After(m, s, acts[..n]);
            Valid(m, s, acts[..n]) && m.can(t, acts[n]) && After(m, s, acts) == m.next(t, acts[n])
  {
    var n := |acts| - 1;
    assert acts == acts[..n] + [acts[n]] && [acts[n]][1..] == [];
    Compose(m, s, acts[..n], [acts[n]]);
  }

  ghost predicate Inductive<S(!new), A(!new)>(m: System<S, A>, inv: S -> bool) {
    forall s, a | inv(s) && m.can(s, a) :: inv(m.next(s, a))
  }

  /** What every step keeps holds at the end of every run. */
  lemma {:induction false} Always<S(!new), A(!new)>(m: System<S, A>, inv: S -> bool, s: S, acts: seq<A>)
    requires Inductive(m, inv) && inv(s) && Valid(m, s, acts)
    ensures inv(After(m, s, acts))
    decreases |acts|
  {
    if acts != [] {
      Always(m, inv, m.next(s, acts[0]), acts[1..]);
    }
  }

  /** A rank that every step lowers bounds the length of a run. */
  lemma {:induction false} Bounded<S(!new), A(!new)>(m: System<S, A>, inv: S -> bool, rank: S -> nat, s: S, acts: seq<A>)
    requires Inductive(m, inv) && inv(s) && Valid(m, s, acts)
    requires forall s, a | inv(s) && m.can(s, a) :: rank(m.next(s, a)) < rank(s)
    ensures |acts| + rank(After(m, s, acts)) <= rank(s)
    decreases |acts|
  {
    if acts != [] {
      Bounded(m, inv, rank, m.next(s, acts[0]), acts[1..]);
    }
  }
}
