/** Runs of a transition system: the state after a sequence of steps, taken from the front. */
module Runs {

  /** Running one sequence and then another is running both in a row. */
  lemma {:induction false} RunConcat<S(!new), E(!new)>(
      run: (S, seq<E>) -> S, step: (S, E) -> S, s: S, a: seq<E>, b: seq<E>)
    requires forall t :: run(t, []) == t
    requires forall t, e, es :: run(t, [e] + es) == run(step(t, e), es)
    ensures run(s, a + b) == run(run(s, a), b)
    decreases |a|
  {
    if a == [] {
      assert a + b == b;
    } else {
      assert a == [a[0]] + a[1..] && a + b == [a[0]] + (a[1..] + b);
      RunConcat(run, step, step(s, a[0]), a[1..], b);
    }
  }
}
