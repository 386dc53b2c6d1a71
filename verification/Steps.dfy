/** Steps taken in turn until one fails, and the induction over them. */
module Steps {
  import opened Options

  function RunSteps<S, E>(step: (S, nat) -> (S, Option<E>), s: S, n: nat): (S, Option<E>)
  {
    if n == 0 then (s, None)
    else
      var (t, err) := RunSteps(step, s, n - 1);
      if err.Some? then (t, err) else step(t, n - 1)
  }

  lemma {:induction false} StepsKeep<S(!new), E>(step: (S, nat) -> (S, Option<E>), inv: (S, nat) -> bool, s: S, n: nat)
    requires inv(s, 0)
    requires forall t: S, i: nat | i < n && inv(t, i) :: step(t, i).1 == None && inv(step(t, i).0, i + 1)
    ensures RunSteps(step, s, n).1 == None && inv(RunSteps(step, s, n).0, n)
  {
    if n > 0 {
      StepsKeep(step, inv, s, n - 1);
    }
  }

  /** A failure is that of the first step that fails, and nothing is done after it. */
  lemma {:induction false} FirstFailure<S, E>(step: (S, nat) -> (S, Option<E>), s: S, n: nat) returns (k: nat)
    requires RunSteps(step, s, n).1.Some?
    ensures k < n && RunSteps(step, s, k).1 == None && step(RunSteps(step, s, k).0, k) == RunSteps(step, s, n)
  {
    if RunSteps(step, s, n - 1).1.Some? {
      k := FirstFailure(step, s, n - 1);
    } else {
      k := n - 1;
    }
  }

  /** Steps that cannot fail, one after the other. */
  function Fold<S, A>(step: (S, A) -> S, s: S, actions: seq<A>): S
  {
    if actions == [] then s
    else step(Fold(step, s, actions[..|actions| - 1]), actions[|actions| - 1])
  }

  lemma FoldOne<S, A>(step: (S, A) -> S, s: S, a: A)
    ensures Fold(step, s, [a]) == step(s, a)
  {
    assert [a][..0] == [];
    assert Fold(step, s, []) == s;
  }

  lemma {:induction false} FoldConcat<S, A>(step: (S, A) -> S, s: S, a: seq<A>, b: seq<A>)
    ensures Fold(step, s, a + b) == Fold(step, Fold(step, s, a), b)
    decreases |b|
  {
    if b == [] {
      assert a + b == a;
    } else {
      var n := |b| - 1;
      FoldConcat(step, s, a, b[..n]);
      assert (a + b)[..|a| + n] == a + b[..n];
    }
  }
}
