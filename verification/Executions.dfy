/** Executions of a machine whose step is a partial function: an action is enabled in a state when the
    step is defined there. */
module Executions {

  ghost predicate Possible<S, A>(step: (S, A) --> S, s: S, actions: seq<A>) {
    actions == [] || (step.requires(s, actions[0]) && Possible(step, step(s, actions[0]), actions[1..]))
  }

  function After<S, A>(step: (S, A) --> S, s: S, actions: seq<A>): S
    requires Possible(step, s, actions)
  {
    if actions == [] then s else After(step, step(s, actions[0]), actions[1..])
  }

  /** What holds at the start and is kept by every step holds after every execution. */
  lemma {:induction false} Always<S(!new), A(!new)>(step: (S, A) --> S, inv: S -> bool, s: S, actions: seq<A>)
    requires inv(s) && Possible(step, s, actions)
    requires forall u, a :: inv(u) && step.requires(u, a) ==> inv(step(u, a))
    ensures inv(After(step, s, actions))
  {
    if actions != [] {
      Always(step, inv, step(s, actions[0]), actions[1..]);
    }
  }

  lemma {:induction false} AfterSplit<S, A>(step: (S, A) --> S, s: S, a: seq<A>, b: seq<A>)
    requires Possible(step, s, a) && Possible(step, After(step, s, a), b)
    ensures Possible(step, s, a + b) && After(step, s, a + b) == After(step, After(step, s, a), b)
  {
    if a == [] {
      assert a + b == b;
    } else {
      AfterSplit(step, step(s, a[0]), a[1..], b);
      assert (a + b)[1..] == a[1..] + b;
    }
  }

  lemma PossibleCons<S, A>(step: (S, A) --> S, s: S, a: A, rest: seq<A>)
    requires step.requires(s, a) && Possible(step, step(s, a), rest)
    ensures Possible(step, s, [a] + rest) && After(step, s, [a] + rest) == After(step, step(s, a), rest)
  {
    assert ([a] + rest)[1..] == rest;
  }

  lemma PossibleOne<S, A>(step: (S, A) --> S, s: S, a: A)
    requires step.requires(s, a)
    ensures Possible(step, s, [a]) && After(step, s, [a]) == step(s, a)
  {
    PossibleCons(step, s, a, []);
  }

  /** One more action at the end. */
  lemma More<S, A>(step: (S, A) --> S, s: S, actions: seq<A>, a: A)
    requires Possible(step, s, actions) && step.requires(After(step, s, actions), a)
    ensures Possible(step, s, actions + [a])
    ensures After(step, s, actions + [a]) == step(After(step, s, actions), a)
  {
    PossibleOne(step, After(step, s, actions), a);
    AfterSplit(step, s, actions, [a]);
  }
}
