/** Folding over a stream, picking from it, and dropping its repeats. */
module Streams {
  import opened Results

  function Plus<T>(s: seq<T>, x: Option<T>): seq<T> {
    if x.Some? then s + [x.value] else s
  }

  function Fold<S, E>(f: (S, E) -> S, s: S, es: seq<E>): S {
    if es == [] then s else f(Fold(f, s, es[..|es| - 1]), es[|es| - 1])
  }

  /** Folding over the first n elements. */
  function FoldTo<S, E>(f: (S, E) -> S, s: S, es: seq<E>, n: nat): S
    requires n <= |es|
  {
    if n == 0 then s else f(FoldTo(f, s, es, n - 1), es[n - 1])
  }

  lemma {:induction false} FoldToIs<S, E>(f: (S, E) -> S, s: S, es: seq<E>, n: nat)
    requires n <= |es|
    ensures FoldTo(f, s, es, n) == Fold(f, s, es[..n])
  {
    if n > 0 {
      FoldToIs(f, s, es, n - 1);
      assert es[..n][..n - 1] == es[..n - 1];
    }
  }

  lemma {:induction false} FoldConcat<S, E>(f: (S, E) -> S, s: S, a: seq<E>, b: seq<E>)
    ensures Fold(f, s, a + b) == Fold(f, Fold(f, s, a), b)
    decreases |b|
  {
    if b == [] {
      assert a + b == a;
    } else {
      var n := |b| - 1;
      assert (a + b)[..|a| + n] == a + b[..n];
      FoldConcat(f, s, a, b[..n]);
    }
  }

  /** What f finds in the elements, in order. */
  function Pick<A, B>(s: seq<A>, f: A -> Option<B>): seq<B> {
    if s == [] then [] else Plus(Pick(s[..|s| - 1], f), f(s[|s| - 1]))
  }

  lemma PickPlus<A, B>(s: seq<A>, x: Option<A>, f: A -> Option<B>)
    ensures Pick(Plus(s, x), f) == Plus(Pick(s, f), if x.Some? then f(x.value) else None)
  {
    if x.Some? {
      assert (s + [x.value])[..|s|] == s;
    }
  }

  /** The sequence without the elements that repeat their predecessor. */
  function Changes<T(==)>(s: seq<T>): seq<T> {
    if |s| <= 1 then s
    else Changes(s[..|s| - 1]) + (if s[|s| - 1] != s[|s| - 2] then [s[|s| - 1]] else [])
  }

  /** Repeats are dropped and nothing else: neighbours differ, and both lists start and end alike. */
  lemma {:induction false} ChangesHasNoRepeats<T>(s: seq<T>)
    ensures var c := Changes(s);
            && (s == [] <==> c == [])
            && (s != [] ==> c[0] == s[0] && c[|c| - 1] == s[|s| - 1])
            && forall i :: 0 < i < |c| ==> c[i] != c[i - 1]
  {
    if |s| > 1 {
      ChangesHasNoRepeats(s[..|s| - 1]);
    }
  }

  lemma ChangesStep<T>(s: seq<T>, x: T)
    ensures Changes(s + [x]) == Changes(s) + (if s == [] || s[|s| - 1] != x then [x] else [])
  {
    assert (s + [x])[..|s|] == s;
  }

  /** What is picked keeps its order, and each element is looked at on its own. */
  lemma {:induction false} PickConcat<A, B>(a: seq<A>, b: seq<A>, f: A -> Option<B>)
    ensures Pick(a + b, f) == Pick(a, f) + Pick(b, f)
    decreases |b|
  {
    if b == [] {
      assert a + b == a;
    } else {
      var n := |b| - 1;
      assert (a + b)[..|a| + n] == a + b[..n];
      PickConcat(a, b[..n], f);
    }
  }

  lemma PickOnly<A, B>(x: A, f: A -> Option<B>)
    ensures Pick([x], f) == if f(x).Some? then [f(x).value] else []
  {
    assert [x][..0] == [];
  }
}
