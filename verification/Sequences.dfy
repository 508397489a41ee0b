/**
  Laws of sequences that the stream encoders use.
 */
module Sequences {

  /** `f` of every element, one after the other. */
  function FlatMap<A, B>(f: A -> seq<B>, xs: seq<A>): seq<B> {
    if xs == [] then [] else f(xs[0]) + FlatMap(f, xs[1..])
  }

  lemma Associative<T>(x: seq<T>, y: seq<T>, z: seq<T>)
    ensures x + (y + z) == x + y + z
  {
  }

  lemma {:induction false} FlatMapConcat<A, B>(f: A -> seq<B>, a: seq<A>, b: seq<A>)
    ensures FlatMap(f, a + b) == FlatMap(f, a) + FlatMap(f, b)
  {
    if a == [] {
      assert a + b == b;
    } else {
      FlatMapConcat(f, a[1..], b);
      assert (a + b)[1..] == a[1..] + b;
      Associative(f(a[0]), FlatMap(f, a[1..]), FlatMap(f, b));
    }
  }

  lemma FlatMapOne<A, B>(f: A -> seq<B>, x: A)
    ensures FlatMap(f, [x]) == f(x)
  {
    assert [x][1..] == [];
  }

  lemma FlatMapMore<A, B>(f: A -> seq<B>, xs: seq<A>, x: A)
    ensures FlatMap(f, xs + [x]) == FlatMap(f, xs) + f(x)
  {
    FlatMapConcat(f, xs, [x]);
    FlatMapOne(f, x);
  }

  lemma FlatMapPrefix<A, B>(f: A -> seq<B>, xs: seq<A>, k: nat)
    requires k <= |xs|
    ensures FlatMap(f, xs[..k]) <= FlatMap(f, xs)
  {
    FlatMapConcat(f, xs[..k], xs[k..]);
    assert xs == xs[..k] + xs[k..];
  }

  /** `f` applied to `s` and the elements, from the first on. */
  function Fold<S, T>(f: (S, T) -> S, s: S, xs: seq<T>): S
    decreases |xs|
  {
    if xs == [] then s else f(Fold(f, s, xs[..|xs| - 1]), xs[|xs| - 1])
  }

  lemma {:induction false} FoldConcat<S, T>(f: (S, T) -> S, s: S, a: seq<T>, b: seq<T>)
    ensures Fold(f, s, a + b) == Fold(f, Fold(f, s, a), b)
    decreases |b|
  {
    if b == [] {
      assert a + b == a;
    } else {
      FoldConcat(f, s, a, b[..|b| - 1]);
      assert (a + b)[..|a + b| - 1] == a + b[..|b| - 1];
    }
  }

  lemma FoldThree<S, T>(f: (S, T) -> S, s: S, a: seq<T>, b: seq<T>, c: seq<T>)
    ensures Fold(f, s, a + b + c) == Fold(f, Fold(f, Fold(f, s, a), b), c)
  {
    FoldConcat(f, s, a, b);
    FoldConcat(f, s, a + b, c);
  }

  /** Nothing happens to `s` if no element changes it. */
  lemma {:induction false} FoldStill<S, T>(f: (S, T) -> S, s: S, xs: seq<T>)
    requires forall i | 0 <= i < |xs| :: f(s, xs[i]) == s
    ensures Fold(f, s, xs) == s
    decreases |xs|
  {
    if xs != [] {
      FoldStill(f, s, xs[..|xs| - 1]);
    }
  }

  lemma FoldOne<S, T>(f: (S, T) -> S, s: S, x: T)
    ensures Fold(f, s, [x]) == f(s, x)
  {
    assert [x][..0] == [];
  }
}
