/** Lists gathered from the elements of another list, and what they owe to its order. */
module Collect {

  /** The lists `f` gives for each element, one after the other. */
  function Flat<S, T>(f: S -> seq<T>, w: seq<S>): seq<T> {
    if w == [] then [] else Flat(f, w[..|w| - 1]) + f(w[|w| - 1])
  }

  lemma FlatStep<S, T>(f: S -> seq<T>, w: seq<S>, x: S)
    ensures Flat(f, w + [x]) == Flat(f, w) + f(x)
  {
    assert (w + [x])[..|w|] == w;
  }

  lemma Regroup<T>(a: seq<T>, b: seq<T>, c: seq<T>)
    ensures a + (b + c) == (a + b) + c
  {
  }

  lemma {:induction false} FlatConcat<S, T>(f: S -> seq<T>, a: seq<S>, b: seq<S>)
    ensures Flat(f, a + b) == Flat(f, a) + Flat(f, b)
  {
    if b == [] {
      assert a + b == a;
    } else {
      var front, x := b[..|b| - 1], b[|b| - 1];
      assert b == front + [x];
      FlatConcat(f, a, front);
      Regroup(a, front, [x]);
      FlatStep(f, a + front, x);
      Regroup(Flat(f, a), Flat(f, front), f(x));
    }
  }

  /** Around any of its elements, a list falls into two parts that hold everything else. */
  lemma Pick<S>(x: S, b: seq<S>) returns (before: seq<S>, after: seq<S>)
    requires x in multiset(b)
    ensures b == before + [x] + after && multiset(before + after) == multiset(b) - multiset{x}
  {
    var i :| 0 <= i < |b| && b[i] == x;
    before, after := b[..i], b[i + 1..];
    assert b == before + [x] + after;
  }

  /** What is gathered depends on the order of the source only in its own order. */
  lemma {:induction false} FlatIgnoresOrder<S, T>(f: S -> seq<T>, a: seq<S>, b: seq<S>)
    requires multiset(a) == multiset(b)
    ensures multiset(Flat(f, a)) == multiset(Flat(f, b))
    decreases |a|
  {
    assert |a| == |multiset(a)| == |multiset(b)| == |b|;
    if a != [] {
      var x, front := a[|a| - 1], a[..|a| - 1];
      assert a == front + [x];
      var before, after := Pick(x, b);
      assert multiset(front) == multiset(a) - multiset{x};
      FlatIgnoresOrder(f, front, before + after);
      FlatAround(f, before, x, after);
    }
  }

  lemma FlatAround<S, T>(f: S -> seq<T>, before: seq<S>, x: S, after: seq<S>)
    ensures multiset(Flat(f, before + [x] + after)) == multiset(Flat(f, before + after)) + multiset(f(x))
  {
    FlatPieces(f, before, x, after);
    FlatConcat(f, before, after);
    TakeOut(Flat(f, before), f(x), Flat(f, after));
  }

  lemma TakeOut<T>(a: seq<T>, b: seq<T>, c: seq<T>)
    ensures multiset(a + b + c) == multiset(a + c) + multiset(b)
  {
  }

  lemma FlatPieces<S, T>(f: S -> seq<T>, before: seq<S>, x: S, after: seq<S>)
    ensures Flat(f, before + [x] + after) == Flat(f, before) + f(x) + Flat(f, after)
  {
    FlatConcat(f, before + [x], after);
    FlatStep(f, before, x);
  }

  function SumInts(s: seq<int>): int {
    if s == [] then 0 else SumInts(s[..|s| - 1]) + s[|s| - 1]
  }

  lemma {:induction false} SumIntsConcat(a: seq<int>, b: seq<int>)
    ensures SumInts(a + b) == SumInts(a) + SumInts(b)
  {
    if b == [] {
      assert a + b == a;
    } else {
      SumIntsConcat(a, b[..|b| - 1]);
      assert (a + b)[..|a + b| - 1] == a + b[..|b| - 1];
    }
  }

  lemma {:induction false} SumIntsIgnoresOrder(a: seq<int>, b: seq<int>)
    requires multiset(a) == multiset(b)
    ensures SumInts(a) == SumInts(b)
    decreases |a|
  {
    assert |a| == |multiset(a)| == |multiset(b)| == |b|;
    if a != [] {
      var x, front := a[|a| - 1], a[..|a| - 1];
      assert a == front + [x];
      var before, after := Pick(x, b);
      assert multiset(front) == multiset(a) - multiset{x};
      SumIntsIgnoresOrder(front, before + after);
      SumIntsAround(before, x, after);
    }
  }

  lemma SumIntsAround(before: seq<int>, x: int, after: seq<int>)
    ensures SumInts(before + [x] + after) == SumInts(before + after) + x
  {
    SumIntsConcat(before + [x], after);
    assert (before + [x])[..|before|] == before;
    SumIntsConcat(before, after);
  }

  ghost predicate NoDuplicates<T>(s: seq<T>) { forall i, j | 0 <= i < j < |s| :: s[i] != s[j] }

  lemma {:induction false} NoDuplicatesCount<T(!new)>(s: seq<T>, x: T)
    requires NoDuplicates(s)
    ensures multiset(s)[x] == if x in s then 1 else 0
  {
    if s != [] {
      var front := s[..|s| - 1];
      assert s == front + [s[|s| - 1]];
      NoDuplicatesCount(front, x);
    }
  }

  /** Two duplicate-free lists of the same things hold the same multiset. */
  lemma SameThings<T(!new)>(a: seq<T>, b: seq<T>)
    requires NoDuplicates(a) && NoDuplicates(b) && forall x :: x in a <==> x in b
    ensures multiset(a) == multiset(b)
  {
    forall x: T ensures multiset(a)[x] == multiset(b)[x] {
      NoDuplicatesCount(a, x);
      NoDuplicatesCount(b, x);
    }
  }
}
