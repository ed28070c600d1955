/** Small things that several parts of the model use. */
module Shared {

  datatype Option<+T> = None | Some(value: T)

  /** The weights of all elements of a list together. */
  function Total<T>(weight: T -> nat, xs: seq<T>): nat {
    if xs == [] then 0 else Total(weight, xs[..|xs| - 1]) + weight(xs[|xs| - 1])
  }

  lemma {:induction false} TotalUpdate<T>(weight: T -> nat, xs: seq<T>, i: nat, x: T)
    requires i < |xs|
    ensures Total(weight, xs[i := x]) == Total(weight, xs) - weight(xs[i]) + weight(x)
  {
    var last := |xs| - 1;
    if i == last {
      assert xs[i := x][..last] == xs[..last];
    } else {
      assert xs[i := x][..last] == xs[..last][i := x];
      TotalUpdate(weight, xs[..last], i, x);
    }
  }

  lemma TotalAppend<T>(weight: T -> nat, xs: seq<T>, x: T)
    ensures Total(weight, xs + [x]) == Total(weight, xs) + weight(x)
  {
    assert (xs + [x])[..|xs|] == xs;
  }

  lemma {:induction false} TotalOfNothing<T>(weight: T -> nat, xs: seq<T>)
    requires forall i | 0 <= i < |xs| :: weight(xs[i]) == 0
    ensures Total(weight, xs) == 0
  {
    if xs != [] { TotalOfNothing(weight, xs[..|xs| - 1]); }
  }

  /** No two elements weigh more than the whole. */
  lemma {:induction false} TotalAtLeast<T>(weight: T -> nat, xs: seq<T>, i: nat, j: nat)
    requires i < |xs| && j < |xs|
    ensures weight(xs[i]) <= Total(weight, xs)
    ensures i != j ==> weight(xs[i]) + weight(xs[j]) <= Total(weight, xs)
  {
    var last := |xs| - 1;
    if i < last && j < last {
      TotalAtLeast(weight, xs[..last], i, j);
    } else if i < last {
      TotalAtLeast(weight, xs[..last], i, i);
    } else if j < last {
      TotalAtLeast(weight, xs[..last], j, j);
    }
  }

  /** What weighs something has an element that weighs something. */
  lemma {:induction false} SomeWeight<T>(weight: T -> nat, xs: seq<T>) returns (i: nat)
    requires Total(weight, xs) > 0
    ensures i < |xs| && weight(xs[i]) > 0
  {
    var last := |xs| - 1;
    if weight(xs[last]) > 0 { i := last; } else { i := SomeWeight(weight, xs[..last]); }
  }

  /** The numbers 0, 1, ..., n - 1. */
  function Below(n: nat): (r: set<int>)
    ensures |r| == n
    ensures forall x :: x in r <==> 0 <= x < n
  {
    if n == 0 then {} else Below(n - 1) + {n - 1}
  }
}
