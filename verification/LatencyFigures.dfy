/**
 What the figures of a latency summary say about the list of values they were computed from, whatever its order: how
 many values lie on either side of each percentile, the figure at every position, and the mean.
 */
module LatencyFigures {
  import opened Statistics

  // ---------------------------------------------------------------- counting

  /** How many of the values are at most x. */
  function AtMost(values: seq<real>, x: real): nat {
    if values == [] then 0 else (if values[0] <= x then 1 else 0) + AtMost(values[1..], x)
  }

  /** How many of them are at least x. */
  function AtLeast(values: seq<real>, x: real): nat {
    if values == [] then 0 else (if values[0] >= x then 1 else 0) + AtLeast(values[1..], x)
  }

  lemma {:induction false} InsertCounts(s: seq<real>, v: real, x: real)
    ensures AtMost(Insert(s, v), x) == AtMost([v] + s, x) && AtLeast(Insert(s, v), x) == AtLeast([v] + s, x)
  {
    assert ([v] + s)[1..] == s;
    if s != [] && v > s[0] {
      InsertCounts(s[1..], v, x);
      var rest := Insert(s[1..], v);
      assert ([s[0]] + rest)[1..] == rest && ([v] + s[1..])[1..] == s[1..];
    }
  }

  lemma {:induction false} SortCounts(values: seq<real>, x: real)
    ensures AtMost(Sort(values), x) == AtMost(values, x) && AtLeast(Sort(values), x) == AtLeast(values, x)
  {
    if values != [] {
      var rest := values[1..];
      SortCounts(rest, x);
      InsertCounts(Sort(rest), values[0], x);
      assert ([values[0]] + Sort(rest))[1..] == Sort(rest);
    }
  }

  /** In a sorted list everything up to a place is at most what is there, and everything from there on at least that. */
  lemma {:induction false} CountsUpTo(s: seq<real>, k: nat, x: real)
    requires Sorted(s) && k < |s|
    ensures s[k] <= x ==> AtMost(s, x) >= k + 1
    ensures s[k] >= x ==> AtLeast(s, x) >= |s| - k
  {
    if k > 0 {
      CountsUpTo(s[1..], k - 1, x);
    } else if |s| > 1 {
      CountsUpTo(s[1..], 0, x);
    }
  }

  // ---------------------------------------------------------------- adding up

  lemma {:induction false} SumInFront(x: real, s: seq<real>)
    ensures Sum([x] + s) == x + Sum(s)
  {
    if s != [] {
      SumInFront(x, s[..|s| - 1]);
      assert ([x] + s)[..|s|] == [x] + s[..|s| - 1];
    }
  }

  lemma {:induction false} InsertSum(s: seq<real>, v: real)
    ensures Sum(Insert(s, v)) == v + Sum(s)
  {
    if s == [] || v <= s[0] {
      SumInFront(v, s);
    } else {
      InsertSum(s[1..], v);
      SumInFront(s[0], Insert(s[1..], v));
      SumInFront(s[0], s[1..]);
      assert s == [s[0]] + s[1..];
    }
  }

  lemma {:induction false} SortSum(values: seq<real>)
    ensures Sum(Sort(values)) == Sum(values)
  {
    if values != [] {
      SortSum(values[1..]);
      InsertSum(Sort(values[1..]), values[0]);
      SumInFront(values[0], values[1..]);
      assert values == [values[0]] + values[1..];
    }
  }

  // ---------------------------------------------------------------- what a figure says

  /** The p-th position in a list of n values, counted from 0, is t beyond the k-th. */
  predicate PositionIs(n: nat, p: real, k: nat, t: real) {
    n > 0 && k as real + t == Times(p, (n - 1) as real) && 0.0 <= t < 1.0
  }

  /** At least the values up to the position are at most the figure, and at least those from it on are at least that. */
  ghost predicate Ranks(values: seq<real>, p: real, figure: real) {
    var n := |values|;
    n > 0 && AtMost(values, figure) >= Times(p, (n - 1) as real).Floor + 1
    && AtLeast(values, figure) >= n - Ceiling(Times(p, (n - 1) as real))
  }

  /** At a whole position the figure is the value there, and between two it goes evenly from one to the next. */
  ghost predicate Interpolates(sorted: seq<real>, p: real, figure: real) {
    forall k: nat, t: real | PositionIs(|sorted|, p, k, t) ::
      && k < |sorted|
      && (t == 0.0 ==> figure == sorted[k])
      && (t > 0.0 ==> k + 1 < |sorted| && figure == sorted[k] + Times(t, sorted[k + 1] - sorted[k]))
  }

  lemma PositionParts(n: nat, p: real, k: nat, t: real)
    requires PositionIs(n, p, k, t) && 0.0 <= p <= 1.0
    ensures var x := Times(p, (n - 1) as real); x.Floor == k && x - k as real == t && k < n && (t > 0.0 ==> k + 1 < n)
  {
    PositionInRange(n - 1, p);
    FloorCeiling(Times(p, (n - 1) as real));
  }

  lemma Commutes(a: real, b: real)
    ensures Times(a, b) == Times(b, a) && Times(a, 0.0) == 0.0
  {
  }

  lemma PercentileInterpolates(sorted: seq<real>, p: real)
    requires sorted != [] && 0.0 <= p <= 1.0
    ensures Interpolates(sorted, p, Percentile(sorted, p))
  {
    var x := Times(p, (|sorted| - 1) as real);
    PercentileIsAt(sorted, p, x);
    forall k: nat, t: real | PositionIs(|sorted|, p, k, t)
      ensures k < |sorted| && (t == 0.0 ==> Percentile(sorted, p) == sorted[k])
      ensures t > 0.0 ==> k + 1 < |sorted| && Percentile(sorted, p) == sorted[k] + Times(t, sorted[k + 1] - sorted[k])
    {
      PositionParts(|sorted|, p, k, t);
      if k + 1 < |sorted| { Commutes(sorted[k + 1] - sorted[k], t); }
    }
  }

  /** A percentile lies between the values on either side of its position. */
  lemma PercentileIsBetween(sorted: seq<real>, p: real)
    requires Sorted(sorted) && sorted != [] && 0.0 <= p <= 1.0
    ensures var x := Times(p, (|sorted| - 1) as real);
            0 <= x.Floor <= Ceiling(x) < |sorted| && sorted[x.Floor] <= Percentile(sorted, p) <= sorted[Ceiling(x)]
  {
    var x := Times(p, (|sorted| - 1) as real);
    PositionInRange(|sorted| - 1, p);
    PercentileIsAt(sorted, p, x);
    AtIsBetween(sorted, x);
    FloorCeiling(x);
    if x.Floor == Ceiling(x) && x.Floor + 1 < |sorted| { Commutes(sorted[x.Floor + 1] - sorted[x.Floor], 0.0); }
  }

  lemma PercentileRanks(values: seq<real>, p: real)
    requires values != [] && 0.0 <= p <= 1.0
    ensures Ranks(values, p, Percentile(Sort(values), p))
  {
    SortIsSorted(values);
    var sorted := Sort(values);
    var figure := Percentile(sorted, p);
    var x := Times(p, (|values| - 1) as real);
    PercentileIsBetween(sorted, p);
    CountsUpTo(sorted, x.Floor, figure);
    CountsUpTo(sorted, Ceiling(x), figure);
    SortCounts(values, figure);
  }

  ghost predicate Quantile(values: seq<real>, sorted: seq<real>, p: real, figure: real) {
    Ranks(values, p, figure) && Interpolates(sorted, p, figure)
  }

  lemma PercentileIsQuantile(values: seq<real>, sorted: seq<real>, p: real)
    requires values != [] && Sorted(sorted) && multiset(sorted) == multiset(values) && 0.0 <= p <= 1.0
    ensures Quantile(values, sorted, p, Percentile(Sort(values), p))
  {
    SortIsSorted(values);
    SortedUnique(sorted, Sort(values));
    PercentileInterpolates(sorted, p);
    PercentileRanks(values, p);
  }

  lemma Quotient(a: real, n: real)
    requires n > 0.0
    ensures Times(a / n, n) == a
  {
  }

  /** Each percentile of a summary has its share of the values on either side and is read off the sorted values at its
      position; the mean times the number of values is their sum; and the extremes are the ends of the sorted values. */
  lemma FiguresAreQuantiles(values: seq<real>, sorted: seq<real>)
    requires values != [] && Sorted(sorted) && multiset(sorted) == multiset(values)
    ensures var s := StatsOf(values);
            && Quantile(values, sorted, 0.10, s.p10) && Quantile(values, sorted, 0.50, s.p50)
            && Quantile(values, sorted, 0.90, s.p90) && Quantile(values, sorted, 0.95, s.p95)
            && Quantile(values, sorted, 0.99, s.p99)
            && Times(s.mean, |values| as real) == Sum(values)
            && |sorted| == |values| && s.min == sorted[0] && s.max == sorted[|sorted| - 1]
  {
    PercentileIsQuantile(values, sorted, 0.10);
    PercentileIsQuantile(values, sorted, 0.50);
    PercentileIsQuantile(values, sorted, 0.90);
    PercentileIsQuantile(values, sorted, 0.95);
    PercentileIsQuantile(values, sorted, 0.99);
    SortIsSorted(values);
    SortedUnique(sorted, Sort(values));
    SortSum(values);
    Quotient(Sum(values), |values| as real);
  }

  /** The sum does not depend on the order of the values. */
  lemma SumIgnoresOrder(a: seq<real>, b: seq<real>)
    requires multiset(a) == multiset(b)
    ensures Sum(a) == Sum(b)
  {
    SortSum(a);
    SortSum(b);
    SortIgnoresOrder(a, b);
  }
}
