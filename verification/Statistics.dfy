/**
 Latency statistics over a list of values, and the bounded sample that stands in for the list when it grows
 too long.
 */
module Statistics {

  // ---------------------------------------------------------------- sorting

  ghost predicate Sorted(s: seq<real>) { forall i, j | 0 <= i < j < |s| :: s[i] <= s[j] }

  function Insert(s: seq<real>, v: real): seq<real> {
    if s == [] || v <= s[0] then [v] + s else [s[0]] + Insert(s[1..], v)
  }

  /** The values in ascending order. */
  function Sort(s: seq<real>): seq<real> {
    if s == [] then [] else Insert(Sort(s[1..]), s[0])
  }

  lemma {:induction false} InsertIsSorted(s: seq<real>, v: real)
    requires Sorted(s)
    ensures Sorted(Insert(s, v)) && multiset(Insert(s, v)) == multiset(s) + multiset{v}
  {
    if s != [] && v > s[0] {
      var rest := s[1..];
      InsertIsSorted(rest, v);
      assert s == [s[0]] + rest;
      InsertedAreLarger(s[0], rest, Insert(rest, v), v);
      SmallestInFront(s[0], Insert(rest, v));
    } else {
      SmallestInFront(v, s);
    }
  }

  lemma InsertedAreLarger(x: real, rest: seq<real>, r: seq<real>, v: real)
    requires x < v && (forall y | y in rest :: x <= y) && multiset(r) == multiset(rest) + multiset{v}
    ensures forall y | y in r :: x <= y
  {
    forall y | y in r ensures x <= y {
      assert y in multiset(r);
      assert y == v || y in multiset(rest);
      if y != v { assert y in rest; }
    }
  }

  lemma SmallestInFront(x: real, r: seq<real>)
    requires Sorted(r) && forall y | y in r :: x <= y
    ensures Sorted([x] + r)
  {
    forall i, j | 0 <= i < j < |[x] + r| ensures ([x] + r)[i] <= ([x] + r)[j] {
      assert r[j - 1] in r;
    }
  }

  lemma {:induction false} SortIsSorted(s: seq<real>)
    ensures Sorted(Sort(s)) && multiset(Sort(s)) == multiset(s) && |Sort(s)| == |s|
  {
    if s != [] {
      SortIsSorted(s[1..]);
      InsertIsSorted(Sort(s[1..]), s[0]);
      assert s == [s[0]] + s[1..];
    }
    assert |multiset(Sort(s))| == |Sort(s)|;
  }

  lemma SameHead(a: seq<real>, b: seq<real>)
    requires Sorted(a) && Sorted(b) && multiset(a) == multiset(b) && a != [] && b != []
    ensures a[0] == b[0]
  {
    assert a[0] in multiset(b) && b[0] in multiset(a);
  }

  lemma WithoutHead(a: seq<real>)
    requires a != []
    ensures multiset(a[1..]) == multiset(a) - multiset{a[0]}
  {
    assert a == [a[0]] + a[1..];
  }

  /** Two sorted lists of the same values are the same list. */
  lemma {:induction false} SortedUnique(a: seq<real>, b: seq<real>)
    requires Sorted(a) && Sorted(b) && multiset(a) == multiset(b)
    ensures a == b
  {
    assert |a| == |multiset(a)| == |multiset(b)| == |b|;
    if a != [] {
      SameHead(a, b);
      WithoutHead(a);
      WithoutHead(b);
      SortedUnique(a[1..], b[1..]);
      assert a == [a[0]] + a[1..] && b == [b[0]] + b[1..];
    }
  }

  lemma SortIgnoresOrder(a: seq<real>, b: seq<real>)
    requires multiset(a) == multiset(b)
    ensures Sort(a) == Sort(b)
  {
    SortIsSorted(a);
    SortIsSorted(b);
    SortedUnique(Sort(a), Sort(b));
  }

  function Least(values: seq<real>): real {
    SortIsSorted(values);
    if values == [] then 0.0 else Sort(values)[0]
  }

  function Greatest(values: seq<real>): real {
    SortIsSorted(values);
    if values == [] then 0.0 else Sort(values)[|values| - 1]
  }

  lemma ExtremesBound(values: seq<real>)
    requires values != []
    ensures Least(values) in values && Greatest(values) in values
    ensures forall v | v in values :: Least(values) <= v <= Greatest(values)
  {
    SortIsSorted(values);
    var s := Sort(values);
    assert s[0] in multiset(values) && s[|s| - 1] in multiset(values);
    forall v | v in values ensures s[0] <= v <= s[|s| - 1] {
      assert v in multiset(s);
    }
  }

  // ---------------------------------------------------------------- percentiles

  function Ceiling(x: real): int { -((-x).Floor) }

  /** The p-th percentile of a sorted list, interpolating between neighbours. */
  function Percentile(sorted: seq<real>, p: real): real
    requires 0.0 <= p <= 1.0
  {
    if |sorted| == 0 then 0.0
    else
      var idx := Times(p, (|sorted| - 1) as real);
      PositionInRange(|sorted| - 1, p);
      var lo, hi := idx.Floor, Ceiling(idx);
      if lo == hi || hi >= |sorted| then sorted[lo]
      else
        var frac := idx - lo as real;
        Times(sorted[lo], 1.0 - frac) + Times(sorted[hi], frac)
  }

  lemma Product(a: real, b: real)
    requires a >= 0.0 && b >= 0.0
    ensures a * b >= 0.0
  {
  }

  /** Multiplication by name, so that proofs can treat a product as one term. */
  function Times(a: real, b: real): real { a * b }

  lemma PositionInRange(n: nat, p: real)
    requires 0.0 <= p <= 1.0
    ensures 0.0 <= Times(p, n as real) <= n as real
    ensures 0 <= Times(p, n as real).Floor <= Ceiling(Times(p, n as real)) <= n
  {
    ScaledDown(n as real, p);
    FloorsInRange(n, Times(p, n as real));
  }

  lemma ScaledDown(m: real, p: real)
    requires 0.0 <= p <= 1.0 && m >= 0.0
    ensures 0.0 <= Times(p, m) <= m
  {
    Product(p, m);
    Product(1.0 - p, m);
    assert (1.0 - p) * m == m - p * m;
  }

  lemma FloorsInRange(n: nat, x: real)
    requires 0.0 <= x <= n as real
    ensures 0 <= x.Floor <= Ceiling(x) <= n
  {
    FloorCeiling(x);
  }

  lemma FloorCeiling(x: real)
    ensures x.Floor as real <= x <= Ceiling(x) as real
    ensures x.Floor == Ceiling(x) <==> x == x.Floor as real
    ensures x != x.Floor as real ==> Ceiling(x) == x.Floor + 1
  {
    var f := x.Floor;
    assert f as real <= x < (f + 1) as real;
    var g := (-x).Floor;
    assert g as real <= -x < (g + 1) as real;
  }

  /** The value at a (fractional) position. */
  function At(sorted: seq<real>, x: real): real
    requires 0.0 <= x <= (|sorted| - 1) as real
  {
    var lo := x.Floor;
    if lo == |sorted| - 1 then sorted[lo] else sorted[lo] + Times(sorted[lo + 1] - sorted[lo], x - lo as real)
  }

  lemma PercentileIsAt(sorted: seq<real>, p: real, x: real)
    requires 0.0 <= p <= 1.0 && sorted != [] && x == Times(p, (|sorted| - 1) as real)
    ensures 0.0 <= x <= (|sorted| - 1) as real
    ensures Percentile(sorted, p) == At(sorted, x)
  {
    PositionInRange(|sorted| - 1, p);
    FloorCeiling(x);
    var lo := x.Floor;
    if lo < |sorted| - 1 {
      Blend(sorted[lo], sorted[lo + 1], x - lo as real);
    }
  }

  lemma Blend(a: real, b: real, f: real)
    ensures Times(a, 1.0 - f) + Times(b, f) == a + Times(b - a, f)
    ensures f == 0.0 ==> Times(b - a, f) == 0.0
  {
    assert a * (1.0 - f) == a - a * f;
    assert (b - a) * f == b * f - a * f;
  }

  lemma Portion(d: real, f: real, g: real)
    requires d >= 0.0 && 0.0 <= f <= g <= 1.0
    ensures 0.0 <= Times(d, f) <= Times(d, g) <= d
  {
    Product(d, f);
    Product(d, g - f);
    Product(d, 1.0 - g);
    assert d * (g - f) == d * g - d * f;
    assert d * (1.0 - g) == d - d * g;
  }

  lemma Between(a: real, b: real, f: real)
    requires a <= b && 0.0 <= f <= 1.0
    ensures a <= a + Times(b - a, f) <= b
  {
    Portion(b - a, f, 1.0);
  }

  /** Within one gap between neighbours the value stays between them. */
  lemma AtIsBetween(sorted: seq<real>, x: real)
    requires Sorted(sorted) && 0.0 <= x <= (|sorted| - 1) as real
    ensures 0 <= x.Floor < |sorted| && sorted[x.Floor] <= At(sorted, x)
    ensures x.Floor < |sorted| - 1 ==> At(sorted, x) <= sorted[x.Floor + 1]
  {
    var lo := x.Floor;
    if lo < |sorted| - 1 {
      Between(sorted[lo], sorted[lo + 1], x - lo as real);
    }
  }

  lemma AtIsMonotone(sorted: seq<real>, x: real, y: real)
    requires Sorted(sorted) && 0.0 <= x <= y <= (|sorted| - 1) as real
    ensures At(sorted, x) <= At(sorted, y)
  {
    var lo, up := x.Floor, y.Floor;
    assert lo <= up;
    if lo == up {
      if lo < |sorted| - 1 {
        Portion(sorted[lo + 1] - sorted[lo], x - lo as real, y - lo as real);
      }
    } else {
      AtIsBetween(sorted, x);
      AtIsBetween(sorted, y);
      assert lo + 1 == up || sorted[lo + 1] <= sorted[up];
    }
  }

  lemma PositionsInOrder(p: real, q: real, m: real) returns (x: real, y: real)
    requires 0.0 <= p <= q <= 1.0 && m >= 0.0
    ensures 0.0 <= x <= y <= m && x == Times(p, m) && y == Times(q, m)
  {
    x, y := Times(p, m), Times(q, m);
    Product(q - p, m);
    assert (q - p) * m == q * m - p * m;
    ScaledDown(m, p);
    ScaledDown(m, q);
  }

  /** Two percentiles are the values at two positions in the same order. */
  lemma Positions(sorted: seq<real>, p: real, q: real) returns (x: real, y: real)
    requires sorted != [] && 0.0 <= p <= q <= 1.0
    ensures 0.0 <= x <= y <= (|sorted| - 1) as real
    ensures Percentile(sorted, p) == At(sorted, x) && Percentile(sorted, q) == At(sorted, y)
  {
    x, y := PositionsInOrder(p, q, (|sorted| - 1) as real);
    PercentileIsAt(sorted, p, x);
    PercentileIsAt(sorted, q, y);
  }

  /** A higher percentile is never below a lower one. */
  lemma PercentileIsMonotone(sorted: seq<real>, p: real, q: real)
    requires Sorted(sorted) && 0.0 <= p <= q <= 1.0
    ensures Percentile(sorted, p) <= Percentile(sorted, q)
  {
    if sorted != [] {
      var x, y := Positions(sorted, p, q);
      AtIsMonotone(sorted, x, y);
    }
  }

  lemma PercentileEnds(sorted: seq<real>)
    requires sorted != []
    ensures Percentile(sorted, 0.0) == sorted[0] && Percentile(sorted, 1.0) == sorted[|sorted| - 1]
  {
    PercentileIsAt(sorted, 0.0, 0.0);
    PercentileIsAt(sorted, 1.0, (|sorted| - 1) as real);
  }

  // ---------------------------------------------------------------- summary of a list

  datatype Stats = Stats(mean: real, p10: real, p50: real, p90: real, p95: real, p99: real, min: real, max: real)

  predicate InOrder(s: Stats) { s.min <= s.p10 <= s.p50 <= s.p90 <= s.p95 <= s.p99 <= s.max }

  const NO_STATS := Stats(0.0, 0.0, 0.0, 0.0, 0.0, 0.0, 0.0, 0.0)

  function Sum(s: seq<real>): real {
    if s == [] then 0.0 else Sum(s[..|s| - 1]) + s[|s| - 1]
  }

  function StatsOf(values: seq<real>): Stats {
    if values == [] then NO_STATS
    else
      SortIsSorted(values);
      var s := Sort(values);
      Stats(Sum(s) / |s| as real, Percentile(s, 0.10), Percentile(s, 0.50), Percentile(s, 0.90), Percentile(s, 0.95),
            Percentile(s, 0.99), s[0], s[|s| - 1])
  }

  method ComputeLatencyStats(values: seq<real>) returns (stats: Stats)
    ensures stats == StatsOf(values)
    ensures values == [] ==> stats == Stats(0.0, 0.0, 0.0, 0.0, 0.0, 0.0, 0.0, 0.0)
  {
    if |values| == 0 {
      return NO_STATS;
    }
    SortIsSorted(values);
    var sorted := Sort(values);
    var sum := SumUp(sorted);
    return Stats(sum / |sorted| as real, Percentile(sorted, 0.10), Percentile(sorted, 0.50), Percentile(sorted, 0.90),
                 Percentile(sorted, 0.95), Percentile(sorted, 0.99), sorted[0], sorted[|sorted| - 1]);
  }

  method SumUp(list: seq<real>) returns (sum: real)
    ensures sum == Sum(list)
  {
    sum := 0.0;
    for i := 0 to |list|
      invariant sum == Sum(list[..i])
    {
      assert list[..i + 1][..i] == list[..i];
      sum := sum + list[i];
    }
    assert list[..|list|] == list;
  }

  /** Only the values matter, not their order. */
  lemma StatsIgnoreOrder(a: seq<real>, b: seq<real>)
    requires multiset(a) == multiset(b)
    ensures StatsOf(a) == StatsOf(b)
  {
    SortIgnoresOrder(a, b);
    assert |a| == |multiset(a)| == |multiset(b)| == |b|;
  }

  /** The figures of a summary are in order, and its extremes are values of the list that bound it. */
  lemma StatsAreOrdered(values: seq<real>)
    requires values != []
    ensures var s := StatsOf(values);
            InOrder(s) && s.min in values && s.max in values && forall v | v in values :: s.min <= v <= s.max
  {
    SortIsSorted(values);
    PercentilesInOrder(Sort(values));
    ExtremesBound(values);
  }

  lemma PercentilesInOrder(s: seq<real>)
    requires Sorted(s) && s != []
    ensures s[0] <= Percentile(s, 0.10) <= Percentile(s, 0.50) <= Percentile(s, 0.90)
    ensures Percentile(s, 0.90) <= Percentile(s, 0.95) <= Percentile(s, 0.99) <= s[|s| - 1]
  {
    PercentileEnds(s);
    PercentileIsMonotone(s, 0.0, 0.10);
    PercentileIsMonotone(s, 0.10, 0.50);
    PercentileIsMonotone(s, 0.50, 0.90);
    PercentileIsMonotone(s, 0.90, 0.95);
    PercentileIsMonotone(s, 0.95, 0.99);
    PercentileIsMonotone(s, 0.99, 1.0);
  }

  // ---------------------------------------------------------------- bounded sample

  function Mix(counter: bv64): bv64 {
    var h0 := counter + 0x9e3779b97f4a7c15;
    var h1 := (h0 ^ (h0 >> 30)) * 0xbf58476d1ce4e5b9;
    var h2 := (h1 ^ (h1 >> 27)) * 0x94d049bb133111eb;
    h2 ^ (h2 >> 31)
  }

  /** The slot offered to the `seen`-th value, from a 64-bit mixing of the counter. */
  function Slot(seen: nat): (slot: nat)
    ensures seen > 0 ==> slot < seen
  {
    if seen == 0 then 0 else Mix((seen % 0x1_0000_0000_0000_0000) as bv64) as nat % seen
  }

  /** The slot is what is left of the hash of the counter when the counter is taken out of it as often as possible. */
  lemma SlotIsRemainder(seen: nat) returns (q: nat)
    requires 0 < seen < 0x1_0000_0000_0000_0000
    ensures Mix(seen as bv64) as nat == Multiple(seen, q) + Slot(seen) && Slot(seen) < seen
  {
    q := Divided(Mix(seen as bv64) as nat, seen);
  }

  function Multiple(n: nat, q: nat): nat { n * q }

  lemma Divided(hash: nat, n: nat) returns (q: nat)
    requires n > 0
    ensures hash == Multiple(n, q) + hash % n
  {
    q := hash / n;
  }

  /** The mixing is that of the splitmix64 generator. */
  lemma MixVectors()
    ensures Mix(0) == 0xe220a8397b1dcdaf && Mix(1) == 0x910a2dec89025cc1
  {
  }

  /**
   The sample after a list of values was added. `pick` gives the slot offered to the n-th value, as `Slot` does;
   a slot below the limit is overwritten.
   */
  function Sample(pick: nat -> nat, limit: nat, values: seq<real>): (kept: seq<real>)
    ensures |kept| == if |values| <= limit then |values| else limit
  {
    if values == [] then []
    else
      var before := Sample(pick, limit, values[..|values| - 1]);
      var v := values[|values| - 1];
      if |before| < limit then before + [v]
      else if pick(|values|) < limit then before[pick(|values|) := v]
      else before
  }

  class BoundedSample {
    const pick: nat -> nat
    const limit: nat
    var values: seq<real>
    var seen: nat
    ghost var added: seq<real>

    constructor (pick: nat -> nat, limit: nat)
      ensures Valid() && added == [] && this.pick == pick && this.limit == limit
    {
      this.pick := pick;
      this.limit := limit;
      values, seen, added := [], 0, [];
    }

    ghost predicate Valid()
      reads this
    {
      seen == |added| && values == Sample(pick, limit, added)
    }

    method Add(value: real)
      requires Valid()
      modifies this
      ensures Valid() && added == old(added) + [value]
    {
      added := added + [value];
      assert added[..|added| - 1] == old(added);
      seen := seen + 1;
      if |values| < limit {
        values := values + [value];
        return;
      }
      var index := pick(seen);
      if index < limit {
        values := values[index := value];
      }
    }

    method AddAll(list: seq<real>)
      requires Valid()
      modifies this
      ensures Valid() && added == old(added) + list
    {
      for i := 0 to |list|
        invariant Valid() && added == old(added) + list[..i]
      {
        Add(list[i]);
        assert list[..i + 1] == list[..i] + [list[i]];
      }
      assert list[..|list|] == list;
    }

    predicate Sampled()
      reads this
    {
      seen > limit
    }
  }

  /** Up to the limit the sample is the whole list. */
  lemma {:induction false} SampleIsExact(pick: nat -> nat, limit: nat, values: seq<real>)
    requires |values| <= limit
    ensures Sample(pick, limit, values) == values
  {
    if values != [] {
      SampleIsExact(pick, limit, values[..|values| - 1]);
      assert values == values[..|values| - 1] + [values[|values| - 1]];
    }
  }

  /** Beyond the limit it has exactly `limit` entries, all of them values of the list. */
  lemma {:induction false} SampleComesFromInput(pick: nat -> nat, limit: nat, values: seq<real>)
    ensures forall v | v in Sample(pick, limit, values) :: v in values
    ensures |values| > limit ==> |Sample(pick, limit, values)| == limit
  {
    if values != [] {
      SampleComesFromInput(pick, limit, values[..|values| - 1]);
      forall v | v in Sample(pick, limit, values) ensures v in values {
        if v in Sample(pick, limit, values[..|values| - 1]) { assert v in values[..|values| - 1]; }
      }
    }
  }

  /** The m-th value (counted from 0) goes to slot j: the first ones in turn, the later ones where they are picked to. */
  predicate GoesTo(pick: nat -> nat, limit: nat, m: nat, j: nat) {
    if m < limit then m == j else pick(m + 1) == j
  }

  /** Every slot of the sample holds the last value that went to it. */
  lemma {:induction false} SlotHoldsLast(pick: nat -> nat, limit: nat, values: seq<real>, j: nat) returns (m: nat)
    requires j < limit && j < |values|
    ensures m < |values| && GoesTo(pick, limit, m, j) && Sample(pick, limit, values)[j] == values[m]
    ensures forall k | m < k < |values| :: !GoesTo(pick, limit, k, j)
  {
    var n := |values| - 1;
    if GoesTo(pick, limit, n, j) {
      m := n;
    } else {
      m := SlotHoldsLast(pick, limit, values[..n], j);
    }
  }

  /** Statistics of a sample are in order and stay within the range of the values sampled. */
  lemma SampledStatsAreOrdered(pick: nat -> nat, limit: nat, values: seq<real>)
    requires limit >= 1 && values != []
    ensures var s := StatsOf(Sample(pick, limit, values));
            InOrder(s) && s.min in values && s.max in values
  {
    SampleComesFromInput(pick, limit, values);
    StatsAreOrdered(Sample(pick, limit, values));
  }
}
