/**
 Evaluating a dataset with several workers: each worker keeps one contiguous part of the items, runs
 its streams against a budget of exactly that many requests, and takes items in order.
 */
module EvalPartition {
  import opened Shared
  import opened BudgetedStreams

  function Min(a: int, b: int): int { if a < b then a else b }

  /** Items that fall to worker `w` when `total` items are divided over `n` workers. */
  function PartitionSize(total: nat, w: nat, n: nat): nat
    requires n > 0
  {
    if w < total % n then total / n + 1 else total / n
  }

  function PartitionStart(total: nat, w: nat, n: nat): nat
    requires n > 0
  {
    w * (total / n) + Min(w, total % n)
  }

  /** The parts lie one behind the other and end with the last item. */
  lemma PartitionsAreAdjacent(total: nat, w: nat, n: nat)
    requires w < n
    ensures PartitionStart(total, w + 1, n) == PartitionStart(total, w, n) + PartitionSize(total, w, n)
    ensures PartitionStart(total, n, n) == total
    ensures PartitionStart(total, w, n) + PartitionSize(total, w, n) <= total
  {
    Adjacent(total / n, total % n, w, n);
    assert n * (total / n) + total % n == total;
  }

  /** No part is more than one item larger than another, and the larger parts come first. */
  lemma PartsAreBalanced(total: nat, v: nat, w: nat, n: nat)
    requires v <= w < n
    ensures PartitionSize(total, w, n) <= PartitionSize(total, v, n) <= PartitionSize(total, w, n) + 1
  {
  }

  lemma Adjacent(base: nat, rest: nat, w: nat, n: nat)
    requires w < n && rest < n
    ensures (w + 1) * base == w * base + base
    ensures w * base + Min(w, rest) + (if w < rest then base + 1 else base) <= n * base + rest
  {
    assert (w + 1) * base == w * base + base;
    Multiples(w + 1, n, base);
  }

  lemma Multiples(a: nat, b: nat, base: nat)
    requires a <= b
    ensures a * base <= b * base
  {
    assert (b - a) * base >= 0;
    assert (b - a) * base == b * base - a * base;
  }

  /** A dataset over which requests are made; `next` counts the conversations drawn. */
  class Dataset<T> {
    var items: seq<T>
    var next: nat

    constructor (items: seq<T>)
      ensures this.items == items && next == 0
    {
      this.items := items;
      next := 0;
    }

    /** Keeps the part of worker `w`. */
    method Partition(w: nat, n: nat)
      requires w < n
      modifies this
      ensures next == 0
      ensures PartitionStart(old(|items|), w, n) + PartitionSize(old(|items|), w, n) <= old(|items|)
      ensures items == old(items)[PartitionStart(old(|items|), w, n)..][..PartitionSize(old(|items|), w, n)]
    {
      var base := |items| / n;
      var remainder := |items| % n;
      var start := w * base + Min(w, remainder);
      var size := base;
      if w < remainder {
        size := size + 1;
      }
      PartitionsAreAdjacent(|items|, w, n);
      assert items[start..start + size] == items[start..][..size];
      items := items[start..start + size];
      next := 0;
    }

    /** Draws the item at the next position, starting over at the end. */
    method NextConversation() returns (item: T)
      requires items != []
      modifies this`next
      ensures next == old(next) + 1 && item == items[old(next) % |items|]
    {
      next := next + 1;
      item := items[(next - 1) % |items|];
    }
  }

  /** The items a worker's requests were made for, given the positions it drew. */
  function Drawn<T>(items: seq<T>, positions: seq<nat>): seq<T>
    requires items != []
  {
    seq(|positions|, i requires 0 <= i < |positions| => items[positions[i] % |items|])
  }

  /** Drawing every position once draws every item once. */
  lemma {:induction false} PermutationDrawsAll<T>(items: seq<T>, positions: seq<nat>)
    requires items != [] && IsPermutation(positions, |items|)
    ensures multiset(Drawn(items, positions)) == multiset(items)
  {
    var n := |items|;
    forall i | 0 <= i < n ensures positions[i] % n == positions[i] {
      SmallRemainder(positions[i], n);
    }
    DrawsPrefix(items, positions);
    assert Drawn(items, positions) == Selected(items, positions);
  }

  lemma SmallRemainder(p: nat, n: nat)
    requires p < n
    ensures p % n == p
  {
  }

  /** By induction on the number of items: the position of the last item can be taken out. */
  lemma {:induction false} DrawsPrefix<T>(items: seq<T>, positions: seq<nat>)
    requires IsPermutation(positions, |items|)
    ensures multiset(Selected(items, positions)) == multiset(items)
    decreases |items|
  {
    if items != [] {
      var last := |items| - 1;
      var before, after := PositionOf(positions, last);
      RestIsPermutation(positions, before, last, after);
      DrawsPrefix(items[..last], before + after);
      SelectedAround(items, positions, before, after);
      assert items == items[..last] + [items[last]];
    }
  }

  lemma RestIsPermutation(xs: seq<nat>, before: seq<nat>, last: nat, after: seq<nat>)
    requires xs == before + [last] + after && IsPermutation(xs, last + 1)
    ensures IsPermutation(before + after, last)
  {
    var rest := before + after;
    assert forall i | 0 <= i < |rest| :: rest[i] == xs[if i < |before| then i else i + 1];
    assert xs[|before|] == last;
    forall i | 0 <= i < |rest| ensures rest[i] < last { assert rest[i] != last; }
  }

  lemma SelectedAround<T>(items: seq<T>, positions: seq<nat>, before: seq<nat>, after: seq<nat>)
    requires items != [] && positions == before + [|items| - 1] + after
    requires forall i | 0 <= i < |before + after| :: (before + after)[i] < |items| - 1
    requires forall i | 0 <= i < |positions| :: positions[i] < |items|
    ensures multiset(Selected(items, positions))
            == multiset(Selected(items[..|items| - 1], before + after)) + multiset{items[|items| - 1]}
  {
    var last := |items| - 1;
    var others := Selected(items[..last], before + after);
    var a, b := others[..|before|], others[|before|..];
    assert others == a + b;
    forall i | 0 <= i < |positions| ensures Selected(items, positions)[i] == (a + [items[last]] + b)[i] {
      SelectedAt(items, positions, before, after, i);
    }
    assert Selected(items, positions) == a + [items[last]] + b;
    Middle(a, items[last], b);
  }

  lemma SelectedAt<T>(items: seq<T>, positions: seq<nat>, before: seq<nat>, after: seq<nat>, i: nat)
    requires items != [] && positions == before + [|items| - 1] + after && i < |positions|
    requires forall j | 0 <= j < |before + after| :: (before + after)[j] < |items| - 1
    requires forall j | 0 <= j < |positions| :: positions[j] < |items|
    ensures var others := Selected(items[..|items| - 1], before + after);
            Selected(items, positions)[i] == (others[..|before|] + [items[|items| - 1]] + others[|before|..])[i]
  {
    if i < |before| {
      assert positions[i] == (before + after)[i];
    } else if i > |before| {
      assert positions[i] == (before + after)[i - 1];
    }
  }

  lemma Middle<T>(a: seq<T>, x: T, b: seq<T>)
    ensures multiset(a + [x] + b) == multiset(a + b) + multiset{x}
  {
  }

  function Selected<T>(items: seq<T>, positions: seq<nat>): seq<T>
    requires forall i | 0 <= i < |positions| :: positions[i] < |items|
  {
    seq(|positions|, i requires 0 <= i < |positions| => items[positions[i]])
  }

  /** Every number below n occurs in a permutation of them. */
  lemma PositionOf(xs: seq<nat>, x: nat) returns (before: seq<nat>, after: seq<nat>)
    requires IsPermutation(xs, |xs|) && x < |xs|
    ensures xs == before + [x] + after
  {
    if x !in xs {
      var below := Below(|xs|);
      MissingElement(xs, below, x);
    }
    var at :| 0 <= at < |xs| && xs[at] == x;
    before, after := xs[..at], xs[at + 1..];
  }

  lemma {:induction false} MissingElement(xs: seq<nat>, s: set<int>, x: nat)
    requires forall i, j | 0 <= i < j < |xs| :: xs[i] != xs[j]
    requires (forall i | 0 <= i < |xs| :: xs[i] in s) && x in s && x !in xs
    ensures |xs| < |s|
  {
    if xs != [] {
      var last := xs[|xs| - 1];
      MissingElement(xs[..|xs| - 1], s - {last}, x);
    }
  }

  /** The part of worker `w`. */
  function Part<T>(items: seq<T>, w: nat, n: nat): (part: seq<T>)
    requires w < n
    ensures |part| == PartitionSize(|items|, w, n)
  {
    PartitionsAreAdjacent(|items|, w, n);
    items[PartitionStart(|items|, w, n)..][..PartitionSize(|items|, w, n)]
  }

  /** Items requested by workers 0, ..., k - 1. */
  function Requested<T>(items: seq<T>, n: nat, logs: seq<seq<nat>>, k: nat): multiset<T>
    requires k <= n == |logs| && 0 < n <= |items|
  {
    if k == 0 then multiset{}
    else
      PartsAreNonEmpty(|items|, n, k - 1);
      Requested(items, n, logs, k - 1) + multiset(Drawn(Part(items, k - 1, n), logs[k - 1]))
  }

  /** Every worker has something to do exactly when there are at least as many items as workers.  A
      worker without items would have a budget of zero, which means unlimited. */
  lemma PartsAreNonEmpty(total: nat, n: nat, w: nat)
    requires w < n
    ensures total >= n ==> PartitionSize(total, w, n) > 0
    ensures total < n ==> (PartitionSize(total, w, n) > 0 <==> w < total)
  {
    if total < n {
      SmallRemainder(total, n);
      assert total / n == 0;
    } else {
      assert total / n >= 1;
    }
  }

  lemma PartExtends<T>(items: seq<T>, w: nat, n: nat)
    requires w < n
    ensures PartitionStart(|items|, w, n) <= PartitionStart(|items|, w + 1, n) <= |items|
    ensures items[..PartitionStart(|items|, w + 1, n)] == items[..PartitionStart(|items|, w, n)] + Part(items, w, n)
  {
    PartitionsAreAdjacent(|items|, w, n);
  }

  /** The items of the first k parts. */
  function FirstParts<T>(items: seq<T>, n: nat, k: nat): seq<T>
    requires k <= n
  {
    if k == 0 then [] else FirstParts(items, n, k - 1) + Part(items, k - 1, n)
  }

  lemma {:induction false} PartsConcatenate<T>(items: seq<T>, n: nat, k: nat)
    requires 0 < n && k <= n
    ensures PartitionStart(|items|, k, n) <= |items|
    ensures FirstParts(items, n, k) == items[..PartitionStart(|items|, k, n)]
  {
    if k > 0 {
      PartsConcatenate(items, n, k - 1);
      PartExtends(items, k - 1, n);
    }
  }

  /** Worker `w` requested exactly the items of its part. */
  ghost predicate Covers<T>(items: seq<T>, n: nat, log: seq<nat>, w: nat)
    requires w < n <= |items|
  {
    PartsAreNonEmpty(|items|, n, w);
    multiset(Drawn(Part(items, w, n), log)) == multiset(Part(items, w, n))
  }

  lemma {:induction false} RequestedUpTo<T>(items: seq<T>, n: nat, logs: seq<seq<nat>>, k: nat)
    requires k <= n == |logs| && 0 < n <= |items|
    requires forall w | 0 <= w < n :: Covers(items, n, logs[w], w)
    ensures Requested(items, n, logs, k) == multiset(FirstParts(items, n, k))
  {
    if k > 0 {
      RequestedUpTo(items, n, logs, k - 1);
      assert Covers(items, n, logs[k - 1], k - 1);
    }
  }

  /** One worker's run of the evaluation: its streams share a budget of as many requests as its part
      has items, and all of them left because the budget was spent. */
  ghost predicate Drained(total: nat, n: nat, w: nat, run: seq<State>, acts: seq<Action>, log: seq<nat>)
    requires w < n
  {
    && IsRun(run, acts)
    && var end := run[|run| - 1];
    && end.limit == PartitionSize(total, w, n)
    && |end.streams| >= 1
    && (forall k | 0 <= k < |end.streams| :: end.streams[k].main == Gone)
    && log == end.issued
  }

  /** An evaluation with at least as many items as workers, in which every worker has a stream and
      drains its budget, requests every dataset item exactly once over all workers. */
  lemma DrainedEvalCoversDataset<T>(items: seq<T>, n: nat, runs: seq<seq<State>>, acts: seq<seq<Action>>, logs: seq<seq<nat>>)
    requires 0 < n <= |items| && |runs| == |acts| == |logs| == n
    requires forall w | 0 <= w < n :: Drained(|items|, n, w, runs[w], acts[w], logs[w])
    ensures Requested(items, n, logs, n) == multiset(items)
  {
    forall w | 0 <= w < n ensures Covers(items, n, logs[w], w) {
      PartsAreNonEmpty(|items|, n, w);
      DrainedIssuesEachPositionOnce(runs[w], acts[w], |runs[w]| - 1);
      PermutationDrawsAll(Part(items, w, n), logs[w]);
    }
    RequestedUpTo(items, n, logs, n);
    PartsConcatenate(items, n, n);
    PartitionsAreAdjacent(|items|, n - 1, n);
    assert items[..|items|] == items;
  }
}
