/**
 Dividing a total load over worker pods, and spreading the start of new streams over a ramp.

 Integers are unbounded here; where the 64-bit width of a product matters it is written out.
 */
module LoadDivision {

  /** Integer division and remainder as the source language has them: rounding toward zero. */
  function Quotient(a: int, b: int): int
    requires b > 0
  {
    if a >= 0 then a / b else -(-a / b)
  }

  function Remainder(a: int, b: int): int
    requires b > 0
  {
    a - Quotient(a, b) * b
  }

  /** The share of worker `w` out of `n`; lower-numbered workers get the remainder. */
  function DivideConcurrency(total: int, n: int, w: int): int {
    if n <= 1 then total
    else if w < Remainder(total, n) then Quotient(total, n) + 1
    else Quotient(total, n)
  }

  /** Shares of the first `k` workers together. */
  function SumOfShares(total: int, n: int, k: nat): int {
    if k == 0 then 0 else SumOfShares(total, n, k - 1) + DivideConcurrency(total, n, k - 1)
  }

  lemma QuotientFacts(a: int, b: int)
    requires b > 0
    ensures a == Quotient(a, b) * b + Remainder(a, b)
    ensures a >= 0 ==> Quotient(a, b) >= 0 && 0 <= Remainder(a, b) < b
    ensures a <= 0 ==> Quotient(a, b) <= 0 && -b < Remainder(a, b) <= 0
  {
  }

  lemma QuotientUnique(a: int, b: int, q: nat, r: nat)
    requires b > 0 && a == q * b + r && r < b
    ensures Quotient(a, b) == q && Remainder(a, b) == r
  {
    QuotientFacts(a, b);
    var p := Quotient(a, b);
    if p < q {
      ProductMonotone(b, p + 1, q);
    } else if p > q {
      ProductMonotone(b, q + 1, p);
    }
  }

  lemma ProductMonotone(r: int, i: int, j: int)
    requires r >= 0 && i <= j
    ensures r * i <= r * j
  {
  }

  lemma {:induction false} SumClosedForm(total: int, n: int, k: nat)
    requires n > 1 && k <= n
    ensures SumOfShares(total, n, k) == k * Quotient(total, n)
              + (if Remainder(total, n) <= 0 then 0 else if k < Remainder(total, n) then k else Remainder(total, n))
  {
    if k > 0 { SumClosedForm(total, n, k - 1); }
  }

  /** The shares add up to the total, exactly when the total is not negative or divides evenly. */
  lemma SharesAddUp(total: int, n: int)
    requires n >= 1
    ensures SumOfShares(total, n, n) == total <==> total >= 0 || n == 1 || Remainder(total, n) == 0
  {
    QuotientFacts(total, n);
    if n == 1 {
      assert SumOfShares(total, 1, 1) == SumOfShares(total, 1, 0) + total;
    } else {
      SumClosedForm(total, n, n);
    }
  }

  /** Any two shares differ by at most one, and lower-numbered workers never get less. */
  lemma SharesAreBalanced(total: int, n: int, v: nat, w: nat)
    requires v <= w < n
    ensures DivideConcurrency(total, n, w) <= DivideConcurrency(total, n, v) <= DivideConcurrency(total, n, w) + 1
  {
  }

  lemma QuotientMonotone(a: int, b: int, n: int)
    requires a <= b && n > 0
    ensures Quotient(a, n) <= Quotient(b, n)
    ensures Quotient(a, n) == Quotient(b, n) ==> Remainder(a, n) <= Remainder(b, n)
  {
    QuotientFacts(a, n);
    QuotientFacts(b, n);
    if a >= 0 || b <= 0 {
      QuotientsInOrder(n, Quotient(a, n), Remainder(a, n), Quotient(b, n), Remainder(b, n));
    }
  }

  lemma QuotientsInOrder(n: int, p: int, r: int, q: int, t: int)
    requires n > 0 && p * n + r <= q * n + t
    requires t - r < n
    ensures p <= q
  {
    if p > q { ProductMonotone(n, q + 1, p); }
  }

  /** A larger total gives nobody less. */
  lemma SharesAreMonotone(a: int, b: int, n: int, w: int)
    requires a <= b
    ensures DivideConcurrency(a, n, w) <= DivideConcurrency(b, n, w)
  {
    if n > 1 { QuotientMonotone(a, b, n); }
  }

  // ---------------------------------------------------------------- number of workers

  /** The --workers flag: "auto", a number, or something else. */
  datatype WorkersFlag = Auto | Number(n: int) | Malformed

  datatype Result<+T> = Ok(value: T) | Err(message: string)

  function ResolveWorkers(flag: WorkersFlag, maxConcurrency: int): (r: Result<int>)
    ensures r.Ok? ==> r.value >= 1
    ensures r.Ok? <==> flag.Auto? || (flag.Number? && flag.n >= 1)
    ensures r.Ok? && flag.Number? ==> r.value == flag.n
  {
    match flag
    case Auto => if maxConcurrency <= 0 then Ok(1) else Ok((maxConcurrency + 1023) / 1024)
    case Malformed => Err("--workers must be a positive integer or auto")
    case Number(n) => if n < 1 then Err("--workers must be >= 1") else Ok(n)
  }

  /** With the automatic number of workers nobody runs more than 1024 streams, at any stage, and
      with one worker less somebody would. */
  lemma AutoWorkersSuffice(maxConcurrency: int, concurrency: int, w: nat)
    requires concurrency <= maxConcurrency
    ensures ResolveWorkers(Auto, maxConcurrency).Ok? && ResolveWorkers(Auto, maxConcurrency).value >= 1
    ensures w < ResolveWorkers(Auto, maxConcurrency).value ==>
              DivideConcurrency(concurrency, ResolveWorkers(Auto, maxConcurrency).value, w) <= 1024
    ensures ResolveWorkers(Auto, maxConcurrency).value > 1 ==>
              DivideConcurrency(maxConcurrency, ResolveWorkers(Auto, maxConcurrency).value - 1, 0) > 1024
  {
    var n := ResolveWorkers(Auto, maxConcurrency).value;
    if maxConcurrency > 0 {
      assert 1024 * n >= maxConcurrency > 1024 * (n - 1);
      SharesAreMonotone(concurrency, 1024 * n, n, w);
      FullShare(n, w);
      if n > 1 {
        SharesAreMonotone(1024 * (n - 1) + 1, maxConcurrency, n - 1, 0);
        OneMore(n - 1);
      }
    }
  }

  lemma FullShare(n: int, w: nat)
    requires n >= 1
    ensures DivideConcurrency(1024 * n, n, w) == (if n == 1 then 1024 * n else 1024)
  {
    QuotientUnique(1024 * n, n, 1024, 0);
  }

  lemma OneMore(n: int)
    requires n >= 1
    ensures DivideConcurrency(1024 * n + 1, n, 0) == 1025
  {
    if n > 1 { QuotientUnique(1024 * n + 1, n, 1024, 1); }
  }

  // ---------------------------------------------------------------- staggered starts

  const MAX_INT64: int := 0x7fff_ffff_ffff_ffff

  /** A product as a 64-bit register holds it. */
  function Wrap64(x: int): int {
    (x + 0x8000_0000_0000_0000) % 0x1_0000_0000_0000_0000 - 0x8000_0000_0000_0000
  }

  /** The delay, in nanoseconds, before the idx-th of `count` new streams starts. */
  function StaggerDelay(rampup: int, idx: nat, count: int): (delay: int)
    ensures rampup <= 0 || count <= 1 ==> delay == 0
  {
    if rampup > 0 && count > 1 then Quotient(Wrap64(rampup * idx), count - 1) else 0
  }

  lemma WrapIsIdentity(x: int)
    ensures Wrap64(x) == x <==> -0x8000_0000_0000_0000 <= x <= MAX_INT64
    ensures -0x8000_0000_0000_0000 <= Wrap64(x) <= MAX_INT64
  {
  }

  lemma FittingDelay(rampup: int, idx: nat, count: int)
    requires rampup > 0 && count > 1 && rampup * idx <= MAX_INT64
    ensures StaggerDelay(rampup, idx, count) == Quotient(rampup * idx, count - 1)
  {
    ProductMonotone(rampup, 0, idx);
    WrapIsIdentity(rampup * idx);
  }

  /** Delays run from 0 to the whole ramp without ever falling, as long as ramp * (count - 1) fits
      into 64 bits. */
  lemma DelaysRiseToRampup(rampup: int, count: int, i: nat, j: nat)
    requires rampup > 0 && count > 1 && i <= j < count
    requires rampup * (count - 1) <= MAX_INT64
    ensures 0 == StaggerDelay(rampup, 0, count) <= StaggerDelay(rampup, i, count)
              <= StaggerDelay(rampup, j, count) <= StaggerDelay(rampup, count - 1, count) == rampup
  {
    ProductMonotone(rampup, 0, i);
    ProductMonotone(rampup, i, j);
    ProductMonotone(rampup, j, count - 1);
    FittingDelay(rampup, 0, count);
    FittingDelay(rampup, i, count);
    FittingDelay(rampup, j, count);
    FittingDelay(rampup, count - 1, count);
    QuotientMonotone(0, rampup * i, count - 1);
    QuotientMonotone(rampup * i, rampup * j, count - 1);
    QuotientMonotone(rampup * j, rampup * (count - 1), count - 1);
    QuotientUnique(rampup * (count - 1), count - 1, rampup, 0);
    QuotientUnique(0, count - 1, 0, 0);
  }

  /** The condition is exact: beyond it the last stream no longer waits for the whole ramp. */
  lemma LastDelayIsRampup(rampup: int, count: int)
    requires rampup > 0 && count > 1
    ensures StaggerDelay(rampup, count - 1, count) == rampup <==> rampup * (count - 1) <= MAX_INT64
  {
    var n := count - 1;
    WrapIsIdentity(rampup * n);
    if rampup * n <= MAX_INT64 {
      DelaysRiseToRampup(rampup, count, 0, 0);
    } else if StaggerDelay(rampup, n, count) == rampup {
      QuotientFacts(Wrap64(rampup * n), n);
    }
  }

  const DAY_NANOS: int := 24 * 3600 * 1_000_000_000
  const MAX_STREAMS: int := 65536

  /** Within the bounds of the control service (a day of ramp, 65536 streams) no product overflows. */
  lemma ServiceBoundsPreventOverflow(rampup: int, count: int, idx: nat)
    requires 0 <= rampup <= DAY_NANOS && 0 <= count <= MAX_STREAMS && idx < count
    ensures Wrap64(rampup * idx) == rampup * idx
    ensures rampup * (count - 1) <= MAX_INT64
  {
    assert rampup * idx <= DAY_NANOS * MAX_STREAMS by {
      ProductMonotone(rampup, idx, MAX_STREAMS);
      ProductMonotone(MAX_STREAMS, rampup, DAY_NANOS);
    }
    assert rampup * (count - 1) <= DAY_NANOS * MAX_STREAMS by {
      ProductMonotone(rampup, count - 1, MAX_STREAMS);
      ProductMonotone(MAX_STREAMS, rampup, DAY_NANOS);
    }
    ProductMonotone(rampup, 0, idx);
    WrapIsIdentity(rampup * idx);
  }

  // ---------------------------------------------------------------- resizing a pool of streams

  datatype Start = Start(id: nat, delay: int)

  /** A pool of running streams that grows and shrinks between stages. */
  class StreamPool {
    var streams: set<nat>
    var nextId: nat

    constructor ()
      ensures Valid() && streams == {}
    {
      streams, nextId := {}, 0;
    }

    ghost predicate Valid()
      reads this
    {
      forall id | id in streams :: id < nextId
    }

    /** Brings the pool to `target` streams.  Running streams are kept unless there are too many;
        new ones get ids never used before and start staggered over the ramp. */
    method Resize(target: int, rampup: int) returns (started: seq<Start>)
      requires Valid()
      modifies this
      ensures Valid()
      ensures |streams| == if target < 0 then 0 else target
      ensures target >= old(|streams|) ==>
                && |started| == target - old(|streams|)
                && forall id :: id in streams <==> id in old(streams) || old(nextId) <= id < old(nextId) + |started|
      ensures target < old(|streams|) ==> streams <= old(streams) && started == []
      ensures forall i | 0 <= i < |started| ::
                started[i] == Start(old(nextId) + i, StaggerDelay(rampup, i, target - old(|streams|)))
    {
      var newCount := target - |streams|;
      started := [];
      if newCount >= 0 {
        started := Grow(newCount, rampup);
      } else {
        Shrink(target);
      }
    }

    method Grow(newCount: nat, rampup: int) returns (started: seq<Start>)
      requires Valid()
      modifies this
      ensures Valid() && |started| == newCount && |streams| == old(|streams|) + newCount
      ensures forall id :: id in streams <==> id in old(streams) || old(nextId) <= id < old(nextId) + newCount
      ensures forall i | 0 <= i < newCount :: started[i] == Start(old(nextId) + i, StaggerDelay(rampup, i, newCount))
    {
      started := [];
      while |started| < newCount
        invariant Valid() && |started| <= newCount
        invariant |streams| == old(|streams|) + |started| && nextId == old(nextId) + |started|
        invariant forall id :: id in streams <==> id in old(streams) || old(nextId) <= id < nextId
        invariant forall i | 0 <= i < |started| :: started[i] == Start(old(nextId) + i, StaggerDelay(rampup, i, newCount))
      {
        var id := nextId;
        nextId := nextId + 1;
        assert id !in streams;
        streams := streams + {id};
        started := started + [Start(id, StaggerDelay(rampup, |started|, newCount))];
      }
    }

    /** Stops arbitrary streams, one for each step from the present number down to the target. */
    method Shrink(target: int)
      requires Valid() && target <= |streams|
      modifies this
      ensures Valid() && nextId == old(nextId) && streams <= old(streams)
      ensures |streams| == if target < 0 then 0 else target
    {
      var current := |streams|;
      while current > target
        invariant Valid() && nextId == old(nextId) && streams <= old(streams) && current >= target
        invariant |streams| == (if current < 0 then 0 else current)
      {
        if streams != {} {
          var id :| id in streams;
          streams := streams - {id};
        }
        current := current - 1;
      }
    }
  }
}
