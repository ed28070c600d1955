/**
 The time to the next arrival under a rate that rises linearly from zero over a ramp and stays constant
 afterwards.  Times are in seconds; arithmetic is over the reals, and the square root is a parameter
 known only by its defining property.
 */
module ArrivalGap {

  ghost predicate IsSquareRoot(sqrt: real -> real) {
    forall x: real :: x >= 0.0 ==> sqrt(x) >= 0.0 && sqrt(x) * sqrt(x) == x
  }

  /** The gap until `arrival` more (expected) arrivals have come, `elapsed` seconds after the start. */
  function Gap(rate: real, ramp: real, elapsed: real, arrival: real, sqrt: real -> real): real {
    if rate <= 0.0 then 0.01
    else if ramp > 0.0 && elapsed < ramp then
      var slope := rate / ramp;
      var remaining := slope * (ramp * ramp - elapsed * elapsed) / 2.0;
      if arrival <= remaining then sqrt(elapsed * elapsed + 2.0 * arrival / slope) - elapsed
      else ramp - elapsed + (arrival - remaining) / rate
    else arrival / rate
  }

  // ---------------------------------------------------------------- the ramp and its integral

  /** The arrival rate at time t. */
  function RateAt(rate: real, ramp: real, t: real): real {
    if ramp > 0.0 && t < ramp then rate * t / ramp else rate
  }

  /** Expected arrivals from the start until time t. */
  function Arrivals(rate: real, ramp: real, t: real): real {
    if ramp <= 0.0 then rate * t
    else if t < ramp then rate / ramp * (t * t) / 2.0
    else rate * ramp / 2.0 + rate * (t - ramp)
  }

  lemma Squares(s: real, t: real)
    requires 0.0 <= s <= t
    ensures s * s <= t * t
    ensures s < t ==> s * s < t * t
  {
    var d := t - s;
    var cross := s * d;
    assert t * t == s * s + 2.0 * cross + d * d by { assert t == s + d; }
    assert cross >= 0.0;
    if d > 0.0 { Scaled(d, 0.0, d); }
  }

  lemma Scaled(c: real, x: real, y: real)
    requires c > 0.0
    ensures x <= y ==> c * x <= c * y
    ensures x < y ==> c * x < c * y
  {
  }

  lemma SlopeTimesRamp(rate: real, ramp: real)
    requires ramp > 0.0
    ensures rate / ramp * ramp == rate && rate / ramp * (ramp * ramp) == rate * ramp
    ensures rate > 0.0 ==> rate / ramp > 0.0
  {
    var slope := rate / ramp;
    assert slope * ramp == rate;
    assert slope * (ramp * ramp) == slope * ramp * ramp;
  }

  /** Between s and t inside the ramp: mean rate times length. */
  lemma ArrivalsInRamp(rate: real, ramp: real, s: real, t: real)
    requires rate > 0.0 && ramp > 0.0 && 0.0 <= s <= t <= ramp
    ensures Arrivals(rate, ramp, t) == rate / ramp * (t * t) / 2.0
    ensures Arrivals(rate, ramp, t) - Arrivals(rate, ramp, s) == rate / ramp * (t * t - s * s) / 2.0
  {
    SlopeTimesRamp(rate, ramp);
    var slope := rate / ramp;
    assert slope * (t * t) - slope * (s * s) == slope * (t * t - s * s);
  }

  lemma ArrivalsAfterRamp(rate: real, ramp: real, t: real)
    requires ramp > 0.0 && ramp <= t
    ensures Arrivals(rate, ramp, t) - Arrivals(rate, ramp, ramp) == rate * (t - ramp)
  {
  }

  lemma Positive(c: real, x: real)
    requires c > 0.0 && x > 0.0
    ensures c * x > 0.0
  {
  }

  lemma RisesInRamp(rate: real, ramp: real, s: real, t: real)
    requires rate > 0.0 && 0.0 <= s < t <= ramp
    ensures Arrivals(rate, ramp, s) < Arrivals(rate, ramp, t)
  {
    ArrivalsInRamp(rate, ramp, s, t);
    Squares(s, t);
    SlopeTimesRamp(rate, ramp);
    Positive(rate / ramp, t * t - s * s);
  }

  lemma RisesAfterRamp(rate: real, ramp: real, s: real, t: real)
    requires rate > 0.0 && 0.0 < ramp <= s < t
    ensures Arrivals(rate, ramp, s) < Arrivals(rate, ramp, t)
  {
    Positive(rate, t - s);
    assert rate * (t - ramp) - rate * (s - ramp) == rate * (t - s);
  }

  /** More time, more arrivals. */
  lemma ArrivalsIncrease(rate: real, ramp: real, s: real, t: real)
    requires rate > 0.0 && 0.0 <= s < t
    ensures Arrivals(rate, ramp, s) < Arrivals(rate, ramp, t)
  {
    if ramp <= 0.0 {
      Scaled(rate, s, t);
    } else if t <= ramp {
      RisesInRamp(rate, ramp, s, t);
    } else if s >= ramp {
      RisesAfterRamp(rate, ramp, s, t);
    } else {
      RisesInRamp(rate, ramp, s, ramp);
      RisesAfterRamp(rate, ramp, ramp, t);
    }
  }

  /** `Arrivals` is the integral of the rate: over every interval it lies between the interval's length
      times the rate at its beginning and at its end (the rate never falls). */
  lemma ArrivalsIntegrateRate(rate: real, ramp: real, s: real, t: real)
    requires rate > 0.0 && 0.0 <= s <= t
    ensures Arrivals(rate, ramp, 0.0) == 0.0
    ensures (t - s) * RateAt(rate, ramp, s) <= Arrivals(rate, ramp, t) - Arrivals(rate, ramp, s) <= (t - s) * RateAt(rate, ramp, t)
  {
    if ramp <= 0.0 {
      assert rate * t - rate * s == (t - s) * rate;
    } else if t <= ramp {
      InsideRamp(rate, ramp, s, t);
    } else if s >= ramp {
      assert rate * (t - ramp) - rate * (s - ramp) == (t - s) * rate;
    } else {
      InsideRamp(rate, ramp, s, ramp);
      ArrivalsAfterRamp(rate, ramp, t);
      AcrossRampEnd(rate, RateAt(rate, ramp, s), s, ramp, t);
      SlopeBelow(rate, ramp, s);
    }
  }

  lemma SlopeBelow(rate: real, ramp: real, s: real)
    requires rate > 0.0 && ramp > 0.0 && 0.0 <= s < ramp
    ensures RateAt(rate, ramp, s) == rate / ramp * s && 0.0 <= RateAt(rate, ramp, s) < rate
  {
    SlopeTimesRamp(rate, ramp);
    Scaled(rate / ramp, s, ramp);
    Scaled(rate / ramp, 0.0, s);
    assert rate * s / ramp == rate / ramp * s;
  }

  lemma AcrossRampEnd(rate: real, low: real, s: real, ramp: real, t: real)
    requires s <= ramp <= t
    ensures (t - s) * low == (ramp - s) * low + (t - ramp) * low
    ensures (t - s) * rate == (ramp - s) * rate + (t - ramp) * rate
    ensures low <= rate ==> (t - ramp) * low <= rate * (t - ramp)
  {
  }

  lemma InsideRamp(rate: real, ramp: real, s: real, t: real)
    requires rate > 0.0 && ramp > 0.0 && 0.0 <= s <= t <= ramp
    ensures (t - s) * RateAt(rate, ramp, s) <= Arrivals(rate, ramp, t) - Arrivals(rate, ramp, s) <= (t - s) * RateAt(rate, ramp, t)
  {
    ArrivalsInRamp(rate, ramp, s, t);
    SlopeTimesRamp(rate, ramp);
    var slope := rate / ramp;
    assert RateAt(rate, ramp, t) == slope * t by { if t < ramp { SlopeBelow(rate, ramp, t); } }
    assert RateAt(rate, ramp, s) == slope * s by { if s < ramp { SlopeBelow(rate, ramp, s); } }
    var d := t - s;
    assert t * t - s * s == d * (t + s);
    MeanRate(slope, d, s, t);
  }

  lemma MeanRate(slope: real, d: real, s: real, t: real)
    requires slope > 0.0 && d >= 0.0 && s <= t
    ensures d * (slope * s) <= slope * (d * (t + s)) / 2.0 <= d * (slope * t)
  {
    var k := d * slope;
    assert d * (slope * s) == k * s && d * (slope * t) == k * t;
    assert slope * (d * (t + s)) == k * t + k * s;
    if k > 0.0 { Scaled(k, s, t); }
  }

  // ---------------------------------------------------------------- the gap inverts the integral

  lemma RootInRamp(ramp: real, elapsed: real, x: real, root: real)
    requires 0.0 <= elapsed && x >= 0.0 && root >= 0.0 && root * root == elapsed * elapsed + x
    requires elapsed * elapsed + x <= ramp * ramp && ramp > 0.0
    ensures elapsed <= root <= ramp
  {
    if root < elapsed { Squares(root, elapsed); }
    if root > ramp { Squares(ramp, root); }
  }

  lemma FirstBranch(rate: real, ramp: real, elapsed: real, arrival: real, root: real)
    requires rate > 0.0 && 0.0 <= elapsed < ramp && arrival >= 0.0
    requires arrival <= rate / ramp * (ramp * ramp - elapsed * elapsed) / 2.0
    requires rate / ramp > 0.0 && root >= 0.0 && root * root == elapsed * elapsed + 2.0 * arrival / (rate / ramp)
    ensures elapsed <= root <= ramp
    ensures Arrivals(rate, ramp, root) - Arrivals(rate, ramp, elapsed) == arrival
  {
    var slope := rate / ramp;
    var x := 2.0 * arrival / slope;
    assert slope * x == 2.0 * arrival;
    ByFactor(slope, x, ramp * ramp - elapsed * elapsed);
    assert x >= 0.0;
    RootInRamp(ramp, elapsed, x, root);
    ArrivalsInRamp(rate, ramp, elapsed, root);
    assert root * root - elapsed * elapsed == x;
  }

  lemma ByFactor(c: real, x: real, y: real)
    requires c > 0.0 && c * x <= c * y
    ensures x <= y
  {
    if x > y { Scaled(c, y, x); }
  }

  lemma SecondBranch(rate: real, ramp: real, elapsed: real, arrival: real)
    requires rate > 0.0 && 0.0 <= elapsed < ramp
    requires arrival > rate / ramp * (ramp * ramp - elapsed * elapsed) / 2.0
    ensures var remaining := rate / ramp * (ramp * ramp - elapsed * elapsed) / 2.0;
            var gap := ramp - elapsed + (arrival - remaining) / rate;
            gap >= 0.0 && Arrivals(rate, ramp, elapsed + gap) - Arrivals(rate, ramp, elapsed) == arrival
  {
    var remaining := rate / ramp * (ramp * ramp - elapsed * elapsed) / 2.0;
    var late := (arrival - remaining) / rate;
    Divided(rate, arrival - remaining);
    ArrivalsInRamp(rate, ramp, elapsed, ramp);
    var end := elapsed + (ramp - elapsed + late);
    assert end - ramp == late;
    ArrivalsAfterRamp(rate, ramp, end);
  }

  lemma Divided(rate: real, x: real)
    requires rate > 0.0 && x >= 0.0
    ensures x / rate >= 0.0 && rate * (x / rate) == x
  {
  }

  lemma ThirdBranch(rate: real, ramp: real, elapsed: real, arrival: real)
    requires rate > 0.0 && elapsed >= 0.0 && arrival >= 0.0 && (ramp <= 0.0 || elapsed >= ramp)
    ensures arrival / rate >= 0.0 && Arrivals(rate, ramp, elapsed + arrival / rate) - Arrivals(rate, ramp, elapsed) == arrival
  {
    var gap := arrival / rate;
    Divided(rate, arrival);
    if ramp > 0.0 {
      assert rate * (elapsed + gap - ramp) == rate * (elapsed - ramp) + rate * gap;
    } else {
      assert rate * (elapsed + gap) == rate * elapsed + rate * gap;
    }
  }

  lemma RootOf(slope: real, elapsed: real, arrival: real, sqrt: real -> real)
    requires slope > 0.0 && elapsed >= 0.0 && arrival >= 0.0 && IsSquareRoot(sqrt)
    ensures var x := elapsed * elapsed + 2.0 * arrival / slope; sqrt(x) >= 0.0 && sqrt(x) * sqrt(x) == x
  {
    Divided(slope, 2.0 * arrival);
    Squares(0.0, elapsed);
  }

  /** Inside the ramp the gap leads to a square root. */
  lemma RootGap(rate: real, ramp: real, elapsed: real, arrival: real, sqrt: real -> real) returns (root: real)
    requires rate > 0.0 && 0.0 <= elapsed < ramp && arrival >= 0.0 && IsSquareRoot(sqrt)
    requires arrival <= rate / ramp * (ramp * ramp - elapsed * elapsed) / 2.0
    ensures root >= elapsed && Gap(rate, ramp, elapsed, arrival, sqrt) == root - elapsed
    ensures Arrivals(rate, ramp, root) - Arrivals(rate, ramp, elapsed) == arrival
  {
    SlopeTimesRamp(rate, ramp);
    var slope := rate / ramp;
    RootOf(slope, elapsed, arrival, sqrt);
    root := sqrt(elapsed * elapsed + 2.0 * arrival / slope);
    FirstBranch(rate, ramp, elapsed, arrival, root);
  }

  /** Over the gap exactly the asked number of arrivals comes, in each of the three branches. */
  lemma GapInvertsArrivals(rate: real, ramp: real, elapsed: real, arrival: real, sqrt: real -> real)
    requires rate > 0.0 && elapsed >= 0.0 && arrival >= 0.0 && IsSquareRoot(sqrt)
    ensures var gap := Gap(rate, ramp, elapsed, arrival, sqrt);
            gap >= 0.0 && Arrivals(rate, ramp, elapsed + gap) - Arrivals(rate, ramp, elapsed) == arrival
  {
    if ramp > 0.0 && elapsed < ramp {
      if arrival <= rate / ramp * (ramp * ramp - elapsed * elapsed) / 2.0 {
        var root := RootGap(rate, ramp, elapsed, arrival, sqrt);
        assert elapsed + (root - elapsed) == root;
      } else {
        SecondBranch(rate, ramp, elapsed, arrival);
      }
    } else {
      ThirdBranch(rate, ramp, elapsed, arrival);
    }
  }

  /** No other gap does. */
  lemma GapIsUnique(rate: real, ramp: real, elapsed: real, arrival: real, other: real, sqrt: real -> real)
    requires rate > 0.0 && elapsed >= 0.0 && arrival >= 0.0 && other >= 0.0 && IsSquareRoot(sqrt)
    ensures Arrivals(rate, ramp, elapsed + other) - Arrivals(rate, ramp, elapsed) == arrival
       <==> other == Gap(rate, ramp, elapsed, arrival, sqrt)
  {
    var gap := Gap(rate, ramp, elapsed, arrival, sqrt);
    GapInvertsArrivals(rate, ramp, elapsed, arrival, sqrt);
    if other < gap {
      ArrivalsIncrease(rate, ramp, elapsed + other, elapsed + gap);
    } else if gap < other {
      ArrivalsIncrease(rate, ramp, elapsed + gap, elapsed + other);
    }
  }

  /** Waiting for more arrivals takes longer. */
  lemma GapIsMonotone(rate: real, ramp: real, elapsed: real, a: real, b: real, sqrt: real -> real)
    requires rate > 0.0 && elapsed >= 0.0 && 0.0 <= a < b && IsSquareRoot(sqrt)
    ensures Gap(rate, ramp, elapsed, a, sqrt) < Gap(rate, ramp, elapsed, b, sqrt)
  {
    GapInvertsArrivals(rate, ramp, elapsed, a, sqrt);
    GapInvertsArrivals(rate, ramp, elapsed, b, sqrt);
    var g, h := Gap(rate, ramp, elapsed, a, sqrt), Gap(rate, ramp, elapsed, b, sqrt);
    if h < g { ArrivalsIncrease(rate, ramp, elapsed + h, elapsed + g); }
  }

  /** Gaps compose: waiting for a + b arrivals is waiting for a and, from then on, for b. */
  lemma GapsCompose(rate: real, ramp: real, elapsed: real, a: real, b: real, sqrt: real -> real)
    requires rate > 0.0 && elapsed >= 0.0 && a >= 0.0 && b >= 0.0 && IsSquareRoot(sqrt)
    ensures var first := Gap(rate, ramp, elapsed, a, sqrt);
            Gap(rate, ramp, elapsed, a + b, sqrt) == first + Gap(rate, ramp, elapsed + first, b, sqrt)
  {
    var first := Gap(rate, ramp, elapsed, a, sqrt);
    GapInvertsArrivals(rate, ramp, elapsed, a, sqrt);
    var second := Gap(rate, ramp, elapsed + first, b, sqrt);
    GapInvertsArrivals(rate, ramp, elapsed + first, b, sqrt);
    assert elapsed + (first + second) == elapsed + first + second;
    GapIsUnique(rate, ramp, elapsed, a + b, first + second, sqrt);
  }
}
