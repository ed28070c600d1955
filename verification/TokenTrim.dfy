/**
 Trimming a prompt to a token budget with few calls to a remote token counter.

 An interpolation search narrows the number of bytes to keep between the longest prefix known to be
 under budget and the shortest one known to be over it, cutting only between characters.  The counter
 is an arbitrary function of the text that may also fail.
 */
module TokenTrim {
  import opened Utf8
  import LoadDivision

  datatype Count = Counted(tokens: int) | Failed

  type Counter = Text -> Count

  const MAX_ATTEMPTS: nat := 6

  /** The longest prefix of at most `keep` bytes that ends at a boundary. */
  ghost predicate LongestCut(text: Text, keep: nat, r: Text) {
    r <= text && |r| <= keep && Boundary(text, |r|) && forall p: nat | |r| < p <= keep && p <= |text| :: !Boundary(text, p)
  }

  method SafePrefix(text: Text, keep: nat) returns (r: Text)
    ensures LongestCut(text, keep, r)
  {
    if keep >= |text| {
      return text;
    }
    var k: nat := keep;
    while k > 0 && !RuneStart(text[k])
      invariant k <= keep
      invariant forall p: nat | k < p <= keep :: !Boundary(text, p)
    {
      k := k - 1;
    }
    return text[..k];
  }

  /** Where the search looks next lies at or above the lower and below the upper bound. */
  lemma Interpolates(low: nat, high: nat, lowCount: int, highCount: int, target: int)
    requires low < high && lowCount < target < highCount
    ensures low <= low + (target - lowCount) * (high - low) / (highCount - lowCount) < high
  {
    DivisionBounds(target - lowCount, high - low, highCount - lowCount);
  }

  lemma DivisionBounds(a: int, d: int, b: int)
    requires 0 <= a < b && 0 < d
    ensures 0 <= a * d / b < d
  {
    ProductBounds(a, d, b);
    QuotientBounds(a * d, b, d);
  }

  lemma ProductBounds(a: int, d: int, b: int)
    requires 0 <= a < b && 0 < d
    ensures 0 <= a * d < b * d
  {
    assert (b - a) * d > 0;
    assert (b - a) * d == b * d - a * d;
  }

  lemma QuotientBounds(n: int, b: int, d: int)
    requires 0 <= n < b * d && b > 0
    ensures 0 <= n / b < d
  {
    var q := n / b;
    assert q * b <= n < q * b + b;
    assert q >= d ==> (q - d) * b >= 0;
    assert (q - d) * b == q * b - b * d;
  }

  predicate UnderBudget(counter: Counter, p: Text, target: int) { counter(p).Counted? && counter(p).tokens <= target }

  predicate OverBudget(counter: Counter, p: Text, target: int) { counter(p).Counted? && counter(p).tokens > target }

  /** What the result of a search has to do with what was measured on the way. */
  ghost predicate FitsProbes(result: Text, probes: seq<Text>, target: int, counter: Counter) {
    && (forall p | p in probes && UnderBudget(counter, p, target) :: |p| <= |result| && UnderBudget(counter, result, target))
    && (forall p | p in probes && OverBudget(counter, p, target) :: |result| < |p|)
  }

  /** Where the search stands: prefixes of `low` and `high` bytes bracket the target. */
  datatype Bracket = Bracket(low: nat, lowCount: int, high: nat, highCount: int)

  ghost predicate Brackets(source: Text, target: int, counter: Counter, b: Bracket, probes: seq<Text>) {
    && b.low < b.high <= |source| && b.lowCount < target < b.highCount
    && Boundary(source, b.low)
    && (b.low > 0 ==> counter(source[..b.low]) == Counted(b.lowCount))
    && (forall p | p in probes :: p <= source && Boundary(source, |p|))
    && (forall p | p in probes && UnderBudget(counter, p, target) :: 0 < |p| <= b.low)
    && (forall p | p in probes && OverBudget(counter, p, target) :: b.high <= |p|)
  }

  /** The bracket after one more prefix was measured. */
  function Narrowed(b: Bracket, size: nat, tokens: int, target: int): Bracket {
    if tokens < target then b.(low := size, lowCount := tokens) else b.(high := size, highCount := tokens)
  }

  /** The bracket after all these prefixes were measured. */
  function BracketAfter(source: Text, target: int, count: int, counter: Counter, probes: seq<Text>): Bracket {
    if probes == [] then Bracket(0, 0, |source|, count)
    else
      var b, last := BracketAfter(source, target, count, counter, probes[..|probes| - 1]), probes[|probes| - 1];
      if Misses(counter, last, target) then Narrowed(b, |last|, counter(last).tokens, target) else b
  }

  predicate Misses(counter: Counter, p: Text, target: int) { counter(p).Counted? && counter(p).tokens != target }

  /** The place, rounded down, that divides the bracket as the target divides its counts. */
  ghost predicate Proportional(b: Bracket, target: int, keep: nat) {
    && b.low <= keep
    && (keep - b.low) * (b.highCount - b.lowCount) <= (target - b.lowCount) * (b.high - b.low)
    && (target - b.lowCount) * (b.high - b.low) < (keep - b.low + 1) * (b.highCount - b.lowCount)
  }

  /** The prefix cut at that place. */
  ghost predicate Proposed(source: Text, b: Bracket, target: int, p: Text) {
    exists keep: nat :: Proportional(b, target, keep) && LongestCut(source, keep, p)
  }

  /** The place, rounded down, that the target would take up at the density of the upper bound. */
  ghost predicate Scaled(b: Bracket, target: int, keep: nat) {
    keep * b.highCount <= b.high * target < (keep + 1) * b.highCount
  }

  /** Each prefix measured was proposed by what was measured before it, and missed the target unless it is the last. */
  ghost predicate ProbeAt(source: Text, target: int, count: int, counter: Counter, probes: seq<Text>, i: nat) {
    i < |probes| && probes[i] != [] && Proposed(source, BracketAfter(source, target, count, counter, probes[..i]), target, probes[i])
    && (i + 1 < |probes| ==> Misses(counter, probes[i], target))
  }

  ghost predicate Searched(source: Text, target: int, count: int, counter: Counter, probes: seq<Text>) {
    forall i | 0 <= i < |probes| :: ProbeAt(source, target, count, counter, probes, i)
  }

  /** How a search ends: with a hit; with a count that failed; with nothing left to propose; or with the attempts. */
  ghost predicate Ends(source: Text, target: int, count: int, counter: Counter, probes: seq<Text>, result: Text) {
    var b := BracketAfter(source, target, count, counter, probes);
    if probes != [] && !Misses(counter, probes[|probes| - 1], target) then
      if counter(probes[|probes| - 1]).Counted? || b.low == 0 then result == probes[|probes| - 1]
      else b.low <= |source| && result == source[..b.low]
    else if |probes| < MAX_ATTEMPTS then result == [] && Proposed(source, b, target, [])
    else if b.low > 0 then b.low <= |source| && result == source[..b.low]
    else exists keep: nat :: Scaled(b, target, keep) && LongestCut(source, keep, result)
  }

  ghost predicate Outcome(source: Text, target: int, count: int, counter: Counter, probes: seq<Text>, result: Text) {
    |probes| <= MAX_ATTEMPTS && Searched(source, target, count, counter, probes)
    && Ends(source, target, count, counter, probes, result)
  }

  /** A probe more, after all before it missed. */
  lemma ProbesOn(source: Text, target: int, count: int, counter: Counter, probes: seq<Text>, p: Text)
    requires Searched(source, target, count, counter, probes) && p != []
    requires forall i | 0 <= i < |probes| :: Misses(counter, probes[i], target)
    requires Proposed(source, BracketAfter(source, target, count, counter, probes), target, p)
    ensures Searched(source, target, count, counter, probes + [p])
    ensures var b := BracketAfter(source, target, count, counter, probes);
            BracketAfter(source, target, count, counter, probes + [p])
            == if Misses(counter, p, target) then Narrowed(b, |p|, counter(p).tokens, target) else b
  {
    var more := probes + [p];
    assert more[..|probes|] == probes;
    forall i | 0 <= i < |more| ensures ProbeAt(source, target, count, counter, more, i) {
      assert more[..i] == probes[..i];
      assert i < |probes| ==> ProbeAt(source, target, count, counter, probes, i);
    }
  }

  /** A probe that misses the target narrows the bracket. */
  lemma Narrows(source: Text, target: int, counter: Counter, b: Bracket, probes: seq<Text>, candidate: Text, tokens: int)
    requires Brackets(source, target, counter, b, probes)
    requires candidate <= source && Boundary(source, |candidate|) && b.low <= |candidate| < b.high && candidate != []
    requires counter(candidate) == Counted(tokens) && tokens != target
    ensures Brackets(source, target, counter, Narrowed(b, |candidate|, tokens, target), probes + [candidate])
  {
    assert source[..|candidate|] == candidate;
  }

  /** Any text of the bracket's lengths is a proper answer to what was measured. */
  lemma AnswersProbes(source: Text, target: int, counter: Counter, b: Bracket, probes: seq<Text>, result: Text)
    requires Brackets(source, target, counter, b, probes) && b.low <= |result| < b.high
    requires b.low > 0 ==> UnderBudget(counter, result, target)
    ensures FitsProbes(result, probes, target, counter)
  {
  }

  /** How many bytes to try next: proportional to where the target lies between the two counts. */
  method InterpolatedKeep(b: Bracket, target: int) returns (keep: nat)
    requires b.lowCount <= target < b.highCount && b.low <= b.high
    ensures b.low < b.high && b.lowCount < target ==> b.low <= keep < b.high
    ensures b.low == b.high || b.lowCount == target ==> keep == b.low
    ensures Proportional(b, target, keep)
  {
    var denominator := b.highCount - b.lowCount;
    if b.low < b.high && b.lowCount < target { Interpolates(b.low, b.high, b.lowCount, b.highCount, target); }
    assert b.low == b.high || b.lowCount == target ==> (target - b.lowCount) * (b.high - b.low) == 0;
    Positive(target - b.lowCount, b.high - b.low);
    Floor((target - b.lowCount) * (b.high - b.low), denominator);
    keep := b.low + (target - b.lowCount) * (b.high - b.low) / denominator;
  }

  /** A last, conservative estimate from the smallest prefix known to be over budget. */
  method ScaledKeep(b: Bracket, target: int) returns (keep: nat)
    requires 0 <= target < b.highCount
    ensures keep < b.high || keep == b.high == 0
    ensures Scaled(b, target, keep)
  {
    assert b.high * target == target * b.high;
    if b.high > 0 { DivisionBounds(target, b.high, b.highCount); }
    Positive(b.high, target);
    Floor(b.high * target, b.highCount);
    keep := b.high * target / b.highCount;
  }

  lemma Positive(a: int, b: int)
    requires a >= 0 && b >= 0
    ensures a * b >= 0
  {
  }

  lemma Floor(n: int, d: int)
    requires n >= 0 && d > 0
    ensures n / d >= 0 && (n / d) * d <= n < (n / d + 1) * d
  {
    assert (n / d + 1) * d == (n / d) * d + d;
  }

  /** While the budget times the length of the text fits 64 bits, both products of the search do, whatever was measured. */
  lemma ProductsFit(b: Bracket, target: int, size: nat)
    requires b.low <= b.high <= size && 0 <= b.lowCount <= target && target * size <= LoadDivision.MAX_INT64
    ensures LoadDivision.Wrap64((target - b.lowCount) * (b.high - b.low)) == (target - b.lowCount) * (b.high - b.low)
    ensures LoadDivision.Wrap64(b.high * target) == b.high * target
  {
    ProductFits(target - b.lowCount, b.high - b.low, target, size);
    ProductFits(b.high, target, size, target);
  }

  lemma ProductFits(a: nat, b: nat, x: nat, y: nat)
    requires a <= x && b <= y && x * y <= LoadDivision.MAX_INT64
    ensures 0 <= a * b <= x * y && LoadDivision.Wrap64(a * b) == a * b
  {
    LoadDivision.ProductMonotone(a, b, y);
    LoadDivision.ProductMonotone(y, a, x);
    LoadDivision.ProductMonotone(a, 0, b);
    LoadDivision.WrapIsIdentity(a * b);
  }

  /** The search has come this far and goes on. */
  ghost predicate Underway(source: Text, target: int, count: int, counter: Counter, b: Bracket, best: Text, probes: seq<Text>) {
    && Searched(source, target, count, counter, probes)
    && b == BracketAfter(source, target, count, counter, probes)
    && (forall i | 0 <= i < |probes| :: Misses(counter, probes[i], target))
    && (source != [] && target > 0 ==> Brackets(source, target, counter, b, probes) && best == source[..b.low])
    && (source == [] || target == 0 ==> b == Bracket(0, 0, |source|, count) && best == [] && probes == [])
  }

  /** The next prefix is proposed, and lies within the bracket. */
  ghost predicate Next(source: Text, target: int, b: Bracket, p: Text) {
    && p <= source && Boundary(source, |p|) && b.low <= |p| && (source != [] ==> |p| < b.high) && p != []
    && Proposed(source, b, target, p)
  }

  /** It misses. */
  lemma GoesOn(source: Text, target: int, count: int, counter: Counter, b: Bracket, best: Text, probes: seq<Text>, p: Text)
    requires 0 < target < count && Underway(source, target, count, counter, b, best, probes) && Next(source, target, b, p)
    requires Misses(counter, p, target)
    ensures Underway(source, target, count, counter, Narrowed(b, |p|, counter(p).tokens, target),
                     if counter(p).tokens < target then p else best, probes + [p])
  {
    ProbesOn(source, target, count, counter, probes, p);
    Narrows(source, target, counter, b, probes, p, counter(p).tokens);
    assert source[..|p|] == p;
  }

  /** The result is a prefix ending at a boundary and shorter than the text, and answers what was measured. */
  ghost predicate Answers(source: Text, target: int, count: int, counter: Counter, probes: seq<Text>, result: Text) {
    && Outcome(source, target, count, counter, probes, result)
    && result <= source && Boundary(source, |result|) && (source != [] ==> |result| < |source|)
    && (forall p | p in probes :: p <= source && Boundary(source, |p|))
    && FitsProbes(result, probes, target, counter)
  }

  /** It hits, or cannot be counted. */
  lemma Stops(source: Text, target: int, count: int, counter: Counter, b: Bracket, best: Text, probes: seq<Text>, p: Text)
    requires 0 < target < count && Underway(source, target, count, counter, b, best, probes) && |probes| < MAX_ATTEMPTS
    requires Next(source, target, b, p) && !Misses(counter, p, target)
    ensures Answers(source, target, count, counter, probes + [p], if counter(p).Counted? || best == [] then p else best)
  {
    ProbesOn(source, target, count, counter, probes, p);
    var result := if counter(p).Counted? || best == [] then p else best;
    AnswersProbes(source, target, counter, b, probes, result);
  }

  /** There is nothing to propose. */
  lemma StopsEmpty(source: Text, target: int, count: int, counter: Counter, b: Bracket, best: Text, probes: seq<Text>)
    requires 0 <= target < count && Underway(source, target, count, counter, b, best, probes) && |probes| < MAX_ATTEMPTS
    requires Proposed(source, b, target, []) && b.low == 0
    ensures Answers(source, target, count, counter, probes, [])
  {
  }

  /** The attempts are used up. */
  lemma RunsOut(source: Text, target: int, count: int, counter: Counter, b: Bracket, best: Text, probes: seq<Text>, result: Text)
    requires 0 < target < count && Underway(source, target, count, counter, b, best, probes) && |probes| == MAX_ATTEMPTS
    requires if best != [] then result == best
             else |result| < b.high && exists keep: nat :: Scaled(b, target, keep) && LongestCut(source, keep, result)
    ensures Answers(source, target, count, counter, probes, result)
  {
    if best == [] { assert b.low == 0; }
    AnswersProbes(source, target, counter, b, probes, result);
  }

  /** The search.  `count`, the token count of the whole text, exceeds the target.  At most six prefixes
      are measured, each where the counts so far place the target.  The result is a prefix of the text ending at a
      boundary; it is no shorter than any measured prefix within budget and strictly shorter than every measured one over
      budget; and once a measured prefix was within budget, so is the result. */
  method TrimWithCount(source: Text, target: int, count: int, counter: Counter) returns (result: Text, probes: seq<Text>)
    requires 0 <= target < count
    ensures Outcome(source, target, count, counter, probes, result)
    ensures result <= source && Boundary(source, |result|)
    ensures source != [] ==> |result| < |source|
    ensures forall p | p in probes :: p <= source && Boundary(source, |p|)
    ensures FitsProbes(result, probes, target, counter)
  {
    var b := Bracket(0, 0, |source|, count);
    var best: Text := [];
    probes := [];
    for attempt := 0 to MAX_ATTEMPTS
      invariant |probes| == attempt && Underway(source, target, count, counter, b, best, probes)
    {
      if b.highCount - b.lowCount <= 0 { break; }
      var keep := InterpolatedKeep(b, target);
      var candidate := SafePrefix(source, keep);
      // the lower bound is a boundary, so snapping back does not go below it
      assert b.low <= |candidate| && (source != [] ==> |candidate| < b.high);
      assert Proposed(source, b, target, candidate);
      if candidate == [] {
        StopsEmpty(source, target, count, counter, b, best, probes);
        return candidate, probes;
      }
      match counter(candidate)
      case Failed =>
        Stops(source, target, count, counter, b, best, probes, candidate);
        return if best != [] then best else candidate, probes + [candidate];
      case Counted(tokens) =>
        if tokens == target {
          Stops(source, target, count, counter, b, best, probes, candidate);
          return candidate, probes + [candidate];
        }
        GoesOn(source, target, count, counter, b, best, probes, candidate);
        probes := probes + [candidate];
        if tokens < target {
          best := candidate;
          b := b.(low := |candidate|, lowCount := tokens);
        } else {
          b := b.(high := |candidate|, highCount := tokens);
        }
    }
    if best != [] {
      RunsOut(source, target, count, counter, b, best, probes, best);
      return best, probes;
    }
    var keep := ScaledKeep(b, target);
    result := SafePrefix(source, keep);
    RunsOut(source, target, count, counter, b, best, probes, result);
  }

  /** Nothing the search measures or returns splits a character. */
  lemma PrefixesStayWellFormed(source: Text, p: Text)
    requires WellFormed(source) && p <= source && Boundary(source, |p|)
    ensures WellFormed(p)
  {
    PrefixAtBoundary(source, |p|);
    assert source[..|p|] == p;
  }

  /** The whole operation.  The text is cut exactly when a counter is there, the budget is positive and
      the counted text exceeds it. */
  method TrimToTokenBudget(text: Text, target: int, hasCounter: bool, counter: Counter) returns (result: Text, trimmed: bool)
    ensures trimmed <==> hasCounter && target > 0 && text != [] && OverBudget(counter, text, target)
    ensures !trimmed ==> result == text
    ensures trimmed ==> |result| < |text| && exists probes :: Outcome(text, target, counter(text).tokens, counter, probes, result)
    ensures result <= text && (WellFormed(text) ==> WellFormed(result))
  {
    if !hasCounter || target <= 0 || |text| == 0 {
      return text, false;
    }
    match counter(text)
    case Failed => return text, false;
    case Counted(tokens) =>
      if tokens <= target {
        return text, false;
      }
      var cut, probes := TrimWithCount(text, target, tokens, counter);
      if WellFormed(text) { PrefixesStayWellFormed(text, cut); }
      return cut, true;
  }
}
