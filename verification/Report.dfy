/**
 The report computed by streaming over the request artifacts of a run, and the simple batch summary of the
 same records. Conversation identifiers stand for their own digests.
 */
module Report {
  import opened Shared
  import opened Statistics
  import opened Collect

  datatype Record = Record(start: real, end: real, status: string, ttft: real, itls: seq<real>, latency: real,
                           outputTokens: int, promptTokens: int, conversation: string, evalCorrect: Option<bool>)

  /** The measurement window, if one is used. */
  datatype Window = Whole | Within(start: real, end: real)

  datatype Counters = Counters(total: nat, success: nat, errors: nat, outputTokens: int, promptTokens: int)

  datatype Grades = Grades(total: nat, correct: nat, incorrect: nat)

  datatype Timing = Timing(duration: real, requestsPerSec: real, tokensPerSec: real)

  datatype Summary = Summary(counters: Counters, grades: Grades, accuracy: real, timing: Timing,
                             ttft: Stats, itl: Stats, e2e: Stats, conversations: nat, turns: Stats)

  const NO_COUNTS := Counters(0, 0, 0, 0, 0)
  const NO_GRADES := Grades(0, 0, 0)
  const NO_TIMING := Timing(0.0, 0.0, 0.0)
  const EMPTY_SUMMARY :=
    Summary(NO_COUNTS, NO_GRADES, 0.0, NO_TIMING, NO_STATS, NO_STATS, NO_STATS, 0, NO_STATS)

  // ---------------------------------------------------------------- what a list of records amounts to

  predicate Ok(r: Record) { r.status == "ok" }

  predicate Inside(window: Window, r: Record) {
    window.Whole? || (window.start <= r.start && r.end <= window.end)
  }

  function Sieve(window: Window): Record -> seq<Record> { r => if Inside(window, r) then [r] else [] }

  function Kept(window: Window, records: seq<Record>): seq<Record> { Flat(Sieve(window), records) }

  function OkOf(r: Record): seq<Record> { if Ok(r) then [r] else [] }
  function TtftOf(r: Record): seq<real> { if Ok(r) then [r.ttft] else [] }
  function LatencyOf(r: Record): seq<real> { if Ok(r) then [r.latency] else [] }
  function ItlsOf(r: Record): seq<real> { if Ok(r) then r.itls else [] }
  function OutputOf(r: Record): seq<int> { if Ok(r) then [r.outputTokens] else [] }
  function PromptOf(r: Record): seq<int> { if Ok(r) then [r.promptTokens] else [] }
  function GradeOf(r: Record): seq<bool> { if r.evalCorrect.Some? then [r.evalCorrect.value] else [] }
  function ConversationOf(r: Record): seq<string> { [r.conversation] }
  function StartOf(r: Record): seq<real> { [r.start] }
  function EndOf(r: Record): seq<real> { [r.end] }

  function Ids(w: seq<Record>): seq<string> { Flat(ConversationOf, w) }

  /** The time from the earliest start to the latest end. */
  function Span(w: seq<Record>): real {
    Greatest(Flat(EndOf, w)) - Least(Flat(StartOf, w))
  }

  function PerSecond(n: int, duration: real): real {
    if duration > 0.0 then n as real / duration else 0.0
  }

  /** The distinct conversations in order of first appearance, of which only the first `limit` are tracked. */
  function Tracked(limit: nat, ids: seq<string>): seq<string> {
    if ids == [] then []
    else
      var before, id := Tracked(limit, ids[..|ids| - 1]), ids[|ids| - 1];
      if id in before || |before| >= limit then before else before + [id]
  }

  function Distinct(ids: seq<string>): seq<string> { Tracked(|ids|, ids) }

  /** The number of turns of each listed conversation. */
  function Turns(order: seq<string>, ids: seq<string>): seq<real> {
    Flat((id: string) => [multiset(ids)[id] as real], order)
  }

  function CountersOf(w: seq<Record>): Counters {
    OkAreSome(w);
    var success := |Flat(OkOf, w)|;
    Counters(|w|, success, |w| - success, SumInts(Flat(OutputOf, w)), SumInts(Flat(PromptOf, w)))
  }

  lemma {:induction false} OkAreSome(w: seq<Record>)
    ensures |Flat(OkOf, w)| <= |w|
  {
    if w != [] { OkAreSome(w[..|w| - 1]); }
  }

  function GradesOf(w: seq<Record>): Grades {
    var grades := Flat(GradeOf, w);
    Grades(|grades|, multiset(grades)[true], multiset(grades)[false])
  }

  function Accuracy(g: Grades): real {
    if g.total > 0 then g.correct as real / g.total as real else 0.0
  }

  function TimingOf(c: Counters, duration: real): Timing {
    Timing(duration, PerSecond(c.success, duration), PerSecond(c.outputTokens, duration))
  }

  /** The simple form: all values are kept, and the duration is that of the records themselves. */
  function Batch(records: seq<Record>, start: real, end: real): Summary {
    BatchOf(Kept(if start > 0.0 && end > 0.0 then Within(start, end) else Whole, records))
  }

  function BatchOf(w: seq<Record>): Summary {
    if w == [] then EMPTY_SUMMARY
    else
      var ids := Ids(w);
      Summary(CountersOf(w), GradesOf(w), Accuracy(GradesOf(w)), TimingOf(CountersOf(w), Span(w)),
              StatsOf(Flat(TtftOf, w)), StatsOf(Flat(ItlsOf, w)), StatsOf(Flat(LatencyOf, w)),
              |Distinct(ids)|, StatsOf(Turns(Distinct(ids), ids)))
  }

  /** The streamed form: latencies are sampled, conversations capped, and a window gives the duration. */
  function Streamed(records: seq<Record>, window: Window, limit: nat, pick: nat -> nat): Summary {
    var w := Kept(window, records);
    StreamedOf(w, if window.Within? then window.end - window.start else Span(w), limit, pick)
  }

  function StreamedOf(w: seq<Record>, duration: real, limit: nat, pick: nat -> nat): Summary {
    var ids := Ids(w);
    Summary(CountersOf(w), GradesOf(w), Accuracy(GradesOf(w)), TimingOf(CountersOf(w), duration),
            StatsOf(Sample(pick, limit, Flat(TtftOf, w))), StatsOf(Sample(pick, limit, Flat(ItlsOf, w))),
            StatsOf(Sample(pick, limit, Flat(LatencyOf, w))), |Tracked(limit, ids)|,
            StatsOf(Turns(Tracked(limit, ids), ids)))
  }

  predicate LatenciesSampled(w: seq<Record>, limit: nat) {
    |Flat(TtftOf, w)| > limit || |Flat(ItlsOf, w)| > limit || |Flat(LatencyOf, w)| > limit
  }

  predicate ConversationsCapped(w: seq<Record>, limit: nat) { |Distinct(Ids(w))| > limit }

  // ---------------------------------------------------------------- what the figures are

  function Plus(a: Counters, b: Counters): Counters {
    Counters(a.total + b.total, a.success + b.success, a.errors + b.errors, a.outputTokens + b.outputTokens,
             a.promptTokens + b.promptTokens)
  }

  /** One record counts once, as a success with its tokens or as an error without, and gives its latencies only as a
      success and its grade only if it has one. */
  lemma OneRecord(r: Record)
    ensures CountersOf([r]) == if r.status == "ok" then Counters(1, 1, 0, r.outputTokens, r.promptTokens) else Counters(1, 0, 1, 0, 0)
    ensures GradesOf([r]) == if r.evalCorrect == None then Grades(0, 0, 0)
                             else if r.evalCorrect == Some(true) then Grades(1, 1, 0) else Grades(1, 0, 1)
    ensures Flat(TtftOf, [r]) == (if r.status == "ok" then [r.ttft] else [])
    ensures Flat(ItlsOf, [r]) == (if r.status == "ok" then r.itls else [])
    ensures Flat(LatencyOf, [r]) == (if r.status == "ok" then [r.latency] else [])
    ensures Ids([r]) == [r.conversation]
  {
    GradeOfOne(r);
    CountersOfOne(r);
    FlatOne(TtftOf, r);
    FlatOne(ItlsOf, r);
    FlatOne(LatencyOf, r);
    FlatOne(ConversationOf, r);
  }

  lemma {:induction false} FlatOne<T>(f: Record -> seq<T>, r: Record)
    ensures Flat(f, [r]) == f(r)
  {
    FlatStep(f, [], r);
    assert [] + [r] == [r];
  }

  lemma GradeOfOne(r: Record)
    ensures GradesOf([r]) == if r.evalCorrect == None then Grades(0, 0, 0)
                             else if r.evalCorrect == Some(true) then Grades(1, 1, 0) else Grades(1, 0, 1)
  {
    FlatOne(GradeOf, r);
    if r.evalCorrect.Some? {
      var grade := r.evalCorrect.value;
      assert grade == true || grade == false;
      assert Flat(GradeOf, [r]) == [grade];
    }
  }

  lemma CountersOfOne(r: Record)
    ensures CountersOf([r]) == if r.status == "ok" then Counters(1, 1, 0, r.outputTokens, r.promptTokens) else Counters(1, 0, 1, 0, 0)
  {
    FlatOne(OkOf, r);
    FlatOne(OutputOf, r);
    FlatOne(PromptOf, r);
    SumOfOne(r.outputTokens);
    SumOfOne(r.promptTokens);
  }

  lemma SumOfOne(x: int)
    ensures SumInts([x]) == x && SumInts([]) == 0
  {
    assert [x][..0] == [];
  }

  /** The counters and grades of two lists of records add up. */
  lemma {:induction false} CountsAdd(a: seq<Record>, b: seq<Record>)
    ensures CountersOf(a + b) == Plus(CountersOf(a), CountersOf(b))
    ensures GradesOf(a + b).total == GradesOf(a).total + GradesOf(b).total
    ensures GradesOf(a + b).correct == GradesOf(a).correct + GradesOf(b).correct
    ensures GradesOf(a + b).incorrect == GradesOf(a).incorrect + GradesOf(b).incorrect
  {
    CountersAdd(a, b);
    GradesAdd(a, b);
  }

  lemma {:induction false} CountersAdd(a: seq<Record>, b: seq<Record>)
    ensures CountersOf(a + b) == Plus(CountersOf(a), CountersOf(b))
  {
    NumbersAdd(OkOf, a, b);
    IntsAdd(OutputOf, a, b);
    IntsAdd(PromptOf, a, b);
    AddedUp(a, b, a + b);
  }

  lemma {:induction false} AddedUp(a: seq<Record>, b: seq<Record>, w: seq<Record>)
    requires |w| == |a| + |b| && |Flat(OkOf, w)| == |Flat(OkOf, a)| + |Flat(OkOf, b)|
    requires SumInts(Flat(OutputOf, w)) == SumInts(Flat(OutputOf, a)) + SumInts(Flat(OutputOf, b))
    requires SumInts(Flat(PromptOf, w)) == SumInts(Flat(PromptOf, a)) + SumInts(Flat(PromptOf, b))
    ensures CountersOf(w) == Plus(CountersOf(a), CountersOf(b))
  {
    OkAreSome(a);
    OkAreSome(b);
    OkAreSome(w);
  }

  lemma {:induction false} NumbersAdd<T>(f: Record -> seq<T>, a: seq<Record>, b: seq<Record>)
    ensures |Flat(f, a + b)| == |Flat(f, a)| + |Flat(f, b)|
  {
    FlatConcat(f, a, b);
  }

  lemma {:induction false} IntsAdd(f: Record -> seq<int>, a: seq<Record>, b: seq<Record>)
    ensures SumInts(Flat(f, a + b)) == SumInts(Flat(f, a)) + SumInts(Flat(f, b))
  {
    FlatConcat(f, a, b);
    SumIntsConcat(Flat(f, a), Flat(f, b));
  }

  lemma {:induction false} GradesAdd(a: seq<Record>, b: seq<Record>)
    ensures GradesOf(a + b).total == GradesOf(a).total + GradesOf(b).total
    ensures GradesOf(a + b).correct == GradesOf(a).correct + GradesOf(b).correct
    ensures GradesOf(a + b).incorrect == GradesOf(a).incorrect + GradesOf(b).incorrect
  {
    FlatConcat(GradeOf, a, b);
  }

  /** Every graded record is correct or incorrect, and the accuracy is the share of the correct ones. */
  lemma {:induction false} AccuracyIsShare(w: seq<Record>)
    ensures var g := GradesOf(w);
            && g.correct + g.incorrect == g.total
            && (g.total > 0 ==> Times(Accuracy(g), g.total as real) == g.correct as real && 0.0 <= Accuracy(g) <= 1.0)
            && (g.total == 0 ==> Accuracy(g) == 0.0)
  {
    var grades := Flat(GradeOf, w);
    TrueOrFalse(grades);
    var g := GradesOf(w);
    if g.total > 0 { Share(g.correct as real, g.total as real); }
  }

  lemma {:induction false} TrueOrFalse(s: seq<bool>)
    ensures multiset(s)[true] + multiset(s)[false] == |s|
  {
    if s != [] {
      var front, last := s[..|s| - 1], s[|s| - 1];
      TrueOrFalse(front);
      assert s == front + [last];
      assert multiset(s) == multiset(front) + multiset{last};
      assert last == true || last == false;
    }
  }

  lemma Share(part: real, whole: real)
    requires 0.0 <= part <= whole && whole > 0.0
    ensures Times(part / whole, whole) == part && 0.0 <= part / whole <= 1.0
  {
  }

  /** A rate times the duration is what was counted. */
  lemma RateTimesDuration(c: Counters, duration: real)
    ensures TimingOf(c, duration).duration == duration
    ensures duration > 0.0 ==>
              Times(TimingOf(c, duration).requestsPerSec, duration) == c.success as real
              && Times(TimingOf(c, duration).tokensPerSec, duration) == c.outputTokens as real
    ensures duration <= 0.0 ==> TimingOf(c, duration).requestsPerSec == 0.0 && TimingOf(c, duration).tokensPerSec == 0.0
  {
    if duration > 0.0 {
      Dividing(c.success as real, duration);
      Dividing(c.outputTokens as real, duration);
    }
  }

  lemma Dividing(x: real, d: real)
    requires d > 0.0
    ensures Times(x / d, d) == x
  {
  }

  // ---------------------------------------------------------------- conversations

  lemma {:induction false} TrackedIsDistinct(limit: nat, ids: seq<string>)
    ensures NoDuplicates(Tracked(limit, ids)) && |Tracked(limit, ids)| <= limit && |Tracked(limit, ids)| <= |ids|
    ensures forall id | id in Tracked(limit, ids) :: id in ids
    ensures |Tracked(limit, ids)| < limit ==> forall id | id in ids :: id in Tracked(limit, ids)
  {
    if ids != [] {
      var front := ids[..|ids| - 1];
      TrackedIsDistinct(limit, front);
      assert ids == front + [ids[|ids| - 1]];
    }
  }

  /** Up to the limit, tracking does not depend on it; beyond it, exactly `limit` conversations are tracked. */
  lemma {:induction false} TrackedUnderLimits(limit: nat, higher: nat, ids: seq<string>)
    requires limit <= higher
    ensures |Tracked(higher, ids)| <= limit ==> Tracked(limit, ids) == Tracked(higher, ids)
    ensures |Tracked(higher, ids)| > limit ==> |Tracked(limit, ids)| == limit
  {
    if ids != [] {
      TrackedUnderLimits(limit, higher, ids[..|ids| - 1]);
      TrackedIsDistinct(limit, ids[..|ids| - 1]);
    }
  }

  lemma DistinctIsComplete(ids: seq<string>)
    ensures NoDuplicates(Distinct(ids)) && forall id :: id in Distinct(ids) <==> id in ids
  {
    Headroom(ids);
    TrackedIsDistinct(|ids|, ids);
  }

  /** A cap as high as the number of records is never felt. */
  lemma {:induction false} Headroom(ids: seq<string>)
    ensures forall id | id in ids :: id in Distinct(ids)
  {
    if ids != [] {
      var front := ids[..|ids| - 1];
      assert ids == front + [ids[|ids| - 1]];
      Headroom(front);
      TrackedIsDistinct(|front|, front);
      TrackedUnderLimits(|front|, |ids|, front);
      TrackedIsDistinct(|ids|, front);
    }
  }

  /** Any enumeration of the same conversations gives the same turn statistics. */
  lemma TurnStatsIgnoreOrder(a: seq<string>, b: seq<string>, ids: seq<string>)
    requires NoDuplicates(a) && NoDuplicates(b) && forall id :: id in a <==> id in b
    ensures StatsOf(Turns(a, ids)) == StatsOf(Turns(b, ids))
  {
    SameThings(a, b);
    FlatIgnoresOrder((id: string) => [multiset(ids)[id] as real], a, b);
    StatsIgnoreOrder(Turns(a, ids), Turns(b, ids));
  }

  lemma {:induction false} TurnsStep(order: seq<string>, ids: seq<string>)
    requires order != []
    ensures Sum(Turns(order, ids)) == Sum(Turns(order[..|order| - 1], ids)) + multiset(ids)[order[|order| - 1]] as real
  {
    var front, last := order[..|order| - 1], order[|order| - 1];
    assert Turns(order, ids) == Turns(front, ids) + [multiset(ids)[last] as real];
    assert (Turns(front, ids) + [multiset(ids)[last] as real])[..|Turns(front, ids)|] == Turns(front, ids);
  }

  /** One record more is one turn more, of its own conversation. */
  lemma {:induction false} OneTurnMore(order: seq<string>, ids: seq<string>, id: string)
    requires NoDuplicates(order)
    ensures Sum(Turns(order, ids + [id])) == Sum(Turns(order, ids)) + (if id in order then 1.0 else 0.0)
  {
    if order != [] {
      var front, last := order[..|order| - 1], order[|order| - 1];
      OneTurnMore(front, ids, id);
      TurnsStep(order, ids);
      TurnsStep(order, ids + [id]);
      CountMore(ids, id, last);
      InFront(order, id);
    } else {
      assert Turns(order, ids + [id]) == [] == Turns(order, ids);
    }
  }

  lemma CountMore(ids: seq<string>, id: string, x: string)
    ensures multiset(ids + [id])[x] == multiset(ids)[x] + if x == id then 1 else 0
  {
  }

  lemma InFront(order: seq<string>, id: string)
    requires NoDuplicates(order) && order != []
    ensures id in order <==> id in order[..|order| - 1] || id == order[|order| - 1]
    ensures order[|order| - 1] !in order[..|order| - 1]
  {
    assert order == order[..|order| - 1] + [order[|order| - 1]];
  }

  lemma {:induction false} NoTurns(order: seq<string>)
    ensures Sum(Turns(order, [])) == 0.0
  {
    if order != [] {
      NoTurns(order[..|order| - 1]);
      TurnsStep(order, []);
    } else {
      assert Turns(order, []) == [];
    }
  }

  lemma {:induction false} TurnsOver(order: seq<string>, ids: seq<string>)
    requires NoDuplicates(order) && forall id | id in ids :: id in order
    ensures Sum(Turns(order, ids)) == |ids| as real
  {
    if ids == [] {
      NoTurns(order);
    } else {
      var front, last := ids[..|ids| - 1], ids[|ids| - 1];
      assert ids == front + [last];
      TurnsOver(order, front);
      OneTurnMore(order, front, last);
    }
  }

  /** The turns of all conversations together are the records. */
  lemma TurnsAddUp(w: seq<Record>)
    ensures Sum(Turns(Distinct(Ids(w)), Ids(w))) == |w| as real
  {
    DistinctIsComplete(Ids(w));
    TurnsOver(Distinct(Ids(w)), Ids(w));
    OneIdEach(w);
  }

  lemma {:induction false} OneIdEach(w: seq<Record>)
    ensures |Ids(w)| == |w|
  {
    if w != [] { OneIdEach(w[..|w| - 1]); }
  }

  // ---------------------------------------------------------------- the two forms agree

  lemma KeptIgnoresOrder(window: Window, a: seq<Record>, b: seq<Record>)
    requires multiset(a) == multiset(b)
    ensures multiset(Kept(window, a)) == multiset(Kept(window, b))
  {
    FlatIgnoresOrder(Sieve(window), a, b);
  }

  lemma SameLength<T>(a: seq<T>, b: seq<T>)
    requires multiset(a) == multiset(b)
    ensures |a| == |b|
  {
    assert |a| == |multiset(a)| && |b| == |multiset(b)|;
  }

  lemma FiguresIgnoreOrder(a: seq<Record>, b: seq<Record>)
    requires multiset(a) == multiset(b)
    ensures CountersOf(a) == CountersOf(b) && GradesOf(a) == GradesOf(b)
  {
    SameLength(a, b);
    FlatIgnoresOrder(OkOf, a, b);
    SameLength(Flat(OkOf, a), Flat(OkOf, b));
    FlatIgnoresOrder(GradeOf, a, b);
    SameLength(Flat(GradeOf, a), Flat(GradeOf, b));
    FlatIgnoresOrder(OutputOf, a, b);
    SumIntsIgnoresOrder(Flat(OutputOf, a), Flat(OutputOf, b));
    FlatIgnoresOrder(PromptOf, a, b);
    SumIntsIgnoresOrder(Flat(PromptOf, a), Flat(PromptOf, b));
  }

  lemma SpanIgnoresOrder(a: seq<Record>, b: seq<Record>)
    requires multiset(a) == multiset(b)
    ensures Span(a) == Span(b)
  {
    FlatIgnoresOrder(StartOf, a, b);
    FlatIgnoresOrder(EndOf, a, b);
    SortIgnoresOrder(Flat(StartOf, a), Flat(StartOf, b));
    SortIgnoresOrder(Flat(EndOf, a), Flat(EndOf, b));
    Singles(a);
    Singles(b);
    SameLength(a, b);
  }

  lemma GatheredStatsIgnoreOrder(f: Record -> seq<real>, a: seq<Record>, b: seq<Record>)
    requires multiset(a) == multiset(b)
    ensures StatsOf(Flat(f, a)) == StatsOf(Flat(f, b)) && |Flat(f, a)| == |Flat(f, b)|
  {
    FlatIgnoresOrder(f, a, b);
    SameLength(Flat(f, a), Flat(f, b));
    StatsIgnoreOrder(Flat(f, a), Flat(f, b));
  }

  lemma ConversationsIgnoreOrder(a: seq<string>, b: seq<string>)
    requires multiset(a) == multiset(b)
    ensures |Distinct(a)| == |Distinct(b)|
    ensures StatsOf(Turns(Distinct(a), a)) == StatsOf(Turns(Distinct(b), b))
  {
    DistinctIsComplete(a);
    DistinctIsComplete(b);
    forall id ensures id in Distinct(a) <==> id in Distinct(b) {
      assert id in a <==> id in multiset(a);
      assert id in b <==> id in multiset(b);
    }
    SameThings(Distinct(a), Distinct(b));
    SameLength(Distinct(a), Distinct(b));
    TurnStatsIgnoreOrder(Distinct(a), Distinct(b), a);
    assert Turns(Distinct(b), a) == Turns(Distinct(b), b);
  }

  /** A latency column of the report is exact while it stays within the limit. */
  lemma ColumnAgrees(f: Record -> seq<real>, a: seq<Record>, b: seq<Record>, limit: nat, pick: nat -> nat)
    requires multiset(a) == multiset(b) && |Flat(f, a)| <= limit
    ensures StatsOf(Sample(pick, limit, Flat(f, a))) == StatsOf(Flat(f, b))
  {
    SampleIsExact(pick, limit, Flat(f, a));
    GatheredStatsIgnoreOrder(f, a, b);
  }

  lemma ConversationsAgree(a: seq<Record>, b: seq<Record>, limit: nat)
    requires multiset(a) == multiset(b) && !ConversationsCapped(a, limit)
    ensures |Tracked(limit, Ids(a))| == |Distinct(Ids(b))|
    ensures StatsOf(Turns(Tracked(limit, Ids(a)), Ids(a))) == StatsOf(Turns(Distinct(Ids(b)), Ids(b)))
  {
    var ids := Ids(a);
    FlatIgnoresOrder(ConversationOf, a, b);
    ConversationsIgnoreOrder(ids, Ids(b));
    CapUnfelt(limit, ids);
  }

  lemma CapUnfelt(limit: nat, ids: seq<string>)
    requires |Distinct(ids)| <= limit
    ensures Tracked(limit, ids) == Distinct(ids)
  {
    if limit <= |ids| {
      TrackedUnderLimits(limit, |ids|, ids);
    } else {
      TrackedIsDistinct(limit, ids);
      TrackedUnderLimits(|ids|, limit, ids);
    }
  }

  /** Everything in a summary but the duration and the two rates that divide by it. */
  function Untimed(s: Summary): Summary { s.(timing := NO_TIMING) }

  /**
   While no limit is exceeded, the report over a window has the counts, tokens, eval figures, conversation
   figures and latency statistics of the batch summary, whatever order the files and records come in.
   */
  lemma ReportAgreesWithBatch(streamed: seq<Record>, records: seq<Record>, start: real, end: real, limit: nat, pick: nat -> nat)
    requires multiset(streamed) == multiset(records) && 0.0 < start < end
    requires var w := Kept(Within(start, end), streamed); !LatenciesSampled(w, limit) && !ConversationsCapped(w, limit)
    ensures Untimed(Streamed(streamed, Within(start, end), limit, pick)) == Untimed(Batch(records, start, end))
  {
    KeptIgnoresOrder(Within(start, end), streamed, records);
    KeptAgrees(Kept(Within(start, end), streamed), Kept(Within(start, end), records), limit, pick);
  }

  /** Without a window, the whole summary agrees. */
  lemma ReportAgreesWithoutWindow(streamed: seq<Record>, records: seq<Record>, start: real, end: real, limit: nat, pick: nat -> nat)
    requires multiset(streamed) == multiset(records) && !(start > 0.0 && end > 0.0)
    requires var w := Kept(Whole, streamed); !LatenciesSampled(w, limit) && !ConversationsCapped(w, limit)
    ensures Streamed(streamed, Whole, limit, pick) == Batch(records, start, end)
  {
    KeptIgnoresOrder(Whole, streamed, records);
    KeptAgrees(Kept(Whole, streamed), Kept(Whole, records), limit, pick);
    SpanIgnoresOrder(Kept(Whole, streamed), Kept(Whole, records));
  }

  lemma KeptAgrees(a: seq<Record>, b: seq<Record>, limit: nat, pick: nat -> nat)
    requires multiset(a) == multiset(b) && !LatenciesSampled(a, limit) && !ConversationsCapped(a, limit)
    ensures CountersOf(a) == CountersOf(b) && GradesOf(a) == GradesOf(b)
    ensures StatsOf(Sample(pick, limit, Flat(TtftOf, a))) == StatsOf(Flat(TtftOf, b))
    ensures StatsOf(Sample(pick, limit, Flat(ItlsOf, a))) == StatsOf(Flat(ItlsOf, b))
    ensures StatsOf(Sample(pick, limit, Flat(LatencyOf, a))) == StatsOf(Flat(LatencyOf, b))
    ensures |Tracked(limit, Ids(a))| == |Distinct(Ids(b))|
    ensures StatsOf(Turns(Tracked(limit, Ids(a)), Ids(a))) == StatsOf(Turns(Distinct(Ids(b)), Ids(b)))
  {
    FiguresIgnoreOrder(a, b);
    ColumnAgrees(TtftOf, a, b, limit, pick);
    ColumnAgrees(ItlsOf, a, b, limit, pick);
    ColumnAgrees(LatencyOf, a, b, limit, pick);
    ConversationsAgree(a, b, limit);
  }

  /**
   The duration agrees over a window exactly when the records fill it: some record starts at its start and some
   record ends at its end.
   */
  lemma DurationAgreesIff(streamed: seq<Record>, records: seq<Record>, start: real, end: real, limit: nat, pick: nat -> nat)
    requires multiset(streamed) == multiset(records) && 0.0 < start < end
    ensures var w := Kept(Within(start, end), streamed);
            Streamed(streamed, Within(start, end), limit, pick).timing.duration == Batch(records, start, end).timing.duration
            <==> (exists r | r in w :: r.start == start) && (exists r | r in w :: r.end == end)
  {
    DurationsOf(streamed, records, start, end, limit, pick);
    KeptAreInside(Within(start, end), streamed);
    SpanFills(Kept(Within(start, end), streamed), start, end);
  }

  lemma PerSecondAgrees(n: int, d: real, e: real)
    requires d > 0.0
    ensures PerSecond(n, d) == PerSecond(n, e) <==> n == 0 || d == e
  {
    if n != 0 && e > 0.0 {
      var x := n as real;
      assert x / d * d == x && x / e * e == x;
      if x / d == x / e { SameQuotient(x / d, d, e); }
    }
  }

  lemma SameQuotient(q: real, d: real, e: real)
    requires q != 0.0 && q * d == q * e
    ensures d == e
  {
    assert q * (d - e) == 0.0;
  }

  /** The same counters over two durations: a rate is the same exactly when the durations are or there is nothing to
      divide. */
  lemma RatesAgreeIff(c: Counters, d: real, e: real)
    requires d > 0.0
    ensures TimingOf(c, d).requestsPerSec == TimingOf(c, e).requestsPerSec <==> c.success == 0 || d == e
    ensures TimingOf(c, d).tokensPerSec == TimingOf(c, e).tokensPerSec <==> c.outputTokens == 0 || d == e
  {
    PerSecondAgrees(c.success, d, e);
    PerSecondAgrees(c.outputTokens, d, e);
  }

  /** Report and batch summary divide the same counters, by the window's length and by the records' span. */
  lemma TimingsOf(streamed: seq<Record>, records: seq<Record>, start: real, end: real, limit: nat, pick: nat -> nat)
    returns (c: Counters, span: real)
    requires multiset(streamed) == multiset(records) && 0.0 < start < end
    ensures Streamed(streamed, Within(start, end), limit, pick).timing == TimingOf(c, end - start)
    ensures Batch(records, start, end).timing == TimingOf(c, span)
    ensures c == CountersOf(Kept(Within(start, end), streamed))
  {
    var w, v := Kept(Within(start, end), streamed), Kept(Within(start, end), records);
    KeptIgnoresOrder(Within(start, end), streamed, records);
    FiguresIgnoreOrder(w, v);
    c, span := CountersOf(w), if v == [] then 0.0 else Span(v);
    BatchTiming(v);
  }

  lemma BatchTiming(w: seq<Record>)
    ensures BatchOf(w).timing == TimingOf(CountersOf(w), if w == [] then 0.0 else Span(w))
  {
  }

  /** For instance, one record that fills the first half of a window of two seconds: the report counts two seconds, the
      batch summary one. */
  lemma WindowLongerThanItsRecords(limit: nat, pick: nat -> nat)
    ensures var records := [Record(1.0, 2.0, "ok", 0.1, [], 1000.0, 10, 10, "c", None)];
            && Streamed(records, Within(1.0, 3.0), limit, pick).timing.duration == 2.0
            && Batch(records, 1.0, 3.0).timing.duration == 1.0
  {
    var r := Record(1.0, 2.0, "ok", 0.1, [], 1000.0, 10, 10, "c", None);
    FlatStep(Sieve(Within(1.0, 3.0)), [], r);
    assert [] + [r] == [r];
    assert Kept(Within(1.0, 3.0), [r]) == [r];
    DurationsOf([r], [r], 1.0, 3.0, limit, pick);
    Edges([r]);
  }

  lemma SpanFills(w: seq<Record>, start: real, end: real)
    requires forall r | r in w :: Inside(Within(start, end), r)
    ensures w != [] && Span(w) == end - start
            <==> (exists r | r in w :: r.start == start) && (exists r | r in w :: r.end == end)
  {
    if w != [] {
      Edges(w);
    }
  }

  lemma DurationsOf(streamed: seq<Record>, records: seq<Record>, start: real, end: real, limit: nat, pick: nat -> nat)
    requires multiset(streamed) == multiset(records) && 0.0 < start < end
    ensures Streamed(streamed, Within(start, end), limit, pick).timing.duration == end - start
    ensures var w := Kept(Within(start, end), streamed);
            Batch(records, start, end).timing.duration == if w == [] then 0.0 else Span(w)
  {
    var w, v := Kept(Within(start, end), streamed), Kept(Within(start, end), records);
    KeptIgnoresOrder(Within(start, end), streamed, records);
    SameLength(w, v);
    SpanIgnoresOrder(w, v);
  }

  lemma {:induction false} KeptAreInside(window: Window, records: seq<Record>)
    ensures forall r | r in Kept(window, records) :: Inside(window, r) && r in records
    ensures forall r | r in records && Inside(window, r) :: r in Kept(window, records)
  {
    if records != [] {
      var front := records[..|records| - 1];
      assert records == front + [records[|records| - 1]];
      KeptAreInside(window, front);
    }
  }

  /** The window keeps each record that starts no earlier and ends no later, as often as it is there, and drops the others. */
  lemma {:induction false} KeptIff(start: real, end: real, records: seq<Record>, r: Record)
    ensures multiset(Kept(Within(start, end), records))[r]
            == if start <= r.start && r.end <= end then multiset(records)[r] else 0
    ensures Kept(Whole, records) == records
  {
    if records != [] {
      var front, last := records[..|records| - 1], records[|records| - 1];
      assert records == front + [last];
      KeptIff(start, end, front, r);
    }
  }

  /** The span runs from one record's start to some record's end, and no record reaches beyond it. */
  lemma Edges(w: seq<Record>)
    requires w != []
    ensures var s, e := Least(Flat(StartOf, w)), Greatest(Flat(EndOf, w));
            && Span(w) == e - s
            && (exists r | r in w :: r.start == s) && (exists r | r in w :: r.end == e)
            && forall r | r in w :: s <= r.start && r.end <= e
  {
    Singles(w);
    ExtremesBound(Flat(StartOf, w));
    ExtremesBound(Flat(EndOf, w));
    var starts, ends := Flat(StartOf, w), Flat(EndOf, w);
    var i :| 0 <= i < |w| && starts[i] == Least(starts);
    var j :| 0 <= j < |w| && ends[j] == Greatest(ends);
    assert w[i] in w && w[j] in w;
    forall r | r in w ensures Least(starts) <= r.start && r.end <= Greatest(ends) {
      var k :| 0 <= k < |w| && w[k] == r;
      assert starts[k] in starts && ends[k] in ends;
    }
  }

  lemma {:induction false} Singles(w: seq<Record>)
    ensures |Flat(StartOf, w)| == |w| && forall i | 0 <= i < |w| :: Flat(StartOf, w)[i] == w[i].start
    ensures |Flat(EndOf, w)| == |w| && forall i | 0 <= i < |w| :: Flat(EndOf, w)[i] == w[i].end
  {
    if w != [] { Singles(w[..|w| - 1]); }
  }

  // ---------------------------------------------------------------- beyond the limits

  /** A sampled column: exactly `limit` entries, all of them latencies of kept records, with figures in order. */
  ghost predicate FairColumn(stats: Stats, sample: seq<real>, all: seq<real>, limit: nat) {
    && stats == StatsOf(sample) && InOrder(stats)
    && |sample| == (if |all| <= limit then |all| else limit) && forall v | v in sample :: v in all
  }

  lemma SampledColumn(f: Record -> seq<real>, w: seq<Record>, limit: nat, pick: nat -> nat)
    requires limit >= 1
    ensures var all := Flat(f, w); FairColumn(StatsOf(Sample(pick, limit, all)), Sample(pick, limit, all), all, limit)
  {
    SampleComesFromInput(pick, limit, Flat(f, w));
    if Flat(f, w) != [] {
      SampledStatsAreOrdered(pick, limit, Flat(f, w));
    }
  }

  /** Whatever the sizes, every latency column is a fair sample and the conversations are cut off at the limit. */
  lemma BeyondTheLimits(records: seq<Record>, window: Window, limit: nat, pick: nat -> nat)
    requires limit >= 1
    ensures var w, s := Kept(window, records), Streamed(records, window, limit, pick);
            && FairColumn(s.ttft, Sample(pick, limit, Flat(TtftOf, w)), Flat(TtftOf, w), limit)
            && FairColumn(s.itl, Sample(pick, limit, Flat(ItlsOf, w)), Flat(ItlsOf, w), limit)
            && FairColumn(s.e2e, Sample(pick, limit, Flat(LatencyOf, w)), Flat(LatencyOf, w), limit)
            && s.conversations == if ConversationsCapped(w, limit) then limit else |Distinct(Ids(w))|
  {
    var w := Kept(window, records);
    SampledColumn(TtftOf, w, limit, pick);
    SampledColumn(ItlsOf, w, limit, pick);
    SampledColumn(LatencyOf, w, limit, pick);
    TrackedCount(limit, Ids(w));
  }

  lemma TrackedCount(limit: nat, ids: seq<string>)
    ensures |Tracked(limit, ids)| == if |Distinct(ids)| > limit then limit else |Distinct(ids)|
  {
    if |Distinct(ids)| > limit {
      TrackedIsDistinct(|ids|, ids);
      TrackedUnderLimits(limit, |ids|, ids);
    } else {
      CapUnfelt(limit, ids);
    }
  }
}
