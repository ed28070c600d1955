/** The loops that compute the batch summary, the measurement window and the streamed report. */
module ReportMethods {
  import opened Shared
  import opened Statistics
  import opened Collect
  import opened Report

  // ---------------------------------------------------------------- one record at a time

  function CountRecord(c: Counters, r: Record): Counters {
    if Ok(r) then
      Counters(c.total + 1, c.success + 1, c.errors, c.outputTokens + r.outputTokens, c.promptTokens + r.promptTokens)
    else c.(total := c.total + 1, errors := c.errors + 1)
  }

  lemma CountStep(w: seq<Record>, r: Record)
    ensures CountersOf(w + [r]) == CountRecord(CountersOf(w), r)
  {
    FlatStep(OkOf, w, r);
    FlatStep(OutputOf, w, r);
    FlatStep(PromptOf, w, r);
    SumIntsConcat(Flat(OutputOf, w), OutputOf(r));
    SumIntsConcat(Flat(PromptOf, w), PromptOf(r));
  }

  function GradeRecord(g: Grades, r: Record): Grades {
    if r.evalCorrect.None? then g
    else if r.evalCorrect.value then g.(total := g.total + 1, correct := g.correct + 1)
    else g.(total := g.total + 1, incorrect := g.incorrect + 1)
  }

  lemma GradeStep(w: seq<Record>, r: Record)
    ensures GradesOf(w + [r]) == GradeRecord(GradesOf(w), r)
  {
    FlatStep(GradeOf, w, r);
  }

  /** The earliest start and the latest end so far. */
  ghost predicate Bounds(w: seq<Record>, low: real, high: real) {
    w != [] ==> low == Least(Flat(StartOf, w)) && high == Greatest(Flat(EndOf, w))
  }

  lemma BoundsStep(w: seq<Record>, low: real, high: real, r: Record)
    requires w != [] && Bounds(w, low, high)
    ensures Bounds(w + [r], if r.start < low then r.start else low, if r.end > high then r.end else high)
  {
    Edges(w);
    Edges(w + [r]);
    var x :| x in w && x.start == low;
    var y :| y in w && y.end == high;
    assert x in w + [r] && y in w + [r] && r in w + [r];
  }

  lemma FirstBounds(r: Record)
    ensures Bounds([r], r.start, r.end)
  {
    Edges([r]);
  }

  // ---------------------------------------------------------------- conversation counts

  /** `m` holds the turn counts of exactly the tracked conversations. */
  ghost predicate Counts(m: map<string, nat>, limit: nat, ids: seq<string>) {
    && (forall id :: id in m <==> id in Tracked(limit, ids))
    && forall id | id in m :: m[id] == multiset(ids)[id]
  }

  lemma TrackedSize(m: map<string, nat>, limit: nat, ids: seq<string>)
    requires Counts(m, limit, ids)
    ensures |m| == |Tracked(limit, ids)|
  {
    TrackedIsDistinct(limit, ids);
    KeyCount(Tracked(limit, ids));
    assert m.Keys == set x | x in Tracked(limit, ids);
    assert |m.Keys| == |m|;
  }

  lemma TrackedStep(limit: nat, ids: seq<string>, id: string)
    ensures var before := Tracked(limit, ids);
            Tracked(limit, ids + [id]) == if id in before || |before| >= limit then before else before + [id]
  {
    assert (ids + [id])[..|ids|] == ids;
  }

  lemma OccurrenceStep(ids: seq<string>, id: string)
    ensures forall x :: multiset(ids + [id])[x] == multiset(ids)[x] + if x == id then 1 else 0
  {
  }

  /** A conversation is tracked from its first turn or never, so counting what is tracked misses no turn. */
  lemma CountsStep(m: map<string, nat>, limit: nat, ids: seq<string>, id: string)
    requires Counts(m, limit, ids)
    ensures Counts(CountConversation(limit, m, id), limit, ids + [id])
  {
    TrackedSize(m, limit, ids);
    TrackedStep(limit, ids, id);
    if id in m {
      CountsUpdate(m, m[id] + 1, limit, ids, id);
    } else if |m| < limit {
      TrackedIsDistinct(limit, ids);
      assert id !in ids;
      CountsUpdate(m, 1, limit, ids, id);
    } else {
      OccurrenceStep(ids, id);
    }
  }

  lemma CountsUpdate(m: map<string, nat>, n: nat, limit: nat, ids: seq<string>, id: string)
    requires Counts(m, limit, ids) && n == multiset(ids)[id] + 1
    requires forall x :: x in Tracked(limit, ids + [id]) <==> x in Tracked(limit, ids) || x == id
    ensures Counts(m[id := n], limit, ids + [id])
  {
    OccurrenceStep(ids, id);
  }

  function CountConversation(limit: nat, m: map<string, nat>, id: string): map<string, nat> {
    if id in m then m[id := m[id] + 1] else if |m| < limit then m[id := 1] else m
  }

  lemma {:induction false} KeyCount(s: seq<string>)
    requires NoDuplicates(s)
    ensures |set x | x in s| == |s|
  {
    if s != [] {
      var front := s[..|s| - 1];
      KeyCount(front);
      assert (set x | x in s) == (set x | x in front) + {s[|s| - 1]};
    }
  }

  /** Visit the keys in whatever order the map yields them. */
  method TurnCounts(m: map<string, nat>, ghost limit: nat, ghost ids: seq<string>) returns (turns: seq<real>)
    requires Counts(m, limit, ids)
    ensures |turns| == |Tracked(limit, ids)|
    ensures StatsOf(turns) == StatsOf(Turns(Tracked(limit, ids), ids))
  {
    var left := m.Keys;
    ghost var order: seq<string> := [];
    turns := [];
    while left != {}
      invariant left <= m.Keys && NoDuplicates(order)
      invariant forall id :: id in order <==> id in m.Keys - left
      invariant turns == Turns(order, ids)
      invariant |order| + |left| == |m| && |turns| == |order|
    {
      var id :| id in left;
      FlatStep((x: string) => [multiset(ids)[x] as real], order, id);
      assert id !in order;
      turns := turns + [m[id] as real];
      order := order + [id];
      left := left - {id};
    }
    TrackedIsDistinct(limit, ids);
    TrackedSize(m, limit, ids);
    TurnStatsIgnoreOrder(order, Tracked(limit, ids), ids);
  }

  // ---------------------------------------------------------------- running tally

  /** The cap is first exceeded by a new conversation that finds the map full. */
  lemma OverflowStep(limit: nat, ids: seq<string>, id: string)
    ensures |Distinct(ids + [id])| > limit
            <==> |Distinct(ids)| > limit || (id !in Tracked(limit, ids) && |Tracked(limit, ids)| >= limit)
  {
    HighCap(|ids| + 1, ids);
    TrackedStep(|ids| + 1, ids, id);
    DistinctSize(ids);
    if |Distinct(ids)| <= limit { CapUnfelt(limit, ids); }
  }

  lemma DistinctSize(ids: seq<string>)
    ensures |Distinct(ids)| <= |ids|
  {
    TrackedIsDistinct(|ids|, ids);
  }

  lemma HighCap(limit: nat, ids: seq<string>)
    requires limit >= |ids|
    ensures Tracked(limit, ids) == Distinct(ids)
  {
    TrackedIsDistinct(|ids|, ids);
    CapUnfelt(limit, ids);
  }

  /** What the loops carry from record to record, besides the latencies. */
  datatype Tally = Tally(counters: Counters, grades: Grades, conversations: map<string, nat>, overflow: bool,
                         firstRecord: bool, minTime: real, maxTime: real)

  const NO_TALLY := Tally(NO_COUNTS, NO_GRADES, map[], false, true, 0.0, 0.0)

  function Next(limit: nat, t: Tally, r: Record): Tally {
    Tally(CountRecord(t.counters, r), GradeRecord(t.grades, r),
          CountConversation(limit, t.conversations, r.conversation),
          t.overflow || (r.conversation !in t.conversations && |t.conversations| >= limit),
          false,
          if t.firstRecord || r.start < t.minTime then r.start else t.minTime,
          if t.firstRecord || r.end > t.maxTime then r.end else t.maxTime)
  }

  function TallyOf(limit: nat, w: seq<Record>): Tally {
    if w == [] then NO_TALLY else Next(limit, TallyOf(limit, w[..|w| - 1]), w[|w| - 1])
  }

  lemma {:induction false} CountersMean(limit: nat, w: seq<Record>)
    ensures TallyOf(limit, w).counters == CountersOf(w) && TallyOf(limit, w).grades == GradesOf(w)
  {
    if w != [] {
      var front, r := w[..|w| - 1], w[|w| - 1];
      CountersMean(limit, front);
      assert w == front + [r];
      CountStep(front, r);
      GradeStep(front, r);
    }
  }

  lemma {:induction false} ConversationsMean(limit: nat, w: seq<Record>)
    ensures Counts(TallyOf(limit, w).conversations, limit, Ids(w))
    ensures TallyOf(limit, w).overflow <==> ConversationsCapped(w, limit)
  {
    if w != [] {
      var front, r := w[..|w| - 1], w[|w| - 1];
      ConversationsMean(limit, front);
      assert w == front + [r];
      var m := TallyOf(limit, front).conversations;
      FlatStep(ConversationOf, front, r);
      CountsStep(m, limit, Ids(front), r.conversation);
      TrackedSize(m, limit, Ids(front));
      OverflowStep(limit, Ids(front), r.conversation);
    }
  }

  lemma {:induction false} TimesMean(limit: nat, w: seq<Record>)
    ensures TallyOf(limit, w).firstRecord <==> w == []
    ensures Bounds(w, TallyOf(limit, w).minTime, TallyOf(limit, w).maxTime)
  {
    if w != [] {
      var front, r := w[..|w| - 1], w[|w| - 1];
      TimesMean(limit, front);
      assert w == front + [r];
      if front == [] {
        FirstBounds(r);
      } else {
        BoundsStep(front, TallyOf(limit, front).minTime, TallyOf(limit, front).maxTime, r);
      }
    }
  }

  // ---------------------------------------------------------------- batch summary

  method Filter(records: seq<Record>, start: real, end: real) returns (filtered: seq<Record>)
    ensures filtered == Kept(Within(start, end), records)
  {
    filtered := [];
    for i := 0 to |records|
      invariant filtered == Kept(Within(start, end), records[..i])
    {
      assert records[..i + 1] == records[..i] + [records[i]];
      FlatStep(Sieve(Within(start, end)), records[..i], records[i]);
      if records[i].start >= start && records[i].end <= end {
        filtered := filtered + [records[i]];
      }
    }
    assert records[..|records|] == records;
  }

  lemma {:induction false} KeptWhole(records: seq<Record>)
    ensures Kept(Whole, records) == records
  {
    if records != [] {
      KeptWhole(records[..|records| - 1]);
      assert records == records[..|records| - 1] + [records[|records| - 1]];
    }
  }

  method Accumulate(w: seq<Record>)
    returns (c: Counters, ttfts: seq<real>, e2es: seq<real>, itls: seq<real>, convs: map<string, nat>, low: real, high: real)
    requires w != []
    ensures c == TallyOf(|w|, w).counters && convs == TallyOf(|w|, w).conversations
    ensures low == TallyOf(|w|, w).minTime && high == TallyOf(|w|, w).maxTime
    ensures ttfts == Flat(TtftOf, w) && e2es == Flat(LatencyOf, w) && itls == Flat(ItlsOf, w)
  {
    c, ttfts, e2es, itls, convs := NO_COUNTS, [], [], [], map[];
    low, high := w[0].start, w[0].end;
    ghost var t := NO_TALLY;
    for i := 0 to |w|
      invariant t == TallyOf(|w|, w[..i]) && c == t.counters && convs == t.conversations && (t.firstRecord <==> i == 0)
      invariant if i == 0 then low == w[0].start && high == w[0].end else low == t.minTime && high == t.maxTime
      invariant ttfts == Flat(TtftOf, w[..i]) && e2es == Flat(LatencyOf, w[..i]) && itls == Flat(ItlsOf, w[..i])
    {
      var r := w[i];
      NeverFull(w, i);
      TallyStep(|w|, w, i);
      LatencyStep(w, i);
      t := Next(|w|, t, r);
      c := CountRecord(c, r);
      if r.status == "ok" {
        ttfts := ttfts + [r.ttft];
        e2es := e2es + [r.latency];
        itls := itls + r.itls;
      }
      low, high := if r.start < low then r.start else low, if r.end > high then r.end else high;
      convs := convs[r.conversation := (if r.conversation in convs then convs[r.conversation] else 0) + 1];
    }
    assert w[..|w|] == w;
  }

  lemma TallyStep(limit: nat, w: seq<Record>, i: nat)
    requires i < |w|
    ensures TallyOf(limit, w[..i + 1]) == Next(limit, TallyOf(limit, w[..i]), w[i])
  {
    assert w[..i + 1][..i] == w[..i];
  }

  lemma LatencyStep(w: seq<Record>, i: nat)
    requires i < |w|
    ensures Flat(TtftOf, w[..i + 1]) == Flat(TtftOf, w[..i]) + TtftOf(w[i])
    ensures Flat(LatencyOf, w[..i + 1]) == Flat(LatencyOf, w[..i]) + LatencyOf(w[i])
    ensures Flat(ItlsOf, w[..i + 1]) == Flat(ItlsOf, w[..i]) + ItlsOf(w[i])
  {
    assert w[..i + 1] == w[..i] + [w[i]];
    FlatStep(TtftOf, w[..i], w[i]);
    FlatStep(LatencyOf, w[..i], w[i]);
    FlatStep(ItlsOf, w[..i], w[i]);
  }

  lemma NeverFull(w: seq<Record>, i: nat)
    requires i < |w|
    ensures |TallyOf(|w|, w[..i]).conversations| < |w|
  {
    ConversationsMean(|w|, w[..i]);
    TrackedSize(TallyOf(|w|, w[..i]).conversations, |w|, Ids(w[..i]));
    TrackedIsDistinct(|w|, Ids(w[..i]));
    IdsLength(w[..i]);
  }

  lemma {:induction false} IdsLength(w: seq<Record>)
    ensures |Ids(w)| == |w|
  {
    if w != [] { IdsLength(w[..|w| - 1]); }
  }

  method Compute(records: seq<Record>, start: real, end: real) returns (s: Summary)
    ensures s == Batch(records, start, end)
  {
    var w := records;
    KeptWhole(records);
    if start > 0.0 && end > 0.0 {
      w := Filter(records, start, end);
    }
    if |w| == 0 {
      return EMPTY_SUMMARY;
    }
    s := ComputeKept(w);
  }

  method ComputeKept(w: seq<Record>) returns (s: Summary)
    requires w != []
    ensures s == BatchOf(w)
  {
    var c, duration, ttfts, e2es, itls, conversations, turns := Gather(w);
    var ttft, itl, e2e := LatencyStats(ttfts, itls, e2es);
    var grades := Grade(w);
    s := Summary(c, grades, Accuracy(grades), TimingOf(c, duration), ttft, itl, e2e, conversations, turns);
  }

  /** The first pass over the records, and what its counters and its map amount to. */
  method Gather(w: seq<Record>)
    returns (c: Counters, duration: real, ttfts: seq<real>, e2es: seq<real>, itls: seq<real>, conversations: nat, turns: Stats)
    requires w != []
    ensures c == CountersOf(w) && duration == Span(w)
    ensures ttfts == Flat(TtftOf, w) && e2es == Flat(LatencyOf, w) && itls == Flat(ItlsOf, w)
    ensures conversations == |Distinct(Ids(w))| && turns == StatsOf(Turns(Distinct(Ids(w)), Ids(w)))
  {
    var convs, low, high;
    c, ttfts, e2es, itls, convs, low, high := Accumulate(w);
    TallyMeans(w, c, low, high);
    duration := high - low;
    conversations, turns := ConversationStats(convs, w);
  }

  lemma TallyMeans(w: seq<Record>, c: Counters, low: real, high: real)
    requires w != [] && c == TallyOf(|w|, w).counters
    requires low == TallyOf(|w|, w).minTime && high == TallyOf(|w|, w).maxTime
    ensures c == CountersOf(w) && high - low == Span(w)
  {
    CountersMean(|w|, w);
    TimesMean(|w|, w);
  }

  method LatencyStats(ttfts: seq<real>, itls: seq<real>, e2es: seq<real>) returns (ttft: Stats, itl: Stats, e2e: Stats)
    ensures ttft == StatsOf(ttfts) && itl == StatsOf(itls) && e2e == StatsOf(e2es)
  {
    ttft := ComputeLatencyStats(ttfts);
    itl := ComputeLatencyStats(itls);
    e2e := ComputeLatencyStats(e2es);
  }

  method ConversationStats(convs: map<string, nat>, w: seq<Record>) returns (conversations: nat, turns: Stats)
    requires convs == TallyOf(|w|, w).conversations
    ensures conversations == |Distinct(Ids(w))| && turns == StatsOf(Turns(Distinct(Ids(w)), Ids(w)))
  {
    IdsLength(w);
    ConversationsMean(|w|, w);
    TrackedSize(convs, |w|, Ids(w));
    var perConversation := TurnCounts(convs, |w|, Ids(w));
    turns := ComputeLatencyStats(perConversation);
    conversations := |convs|;
  }

  /** The second pass over the records, for the eval figures. */
  method Grade(w: seq<Record>) returns (g: Grades)
    ensures g == GradesOf(w)
  {
    g := NO_GRADES;
    for i := 0 to |w|
      invariant g == GradesOf(w[..i])
    {
      assert w[..i + 1] == w[..i] + [w[i]];
      GradeStep(w[..i], w[i]);
      g := GradeRecord(g, w[i]);
    }
    assert w[..|w|] == w;
  }

  // ---------------------------------------------------------------- measurement window

  datatype Timestamps = Timestamps(rampupEnd: real, end: real)

  /** A timestamp artifact: what a worker left, or something too large or unreadable. */
  datatype Stamp = Illegible | Stamp(at: Timestamps)

  function Own(s: Stamp): Window
    requires s.Stamp?
  {
    Within(s.at.rampupEnd, s.at.end)
  }

  /** There is no common window: a worker's timestamps cannot be read, there are none, none starts after time zero,
      or two of them do not overlap. */
  ghost predicate NoCommonWindow(stamps: seq<Stamp>) {
    || (exists s | s in stamps :: s.Illegible?)
    || (forall s | s in stamps :: s.Stamp? && s.at.rampupEnd <= 0.0)
    || (exists s, u | s in stamps && u in stamps :: s.Stamp? && u.Stamp? && u.at.end <= s.at.rampupEnd)
  }

  /**
   The window common to all workers: a record lies inside it exactly when it lies inside every worker's own
   window.
   */
  method LoadMeasurementWindow(stamps: seq<Stamp>) returns (window: Option<Window>)
    ensures window.None? <==> NoCommonWindow(stamps)
    ensures window.Some? ==> window.value.Within? && 0.0 < window.value.start < window.value.end
    ensures window.Some? ==>
              && (forall s | s in stamps :: s.Stamp?)
              && forall r: Record :: Inside(window.value, r) <==> forall s | s in stamps :: s.Stamp? && Inside(Own(s), r)
  {
    var first, start, end := true, 0.0, 0.0;
    ghost var s, e := 0, 0;
    for i := 0 to |stamps|
      invariant first <==> i == 0
      invariant forall j | 0 <= j < i :: stamps[j].Stamp?
      invariant !first ==> s < i && e < i && start == stamps[s].at.rampupEnd && end == stamps[e].at.end
      invariant forall j | 0 <= j < i :: stamps[j].at.rampupEnd <= start && end <= stamps[j].at.end
    {
      if stamps[i].Illegible? {
        return None;
      }
      var t := stamps[i].at;
      if first {
        start, end, first, s, e := t.rampupEnd, t.end, false, i, i;
      } else {
        if t.rampupEnd > start { start, s := t.rampupEnd, i; }
        if t.end < end { end, e := t.end, i; }
      }
    }
    window := if first || start <= 0.0 || end <= start then None else Some(Within(start, end));
    if !first { assert stamps[s] in stamps && stamps[e] in stamps; }
  }

  // ---------------------------------------------------------------- streamed report

  class Aggregation {
    const pick: nat -> nat
    const limit: nat
    const ttft: BoundedSample
    const itl: BoundedSample
    const e2e: BoundedSample
    var tally: Tally
    ghost var kept: seq<Record>

    ghost predicate Valid()
      reads this, ttft, itl, e2e
    {
      tally == TallyOf(limit, kept) && Latencies(kept)
    }

    /** The samples have seen the latencies of `w`. */
    ghost predicate Latencies(w: seq<Record>)
      reads ttft, itl, e2e
    {
      && ttft != itl && ttft != e2e && itl != e2e
      && ttft.pick == itl.pick == e2e.pick == pick
      && ttft.limit == itl.limit == e2e.limit == limit
      && ttft.Valid() && itl.Valid() && e2e.Valid()
      && ttft.added == Flat(TtftOf, w) && itl.added == Flat(ItlsOf, w) && e2e.added == Flat(LatencyOf, w)
    }

    constructor (pick: nat -> nat, limit: nat)
      ensures Valid() && kept == [] && this.pick == pick && this.limit == limit
      ensures fresh(ttft) && fresh(itl) && fresh(e2e)
    {
      this.pick := pick;
      this.limit := limit;
      ttft := new BoundedSample(pick, limit);
      itl := new BoundedSample(pick, limit);
      e2e := new BoundedSample(pick, limit);
      tally, kept := NO_TALLY, [];
    }

    method AddLatencies(r: Record)
      requires Latencies(kept)
      modifies ttft, itl, e2e
      ensures Latencies(kept + [r])
    {
      FlatStep(TtftOf, kept, r);
      FlatStep(LatencyOf, kept, r);
      FlatStep(ItlsOf, kept, r);
      if r.status == "ok" {
        ttft.Add(r.ttft);
        e2e.Add(r.latency);
        itl.AddAll(r.itls);
      }
    }

    /** The body of the streaming loop, for a record inside the window. */
    method Observe(r: Record)
      requires Valid()
      modifies this, ttft, itl, e2e
      ensures Valid() && kept == old(kept) + [r]
    {
      AddLatencies(r);
      tally := Next(limit, tally, r);
      kept := kept + [r];
      assert kept[..|kept| - 1] == old(kept);
    }

    /** The report of the records seen, with the duration of the window if there is one. */
    method Summarise(window: Window) returns (s: Summary)
      requires Valid()
      ensures s == StreamedOf(kept, if window.Within? then window.end - window.start else Span(kept), limit, pick)
    {
      var duration :=
        if window.Within? then window.end - window.start else if tally.firstRecord then 0.0 else tally.maxTime - tally.minTime;
      assert duration == if window.Within? then window.end - window.start else Span(kept) by {
        EmptySpan();
        TimesMean(limit, kept);
      }
      CountersMean(limit, kept);
      var t := ComputeLatencyStats(ttft.values);
      var i := ComputeLatencyStats(itl.values);
      var e := ComputeLatencyStats(e2e.values);
      var conversations, turns := SummariseTurns();
      var c, g := tally.counters, tally.grades;
      s := Summary(c, g, Accuracy(g), TimingOf(c, duration), t, i, e, conversations, turns);
    }

    method Warnings() returns (sampled: bool, capped: bool)
      requires Valid()
      ensures sampled == LatenciesSampled(kept, limit) && capped == ConversationsCapped(kept, limit)
    {
      sampled := ttft.Sampled() || itl.Sampled() || e2e.Sampled();
      ConversationsMean(limit, kept);
      capped := tally.overflow;
    }

    /** The turn counts pass through a sample too, which can never be full. */
    method SummariseTurns() returns (conversations: nat, stats: Stats)
      requires tally == TallyOf(limit, kept)
      ensures conversations == |Tracked(limit, Ids(kept))|
      ensures stats == StatsOf(Turns(Tracked(limit, Ids(kept)), Ids(kept)))
    {
      ConversationsMean(limit, kept);
      TrackedSize(tally.conversations, limit, Ids(kept));
      conversations := |tally.conversations|;
      var counts := TurnCounts(tally.conversations, limit, Ids(kept));
      TrackedIsDistinct(limit, Ids(kept));
      SampleIsExact(pick, limit, counts);
      var turns := new BoundedSample(pick, limit);
      turns.AddAll(counts);
      assert [] + counts == counts;
      stats := ComputeLatencyStats(turns.values);
    }
  }

  lemma EmptySpan()
    ensures Span([]) == 0.0
  {
  }

  // ---------------------------------------------------------------- the whole aggregation

  /** What reading an artifact yields next: a record, a line that does not decode, or a failure to open it, to read on
      or to close it. */
  datatype Line = Garbage | Line(record: Record) | Broken

  datatype Outcome =
    | Reported(summary: Summary, sampled: bool, capped: bool)
    | TooManyRecords
    | Undecodable
    | Unreadable

  function RecordOf(line: Line): seq<Record> { if line.Line? then [line.record] else [] }

  function Lines(files: seq<seq<Line>>): seq<Line> { Flat((f: seq<Line>) => f, files) }

  function Records(files: seq<seq<Line>>): seq<Record> { Flat(RecordOf, Lines(files)) }

  /** Reading the files in another order gives the same records in another order. */
  lemma RecordsIgnoreFileOrder(files: seq<seq<Line>>, other: seq<seq<Line>>)
    requires multiset(files) == multiset(other)
    ensures multiset(Records(files)) == multiset(Records(other))
  {
    FlatIgnoresOrder((f: seq<Line>) => f, files, other);
    FlatIgnoresOrder(RecordOf, Lines(files), Lines(other));
  }

  /** The records of some lines that lie inside the window. */
  function Seen(window: Window, lines: seq<Line>): seq<Record> {
    if lines == [] then []
    else
      var front, line := Seen(window, lines[..|lines| - 1]), lines[|lines| - 1];
      if line.Line? && Inside(window, line.record) then front + [line.record] else front
  }

  lemma {:induction false} SeenIsKept(window: Window, lines: seq<Line>)
    ensures Seen(window, lines) == Kept(window, Flat(RecordOf, lines))
  {
    if lines != [] {
      var front, line := lines[..|lines| - 1], lines[|lines| - 1];
      SeenIsKept(window, front);
      assert lines == front + [line];
      FlatStep(RecordOf, front, line);
      if line.Line? {
        FlatStep(Sieve(window), Flat(RecordOf, front), line.record);
      } else {
        assert Flat(RecordOf, lines) == Flat(RecordOf, front);
      }
    }
  }

  /** How the scan of some lines ends: with the first line that is over the limit or cannot be read or decoded. */
  function Verdict(lines: seq<Line>, maxRecords: nat): Option<Outcome> {
    if lines == [] then None
    else
      var before := Verdict(lines[..|lines| - 1], maxRecords);
      if before.Some? then before
      else if lines[|lines| - 1].Broken? then Some(Unreadable)
      else if |lines| > maxRecords then Some(TooManyRecords)
      else if lines[|lines| - 1].Garbage? then Some(Undecodable)
      else None
  }

  /** The i-th line is the first at which the scan cannot go on. */
  predicate FirstFault(lines: seq<Line>, maxRecords: nat, i: nat) {
    i < |lines| && (forall j | 0 <= j < i :: lines[j].Line?) && i <= maxRecords && (!lines[i].Line? || i == maxRecords)
  }

  /**
   The scan succeeds exactly when every line is a record and there are no more than the limit; otherwise it blames
   what is wrong with the first line at which it cannot go on.
   */
  lemma {:induction false} VerdictMeans(lines: seq<Line>, maxRecords: nat)
    ensures Verdict(lines, maxRecords).None? <==> |lines| <= maxRecords && forall j | 0 <= j < |lines| :: lines[j].Line?
    ensures forall i: nat | FirstFault(lines, maxRecords, i) ::
              Verdict(lines, maxRecords) == Some(if lines[i].Broken? then Unreadable
                                                 else if i == maxRecords then TooManyRecords
                                                 else Undecodable)
    ensures Verdict(lines, maxRecords).Some? ==> exists i: nat :: FirstFault(lines, maxRecords, i)
  {
    if lines != [] {
      var front, last := lines[..|lines| - 1], |lines| - 1;
      VerdictMeans(front, maxRecords);
      assert forall i | 0 <= i < |front| :: front[i] == lines[i];
      forall i: nat ensures FirstFault(front, maxRecords, i) <==> FirstFault(lines, maxRecords, i) && i < last { }
      if Verdict(front, maxRecords).None? && Verdict(lines, maxRecords).Some? {
        assert FirstFault(lines, maxRecords, last);
      }
    }
  }

  lemma VerdictStep(done: seq<Line>, line: Line, maxRecords: nat)
    requires Verdict(done, maxRecords).None?
    ensures Verdict(done + [line], maxRecords)
            == if line.Broken? then Some(Unreadable)
               else if |done| >= maxRecords then Some(TooManyRecords)
               else if line.Garbage? then Some(Undecodable)
               else None
  {
    assert (done + [line])[..|done|] == done;
  }

  lemma {:induction false} VerdictIsFinal(some: seq<Line>, more: seq<Line>, maxRecords: nat)
    requires Verdict(some, maxRecords).Some?
    ensures Verdict(some + more, maxRecords) == Verdict(some, maxRecords)
  {
    if more == [] {
      assert some + more == some;
    } else {
      assert (some + more)[..|some + more| - 1] == some + more[..|more| - 1];
      VerdictIsFinal(some, more[..|more| - 1], maxRecords);
    }
  }

  lemma VerdictStands(before: seq<Line>, file: seq<Line>, i: nat, maxRecords: nat)
    requires i < |file| && Verdict(before + file[..i + 1], maxRecords).Some?
    ensures Verdict(before + file, maxRecords) == Verdict(before + file[..i + 1], maxRecords)
  {
    assert before + file == before + file[..i + 1] + file[i + 1..];
    VerdictIsFinal(before + file[..i + 1], file[i + 1..], maxRecords);
  }

  lemma LinesStep(files: seq<seq<Line>>, i: nat)
    requires i < |files|
    ensures Lines(files[..i + 1]) == Lines(files[..i]) + files[i]
    ensures exists rest :: Lines(files) == Lines(files[..i]) + files[i] + rest
  {
    var f := (f: seq<Line>) => f;
    assert files[..i + 1] == files[..i] + [files[i]];
    FlatStep(f, files[..i], files[i]);
    assert files == files[..i + 1] + files[i + 1..];
    FlatConcat(f, files[..i + 1], files[i + 1..]);
    assert Lines(files) == Lines(files[..i]) + files[i] + Flat(f, files[i + 1..]);
  }

  lemma SeenStep(window: Window, done: seq<Line>, r: Record)
    ensures Seen(window, done + [Line(r)]) == Seen(window, done) + if Inside(window, r) then [r] else []
  {
    assert (done + [Line(r)])[..|done|] == done;
  }

  /** One line: counted, decoded, and observed if it lies inside the window. */
  method TakeLine(a: Aggregation, line: Line, window: Window, recordsSeen: nat, maxRecords: nat, ghost done: seq<Line>)
    returns (stop: Option<Outcome>)
    requires a.Valid() && recordsSeen == |done| + 1 && a.kept == Seen(window, done)
    requires Verdict(done, maxRecords).None?
    modifies a, a.ttft, a.itl, a.e2e
    ensures stop == Verdict(done + [line], maxRecords)
    ensures stop.None? ==> a.Valid() && a.kept == Seen(window, done + [line])
  {
    VerdictStep(done, line, maxRecords);
    if line.Broken? {
      return Some(Unreadable);
    }
    if recordsSeen > maxRecords {
      return Some(TooManyRecords);
    }
    if line.Garbage? {
      return Some(Undecodable);
    }
    var r := line.record;
    SeenStep(window, done, r);
    if !(window.Within? && (r.start < window.start || r.end > window.end)) {
      a.Observe(r);
    }
    return None;
  }

  /** One file: its records inside the window are observed, until a line ends the scan. */
  method AggregateFile(a: Aggregation, file: seq<Line>, window: Window, seen: nat, maxRecords: nat, ghost before: seq<Line>)
    returns (stop: Option<Outcome>, recordsSeen: nat)
    requires a.Valid() && seen == |before| && a.kept == Seen(window, before)
    requires Verdict(before, maxRecords).None?
    modifies a, a.ttft, a.itl, a.e2e
    ensures stop == Verdict(before + file, maxRecords)
    ensures stop.None? ==> a.Valid() && recordsSeen == |before + file|
    ensures stop.None? ==> a.kept == Seen(window, before + file)
  {
    stop, recordsSeen := None, seen;
    ghost var done := before;
    for i := 0 to |file|
      invariant done == before + file[..i] && recordsSeen == |done|
      invariant a.Valid() && a.kept == Seen(window, done)
      invariant stop.None? && Verdict(done, maxRecords) == None
    {
      recordsSeen := recordsSeen + 1;
      stop := TakeLine(a, file[i], window, recordsSeen, maxRecords, done);
      done := done + [file[i]];
      Advance(before, file, i);
      if stop.Some? {
        VerdictStands(before, file, i, maxRecords);
        return;
      }
    }
    assert done == before + file;
  }

  lemma Advance(before: seq<Line>, file: seq<Line>, i: nat)
    requires i < |file|
    ensures before + file[..i] + [file[i]] == before + file[..i + 1]
  {
  }

  method Scan(files: seq<seq<Line>>, window: Window, limit: nat, maxRecords: nat, pick: nat -> nat)
    returns (stop: Option<Outcome>, a: Aggregation)
    ensures stop == Verdict(Lines(files), maxRecords)
    ensures stop.None? ==> a.Valid() && a.limit == limit && a.pick == pick && a.kept == Kept(window, Records(files))
  {
    a := new Aggregation(pick, limit);
    var seen := 0;
    stop := None;
    for i := 0 to |files|
      invariant a.Valid() && a.limit == limit && a.pick == pick
      invariant fresh(a) && fresh(a.ttft) && fresh(a.itl) && fresh(a.e2e)
      invariant seen == |Lines(files[..i])| && a.kept == Seen(window, Lines(files[..i]))
      invariant stop == Verdict(Lines(files[..i]), maxRecords) == None
    {
      LinesStep(files, i);
      stop, seen := AggregateFile(a, files[i], window, seen, maxRecords, Lines(files[..i]));
      if stop.Some? {
        ghost var rest :| Lines(files) == Lines(files[..i]) + files[i] + rest;
        VerdictIsFinal(Lines(files[..i]) + files[i], rest, maxRecords);
        return;
      }
    }
    assert files[..|files|] == files;
    SeenIsKept(window, Lines(files));
  }

  /**
   The report over files read in one order has, when nothing was sampled or capped, the figures of the batch summary
   over their records loaded in any other order; and all of it without a window.
   */
  lemma {:induction false} ReportOverFilesAgreesWithBatch(files: seq<seq<Line>>, other: seq<seq<Line>>, records: seq<Record>,
                                                          window: Window, limit: nat)
    requires multiset(files) == multiset(other) && multiset(records) == multiset(Records(other))
    requires !LatenciesSampled(Kept(window, Records(files)), limit) && !ConversationsCapped(Kept(window, Records(files)), limit)
    ensures window.Within? && 0.0 < window.start < window.end ==>
              Untimed(Streamed(Records(files), window, limit, Slot)) == Untimed(Batch(records, window.start, window.end))
    ensures window.Whole? ==> Streamed(Records(files), window, limit, Slot) == Batch(records, 0.0, 0.0)
  {
    RecordsIgnoreFileOrder(files, other);
    if window.Whole? {
      ReportAgreesWithoutWindow(Records(files), records, 0.0, 0.0, limit, Slot);
    } else if 0.0 < window.start < window.end {
      ReportAgreesWithBatch(Records(files), records, window.start, window.end, limit, Slot);
    }
  }

  /**
   The report over all request files. It fails exactly when some line within the record limit does not decode
   or there are more lines than the limit, and names the failure that comes first.
   */
  method AggregateRequestArtifacts(files: seq<seq<Line>>, window: Window, limit: nat, maxRecords: nat)
    returns (outcome: Outcome)
    ensures Verdict(Lines(files), maxRecords).Some? ==> outcome == Verdict(Lines(files), maxRecords).value
    ensures Verdict(Lines(files), maxRecords).None? ==>
              var w := Kept(window, Records(files));
              outcome == Reported(Streamed(Records(files), window, limit, Slot), LatenciesSampled(w, limit),
                                  ConversationsCapped(w, limit))
  {
    var stop, a := Scan(files, window, limit, maxRecords, Slot);
    if stop.Some? {
      return stop.value;
    }
    var summary := a.Summarise(window);
    var sampled, capped := a.Warnings();
    outcome := Reported(summary, sampled, capped);
  }

  /**
   Both ways of summing up a run, side by side: the streamed report over its files and window, and the batch summary
   of the same records in any order.  Without warnings they agree in all but what depends on the duration.
   */
  method ReportBesideBatch(files: seq<seq<Line>>, records: seq<Record>, stamps: seq<Stamp>, limit: nat, maxRecords: nat)
    returns (window: Option<Window>, report: Outcome, batch: Summary)
    requires multiset(records) == multiset(Records(files))
    ensures window.None? <==> NoCommonWindow(stamps)
    ensures report.Reported? <==> Verdict(Lines(files), maxRecords).None?
    ensures report.Reported? && !report.sampled && !report.capped && window.Some? ==> Untimed(report.summary) == Untimed(batch)
    ensures report.Reported? && !report.sampled && !report.capped && window.None? ==> report.summary == batch
  {
    window := LoadMeasurementWindow(stamps);
    var w := if window.Some? then window.value else Whole;
    VerdictMeans(Lines(files), maxRecords);
    report := AggregateRequestArtifacts(files, w, limit, maxRecords);
    batch := Compute(records, if w.Within? then w.start else 0.0, if w.Within? then w.end else 0.0);
    if report.Reported? && !report.sampled && !report.capped {
      ReportOverFilesAgreesWithBatch(files, files, records, w, limit);
    }
  }
}
