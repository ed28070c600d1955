/**
 What a stage actually runs with.  Stages that are grouped into one run share one generator, which is set up for the
 first of them; whether that is what the others ask for depends on what the grouping compares.
 */
module StageSettings {
  import opened Shared
  import opened LoadDivision
  import opened ScenarioConfig
  import opened ScenarioRun
  import opened ScenarioTrace

  /** How load is generated and out of which workload. */
  datatype Settings = Settings(mode: string, rate: Float, maxInFlight: int, workload: Option<Workload>)

  /** What a stage asks for. */
  function Asked(stages: seq<Stage>, p: nat): Settings
    requires p < |stages|
  {
    Settings(stages[p].mode, stages[p].rate, stages[p].maxInFlight, stages[p].workload)
  }

  /** The first stage from position i on that is no barrier. */
  function FirstWork(stages: seq<Stage>, i: nat): nat
    decreases |stages| - i
  {
    if i < |stages| && stages[i].barrier then FirstWork(stages, i + 1) else i
  }

  /** What the generator of the k-th run is set up with. */
  function Given(stages: seq<Stage>, runs: seq<Run>, k: nat): Settings
    requires k < |runs|
  {
    var first := FirstWork(stages, ScenarioTrace.Start(runs, k));
    if first < |stages| then Asked(stages, first).(workload := runs[k].workload)
    else Settings("", Finite(0.0), 0, runs[k].workload)
  }

  method SetUp(stages: seq<Stage>, runs: seq<Run>) returns (given: seq<Settings>)
    ensures |given| == |runs| && forall k | 0 <= k < |runs| :: given[k] == Given(stages, runs, k)
  {
    given := [];
    var globalStageIdx := 0;
    for k := 0 to |runs|
      invariant globalStageIdx == ScenarioTrace.Start(runs, k) && |given| == k
      invariant forall j | 0 <= j < k :: given[j] == Given(stages, runs, j)
    {
      var firstStageIdx := globalStageIdx;
      while firstStageIdx < |stages| && stages[firstStageIdx].barrier
        invariant globalStageIdx <= firstStageIdx
        invariant FirstWork(stages, firstStageIdx) == FirstWork(stages, globalStageIdx)
        decreases |stages| - firstStageIdx
      {
        firstStageIdx := firstStageIdx + 1;
      }
      var own := Settings("", Finite(0.0), 0, runs[k].workload);
      if firstStageIdx < |stages| {
        var s := stages[firstStageIdx];
        own := Settings(s.mode, s.rate, s.maxInFlight, runs[k].workload);
      }
      given := given + [own];
      globalStageIdx := globalStageIdx + |runs[k].stages|;
    }
  }

  // ---------------------------------------------------------------- where a stage lies

  predicate LiesIn(runs: seq<Run>, k: nat, p: nat) {
    k < |runs| && ScenarioTrace.Start(runs, k) <= p < ScenarioTrace.Start(runs, k + 1)
  }

  lemma {:induction false} RunOfHolds(runs: seq<Run>, p: nat, k: nat)
    requires k < |runs| && ScenarioTrace.Start(runs, k) <= p < ScenarioTrace.Start(runs, |runs|)
    ensures LiesIn(runs, RunOf(runs, p, k), p)
    decreases |runs| - k
  {
    if k + 1 < |runs| && p >= ScenarioTrace.Start(runs, k + 1) { RunOfHolds(runs, p, k + 1); }
  }

  /** The stages as they were resolved, and grouped. */
  ghost predicate Planned(stages: seq<Stage>, runs: seq<Run>, target: string, model: string, place: Place) {
    && WellGrouped(runs) && |Flatten(runs)| == |stages|
    && forall i | 0 <= i < |stages| :: Flatten(runs)[i] == ResolvedStage(stages, i, target, model, place)
  }

  lemma StageOfRun(runs: seq<Run>, k: nat, p: nat)
    requires LiesIn(runs, k, p)
    ensures p < |Flatten(runs)| && p - ScenarioTrace.Start(runs, k) < |runs[k].stages|
    ensures Flatten(runs)[p] == runs[k].stages[p - ScenarioTrace.Start(runs, k)]
  {
    FlattenIsLaid(runs);
    assert Ahead(Flatten(runs), runs[k].stages, 0, ScenarioTrace.Start(runs, k), ScenarioTrace.Start(runs, k + 1));
  }

  lemma StageFitsItsRun(runs: seq<Run>, k: nat, p: nat)
    requires WellGrouped(runs) && LiesIn(runs, k, p)
    ensures p < |Flatten(runs)| && Fits(runs[k], Flatten(runs)[p])
  {
    StageOfRun(runs, k, p);
    assert Uniform(runs[k]);
    assert Flatten(runs)[p] in runs[k].stages;
  }

  /** Two stages with nothing but barriers between them. */
  ghost predicate Neighbours(stages: seq<Stage>, p: nat, q: nat) {
    p < q < |stages| && !stages[p].barrier && !stages[q].barrier && forall j | p < j < q :: stages[j].barrier
  }

  /** What the grouping compares: target, model and seven settings of the workload. */
  predicate Alike(a: Resolved, b: Resolved) {
    a.target == b.target && a.model == b.model && WorkloadEqual(a.workload, b.workload)
  }

  lemma FitsIsAlike(run: Run, a: Resolved, b: Resolved)
    requires Fits(run, a)
    ensures Fits(run, b) <==> Alike(a, b)
  {
    WorkloadEqualIff(run.workload, a.workload);
    WorkloadEqualIff(run.workload, b.workload);
    WorkloadEqualIff(a.workload, b.workload);
  }

  // ---------------------------------------------------------------- neighbours

  /** Neighbours share a run exactly when they are alike. */
  lemma NeighboursShareARunIff(stages: seq<Stage>, runs: seq<Run>, target: string, model: string, place: Place,
                               p: nat, q: nat, k: nat)
    requires Planned(stages, runs, target, model, place) && Neighbours(stages, p, q) && LiesIn(runs, k, p)
    ensures LiesIn(runs, k, q) <==> Alike(Flatten(runs)[p], Flatten(runs)[q])
  {
    StageFitsItsRun(runs, k, p);
    FitsIsAlike(runs[k], Flatten(runs)[p], Flatten(runs)[q]);
    if LiesIn(runs, k, q) {
      StageFitsItsRun(runs, k, q);
    } else {
      NextRunBegins(stages, runs, target, model, place, p, q, k);
    }
  }

  /** The run behind that of a stage begins with its neighbour. */
  lemma NextRunBeginsAt(stages: seq<Stage>, runs: seq<Run>, target: string, model: string, place: Place, p: nat, q: nat, k: nat)
    requires Planned(stages, runs, target, model, place) && Neighbours(stages, p, q)
    requires LiesIn(runs, k, p) && !LiesIn(runs, k, q)
    ensures k + 1 < |runs| && LiesIn(runs, k + 1, q) && q == ScenarioTrace.Start(runs, k + 1)
  {
    FlattenIsLaid(runs);
    var at := ScenarioTrace.Start(runs, k + 1);
    assert k + 1 < |runs| && Uniform(runs[k + 1]);
    StageOfRun(runs, k + 1, at);
    NoRunBeginsWithABarrier(stages, Flatten(runs), runs, target, model, place, k + 1);
    assert Flatten(runs)[at] == ResolvedStage(stages, at, target, model, place);
    NotABarrier(stages, at, target, model, place);
  }

  lemma NotABarrier(stages: seq<Stage>, i: nat, target: string, model: string, place: Place)
    requires i < |stages|
    ensures ResolvedStage(stages, i, target, model, place).barrier == stages[i].barrier
  {
  }

  /** And it began only because that does not fit. */
  lemma NextRunBegins(stages: seq<Stage>, runs: seq<Run>, target: string, model: string, place: Place, p: nat, q: nat, k: nat)
    requires Planned(stages, runs, target, model, place) && Neighbours(stages, p, q)
    requires LiesIn(runs, k, p) && !LiesIn(runs, k, q)
    ensures !Fits(runs[k], Flatten(runs)[q])
  {
    NextRunBeginsAt(stages, runs, target, model, place, p, q, k);
    assert Breaks(runs, k + 1);
    StageOfRun(runs, k + 1, q);
  }

  // ---------------------------------------------------------------- stages and what they ask for

  lemma {:induction false} FirstWorkIs(stages: seq<Stage>, i: nat, p: nat)
    requires i <= p < |stages| && !stages[p].barrier
    ensures i <= FirstWork(stages, i) <= p && !stages[FirstWork(stages, i)].barrier
    ensures forall j | i <= j < FirstWork(stages, i) :: stages[j].barrier
    decreases p - i
  {
    if stages[i].barrier { FirstWorkIs(stages, i + 1, p); }
  }

  /** A run's generator is set up for its first stage that is no barrier. */
  lemma GivenIsFirstAsked(stages: seq<Stage>, runs: seq<Run>, target: string, model: string, place: Place, k: nat, p: nat)
    requires Planned(stages, runs, target, model, place) && LiesIn(runs, k, p) && p < |stages| && !stages[p].barrier
    ensures var f := FirstWork(stages, ScenarioTrace.Start(runs, k));
            f <= p && LiesIn(runs, k, f) && !stages[f].barrier && Given(stages, runs, k) == Asked(stages, f)
  {
    var at := ScenarioTrace.Start(runs, k);
    FirstWorkIs(stages, at, p);
    var f := FirstWork(stages, at);
    assert Uniform(runs[k]);
    StageOfRun(runs, k, at);
    StageFitsItsRun(runs, k, f);
    BarriersOpenOnlyTheFirst(stages, runs, target, model, place, k);
    assert Flatten(runs)[at] == ResolvedStage(stages, at, target, model, place);
    assert Flatten(runs)[f] == ResolvedStage(stages, f, target, model, place);
  }

  lemma BarriersOpenOnlyTheFirst(stages: seq<Stage>, runs: seq<Run>, target: string, model: string, place: Place, k: nat)
    requires Planned(stages, runs, target, model, place)
    requires k < |runs| && LiesIn(runs, k, ScenarioTrace.Start(runs, k))
    ensures ScenarioTrace.Start(runs, k) < |stages|
    ensures stages[ScenarioTrace.Start(runs, k)].barrier ==> k == 0
  {
    var at := ScenarioTrace.Start(runs, k);
    StageOfRun(runs, k, at);
    assert Flatten(runs)[at] == ResolvedStage(stages, at, target, model, place);
    NotABarrier(stages, at, target, model, place);
    if k > 0 { NoRunBeginsWithABarrier(stages, Flatten(runs), runs, target, model, place, k); }
  }

  /** The stage before, barriers apart. */
  lemma {:induction false} StageBefore(stages: seq<Stage>, f: nat, at: nat, q: nat) returns (p: nat)
    requires f <= at < q < |stages| && !stages[f].barrier && !stages[q].barrier
    requires forall j | at < j < q :: stages[j].barrier
    ensures f <= p && Neighbours(stages, p, q)
  {
    if stages[at].barrier { p := StageBefore(stages, f, at - 1, q); } else { p := at; }
  }

  /** Wherever neighbours that are alike ask for the same, stages of one run do. */
  lemma {:induction false} SameRunSameAsked(stages: seq<Stage>, runs: seq<Run>, target: string, model: string, place: Place,
                                            k: nat, f: nat, q: nat)
    requires Planned(stages, runs, target, model, place) && LiesIn(runs, k, f) && LiesIn(runs, k, q)
    requires f <= q < |stages| && !stages[f].barrier && !stages[q].barrier
    requires AlikeAskTheSame(stages, Flatten(runs))
    ensures Asked(stages, f) == Asked(stages, q)
    decreases q
  {
    if f < q {
      var p := StageBefore(stages, f, q - 1, q);
      SameRunSameAsked(stages, runs, target, model, place, k, f, p);
      NeighboursShareARunIff(stages, runs, target, model, place, p, q, k);
    }
  }

  /** Neighbours that the grouping cannot tell apart ask for the same. */
  ghost predicate AlikeAskTheSame(stages: seq<Stage>, flat: seq<Resolved>)
    requires |flat| == |stages|
  {
    forall p: nat, q: nat | Neighbours(stages, p, q) && Alike(flat[p], flat[q]) :: Asked(stages, p) == Asked(stages, q)
  }

  /** The stage runs with what it asks for. */
  ghost predicate GetsItsOwn(stages: seq<Stage>, runs: seq<Run>, p: nat)
    requires p < |stages|
  {
    RunOf(runs, p) < |runs| && Given(stages, runs, RunOf(runs, p)) == Asked(stages, p)
  }

  lemma GetOwnIfAlikeAskTheSame(stages: seq<Stage>, runs: seq<Run>, target: string, model: string, place: Place, p: nat)
    requires Planned(stages, runs, target, model, place) && AlikeAskTheSame(stages, Flatten(runs))
    requires p < |stages| && !stages[p].barrier && LiesIn(runs, RunOf(runs, p), p)
    ensures GetsItsOwn(stages, runs, p)
  {
    var k := RunOf(runs, p);
    GivenIsFirstAsked(stages, runs, target, model, place, k, p);
    SameRunSameAsked(stages, runs, target, model, place, k, FirstWork(stages, ScenarioTrace.Start(runs, k)), p);
  }

  lemma AskTheSameIfGetOwn(stages: seq<Stage>, runs: seq<Run>, target: string, model: string, place: Place, p: nat, q: nat)
    requires Planned(stages, runs, target, model, place) && Neighbours(stages, p, q) && LiesIn(runs, RunOf(runs, p), p)
    requires Alike(Flatten(runs)[p], Flatten(runs)[q]) && GetsItsOwn(stages, runs, p) && GetsItsOwn(stages, runs, q)
    ensures Asked(stages, p) == Asked(stages, q)
  {
    var k := RunOf(runs, p);
    NeighboursShareARunIff(stages, runs, target, model, place, p, q, k);
    RunOfIs(runs, q, 0, k);
  }

  /** Every stage runs in its own mode, at its own rate and bound and out of its own workload exactly when neighbouring
      stages with the same target, model and seven workload settings ask for the same altogether. */
  lemma StagesGetTheirOwnIff(stages: seq<Stage>, runs: seq<Run>, target: string, model: string, place: Place)
    requires Planned(stages, runs, target, model, place)
    ensures (forall p | 0 <= p < |stages| && !stages[p].barrier :: GetsItsOwn(stages, runs, p))
            <==> AlikeAskTheSame(stages, Flatten(runs))
  {
    FlattenIsLaid(runs);
    forall p | 0 <= p < |stages| ensures LiesIn(runs, RunOf(runs, p), p) { RunOfHolds(runs, p, 0); }
    if AlikeAskTheSame(stages, Flatten(runs)) {
      forall p | 0 <= p < |stages| && !stages[p].barrier ensures GetsItsOwn(stages, runs, p) {
        GetOwnIfAlikeAskTheSame(stages, runs, target, model, place, p);
      }
    }
    if forall p | 0 <= p < |stages| && !stages[p].barrier :: GetsItsOwn(stages, runs, p) {
      forall p: nat, q: nat | Neighbours(stages, p, q) && Alike(Flatten(runs)[p], Flatten(runs)[q])
        ensures Asked(stages, p) == Asked(stages, q)
      {
        AskTheSameIfGetOwn(stages, runs, target, model, place, p, q);
      }
    }
  }

  /** Of two stages that the grouping cannot tell apart the second runs with what the first asks for. */
  lemma SecondIsOverruled(a: Stage, b: Stage, runs: seq<Run>, target: string, model: string, place: Place)
    requires Planned([a, b], runs, target, model, place) && !a.barrier && !b.barrier
    requires a.target == b.target && a.model == b.model && WorkloadEqual(a.workload, b.workload)
    ensures RunOf(runs, 1) < |runs| && Given([a, b], runs, RunOf(runs, 1)) == Asked([a, b], 0)
  {
    var stages, k := [a, b], RunOf(runs, 0);
    FlattenIsLaid(runs);
    RunOfHolds(runs, 0, 0);
    assert Flatten(runs)[0] == ResolvedStage(stages, 0, target, model, place);
    assert Flatten(runs)[1] == ResolvedStage(stages, 1, target, model, place);
    NeighboursShareARunIff(stages, runs, target, model, place, 0, 1, k);
    RunOfIs(runs, 1, 0, k);
    GivenIsFirstAsked(stages, runs, target, model, place, k, 0);
  }

  /** For instance, of two stages at ten and at twenty requests per second both run at ten. */
  lemma SecondRateIsIgnored(runs: seq<Run>, target: string, model: string, place: Place)
    requires var slow := Stage("", 60, "constant", 0, 0, Finite(10.0), 0, 0, None, "", "", 0, false, false, false, None);
             Planned([slow, slow.(rate := Finite(20.0))], runs, target, model, place)
    ensures var slow := Stage("", 60, "constant", 0, 0, Finite(10.0), 0, 0, None, "", "", 0, false, false, false, None);
            && RunOf(runs, 1) < |runs|
            && Given([slow, slow.(rate := Finite(20.0))], runs, RunOf(runs, 1)).rate == Finite(10.0)
  {
    var slow := Stage("", 60, "constant", 0, 0, Finite(10.0), 0, 0, None, "", "", 0, false, false, false, None);
    SecondIsOverruled(slow, slow.(rate := Finite(20.0)), runs, target, model, place);
  }

  /** And of two stages that differ in the question file alone both are asked the first file's questions. */
  lemma SecondFileIsIgnored(s: Stage, w: Workload, path: string, runs: seq<Run>, target: string, model: string, place: Place)
    requires s.workload == Some(w) && !s.barrier && w.gpqaPath != path
    requires Planned([s, s.(workload := Some(w.(gpqaPath := path)))], runs, target, model, place)
    ensures RunOf(runs, 1) < |runs|
    ensures Given([s, s.(workload := Some(w.(gpqaPath := path)))], runs, RunOf(runs, 1)).workload == Some(w)
  {
    SecondIsOverruled(s, s.(workload := Some(w.(gpqaPath := path))), runs, target, model, place);
  }
}
