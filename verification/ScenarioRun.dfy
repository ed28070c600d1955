/**
 Running a scenario: stages are resolved, grouped into runs that share one generator, and run one
 after the other; measured stages are counted as they start, and when one completes its congestion
 condition is looked up by that count.

 What happens outside (requests, clocks, the condition's verdict, barriers) is given by `ends`, which
 says for every stage how it ends.
 */
module ScenarioRun {
  import opened Shared
  import opened LoadDivision
  import opened ScenarioConfig

  /** What one worker is to run in a stage. */
  datatype Load = Load(share: Share, duration: int, rampup: int, maxRequests: int)

  const NO_LOAD := Load(Share(0, 0), 0, 0, 0)

  /** A stage as the run loop sees it, with its position in the scenario. */
  datatype Resolved = Resolved(position: nat, barrier: bool, warmup: bool, target: string, model: string,
                               workload: Option<Workload>, load: Load)

  /** One of how many workers this is. */
  datatype Place = Place(workers: int, id: int)

  datatype Run = Run(stages: seq<Resolved>, target: string, model: string, workload: Option<Workload>)

  /** What may strike while the loop is between two stages, in a callback or at a barrier: the generator gives up
      after too many consecutive errors of the streams still running, or the whole scenario is cancelled. */
  datatype Blow = Nothing | Errors | Cancellation

  /** How a stage ends.  `Completed`: it ran its course, its callback returned `go`, and `after` struck before the
      next one; `CutShort`: it was ended by consecutive errors or by cancellation, without its callback.  A barrier
      that is `Completed` was passed; one that is `CutShort` failed, which cancels the scenario. */
  datatype End = Completed(go: bool, after: Blow) | CutShort(cancelled: bool)

  /** The condition looked up when the stage at `position` completed. */
  datatype Lookup = Lookup(position: nat, index: nat, go: bool)

  /** `waits` lists the barriers passed so far; its length is the id of the next one (`barrierIdx`). */
  datatype Trace = Trace(measured: nat, stopped: bool, cancelled: bool, started: seq<nat>, lookups: seq<Lookup>, waits: seq<nat>)

  const EMPTY := Trace(0, false, false, [], [], [])

  // ---------------------------------------------------------------- preparing the runs

  predicate Measured(s: Stage) { !s.barrier && !s.warmup }

  /** The conditions of the measured stages, in order. */
  function Conditions(stages: seq<Stage>): seq<Option<Condition>> {
    if stages == [] then []
    else Conditions(stages[..|stages| - 1]) + (if Measured(stages[|stages| - 1]) then [stages[|stages| - 1].stopWhen] else [])
  }

  method MeasuredConditions(stages: seq<Stage>) returns (conditions: seq<Option<Condition>>)
    ensures conditions == Conditions(stages)
  {
    conditions := [];
    for i := 0 to |stages|
      invariant conditions == Conditions(stages[..i])
    {
      assert stages[..i + 1][..i] == stages[..i];
      if !stages[i].barrier && !stages[i].warmup {
        conditions := conditions + [stages[i].stopWhen];
      }
    }
    assert stages[..|stages|] == stages;
  }

  const IMPLICIT_BARRIER := Stage("", 0, "", 0, 0, Finite(0.0), 0, 0, None, "", "", 0, false, true, false, None)

  /** A barrier before the first stage, unless there is one already. */
  function WithImplicitBarrier(stages: seq<Stage>): seq<Stage> {
    if stages == [] || stages[0].barrier then stages else [IMPLICIT_BARRIER] + stages
  }

  /** What stage i runs against: a barrier takes over from the stage before it. */
  function ResolvedStage(stages: seq<Stage>, i: nat, target: string, model: string, place: Place): Resolved
    requires i < |stages|
  {
    var s := stages[i];
    if !s.barrier then
      Resolved(i, false, s.warmup, if s.target != "" then s.target else target, if s.model != "" then s.model else model,
               s.workload, Load(WorkerShare(s, place.workers, place.id), s.duration, s.rampup, s.maxRequests))
    else if i == 0 then Resolved(i, true, false, target, model, None, NO_LOAD)
    else ResolvedStage(stages, i - 1, target, model, place).(position := i, barrier := true, warmup := false, load := NO_LOAD)
  }

  /** A stage runs against its own target and model where it names them, with its own workload, duration, ramp and limit
      and this worker's share of its load; the barriers behind it take over what it runs against, and carry no load. */
  lemma {:induction false} BarriersTakeOver(stages: seq<Stage>, p: nat, i: nat, target: string, model: string, place: Place)
    requires p <= i < |stages| && !stages[p].barrier && forall j | p < j <= i :: stages[j].barrier
    ensures var r, s := ResolvedStage(stages, i, target, model, place), stages[p];
            && r.position == i && r.barrier == stages[i].barrier && r.warmup == (i == p && s.warmup)
            && (s.target != "" ==> r.target == s.target) && (s.target == "" ==> r.target == target)
            && (s.model != "" ==> r.model == s.model) && (s.model == "" ==> r.model == model)
            && r.workload == s.workload
            && (i > p ==> r.load == NO_LOAD)
            && (i == p ==> r.load.duration == s.duration && r.load.rampup == s.rampup && r.load.maxRequests == s.maxRequests
                           && r.load.share == WorkerShare(s, place.workers, place.id))
  {
    if p < i { BarriersTakeOver(stages, p, i - 1, target, model, place); }
  }

  /** The streams of a stage that falls to n workers, of the first k of them together. */
  function StreamsOf(stages: seq<Stage>, i: nat, target: string, model: string, n: nat, k: nat): int
    requires i < |stages|
  {
    if k == 0 then 0
    else StreamsOf(stages, i, target, model, n, k - 1) + ResolvedStage(stages, i, target, model, Place(n, k - 1)).load.share.concurrency
  }

  /** All workers together run as many streams as the stage asks for. */
  lemma WorkersCarryTheStage(stages: seq<Stage>, i: nat, target: string, model: string, n: nat)
    requires i < |stages| && !stages[i].barrier && stages[i].concurrency >= 0 && n >= 1
    ensures StreamsOf(stages, i, target, model, n, n) == stages[i].concurrency
  {
    StreamsAreShares(stages, i, target, model, n, n);
    SharesAddUp(stages[i].concurrency, n);
  }

  lemma {:induction false} StreamsAreShares(stages: seq<Stage>, i: nat, target: string, model: string, n: nat, k: nat)
    requires i < |stages| && !stages[i].barrier && n >= 1
    ensures StreamsOf(stages, i, target, model, n, k) == SumOfShares(stages[i].concurrency, n, k)
  {
    if k > 0 { StreamsAreShares(stages, i, target, model, n, k - 1); }
  }

  /** The conversations of a pool stage that falls to n workers, of the first k of them together. */
  function PoolOf(s: Stage, n: nat, k: nat): int {
    if k == 0 then 0 else PoolOf(s, n, k - 1) + WorkerShare(s, n, k - 1).poolSize
  }

  /** All workers together keep the conversations that an accepted pool stage asks for, or one for every stream if it does
      not say. */
  lemma WorkersCarryThePool(s: Stage, n: nat)
    requires Acceptable(s) && !s.barrier && s.mode == POOL && s.concurrency >= 0 && n >= 1
    ensures PoolOf(Defaulted(s), n, n) == if s.poolSize == 0 then s.concurrency else s.poolSize
  {
    var d := Defaulted(s);
    PoolsAreShares(d, n, n);
    SharesAddUp(d.poolSize, n);
    if n == 1 { assert PoolOf(d, 1, 1) == PoolOf(d, 1, 0) + WorkerShare(d, 1, 0).poolSize; }
  }

  lemma {:induction false} PoolsAreShares(s: Stage, n: nat, k: nat)
    requires s.mode == POOL && s.poolSize >= s.concurrency >= 0 && n >= 1
    ensures PoolOf(s, n, k) == SumOfShares(s.poolSize, n, k)
  {
    if k > 0 {
      PoolsAreShares(s, n, k - 1);
      if n > 1 {
        SharesAreMonotone(s.concurrency, s.poolSize, n, k - 1);
        SharesAreMonotone(0, s.concurrency, n, k - 1);
      }
    }
  }

  method Resolve(stages: seq<Stage>, target: string, model: string, place: Place) returns (resolved: seq<Resolved>)
    ensures |resolved| == |stages|
    ensures forall i | 0 <= i < |stages| :: resolved[i] == ResolvedStage(stages, i, target, model, place)
  {
    resolved := [];
    for i := 0 to |stages|
      invariant |resolved| == i
      invariant forall j | 0 <= j < i :: resolved[j] == ResolvedStage(stages, j, target, model, place)
    {
      var s := stages[i];
      if s.barrier {
        if i > 0 {
          var previous := resolved[|resolved| - 1];
          resolved := resolved + [Resolved(i, true, false, previous.target, previous.model, previous.workload, NO_LOAD)];
        } else {
          resolved := resolved + [Resolved(i, true, false, target, model, None, NO_LOAD)];
        }
      } else {
        var t := if s.target != "" then s.target else target;
        var m := if s.model != "" then s.model else model;
        var concurrency, pool := s.concurrency, s.poolSize;
        if s.mode == POOL && pool == 0 {
          pool := concurrency;
        }
        if place.workers > 1 {
          concurrency := DivideConcurrency(s.concurrency, place.workers, place.id);
          pool := DivideConcurrency(s.poolSize, place.workers, place.id);
          if s.mode == POOL && pool == 0 {
            pool := concurrency;
          }
        }
        resolved := resolved
          + [Resolved(i, false, s.warmup, t, m, s.workload, Load(Share(concurrency, pool), s.duration, s.rampup, s.maxRequests))];
      }
    }
  }

  predicate WorkloadEqual(a: Option<Workload>, b: Option<Workload>) {
    match (a, b)
    case (None, None) => true
    case (Some(x), Some(y)) =>
      && x.kind == y.kind && x.name == y.name && x.isl == y.isl && x.osl == y.osl && x.turns == y.turns
      && x.corpusPath == y.corpusPath && x.gsm8kPath == y.gsm8kPath
    case _ => false
  }

  /** What it compares is an equality, of seven of a workload's settings. */
  lemma WorkloadEqualIff(a: Option<Workload>, b: Option<Workload>)
    ensures WorkloadEqual(a, b) <==> Compared(a) == Compared(b)
  {
  }

  function Compared(w: Option<Workload>): Option<(string, string, int, int, int, string, string)> {
    match w
    case None => None
    case Some(x) => Some((x.kind, x.name, x.isl, x.osl, x.turns, x.corpusPath, x.gsm8kPath))
  }

  predicate Fits(run: Run, r: Resolved) {
    run.target == r.target && run.model == r.model && WorkloadEqual(run.workload, r.workload)
  }

  function Flatten(runs: seq<Run>): seq<Resolved> {
    if runs == [] then [] else Flatten(runs[..|runs| - 1]) + runs[|runs| - 1].stages
  }

  /** A run has stages, and all of them fit it; its workload is that of the first. */
  ghost predicate Uniform(run: Run) {
    run.stages != [] && run.workload == run.stages[0].workload && forall r | r in run.stages :: Fits(run, r)
  }

  /** The i-th run was begun only because its first stage did not fit the run before it. */
  ghost predicate Breaks(runs: seq<Run>, i: nat) {
    0 < i < |runs| ==> runs[i].stages != [] && !Fits(runs[i - 1], runs[i].stages[0])
  }

  ghost predicate WellGrouped(runs: seq<Run>) {
    (forall i | 0 <= i < |runs| :: Uniform(runs[i])) && forall i | 0 <= i < |runs| :: Breaks(runs, i)
  }

  function Extended(runs: seq<Run>, rs: Resolved): seq<Run>
    requires runs != []
  {
    var last := |runs| - 1;
    runs[last := runs[last].(stages := runs[last].stages + [rs])]
  }

  lemma UniformExtends(run: Run, rs: Resolved)
    requires Uniform(run) && Fits(run, rs)
    ensures Uniform(run.(stages := run.stages + [rs]))
  {
  }

  lemma ExtendedFlatten(runs: seq<Run>, rs: Resolved)
    requires runs != []
    ensures Flatten(Extended(runs, rs)) == Flatten(runs) + [rs]
  {
    assert Extended(runs, rs)[..|runs| - 1] == runs[..|runs| - 1];
  }

  lemma Extending(runs: seq<Run>, rs: Resolved)
    requires runs != [] && WellGrouped(runs) && Fits(runs[|runs| - 1], rs)
    ensures WellGrouped(Extended(runs, rs))
  {
    var longer, last := Extended(runs, rs), |runs| - 1;
    assert Uniform(runs[last]);
    UniformExtends(runs[last], rs);
    forall i | 0 <= i < |runs| ensures Uniform(longer[i]) && Breaks(longer, i) {
      assert Uniform(runs[i]) && Breaks(runs, i);
    }
  }

  lemma Opening(runs: seq<Run>, run: Run)
    requires WellGrouped(runs) && Uniform(run) && (runs != [] ==> !Fits(runs[|runs| - 1], run.stages[0]))
    ensures Flatten(runs + [run]) == Flatten(runs) + run.stages && WellGrouped(runs + [run])
  {
    var longer := runs + [run];
    assert longer[..|runs|] == runs;
    forall i | 0 <= i < |longer| ensures Uniform(longer[i]) && Breaks(longer, i) {
      assert i < |runs| ==> Breaks(runs, i) && Uniform(runs[i]);
      assert longer[i] == if i < |runs| then runs[i] else run;
    }
  }

  /** Groups neighbouring stages without losing, repeating or reordering any. */
  method Group(resolved: seq<Resolved>) returns (runs: seq<Run>)
    ensures Flatten(runs) == resolved && WellGrouped(runs)
  {
    runs := [];
    for i := 0 to |resolved|
      invariant Flatten(runs) == resolved[..i] && WellGrouped(runs)
    {
      var rs := resolved[i];
      assert resolved[..i + 1] == resolved[..i] + [rs];
      if |runs| > 0 && Fits(runs[|runs| - 1], rs) {
        ExtendedFlatten(runs, rs);
        Extending(runs, rs);
        runs := Extended(runs, rs);
      } else {
        var run := Run([rs], rs.target, rs.model, rs.workload);
        Opening(runs, run);
        runs := runs + [run];
      }
    }
    assert resolved[..|resolved|] == resolved;
  }

  lemma {:induction false} FlattenPrefix(runs: seq<Run>, k: nat)
    requires k <= |runs|
    ensures Flatten(runs[..k]) <= Flatten(runs)
    ensures k < |runs| ==> Flatten(runs[..k + 1]) == Flatten(runs[..k]) + runs[k].stages
    ensures k < |runs| ==> Flatten(runs[..k + 1]) <= Flatten(runs)
    decreases |runs| - k
  {
    if k < |runs| {
      assert runs[..k + 1][..k] == runs[..k];
      FlattenPrefix(runs, k + 1);
    } else {
      assert runs[..k] == runs;
    }
  }

  lemma RunSlice(runs: seq<Run>, k: nat)
    requires k < |runs|
    ensures var base := |Flatten(runs[..k])|;
            && base + |runs[k].stages| == |Flatten(runs[..k + 1])| <= |Flatten(runs)|
            && Flatten(runs[..k + 1]) <= Flatten(runs)
            && runs[k].stages == Flatten(runs)[base..base + |runs[k].stages|]
  {
    FlattenPrefix(runs, k);
    var base, stages := |Flatten(runs[..k])|, runs[k].stages;
    var upto := Flatten(runs[..k + 1]);
    assert upto[base..base + |stages|] == stages;
  }

  /** A barrier never separates runs: only a stage that brings its own target, model or workload begins one. */
  lemma NoRunBeginsWithABarrier(stages: seq<Stage>, resolved: seq<Resolved>, runs: seq<Run>,
                                target: string, model: string, place: Place, k: nat)
    requires |resolved| == |stages|
    requires forall i | 0 <= i < |stages| :: resolved[i] == ResolvedStage(stages, i, target, model, place)
    requires Flatten(runs) == resolved && WellGrouped(runs) && 0 < k < |runs|
    ensures !runs[k].stages[0].barrier
  {
    assert Uniform(runs[k]) && Uniform(runs[k - 1]) && Breaks(runs, k);
    var last, first := runs[k - 1].stages[|runs[k - 1].stages| - 1], runs[k].stages[0];
    var at := Seam(runs, k);
    assert first.barrier ==> first == last.(position := at, barrier := true, warmup := false, load := NO_LOAD);
    assert Fits(runs[k - 1], last);
  }

  /** Where one run ends and the next begins. */
  lemma Seam(runs: seq<Run>, k: nat) returns (at: nat)
    requires 0 < k < |runs| && runs[k - 1].stages != [] && runs[k].stages != []
    ensures 0 < at < |Flatten(runs)|
    ensures Flatten(runs)[at] == runs[k].stages[0]
    ensures Flatten(runs)[at - 1] == runs[k - 1].stages[|runs[k - 1].stages| - 1]
  {
    RunSlice(runs, k - 1);
    RunSlice(runs, k);
    at := |Flatten(runs[..k])|;
  }

  // ---------------------------------------------------------------- running them

  /** The callback before a stage: counts it if it is measured. */
  function Begin(t: Trace, r: Resolved): Trace {
    t.(started := t.started + [r.position], measured := if r.warmup then t.measured else t.measured + 1)
  }

  /** The callback after a stage. */
  function Finish(t: Trace, r: Resolved, go: bool): Trace {
    if r.warmup || t.measured == 0 then t
    else t.(lookups := t.lookups + [Lookup(r.position, t.measured - 1, go)], stopped := !go)
  }

  /** One stage: the trace after it, and whether the run goes on to the next. */
  datatype Progress = Progress(trace: Trace, more: bool)

  function Struck(t: Trace, after: Blow): Progress {
    Progress(t.(cancelled := after.Cancellation?), after.Nothing? && !t.stopped)
  }

  function OneStage(t: Trace, r: Resolved, end: End): Progress {
    match end
    case CutShort(cancelled) =>
      if r.barrier then Progress(t.(cancelled := true), false) else Progress(Begin(t, r).(cancelled := cancelled), false)
    case Completed(go, after) =>
      if r.barrier then Struck(t.(waits := t.waits + [r.position]), after) else Struck(Finish(Begin(t, r), r, go), after)
  }

  /** The stages of one run from the k-th on. */
  function StagesFrom(stages: seq<Resolved>, k: nat, t: Trace, ends: nat -> End): Trace
    requires k <= |stages|
    decreases |stages| - k
  {
    if k == |stages| then t
    else
      var p := OneStage(t, stages[k], ends(stages[k].position));
      if p.more then StagesFrom(stages, k + 1, p.trace, ends) else p.trace
  }

  function RunsFrom(runs: seq<Run>, k: nat, t: Trace, ends: nat -> End): Trace
    requires k <= |runs|
    decreases |runs| - k
  {
    if k == |runs| || t.stopped || t.cancelled then t
    else RunsFrom(runs, k + 1, StagesFrom(runs[k].stages, 0, t, ends), ends)
  }

  /** The stage loop of one generator.  `over` says that its context has ended. */
  method RunStagesUntil(stages: seq<Resolved>, before: Trace, ends: nat -> End) returns (t: Trace)
    requires !before.stopped && !before.cancelled
    ensures t == StagesFrom(stages, 0, before, ends)
  {
    t := before;
    var over := false;
    for i := 0 to |stages|
      invariant !t.stopped && (t.cancelled ==> over)
      invariant StagesFrom(stages, 0, before, ends) == if over then t else StagesFrom(stages, i, t, ends)
    {
      if over {
        break;
      }
      var r := stages[i];
      ghost var p := OneStage(t, r, ends(r.position));
      assert StagesFrom(stages, i, t, ends) == if p.more then StagesFrom(stages, i + 1, p.trace, ends) else p.trace;
      if r.barrier {
        match ends(r.position) {
        case CutShort(_) => t, over := t.(cancelled := true), true;
        case Completed(_, after) =>
          t := t.(waits := t.waits + [r.position], cancelled := after.Cancellation?);
          over := !after.Nothing?;
        }
        assert t == p.trace && over == !p.more;
        continue;
      }
      t := Begin(t, r);
      match ends(r.position) {
      case CutShort(cancelled) => t, over := t.(cancelled := cancelled), true;
      case Completed(go, after) =>
        t := Finish(t, r, go).(cancelled := after.Cancellation?);
        if t.stopped {
          break;
        }
        over := !after.Nothing?;
      }
      assert t == p.trace && over == !p.more;
    }
  }

  method RunScenario(runs: seq<Run>, ends: nat -> End) returns (t: Trace)
    ensures t == RunsFrom(runs, 0, EMPTY, ends)
  {
    t := EMPTY;
    var k := 0;
    while k < |runs| && !t.cancelled
      invariant k <= |runs| && !t.stopped
      invariant RunsFrom(runs, 0, EMPTY, ends) == RunsFrom(runs, k, t, ends)
    {
      t := RunStagesUntil(runs[k].stages, t, ends);
      k := k + 1;
      if t.stopped { break; }
    }
  }
}
