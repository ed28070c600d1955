/**
 What the run of a scenario leaves behind: which condition every completed stage consulted, and which stage every
 barrier id stood for, however the stages end.
 */
module ScenarioTrace {
  import opened Shared
  import opened ScenarioConfig
  import opened ScenarioRun

  // ---------------------------------------------------------------- counting stages

  /** The two kinds of stage that are numbered as they are reached. */
  datatype Kind = MeasuredStage | BarrierStage

  predicate Is(kind: Kind, r: Resolved) {
    match kind
    case MeasuredStage => !r.barrier && !r.warmup
    case BarrierStage => r.barrier
  }

  /** The number the next stage of a kind is given. */
  function Counter(kind: Kind, t: Trace): nat {
    match kind
    case MeasuredStage => t.measured
    case BarrierStage => |t.waits|
  }

  /** Stages of a kind among the first n: the number a stage has in the scenario as written. */
  function Rank(kind: Kind, flat: seq<Resolved>, n: nat): nat
    requires n <= |flat|
  {
    if n == 0 then 0 else Rank(kind, flat, n - 1) + (if Is(kind, flat[n - 1]) then 1 else 0)
  }

  lemma {:induction false} RankRises(kind: Kind, flat: seq<Resolved>, p: nat, q: nat)
    requires p <= q <= |flat|
    ensures Rank(kind, flat, p) <= Rank(kind, flat, q)
    ensures p < q && Is(kind, flat[p]) ==> Rank(kind, flat, p) < Rank(kind, flat, q)
  {
    if p < q { RankRises(kind, flat, p, q - 1); }
  }

  /** Stages of a kind from the i-th on. */
  function CountFrom(kind: Kind, stages: seq<Resolved>, i: nat): nat
    requires i <= |stages|
    decreases |stages| - i
  {
    if i == |stages| then 0 else (if Is(kind, stages[i]) then 1 else 0) + CountFrom(kind, stages, i + 1)
  }

  lemma {:induction false} CountFromIff(kind: Kind, stages: seq<Resolved>, i: nat)
    requires i <= |stages|
    ensures CountFrom(kind, stages, i) > 0 <==> exists b | i <= b < |stages| :: Is(kind, stages[b])
    decreases |stages| - i
  {
    if i < |stages| { CountFromIff(kind, stages, i + 1); }
  }

  // ---------------------------------------------------------------- what a generator that gives up loses

  /** The generator gives up at this stage: consecutive errors cut it short, or strike before the next one. */
  predicate GivesUp(r: Resolved, end: End) {
    match end
    case CutShort(cancelled) => !r.barrier && !cancelled
    case Completed(go, after) => after.Errors? && (r.barrier || r.warmup || go)
  }

  /** Stages of a kind behind the place where a run gives up, from its i-th stage on. */
  function LostFrom(kind: Kind, stages: seq<Resolved>, i: nat, ends: nat -> End): nat
    requires i <= |stages|
    decreases |stages| - i
  {
    if i == |stages| then 0
    else if GivesUp(stages[i], ends(stages[i].position)) then CountFrom(kind, stages, i + 1)
    else LostFrom(kind, stages, i + 1, ends)
  }

  /** Stages of a kind lost in the first k runs. */
  function Losses(kind: Kind, runs: seq<Run>, ends: nat -> End, k: nat): nat
    requires k <= |runs|
  {
    if k == 0 then 0 else Losses(kind, runs, ends, k - 1) + LostFrom(kind, runs[k - 1].stages, 0, ends)
  }

  /** At the a-th stage the run gives up, and the b-th, of the kind, lies behind it. */
  predicate SkipsAt(kind: Kind, stages: seq<Resolved>, ends: nat -> End, a: nat, b: nat) {
    a < b < |stages| && GivesUp(stages[a], ends(stages[a].position)) && Is(kind, stages[b])
  }

  ghost predicate Skips(kind: Kind, run: Run, ends: nat -> End) {
    exists a, b :: SkipsAt(kind, run.stages, ends, a, b)
  }

  /** No run before the k-th gives up with a stage of the kind still ahead of it. */
  ghost predicate NothingSkipped(kind: Kind, runs: seq<Run>, ends: nat -> End, k: nat) {
    forall j | 0 <= j < k && j < |runs| :: !Skips(kind, runs[j], ends)
  }

  lemma {:induction false} LostFromIff(kind: Kind, stages: seq<Resolved>, i: nat, ends: nat -> End)
    requires i <= |stages|
    ensures LostFrom(kind, stages, i, ends) > 0 <==> exists a, b | i <= a :: SkipsAt(kind, stages, ends, a, b)
    decreases |stages| - i
  {
    if i < |stages| {
      LostFromIff(kind, stages, i + 1, ends);
      CountFromIff(kind, stages, i + 1);
      if GivesUp(stages[i], ends(stages[i].position)) {
        if b :| i + 1 <= b < |stages| && Is(kind, stages[b]) {
          assert SkipsAt(kind, stages, ends, i, b);
        }
        if a, b: nat :| i <= a && SkipsAt(kind, stages, ends, a, b) {
          assert Is(kind, stages[b]);
        }
      }
    }
  }

  lemma {:induction false} LossesIff(kind: Kind, runs: seq<Run>, ends: nat -> End, k: nat)
    requires k <= |runs|
    ensures Losses(kind, runs, ends, k) == 0 <==> NothingSkipped(kind, runs, ends, k)
  {
    if k > 0 {
      LossesIff(kind, runs, ends, k - 1);
      LostFromIff(kind, runs[k - 1].stages, 0, ends);
      assert Skips(kind, runs[k - 1], ends) <==> LostFrom(kind, runs[k - 1].stages, 0, ends) > 0;
    }
  }

  // ---------------------------------------------------------------- where the runs lie

  function Start(runs: seq<Run>, k: nat): nat
    requires k <= |runs|
  {
    if k == 0 then 0 else Start(runs, k - 1) + |runs[k - 1].stages|
  }

  lemma {:induction false} StartRises(runs: seq<Run>, j: nat, k: nat)
    requires j <= k <= |runs|
    ensures Start(runs, j) <= Start(runs, k)
  {
    if j < k { StartRises(runs, j, k - 1); }
  }

  /** The run, from the k-th on, that holds position p. */
  function RunOf(runs: seq<Run>, p: nat, k: nat := 0): nat
    decreases |runs| - k
  {
    if k + 1 >= |runs| || p < Start(runs, k + 1) then k else RunOf(runs, p, k + 1)
  }

  lemma {:induction false} RunOfIs(runs: seq<Run>, p: nat, k: nat, j: nat)
    requires k <= j < |runs| && Start(runs, j) <= p < Start(runs, j + 1)
    ensures RunOf(runs, p, k) == j
    decreases j - k
  {
    if k < j {
      StartRises(runs, k + 1, j);
      RunOfIs(runs, p, k + 1, j);
    }
  }

  /** Stages of a kind lost in the runs before the one that holds position p. */
  function LostBefore(kind: Kind, runs: seq<Run>, ends: nat -> End, p: nat): nat {
    if RunOf(runs, p) <= |runs| then Losses(kind, runs, ends, RunOf(runs, p)) else 0
  }

  /** The stages from the i-th on are those of `flat` from `at` up to `to`. */
  ghost predicate Ahead(flat: seq<Resolved>, stages: seq<Resolved>, i: nat, at: nat, to: nat) {
    i <= |stages| && at + (|stages| - i) == to <= |flat| && forall j | i <= j < |stages| :: stages[j] == flat[at + (j - i)]
  }

  lemma AheadStep(flat: seq<Resolved>, stages: seq<Resolved>, i: nat, at: nat, to: nat)
    requires Ahead(flat, stages, i, at, to) && i < |stages|
    ensures at < to && stages[i] == flat[at] && Ahead(flat, stages, i + 1, at + 1, to)
  {
    assert flat[at + (i - i)] == stages[i];
  }

  lemma {:induction false} RankAhead(kind: Kind, flat: seq<Resolved>, stages: seq<Resolved>, i: nat, at: nat, to: nat)
    requires Ahead(flat, stages, i, at, to)
    ensures Rank(kind, flat, to) == Rank(kind, flat, at) + CountFrom(kind, stages, i)
    decreases |stages| - i
  {
    if i < |stages| {
      AheadStep(flat, stages, i, at, to);
      RankAhead(kind, flat, stages, i + 1, at + 1, to);
    }
  }

  /** `flat` consists of the stages of the runs, each at its start. */
  ghost predicate Laid(flat: seq<Resolved>, runs: seq<Run>) {
    && Start(runs, |runs|) == |flat|
    && forall k | 0 <= k < |runs| :: Ahead(flat, runs[k].stages, 0, Start(runs, k), Start(runs, k + 1))
  }

  lemma {:induction false} StartIsFlatten(runs: seq<Run>, k: nat)
    requires k <= |runs|
    ensures Start(runs, k) == |Flatten(runs[..k])|
  {
    if k > 0 {
      StartIsFlatten(runs, k - 1);
      assert runs[..k][..k - 1] == runs[..k - 1];
    }
  }

  lemma FlattenIsLaid(runs: seq<Run>)
    ensures Laid(Flatten(runs), runs)
  {
    StartIsFlatten(runs, |runs|);
    assert runs[..|runs|] == runs;
    forall k | 0 <= k < |runs| ensures Ahead(Flatten(runs), runs[k].stages, 0, Start(runs, k), Start(runs, k + 1)) {
      StartIsFlatten(runs, k);
      RunSlice(runs, k);
    }
  }

  // ---------------------------------------------------------------- the account

  ghost predicate Numbered(flat: seq<Resolved>) {
    forall i | 0 <= i < |flat| :: flat[i].position == i
  }

  /** How many stages of a kind were lost before a position. */
  type Lost = (Kind, nat) -> nat

  /** The number given to a stage falls short of its rank by what was lost before it. */
  ghost predicate LookupsAdd(flat: seq<Resolved>, t: Trace, at: nat, lost: Lost)
    requires at <= |flat|
  {
    forall l | l in t.lookups ::
      && l.position < at && Is(MeasuredStage, flat[l.position]) && l.position in t.started
      && l.index + lost(MeasuredStage, l.position) == Rank(MeasuredStage, flat, l.position)
      && (!l.go ==> t.stopped && forall p | p in t.started :: p <= l.position)
  }

  ghost predicate WaitsAdd(flat: seq<Resolved>, t: Trace, at: nat, lost: Lost)
    requires at <= |flat|
  {
    forall i | 0 <= i < |t.waits| ::
      && t.waits[i] < at && flat[t.waits[i]].barrier
      && i + lost(BarrierStage, t.waits[i]) == Rank(BarrierStage, flat, t.waits[i])
  }

  ghost predicate StartsAdd(flat: seq<Resolved>, t: Trace, at: nat, lost: Lost)
    requires at <= |flat|
  {
    forall p | p in t.started ::
      p < at && !flat[p].barrier && Rank(BarrierStage, flat, p) <= |t.waits| + lost(BarrierStage, p)
  }

  ghost predicate Adds(flat: seq<Resolved>, t: Trace, at: nat, lost: Lost)
    requires at <= |flat|
  {
    LookupsAdd(flat, t, at, lost) && WaitsAdd(flat, t, at, lost) && StartsAdd(flat, t, at, lost)
  }

  /** The counters fall short of the ranks at `at` by m measured stages and b barriers. */
  ghost predicate Level(flat: seq<Resolved>, t: Trace, at: nat, m: nat, b: nat)
    requires at <= |flat|
  {
    t.measured + m == Rank(MeasuredStage, flat, at) && |t.waits| + b == Rank(BarrierStage, flat, at)
  }

  predicate Live(t: Trace) { !t.stopped && !t.cancelled }

  /** A stage is about to begin, or a barrier about to be waited at. */
  ghost predicate Ready(flat: seq<Resolved>, t: Trace, at: nat, lost: Lost, m: nat, b: nat) {
    && at < |flat| && Numbered(flat) && Live(t) && Adds(flat, t, at, lost) && Level(flat, t, at, m, b)
    && lost(MeasuredStage, at) == m && lost(BarrierStage, at) == b
  }

  lemma {:induction false} BeginAdds(flat: seq<Resolved>, t: Trace, at: nat, lost: Lost, m: nat, b: nat)
    requires Ready(flat, t, at, lost, m, b) && !flat[at].barrier
    ensures Adds(flat, Begin(t, flat[at]), at + 1, lost) && Level(flat, Begin(t, flat[at]), at + 1, m, b)
  {
  }

  lemma {:induction false} FinishAdds(flat: seq<Resolved>, t: Trace, at: nat, go: bool, lost: Lost, m: nat, b: nat)
    requires Ready(flat, t, at, lost, m, b) && !flat[at].barrier
    ensures var f := Finish(Begin(t, flat[at]), flat[at], go); Adds(flat, f, at + 1, lost) && Level(flat, f, at + 1, m, b)
  {
    BeginAdds(flat, t, at, lost, m, b);
    var u := Begin(t, flat[at]);
    var f := Finish(u, flat[at], go);
    assert at in u.started;
    forall l | l in f.lookups ensures l in t.lookups || l == Lookup(at, u.measured - 1, go) { }
  }

  lemma {:induction false} WaitAdds(flat: seq<Resolved>, t: Trace, at: nat, lost: Lost, m: nat, b: nat)
    requires Ready(flat, t, at, lost, m, b) && flat[at].barrier
    ensures var w := t.(waits := t.waits + [at]); Adds(flat, w, at + 1, lost) && Level(flat, w, at + 1, m, b)
  {
  }

  /** One stage keeps the account, and the run ends there without stop or cancellation only by giving up. */
  lemma {:induction false} StageAdds(flat: seq<Resolved>, t: Trace, at: nat, end: End, lost: Lost, m: nat, b: nat)
    requires Ready(flat, t, at, lost, m, b)
    ensures var p := OneStage(t, flat[at], end);
            && Adds(flat, p.trace, at + 1, lost)
            && (Live(p.trace) ==> Level(flat, p.trace, at + 1, m, b))
            && (p.more ==> Live(p.trace))
            && (Live(p.trace) && !p.more <==> GivesUp(flat[at], end))
  {
    var r := flat[at];
    if r.barrier {
      WaitAdds(flat, t, at, lost, m, b);
    } else if end.Completed? {
      FinishAdds(flat, t, at, end.go, lost, m, b);
    } else {
      BeginAdds(flat, t, at, lost, m, b);
    }
  }

  lemma {:induction false} Later(flat: seq<Resolved>, t: Trace, at: nat, to: nat, lost: Lost)
    requires at <= to <= |flat| && Adds(flat, t, at, lost)
    ensures Adds(flat, t, to, lost)
  {
  }

  /** Between `at` and `to` nothing more counts as lost. */
  ghost predicate Steady(lost: Lost, at: nat, to: nat, m: nat, b: nat) {
    forall p | at <= p < to :: lost(MeasuredStage, p) == m && lost(BarrierStage, p) == b
  }

  /** The account after the rest of a run, from its i-th stage on. */
  ghost predicate Settled(flat: seq<Resolved>, stages: seq<Resolved>, i: nat, to: nat, u: Trace, ends: nat -> End, lost: Lost, m: nat, b: nat)
    requires i <= |stages|
  {
    && to <= |flat| && Adds(flat, u, to, lost)
    && (Live(u) ==> Level(flat, u, to, m + LostFrom(MeasuredStage, stages, i, ends), b + LostFrom(BarrierStage, stages, i, ends)))
  }

  /** A run that ends at its i-th stage leaves behind what lies behind it. */
  lemma {:induction false} EndsHere(flat: seq<Resolved>, stages: seq<Resolved>, i: nat, at: nat, to: nat, u: Trace, ends: nat -> End, lost: Lost, m: nat, b: nat)
    requires Ahead(flat, stages, i, at, to) && i < |stages|
    requires at < |flat| && Adds(flat, u, at + 1, lost) && (Live(u) ==> Level(flat, u, at + 1, m, b))
    requires Live(u) ==> GivesUp(stages[i], ends(stages[i].position))
    ensures Settled(flat, stages, i, to, u, ends, lost, m, b)
  {
    AheadStep(flat, stages, i, at, to);
    Later(flat, u, at + 1, to, lost);
    RankAhead(MeasuredStage, flat, stages, i + 1, at + 1, to);
    RankAhead(BarrierStage, flat, stages, i + 1, at + 1, to);
  }

  /** All of a run: what it loses is exactly what lies behind the place where it gives up. */
  lemma {:induction false} StagesAdd(flat: seq<Resolved>, stages: seq<Resolved>, i: nat, at: nat, to: nat, t: Trace,
                                     ends: nat -> End, lost: Lost, m: nat, b: nat)
    requires Numbered(flat) && Ahead(flat, stages, i, at, to) && Live(t) && Adds(flat, t, at, lost) && Level(flat, t, at, m, b)
    requires Steady(lost, at, to, m, b)
    ensures Settled(flat, stages, i, to, StagesFrom(stages, i, t, ends), ends, lost, m, b)
    decreases |stages| - i
  {
    if i < |stages| {
      AheadStep(flat, stages, i, at, to);
      var p := OneStage(t, flat[at], ends(at));
      StageAdds(flat, t, at, ends(at), lost, m, b);
      if p.more {
        StagesAdd(flat, stages, i + 1, at + 1, to, p.trace, ends, lost, m, b);
      } else {
        EndsHere(flat, stages, i, at, to, p.trace, ends, lost, m, b);
      }
    }
  }

  /** The account of one scenario run. */
  function LostIn(runs: seq<Run>, ends: nat -> End): Lost {
    (kind: Kind, p: nat) => LostBefore(kind, runs, ends, p)
  }

  lemma {:induction false} LostInRun(runs: seq<Run>, ends: nat -> End, k: nat, p: nat)
    requires k < |runs| && Start(runs, k) <= p < Start(runs, k + 1)
    ensures RunOf(runs, p) == k
    ensures forall kind :: LostIn(runs, ends)(kind, p) == Losses(kind, runs, ends, k)
  {
    RunOfIs(runs, p, 0, k);
  }

  /** The account when the k-th run is about to begin. */
  ghost predicate Opened(flat: seq<Resolved>, runs: seq<Run>, k: nat, t: Trace, ends: nat -> End)
    requires k <= |runs|
  {
    && Start(runs, k) <= |flat|
    && Adds(flat, t, Start(runs, k), LostIn(runs, ends))
    && (Live(t) ==> Level(flat, t, Start(runs, k), Losses(MeasuredStage, runs, ends, k), Losses(BarrierStage, runs, ends, k)))
  }

  lemma {:induction false} OneRunAdds(flat: seq<Resolved>, runs: seq<Run>, k: nat, t: Trace, ends: nat -> End)
    requires Numbered(flat) && Laid(flat, runs) && k < |runs| && Opened(flat, runs, k, t, ends) && Live(t)
    ensures Opened(flat, runs, k + 1, StagesFrom(runs[k].stages, 0, t, ends), ends)
  {
    var at, to, lost := Start(runs, k), Start(runs, k + 1), LostIn(runs, ends);
    var m, b := Losses(MeasuredStage, runs, ends, k), Losses(BarrierStage, runs, ends, k);
    forall p | at <= p < to ensures lost(MeasuredStage, p) == m && lost(BarrierStage, p) == b { LostInRun(runs, ends, k, p); }
    assert Ahead(flat, runs[k].stages, 0, at, to);
    StagesAdd(flat, runs[k].stages, 0, at, to, t, ends, lost, m, b);
  }

  lemma {:induction false} RunsAdd(flat: seq<Resolved>, runs: seq<Run>, k: nat, t: Trace, ends: nat -> End)
    requires Numbered(flat) && Laid(flat, runs) && k <= |runs| && Opened(flat, runs, k, t, ends)
    ensures Adds(flat, RunsFrom(runs, k, t, ends), |flat|, LostIn(runs, ends))
    decreases |runs| - k
  {
    if k == |runs| || !Live(t) {
      Later(flat, t, Start(runs, k), |flat|, LostIn(runs, ends));
    } else {
      OneRunAdds(flat, runs, k, t, ends);
      RunsAdd(flat, runs, k + 1, StagesFrom(runs[k].stages, 0, t, ends), ends);
    }
  }

  /** Holds of every scenario run, however its stages end. */
  lemma {:induction false} ScenarioAdds(runs: seq<Run>, ends: nat -> End)
    requires Numbered(Flatten(runs))
    ensures Adds(Flatten(runs), RunsFrom(runs, 0, EMPTY, ends), |Flatten(runs)|, LostIn(runs, ends))
  {
    FlattenIsLaid(runs);
    RunsAdd(Flatten(runs), runs, 0, EMPTY, ends);
  }

  // ---------------------------------------------------------------- runs in which no generator gives up

  /** The condition of the stage at `p` was looked up. */
  ghost predicate LookedUp(t: Trace, p: nat) { exists l | l in t.lookups :: l.position == p }

  /** No generator gives up at any stage. */
  ghost predicate Untroubled(flat: seq<Resolved>, ends: nat -> End) {
    forall p | 0 <= p < |flat| :: !GivesUp(flat[p], ends(p))
  }

  /** Every stage so far started, unless the scenario ended, and every measured one that was not cut off by
      cancellation looked its condition up. */
  ghost predicate Complete(flat: seq<Resolved>, t: Trace, at: nat)
    requires at <= |flat|
  {
    && (Live(t) ==> forall q | 0 <= q < at && !flat[q].barrier :: q in t.started)
    && (!t.cancelled ==> forall p | p in t.started && p < at && !flat[p].warmup :: LookedUp(t, p))
    && forall p | p in t.started :: p < at
  }

  lemma LookedUpStays(t: Trace, u: Trace, p: nat)
    requires LookedUp(t, p) && t.lookups <= u.lookups
    ensures LookedUp(u, p)
  {
    var l :| l in t.lookups && l.position == p;
    assert l in u.lookups;
  }

  lemma StageCompletes(flat: seq<Resolved>, t: Trace, at: nat, end: End)
    requires at < |flat| && Numbered(flat) && Live(t) && Complete(flat, t, at) && !GivesUp(flat[at], end)
    ensures var p := OneStage(t, flat[at], end); Complete(flat, p.trace, at + 1) && (p.more <==> Live(p.trace))
  {
    var r, u := flat[at], OneStage(t, flat[at], end).trace;
    assert t.lookups <= u.lookups;
    assert forall q | q in t.started :: q in u.started;
    assert !r.barrier ==> at in u.started;
    if !u.cancelled {
      forall p | p in u.started && p < at + 1 && !flat[p].warmup ensures LookedUp(u, p) {
        if p == at {
          assert u.lookups[|u.lookups| - 1].position == at;
        } else {
          LookedUpStays(t, u, p);
        }
      }
    }
  }

  lemma {:induction false} StagesComplete(flat: seq<Resolved>, stages: seq<Resolved>, i: nat, at: nat, to: nat, t: Trace, ends: nat -> End)
    requires Numbered(flat) && Ahead(flat, stages, i, at, to) && Live(t) && Complete(flat, t, at) && Untroubled(flat, ends)
    ensures Complete(flat, StagesFrom(stages, i, t, ends), to)
    decreases |stages| - i
  {
    if i < |stages| {
      AheadStep(flat, stages, i, at, to);
      var p := OneStage(t, flat[at], ends(at));
      assert StagesFrom(stages, i, t, ends) == if p.more then StagesFrom(stages, i + 1, p.trace, ends) else p.trace;
      StageCompletes(flat, t, at, ends(at));
      if p.more { StagesComplete(flat, stages, i + 1, at + 1, to, p.trace, ends); }
    }
  }

  lemma {:induction false} RunsComplete(flat: seq<Resolved>, runs: seq<Run>, k: nat, t: Trace, ends: nat -> End)
    requires Numbered(flat) && Laid(flat, runs) && k <= |runs| && Start(runs, k) <= |flat|
    requires Complete(flat, t, Start(runs, k)) && Untroubled(flat, ends)
    ensures Complete(flat, RunsFrom(runs, k, t, ends), |flat|)
    decreases |runs| - k
  {
    if k < |runs| && Live(t) {
      assert Ahead(flat, runs[k].stages, 0, Start(runs, k), Start(runs, k + 1));
      StagesComplete(flat, runs[k].stages, 0, Start(runs, k), Start(runs, k + 1), t, ends);
      RunsComplete(flat, runs, k + 1, StagesFrom(runs[k].stages, 0, t, ends), ends);
    }
  }

  lemma {:induction false} UntroubledSkipsNothing(kind: Kind, runs: seq<Run>, ends: nat -> End, k: nat)
    requires Numbered(Flatten(runs)) && Untroubled(Flatten(runs), ends)
    ensures NothingSkipped(kind, runs, ends, k)
  {
    FlattenIsLaid(runs);
    forall j | 0 <= j < k && j < |runs| ensures !Skips(kind, runs[j], ends) {
      forall a: nat, b: nat ensures !SkipsAt(kind, runs[j].stages, ends, a, b) {
        if a < |runs[j].stages| {
          assert Ahead(Flatten(runs), runs[j].stages, 0, Start(runs, j), Start(runs, j + 1));
          assert runs[j].stages[a] == Flatten(runs)[Start(runs, j) + (a - 0)];
        }
      }
    }
  }

  // ---------------------------------------------------------------- conditions

  /** Resolving keeps the number of stages and what kind each one is. */
  ghost predicate Mirrors(flat: seq<Resolved>, stages: seq<Stage>) {
    && |flat| == |stages|
    && forall i | 0 <= i < |stages| ::
      flat[i].barrier == stages[i].barrier && flat[i].warmup == (stages[i].warmup && !stages[i].barrier)
  }

  /** A stage's rank among the measured ones is its place in the list of conditions. */
  lemma RankIsConditionIndex(stages: seq<Stage>, flat: seq<Resolved>, p: nat)
    requires Mirrors(flat, stages)
    requires p < |stages| && Measured(stages[p])
    ensures Rank(MeasuredStage, flat, p) < |Conditions(stages)|
    ensures Conditions(stages)[Rank(MeasuredStage, flat, p)] == stages[p].stopWhen
  {
    ConditionsCount(stages, flat, p);
    ConditionsPrefix(stages, p);
  }

  lemma {:induction false} ConditionsCount(stages: seq<Stage>, flat: seq<Resolved>, n: nat)
    requires Mirrors(flat, stages) && n <= |stages|
    ensures |Conditions(stages[..n])| == Rank(MeasuredStage, flat, n)
  {
    if n > 0 {
      assert stages[..n][..n - 1] == stages[..n - 1];
      ConditionsCount(stages, flat, n - 1);
    }
  }

  lemma {:induction false} ConditionsPrefix(stages: seq<Stage>, p: nat)
    requires p < |stages| && Measured(stages[p])
    ensures Conditions(stages[..p]) + [stages[p].stopWhen] <= Conditions(stages)
  {
    if p == |stages| - 1 {
      assert stages[..|stages| - 1] == stages[..p];
    } else {
      var shorter := stages[..|stages| - 1];
      ConditionsPrefix(shorter, p);
      assert shorter[..p] == stages[..p];
    }
  }

  /** The implicit barrier does not shift the list of conditions. */
  lemma {:induction false} BarrierKeepsConditions(stages: seq<Stage>)
    ensures Conditions([IMPLICIT_BARRIER] + stages) == Conditions(stages)
  {
    var all := [IMPLICIT_BARRIER] + stages;
    if stages != [] {
      assert all[..|all| - 1] == [IMPLICIT_BARRIER] + stages[..|stages| - 1];
      BarrierKeepsConditions(stages[..|stages| - 1]);
    } else {
      assert all[..0] == [];
    }
  }

  /** The stages a scenario really runs, given whether it is synchronised with other workers. */
  ghost predicate Prepared(original: seq<Stage>, stages: seq<Stage>, runs: seq<Run>) {
    && (stages == original || stages == WithImplicitBarrier(original))
    && Numbered(Flatten(runs))
    && Mirrors(Flatten(runs), stages)
  }

  /** The number by which a completed stage looks its condition up falls short of the stage's own by exactly the
      measured stages that earlier runs lost by giving up. */
  lemma {:induction false} LookupFallsShortByLosses(runs: seq<Run>, ends: nat -> End, l: Lookup)
    requires Numbered(Flatten(runs)) && l in RunsFrom(runs, 0, EMPTY, ends).lookups
    ensures l.position < |Flatten(runs)| && Is(MeasuredStage, Flatten(runs)[l.position])
    ensures l.index + LostBefore(MeasuredStage, runs, ends, l.position) == Rank(MeasuredStage, Flatten(runs), l.position)
  {
    ScenarioAdds(runs, ends);
  }

  /** A completed stage looks up its own condition exactly when no earlier run gave up with a measured stage still
      ahead of it.  The list of conditions is the one drawn up before the implicit barrier was inserted. */
  lemma {:induction false} LookupIsOwnConditionIff(original: seq<Stage>, stages: seq<Stage>, runs: seq<Run>, ends: nat -> End, l: Lookup)
    requires Prepared(original, stages, runs) && l in RunsFrom(runs, 0, EMPTY, ends).lookups
    ensures l.position < |stages| && Measured(stages[l.position])
    ensures l.index == Rank(MeasuredStage, Flatten(runs), l.position)
            <==> NothingSkipped(MeasuredStage, runs, ends, RunOf(runs, l.position))
    ensures l.index == Rank(MeasuredStage, Flatten(runs), l.position) ==>
              l.index < |Conditions(original)| && Conditions(original)[l.index] == stages[l.position].stopWhen
  {
    LookupFallsShortByLosses(runs, ends, l);
    RunOfBounds(runs, l.position);
    LossesIff(MeasuredStage, runs, ends, RunOf(runs, l.position));
    BarrierKeepsConditions(original);
    RankIsConditionIndex(stages, Flatten(runs), l.position);
  }

  lemma RunOfBounds(runs: seq<Run>, p: nat)
    requires p < |Flatten(runs)|
    ensures RunOf(runs, p) < |runs|
  {
    RunOfBelow(runs, p, 0);
  }

  lemma {:induction false} RunOfBelow(runs: seq<Run>, p: nat, k: nat)
    requires k < |runs|
    ensures k <= RunOf(runs, p, k) < |runs|
    decreases |runs| - k
  {
    if k + 1 < |runs| { RunOfBelow(runs, p, k + 1); }
  }

  /** Unless a generator gave up after consecutive errors, every completed stage consults its own
      condition, despite barriers, warmups, the implicit barrier and the grouping into runs. */
  lemma {:induction false} ConditionConsultedIsOwn(original: seq<Stage>, stages: seq<Stage>, runs: seq<Run>, ends: nat -> End, l: Lookup)
    requires Prepared(original, stages, runs) && l in RunsFrom(runs, 0, EMPTY, ends).lookups
    requires Untroubled(Flatten(runs), ends)
    ensures l.position < |stages| && l.index < |Conditions(original)|
    ensures Conditions(original)[l.index] == stages[l.position].stopWhen
  {
    LookupIsOwnConditionIff(original, stages, runs, ends, l);
    UntroubledSkipsNothing(MeasuredStage, runs, ends, RunOf(runs, l.position));
  }

  /** In a run without giving up and without cancellation, every measured stage that started consulted a
      condition, and unless a callback said stop every stage started. */
  lemma {:induction false} EveryStageIsConsulted(original: seq<Stage>, stages: seq<Stage>, runs: seq<Run>, ends: nat -> End)
    requires Prepared(original, stages, runs) && Untroubled(Flatten(runs), ends) && !RunsFrom(runs, 0, EMPTY, ends).cancelled
    ensures var t := RunsFrom(runs, 0, EMPTY, ends);
            && (forall p | p in t.started && p < |stages| && Measured(stages[p]) :: LookedUp(t, p))
            && (!t.stopped ==> forall p | 0 <= p < |stages| && !stages[p].barrier :: p in t.started)
  {
    FlattenIsLaid(runs);
    RunsComplete(Flatten(runs), runs, 0, EMPTY, ends);
  }

  /** After a callback said stop, no later stage of this or any later run starts, and nothing is
      looked up any more. */
  lemma {:induction false} StopIsFinal(original: seq<Stage>, stages: seq<Stage>, runs: seq<Run>, ends: nat -> End, l: Lookup)
    requires Prepared(original, stages, runs) && l in RunsFrom(runs, 0, EMPTY, ends).lookups && !l.go
    ensures var t := RunsFrom(runs, 0, EMPTY, ends);
            && t.stopped
            && (forall p | p in t.started :: p <= l.position)
            && (forall m | m in t.lookups :: m.position <= l.position)
  {
    ScenarioAdds(runs, ends);
  }

  // ---------------------------------------------------------------- barriers

  /** The id under which a worker waits at a barrier is the barrier's own number exactly when no earlier run gave up
      with a barrier still ahead of it. */
  lemma {:induction false} BarrierIdIsOwnIff(runs: seq<Run>, ends: nat -> End, id: nat)
    requires Numbered(Flatten(runs)) && id < |RunsFrom(runs, 0, EMPTY, ends).waits|
    ensures var p := RunsFrom(runs, 0, EMPTY, ends).waits[id];
            && p < |Flatten(runs)| && Flatten(runs)[p].barrier
            && id + LostBefore(BarrierStage, runs, ends, p) == Rank(BarrierStage, Flatten(runs), p)
            && (id == Rank(BarrierStage, Flatten(runs), p) <==> NothingSkipped(BarrierStage, runs, ends, RunOf(runs, p)))
  {
    var p := RunsFrom(runs, 0, EMPTY, ends).waits[id];
    ScenarioAdds(runs, ends);
    RunOfBounds(runs, p);
    LossesIff(BarrierStage, runs, ends, RunOf(runs, p));
  }

  lemma {:induction false} RanksMirror(kind: Kind, a: seq<Resolved>, b: seq<Resolved>, stages: seq<Stage>, n: nat)
    requires Mirrors(a, stages) && Mirrors(b, stages) && n <= |stages|
    ensures Rank(kind, a, n) == Rank(kind, b, n)
  {
    if n > 0 { RanksMirror(kind, a, b, stages, n - 1); }
  }

  /** Two workers that run the same scenario, each in its own way, mean the same stage by the same barrier id when
      neither gave up in an earlier run with a barrier still ahead of it. */
  lemma {:induction false} SameBarrierForEveryone(stages: seq<Stage>, runs: seq<Run>, others: seq<Run>, ends: nat -> End, otherEnds: nat -> End, id: nat)
    requires Numbered(Flatten(runs)) && Mirrors(Flatten(runs), stages)
    requires Numbered(Flatten(others)) && Mirrors(Flatten(others), stages)
    requires id < |RunsFrom(runs, 0, EMPTY, ends).waits| && id < |RunsFrom(others, 0, EMPTY, otherEnds).waits|
    requires NothingSkipped(BarrierStage, runs, ends, RunOf(runs, RunsFrom(runs, 0, EMPTY, ends).waits[id]))
    requires NothingSkipped(BarrierStage, others, otherEnds, RunOf(others, RunsFrom(others, 0, EMPTY, otherEnds).waits[id]))
    ensures RunsFrom(runs, 0, EMPTY, ends).waits[id] == RunsFrom(others, 0, EMPTY, otherEnds).waits[id]
    ensures RunsFrom(runs, 0, EMPTY, ends).waits[id] < |stages| && stages[RunsFrom(runs, 0, EMPTY, ends).waits[id]].barrier
  {
    BarrierIdIsOwnIff(runs, ends, id);
    BarrierIdIsOwnIff(others, otherEnds, id);
    var p, q := RunsFrom(runs, 0, EMPTY, ends).waits[id], RunsFrom(others, 0, EMPTY, otherEnds).waits[id];
    RanksMirror(BarrierStage, Flatten(runs), Flatten(others), stages, q);
    if p < q { RankRises(BarrierStage, Flatten(runs), p, q); }
    if q < p { RankRises(BarrierStage, Flatten(runs), q, p); }
  }

  /** A worker that starts a stage has passed all barriers in front of it, but for those its earlier runs lost. */
  lemma {:induction false} StartedBehindItsBarriers(runs: seq<Run>, ends: nat -> End, p: nat)
    requires Numbered(Flatten(runs)) && p in RunsFrom(runs, 0, EMPTY, ends).started
    ensures p < |Flatten(runs)| && !Flatten(runs)[p].barrier
    ensures Rank(BarrierStage, Flatten(runs), p)
            <= |RunsFrom(runs, 0, EMPTY, ends).waits| + LostBefore(BarrierStage, runs, ends, p)
    ensures NothingSkipped(BarrierStage, runs, ends, RunOf(runs, p)) ==>
              Rank(BarrierStage, Flatten(runs), p) <= |RunsFrom(runs, 0, EMPTY, ends).waits|
  {
    ScenarioAdds(runs, ends);
    RunOfBounds(runs, p);
    LossesIff(BarrierStage, runs, ends, RunOf(runs, p));
  }

  // ---------------------------------------------------------------- instances

  function Plain(position: nat, target: string): Resolved { Resolved(position, false, false, target, "", None, NO_LOAD) }

  function Barrier(position: nat, target: string): Resolved { Resolved(position, true, false, target, "", None, NO_LOAD) }

  function AllComplete(p: nat): End { Completed(true, Nothing) }

  function FirstCutShort(p: nat): End { if p == 0 then CutShort(false) else Completed(true, Nothing) }

  /** When the first of two measured stages of a run is cut short by consecutive errors, the stage of the next run
      consults the condition of the stage that never ran. */
  lemma GivingUpShiftsConditions()
    ensures RunsFrom([Run([Plain(0, "x"), Plain(1, "x")], "x", "", None), Run([Plain(2, "y")], "y", "", None)],
                     0, EMPTY, FirstCutShort).lookups == [Lookup(2, 1, true)]
  {
    var runs := [Run([Plain(0, "x"), Plain(1, "x")], "x", "", None), Run([Plain(2, "y")], "y", "", None)];
    var t1 := StagesFrom(runs[0].stages, 0, EMPTY, FirstCutShort);
    assert t1 == Trace(1, false, false, [0], [], []);
    var f := Trace(2, false, false, [0, 2], [Lookup(2, 1, true)], []);
    assert StagesFrom(runs[1].stages, 1, f, FirstCutShort) == f;
    var t2 := StagesFrom(runs[1].stages, 0, t1, FirstCutShort);
    assert t2 == f;
    assert RunsFrom(runs, 2, t2, FirstCutShort) == t2;
    assert RunsFrom(runs, 1, t1, FirstCutShort) == t2;
  }

  function ErrorsAtTheBarrier(p: nat): End { Completed(true, if p == 1 then Errors else Nothing) }

  /** No stage need be cut short for that: errors of the streams that keep running during a barrier do the same. */
  lemma ErrorsAtABarrierShiftConditions()
    ensures RunsFrom([Run([Plain(0, "x"), Barrier(1, "x"), Plain(2, "x")], "x", "", None), Run([Plain(3, "y")], "y", "", None)],
                     0, EMPTY, ErrorsAtTheBarrier).lookups == [Lookup(0, 0, true), Lookup(3, 1, true)]
  {
    var runs := [Run([Plain(0, "x"), Barrier(1, "x"), Plain(2, "x")], "x", "", None), Run([Plain(3, "y")], "y", "", None)];
    var a := Trace(1, false, false, [0], [Lookup(0, 0, true)], []);
    var t1 := StagesFrom(runs[0].stages, 0, EMPTY, ErrorsAtTheBarrier);
    assert t1 == StagesFrom(runs[0].stages, 1, a, ErrorsAtTheBarrier);
    assert t1 == a.(waits := [1]);
    var f := Trace(2, false, false, [0, 3], [Lookup(0, 0, true), Lookup(3, 1, true)], [1]);
    assert StagesFrom(runs[1].stages, 1, f, ErrorsAtTheBarrier) == f;
    var t2 := StagesFrom(runs[1].stages, 0, t1, ErrorsAtTheBarrier);
    assert t2 == f;
    assert RunsFrom(runs, 2, t2, ErrorsAtTheBarrier) == t2;
    assert RunsFrom(runs, 1, t1, ErrorsAtTheBarrier) == t2;
  }

  /** Giving up shifts barriers too: a worker whose first stage is cut short skips the barrier behind it and means
      another stage by the same id. */
  lemma GivingUpShiftsBarriers()
    ensures var runs := [Run([Plain(0, "x"), Barrier(1, "x")], "x", "", None), Run([Plain(2, "y"), Barrier(3, "y")], "y", "", None)];
            RunsFrom(runs, 0, EMPTY, FirstCutShort).waits == [3] && RunsFrom(runs, 0, EMPTY, AllComplete).waits == [1, 3]
  {
    var runs := [Run([Plain(0, "x"), Barrier(1, "x")], "x", "", None), Run([Plain(2, "y"), Barrier(3, "y")], "y", "", None)];
    var t1 := StagesFrom(runs[0].stages, 0, EMPTY, FirstCutShort);
    assert t1 == Trace(1, false, false, [0], [], []);
    var t2 := StagesFrom(runs[1].stages, 0, t1, FirstCutShort);
    assert StagesFrom(runs[1].stages, 1, t2.(waits := []), FirstCutShort) == t2;
    assert t2.waits == [3] && Live(t2);
    assert RunsFrom(runs, 2, t2, FirstCutShort) == t2;
    assert RunsFrom(runs, 1, t1, FirstCutShort) == t2;
    var u1 := StagesFrom(runs[0].stages, 0, EMPTY, AllComplete);
    assert StagesFrom(runs[0].stages, 1, u1.(waits := []), AllComplete) == u1;
    assert u1 == Trace(1, false, false, [0], [Lookup(0, 0, true)], [1]);
    var u2 := StagesFrom(runs[1].stages, 0, u1, AllComplete);
    assert StagesFrom(runs[1].stages, 1, u2.(waits := [1]), AllComplete) == u2;
    assert u2.waits == [1, 3];
    assert RunsFrom(runs, 2, u2, AllComplete) == u2;
    assert RunsFrom(runs, 1, u1, AllComplete) == u2;
  }

  // ---------------------------------------------------------------- from the scenario as written

  // ---------------------------------------------------------------- the barrier in front

  /** With several workers a scenario that has stages begins with a barrier: its own, or one put in front of all of its
      stages.  So every other place has a barrier before it. */
  lemma BarrierInFront(original: seq<Stage>)
    ensures var stages := WithImplicitBarrier(original);
            && (stages == [] <==> original == [])
            && (stages != [] ==> stages[0].barrier)
            && (original != [] && original[0].barrier ==> stages == original)
            && (original != [] && !original[0].barrier ==> |stages| == |original| + 1 && stages[1..] == original)
  {
  }

  lemma {:induction false} WaitsGrow(stages: seq<Resolved>, k: nat, t: Trace, ends: nat -> End)
    requires k <= |stages|
    ensures t.waits <= StagesFrom(stages, k, t, ends).waits
    decreases |stages| - k
  {
    if k < |stages| {
      var p := OneStage(t, stages[k], ends(stages[k].position));
      if p.more { WaitsGrow(stages, k + 1, p.trace, ends); }
    }
  }

  lemma {:induction false} AllWaitsGrow(runs: seq<Run>, k: nat, t: Trace, ends: nat -> End)
    requires k <= |runs|
    ensures t.waits <= RunsFrom(runs, k, t, ends).waits
    decreases |runs| - k
  {
    if k < |runs| && Live(t) {
      WaitsGrow(runs[k].stages, 0, t, ends);
      AllWaitsGrow(runs, k + 1, StagesFrom(runs[k].stages, 0, t, ends), ends);
    }
  }

  /** A worker whose scenario begins with a barrier starts no stage before it passed that one, however its stages end. */
  lemma {:induction false} FirstBarrierFirst(runs: seq<Run>, ends: nat -> End)
    requires runs != [] && runs[0].stages != [] && runs[0].stages[0].barrier
    ensures var t := RunsFrom(runs, 0, EMPTY, ends);
            t.started != [] || t.lookups != [] ==> t.waits != [] && t.waits[0] == runs[0].stages[0].position
  {
    var stages := runs[0].stages;
    var p := OneStage(EMPTY, stages[0], ends(stages[0].position));
    var t := StagesFrom(stages, 0, EMPTY, ends);
    assert RunsFrom(runs, 0, EMPTY, ends) == RunsFrom(runs, 1, t, ends);
    if ends(stages[0].position).Completed? {
      assert p.trace.waits == [stages[0].position];
      if p.more { WaitsGrow(stages, 1, p.trace, ends); }
      AllWaitsGrow(runs, 1, t, ends);
    } else {
      assert t == p.trace;
    }
  }

  lemma FirstOfAll(runs: seq<Run>)
    requires runs != [] && runs[0].stages != []
    ensures Flatten(runs) != [] && Flatten(runs)[0] == runs[0].stages[0]
  {
    RunSlice(runs, 0);
    assert runs[..0] == [];
  }


  lemma {:induction false} LookupsOf(original: seq<Stage>, stages: seq<Stage>, runs: seq<Run>, ends: nat -> End)
    requires Prepared(original, stages, runs)
    ensures var t, conditions := RunsFrom(runs, 0, EMPTY, ends), Conditions(original);
            forall l | l in t.lookups ::
              && (!l.go ==> forall p | p in t.started :: p <= l.position)
              && (NothingSkipped(MeasuredStage, runs, ends, RunOf(runs, l.position)) ==>
                l.position < |stages| && l.index < |conditions| && conditions[l.index] == stages[l.position].stopWhen)
  {
    var t, conditions := RunsFrom(runs, 0, EMPTY, ends), Conditions(original);
    forall l | l in t.lookups
      ensures !l.go ==> forall p | p in t.started :: p <= l.position
      ensures NothingSkipped(MeasuredStage, runs, ends, RunOf(runs, l.position)) ==>
                l.position < |stages| && l.index < |conditions| && conditions[l.index] == stages[l.position].stopWhen
    {
      LookupIsOwnConditionIff(original, stages, runs, ends, l);
      if !l.go { StopIsFinal(original, stages, runs, ends, l); }
    }
  }

  lemma {:induction false} InFrontOfRuns(original: seq<Stage>, runs: seq<Run>, ends: nat -> End)
    requires var stages := WithImplicitBarrier(original); |Flatten(runs)| == |stages| && Numbered(Flatten(runs))
    requires original != [] ==> Flatten(runs)[0].barrier == WithImplicitBarrier(original)[0].barrier
    requires WellGrouped(runs)
    ensures var t := RunsFrom(runs, 0, EMPTY, ends);
            original != [] && (t.started != [] || t.lookups != []) ==> t.waits != [] && t.waits[0] == 0
  {
    BarrierInFront(original);
    if original != [] {
      assert runs != [] && Uniform(runs[0]);
      FirstOfAll(runs);
      FirstBarrierFirst(runs, ends);
    }
  }


  /** Every measured stage that completes consults its own condition unless a generator gave up, no such stage is
      left out, and after a stop nothing further starts. */
  method Generate(original: seq<Stage>, synchronised: bool, target: string, model: string, place: Place, ends: nat -> End)
    returns (conditions: seq<Option<Condition>>, stages: seq<Stage>, runs: seq<Run>, t: Trace)
    ensures stages == if synchronised then WithImplicitBarrier(original) else original
    ensures synchronised && original != [] ==>
              && stages[0].barrier
              && (stages == original || (|stages| == |original| + 1 && stages[1..] == original && !original[0].barrier))
              && (t.started != [] || t.lookups != [] ==> t.waits != [] && t.waits[0] == 0)
    ensures WellGrouped(runs) && |Flatten(runs)| == |stages|
    ensures forall i | 0 <= i < |stages| :: Flatten(runs)[i] == ResolvedStage(stages, i, target, model, place)
    ensures Prepared(original, stages, runs) && conditions == Conditions(original) && t == RunsFrom(runs, 0, EMPTY, ends)
    ensures forall l | l in t.lookups ::
      NothingSkipped(MeasuredStage, runs, ends, RunOf(runs, l.position)) ==>
        l.position < |stages| && l.index < |conditions| && conditions[l.index] == stages[l.position].stopWhen
    ensures forall l | l in t.lookups && !l.go :: forall p | p in t.started :: p <= l.position
    ensures Untroubled(Flatten(runs), ends) && !t.cancelled ==>
              forall p | p in t.started && p < |stages| && Measured(stages[p]) :: LookedUp(t, p)
    ensures Untroubled(Flatten(runs), ends) && Live(t) ==> forall p | 0 <= p < |stages| && !stages[p].barrier :: p in t.started
  {
    conditions := MeasuredConditions(original);
    stages := if synchronised then WithImplicitBarrier(original) else original;
    var resolved := Resolve(stages, target, model, place);
    runs := Group(resolved);
    t := RunScenario(runs, ends);
    if synchronised { InFrontOfRuns(original, runs, ends); }
    LookupsOf(original, stages, runs, ends);
    if Untroubled(Flatten(runs), ends) && !t.cancelled { EveryStageIsConsulted(original, stages, runs, ends); }
  }
}
