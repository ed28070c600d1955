/**
 The barrier protocol and the scenario loop together: lockstep of barrier ids is lockstep of stages, as long as no
 worker gives up with a barrier still ahead of it.
 */
module StageLockstep {
  import opened ScenarioConfig
  import opened ScenarioRun
  import opened ScenarioTrace
  import Protocol = BarrierLockstep

  /** What one worker runs, and how that goes. */
  datatype Course = Course(runs: seq<Run>, ends: nat -> End)

  function TraceOf(c: Course): Trace { RunsFrom(c.runs, 0, EMPTY, c.ends) }

  ghost predicate RunsTheScenario(c: Course, stages: seq<Stage>) {
    Numbered(Flatten(c.runs)) && Mirrors(Flatten(c.runs), stages)
  }

  /** At this moment of the protocol the worker has passed the barriers its course has passed. */
  ghost predicate SoFar(s: Protocol.System, w: nat, c: Course) {
    w < |s.workers| && |TraceOf(c).waits| == Protocol.Index(s.workers[w])
  }

  /** The number of barriers in front of position p. */
  function BarriersBefore(stages: seq<Stage>, p: nat): nat
    requires p <= |stages|
  {
    if p == 0 then 0 else BarriersBefore(stages, p - 1) + (if stages[p - 1].barrier then 1 else 0)
  }

  lemma {:induction false} RankIsBarriersBefore(flat: seq<Resolved>, stages: seq<Stage>, p: nat)
    requires Mirrors(flat, stages) && p <= |stages|
    ensures Rank(BarrierStage, flat, p) == BarriersBefore(stages, p)
  {
    if p > 0 { RankIsBarriersBefore(flat, stages, p - 1); }
  }

  /** A worker that never skipped a barrier has passed exactly the first ones. */
  lemma {:induction false} FirstBarriersPassed(c: Course, stages: seq<Stage>, q: nat)
    requires RunsTheScenario(c, stages) && NothingSkipped(BarrierStage, c.runs, c.ends, |c.runs|)
    requires q < |stages| && stages[q].barrier && BarriersBefore(stages, q) < |TraceOf(c).waits|
    ensures q in TraceOf(c).waits
  {
    var flat, id := Flatten(c.runs), BarriersBefore(stages, q);
    BarrierIdIsOwnIff(c.runs, c.ends, id);
    var p := TraceOf(c).waits[id];
    RunOfBounds(c.runs, p);
    RankIsBarriersBefore(flat, stages, q);
    if p < q { RankRises(BarrierStage, flat, p, q); }
    if q < p { RankRises(BarrierStage, flat, q, p); }
  }

  /** Whenever one worker starts a stage, every other worker has passed all barriers in front of that stage but the
      last, and has registered for the last. */
  lemma {:induction false} NoStageStartsTooEarly(run: seq<Protocol.System>, steps: seq<Protocol.Step>, i: nat, v: nat, w: nat,
                              stages: seq<Stage>, mine: Course, other: Course, p: nat)
    requires Protocol.IsSystemRun(run, steps) && i < |run| && SoFar(run[i], v, mine) && SoFar(run[i], w, other)
    requires RunsTheScenario(mine, stages) && RunsTheScenario(other, stages)
    requires p in TraceOf(mine).started && NothingSkipped(BarrierStage, mine.runs, mine.ends, RunOf(mine.runs, p))
    requires NothingSkipped(BarrierStage, other.runs, other.ends, |other.runs|)
    ensures p < |stages|
    ensures forall q | 0 <= q < |stages| && stages[q].barrier && BarriersBefore(stages, q) + 1 < BarriersBefore(stages, p) ::
              q in TraceOf(other).waits
    ensures BarriersBefore(stages, p) > 0 ==>
              exists g | 0 <= g < |run[i].server.gens| ::
                run[i].server.gens[g].id == BarriersBefore(stages, p) - 1 && w in run[i].server.gens[g].ready
  {
    StartedBehindItsBarriers(mine.runs, mine.ends, p);
    RankIsBarriersBefore(Flatten(mine.runs), stages, p);
    Protocol.IndicesStayWithinOne(run, steps, i, w, v);
    forall q | 0 <= q < |stages| && stages[q].barrier && BarriersBefore(stages, q) + 1 < BarriersBefore(stages, p)
      ensures q in TraceOf(other).waits
    {
      FirstBarriersPassed(other, stages, q);
    }
    if BarriersBefore(stages, p) > 0 {
      Protocol.NobodyPassesEarly(run, steps, i, v, BarriersBefore(stages, p) - 1);
    }
  }

  /** When the scenario begins with a barrier, no worker has started or finished any stage before all workers registered
      for that barrier, however the stages of anybody end. */
  lemma {:induction false} NobodyStartsBeforeAllRegistered(run: seq<Protocol.System>, steps: seq<Protocol.Step>, i: nat, v: nat,
                                                           mine: Course)
    requires Protocol.IsSystemRun(run, steps) && i < |run| && SoFar(run[i], v, mine)
    requires mine.runs != [] && mine.runs[0].stages != [] && mine.runs[0].stages[0].barrier
    requires TraceOf(mine).started != [] || TraceOf(mine).lookups != []
    ensures exists g | 0 <= g < |run[i].server.gens| ::
              run[i].server.gens[g].id == 0 && forall w | 0 <= w < |run[i].workers| :: w in run[i].server.gens[g].ready
  {
    FirstBarrierFirst(mine.runs, mine.ends);
    Protocol.NobodyPassesEarly(run, steps, i, v, 0);
  }
}
