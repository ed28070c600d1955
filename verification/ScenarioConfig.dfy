/**
 Scenarios: the stages of a benchmark, their validation, and the share of a stage that falls to one
 worker.
 */
module ScenarioConfig {
  import opened Shared
  import opened LoadDivision

  /** A floating-point setting; `NotFinite` stands for NaN and the infinities. */
  datatype Float = Finite(value: real) | NotFinite

  /** When a sweep is to be stopped: either pair of thresholds is reached. */
  datatype Condition = Condition(waitingP50: real, ttftP99: int, kvUsage: real, preemptions: real)

  datatype CacheSalt = CacheSalt(mode: string, value: string)

  datatype Workload = Workload(
    kind: string, name: string, isl: int, osl: int, turns: int, subsequentIsl: Option<int>, numFewShot: Option<int>,
    charsPerToken: Float, corpusPath: string, gsm8kPath: string, gsm8kTrainPath: string, gpqaPath: string,
    cacheSalt: Option<CacheSalt>)

  datatype Stage = Stage(
    name: string, duration: int, mode: string, concurrency: int, poolSize: int, rate: Float, maxInFlight: int, rampup: int,
    workload: Option<Workload>, target: string, model: string, maxRequests: int,
    warmup: bool, barrier: bool, barrierDrain: bool, stopWhen: Option<Condition>)

  datatype Scenario = Scenario(target: string, model: string, workload: Workload, stages: seq<Stage>)

  const POOL := "conversation_pool"

  // ---------------------------------------------------------------- validation

  predicate KnownMode(mode: string) {
    mode in ["", "concurrent", POOL, "constant", "poisson"]
  }

  predicate Acceptable(s: Stage) {
    s.barrier || (KnownMode(s.mode) && s.rate.Finite? && (s.mode == POOL ==> s.poolSize == 0 || s.poolSize >= s.concurrency))
  }

  function Defaulted(s: Stage): Stage {
    if !s.barrier && s.mode == POOL && s.poolSize == 0 then s.(poolSize := s.concurrency) else s
  }

  /** Accepts a scenario exactly when every stage is acceptable, and fills in missing pool sizes; on a
      refusal the stages before the first bad one have been filled in already. */
  method Validate(stages: array<Stage>) returns (ok: bool)
    modifies stages
    ensures ok <==> forall i | 0 <= i < stages.Length :: Acceptable(old(stages[i]))
    ensures ok ==> forall i | 0 <= i < stages.Length :: stages[i] == Defaulted(old(stages[i]))
    ensures forall i | 0 <= i < stages.Length :: stages[i] == old(stages[i]) || stages[i] == Defaulted(old(stages[i]))
  {
    var i := 0;
    while i < stages.Length
      invariant 0 <= i <= stages.Length
      invariant forall j | 0 <= j < i :: Acceptable(old(stages[j])) && stages[j] == Defaulted(old(stages[j]))
      invariant forall j | i <= j < stages.Length :: stages[j] == old(stages[j])
    {
      var s := stages[i];
      if !s.barrier {
        if !KnownMode(s.mode) { return false; }
        if !s.rate.Finite? { return false; }
        if s.mode == POOL {
          if s.poolSize == 0 {
            stages[i] := s.(poolSize := s.concurrency);
          } else if s.poolSize < s.concurrency {
            return false;
          }
        }
      }
      i := i + 1;
    }
    return true;
  }

  method MaxConcurrency(stages: seq<Stage>) returns (highest: int)
    ensures highest >= 0 && forall i | 0 <= i < |stages| :: stages[i].concurrency <= highest
    ensures highest == 0 || exists i | 0 <= i < |stages| :: stages[i].concurrency == highest
  {
    highest := 0;
    for i := 0 to |stages|
      invariant highest >= 0 && forall j | 0 <= j < i :: stages[j].concurrency <= highest
      invariant highest == 0 || exists j | 0 <= j < i :: stages[j].concurrency == highest
    {
      if stages[i].concurrency > highest {
        highest := stages[i].concurrency;
      }
    }
  }

  // ---------------------------------------------------------------- one worker's part of a stage

  datatype Share = Share(concurrency: int, poolSize: int)

  function WorkerShare(s: Stage, workers: int, id: int): Share {
    var concurrency := if workers > 1 then DivideConcurrency(s.concurrency, workers, id) else s.concurrency;
    var pool := if workers > 1 then DivideConcurrency(s.poolSize, workers, id) else s.poolSize;
    Share(concurrency, if s.mode == POOL && pool == 0 then concurrency else pool)
  }

  /** Every pool stage that validation accepts gives each worker at least as many conversations as
      streams, which is what a pool needs so that no stream is turned away for want of one. */
  lemma PoolShareCoversConcurrency(s: Stage, workers: int, id: int)
    requires Acceptable(s) && !s.barrier && s.mode == POOL
    ensures WorkerShare(Defaulted(s), workers, id).poolSize >= WorkerShare(Defaulted(s), workers, id).concurrency
  {
    if workers > 1 {
      SharesAreMonotone(Defaulted(s).concurrency, Defaulted(s).poolSize, workers, id);
    }
  }

  // ---------------------------------------------------------------- service bounds

  const MAX_SCENARIO_STAGES: nat := 128
  const WEEK_NANOS: int := 7 * DAY_NANOS

  const MAX_TOKENS: int := 1048576

  predicate ShortText(s: string, limit: nat) { |s| <= limit && '\0' !in s }

  /** The paths a kind of workload needs are given. */
  predicate HasItsData(w: Workload) {
    || w.kind in ["synthetic", "faker"]
    || (w.kind == "corpus" && w.corpusPath != "")
    || (w.kind == "gsm8k" && w.gsm8kPath != "")
    || (w.kind == "gpqa" && w.gpqaPath != "")
  }

  predicate SaltInBounds(salt: CacheSalt) {
    && (salt.mode == "random" || (salt.mode == "fixed" && salt.value != ""))
    && ShortText(salt.value, 4096)
  }

  predicate WorkloadInBounds(w: Workload) {
    && HasItsData(w)
    && 0 <= w.isl <= MAX_TOKENS && 0 <= w.osl <= MAX_TOKENS && 1 <= w.turns <= 1024
    && (w.subsequentIsl.Some? ==> 0 <= w.subsequentIsl.value <= MAX_TOKENS)
    && (w.numFewShot.Some? ==> 0 <= w.numFewShot.value <= 128)
    && w.charsPerToken.Finite? && 0.0 <= w.charsPerToken.value <= 100.0
    && ShortText(w.name, 128) && |w.corpusPath| <= 4096 && |w.gsm8kPath| <= 4096 && |w.gsm8kTrainPath| <= 4096
    && |w.gpqaPath| <= 4096
    && (w.cacheSalt.Some? ==> SaltInBounds(w.cacheSalt.value))
  }

  /** What is asked of every stage, barriers included. */
  predicate Permitted(s: Stage) {
    ShortText(s.name, 128) && s.target == "" && s.model == "" && (s.workload.Some? ==> WorkloadInBounds(s.workload.value))
  }

  predicate InBounds(s: Stage) {
    && 0 < s.duration <= DAY_NANOS
    && 0 <= s.rampup <= DAY_NANOS
    && 0 <= s.concurrency <= MAX_STREAMS
    && 0 <= s.poolSize <= 1_000_000
    && s.rate.Finite? && 0.0 <= s.rate.value <= 1_000_000.0
    && 0 <= s.maxInFlight <= MAX_STREAMS
    && 0 <= s.maxRequests <= 1_000_000_000
    && (if s.mode == "constant" || s.mode == "poisson" then s.rate.value > 0.0 else s.concurrency > 0)
  }

  function TotalDuration(stages: seq<Stage>): int {
    if stages == [] then 0
    else TotalDuration(stages[..|stages| - 1]) + (if stages[|stages| - 1].barrier then 0 else stages[|stages| - 1].duration)
  }

  /** The checks on one workload, one after the other. */
  method ValidateWorkloadBounds(w: Workload) returns (ok: bool)
    ensures ok <==> WorkloadInBounds(w)
  {
    if w.kind == "corpus" {
      if w.corpusPath == "" { return false; }
    } else if w.kind == "gsm8k" {
      if w.gsm8kPath == "" { return false; }
    } else if w.kind == "gpqa" {
      if w.gpqaPath == "" { return false; }
    } else if w.kind != "synthetic" && w.kind != "faker" {
      return false;
    }
    if w.isl < 0 || w.isl > MAX_TOKENS || w.osl < 0 || w.osl > MAX_TOKENS || w.turns < 1 || w.turns > 1024 { return false; }
    if w.subsequentIsl.Some? && (w.subsequentIsl.value < 0 || w.subsequentIsl.value > MAX_TOKENS) { return false; }
    if w.numFewShot.Some? && (w.numFewShot.value < 0 || w.numFewShot.value > 128) { return false; }
    if !w.charsPerToken.Finite? || w.charsPerToken.value < 0.0 || w.charsPerToken.value > 100.0 { return false; }
    if |w.name| > 128 || |w.corpusPath| > 4096 || |w.gsm8kPath| > 4096 || |w.gsm8kTrainPath| > 4096 || |w.gpqaPath| > 4096
       || '\0' in w.name {
      return false;
    }
    if w.cacheSalt.Some? {
      var salt := w.cacheSalt.value;
      if salt.mode != "random" && salt.mode != "fixed" { return false; }
      if salt.mode == "fixed" && salt.value == "" { return false; }
      if |salt.value| > 4096 || '\0' in salt.value { return false; }
    }
    return true;
  }

  /** The checks on the load of one stage that is no barrier. */
  method ValidateStageBounds(s: Stage) returns (ok: bool)
    ensures ok <==> InBounds(s)
  {
    if s.duration <= 0 || s.duration > DAY_NANOS { return false; }
    if s.rampup < 0 || s.rampup > DAY_NANOS { return false; }
    if s.concurrency < 0 || s.concurrency > MAX_STREAMS || s.poolSize < 0 || s.poolSize > 1_000_000
       || !s.rate.Finite? || s.rate.value < 0.0 || s.rate.value > 1_000_000.0
       || s.maxInFlight < 0 || s.maxInFlight > MAX_STREAMS || s.maxRequests < 0 || s.maxRequests > 1_000_000_000 {
      return false;
    }
    var rated := s.mode == "constant" || s.mode == "poisson";
    if rated && s.rate.value <= 0.0 { return false; }
    if !rated && s.concurrency <= 0 { return false; }
    return true;
  }

  predicate StageFits(s: Stage) { Permitted(s) && (!s.barrier ==> InBounds(s)) }

  method ValidateStage(s: Stage) returns (ok: bool)
    ensures ok <==> StageFits(s)
  {
    if |s.name| > 128 || '\0' in s.name { return false; }
    if s.target != "" || s.model != "" { return false; }
    if s.workload.Some? {
      var own := ValidateWorkloadBounds(s.workload.value);
      if !own { return false; }
    }
    if s.barrier { return true; }
    ok := ValidateStageBounds(s);
  }

  /** The running total of stages that fit never leaves 64 bits. */
  lemma {:induction false} RunningTotalFits(stages: seq<Stage>, n: nat)
    requires n <= |stages| <= MAX_SCENARIO_STAGES && forall i | 0 <= i < n :: StageFits(stages[i])
    ensures 0 <= TotalDuration(stages[..n]) <= n * DAY_NANOS <= MAX_INT64
  {
    if n > 0 {
      RunningTotalFits(stages, n - 1);
      assert stages[..n][..n - 1] == stages[..n - 1];
      assert StageFits(stages[n - 1]);
    }
  }

  /** All stages fit, and at least one of them is no barrier. */
  method ValidateStages(stages: seq<Stage>) returns (ok: bool, total: int)
    requires |stages| <= MAX_SCENARIO_STAGES
    ensures ok <==> (forall i | 0 <= i < |stages| :: StageFits(stages[i])) && exists i | 0 <= i < |stages| :: !stages[i].barrier
    ensures ok ==> total == TotalDuration(stages)
  {
    var workStages := 0;
    total := 0;
    for i := 0 to |stages|
      invariant forall j | 0 <= j < i :: StageFits(stages[j])
      invariant total == TotalDuration(stages[..i])
      invariant workStages >= 0 && (workStages > 0 <==> exists j | 0 <= j < i :: !stages[j].barrier)
    {
      assert stages[..i + 1][..i] == stages[..i];
      var fits := ValidateStage(stages[i]);
      if !fits { return false, total; }
      if !stages[i].barrier {
        workStages := workStages + 1;
        total := total + stages[i].duration;
      }
    }
    assert stages[..|stages|] == stages;
    ok := workStages > 0;
  }

  /** The control service's check. */
  method ValidateScenarioBounds(sc: Scenario) returns (ok: bool)
    ensures ok <==>
      && 1 <= |sc.stages| <= MAX_SCENARIO_STAGES
      && sc.target == "" && sc.model == "" && WorkloadInBounds(sc.workload)
      && (forall i | 0 <= i < |sc.stages| :: StageFits(sc.stages[i]))
      && (exists i | 0 <= i < |sc.stages| :: !sc.stages[i].barrier)
      && TotalDuration(sc.stages) <= WEEK_NANOS
  {
    if |sc.stages| == 0 || |sc.stages| > MAX_SCENARIO_STAGES { return false; }
    if sc.target != "" || sc.model != "" { return false; }
    var shared := ValidateWorkloadBounds(sc.workload);
    if !shared { return false; }
    var fits, total := ValidateStages(sc.stages);
    return fits && total <= WEEK_NANOS;
  }

  /** A stage within the service bounds staggers its streams without overflow, from 0 to the ramp. */
  lemma BoundedStageStaggersCorrectly(s: Stage, i: nat, j: nat)
    requires InBounds(s) && s.rampup > 0 && s.concurrency > 1 && i <= j < s.concurrency
    ensures Wrap64(s.rampup * j) == s.rampup * j
    ensures 0 == StaggerDelay(s.rampup, 0, s.concurrency) <= StaggerDelay(s.rampup, i, s.concurrency)
              <= StaggerDelay(s.rampup, j, s.concurrency) <= StaggerDelay(s.rampup, s.concurrency - 1, s.concurrency) == s.rampup
  {
    ServiceBoundsPreventOverflow(s.rampup, s.concurrency, j);
    DelaysRiseToRampup(s.rampup, s.concurrency, i, j);
  }
}
