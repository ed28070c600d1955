/**
 What a rate-driven generator achieves: it stops admitting only when the time or the limit says so, every stage it
 finishes is reported, in order, and it is never stuck.
 */
module RateProgress {
  import opened Shared
  import opened RateStages

  /** Positions of the stages among the first n that are no barriers. */
  function WorkStages(stages: seq<Stage>, n: nat): seq<nat>
    requires n <= |stages|
  {
    if n == 0 then [] else WorkStages(stages, n - 1) + (if stages[n - 1].barrier then [] else [n - 1])
  }

  predicate Open(p: Phase) { p.Choosing? || p.Sleeping? || p.Acquiring? || p.Admitting? }

  predicate Winding(p: Phase) { p.AwaitConversations? || p.AwaitRecords? || p.Calling? }

  /** While the stage admits, every token is held by a conversation or about to be. */
  ghost predicate TokensInUse(s: State) {
    s.maxInFlight > 0 && Open(s.phase) ==> s.tokens == Holding(s.convs) + (if s.phase == Admitting then 1 else 0)
  }

  /** Admission ends with the time or at the limit, stages are reported in order, and only of cancelled ones not. */
  ghost predicate ReasonInv(s: State) {
    && s.at <= |s.stages| && (InStage(s.phase) ==> s.at < |s.stages| && !s.stages[s.at].barrier)
    && (Winding(s.phase) ==> s.timeUp || AtLimit(s))
    && (!s.cancelled ==> s.completed == WorkStages(s.stages, s.at))
    && Ascending(s)
  }

  predicate Ascending(s: State)
    requires s.at <= |s.stages|
  {
    && (forall j | 0 <= j < |s.completed| :: s.completed[j] < s.at && !s.stages[s.completed[j]].barrier)
    && (forall j, k | 0 <= j < k < |s.completed| :: s.completed[j] < s.completed[k])
  }

  lemma DispatchTokens(s: State, choice: bool)
    requires Inv(s) && TokensInUse(s) && Enabled(s, Dispatch(choice))
    ensures TokensInUse(DispatchStep(s, choice))
  {
    if s.phase == Admitting { CountsAppend(s.convs, Conv(s.nextSid, s.at, Running, 0, 0)); }
    if s.phase == Between { TotalOfNothing(TokenWeight, s.convs); }
  }

  lemma ConverseTokens(s: State, i: nat, choice: bool)
    requires Inv(s) && TokensInUse(s) && Enabled(s, Converse(i, choice))
    ensures TokensInUse(ConverseStep(s, i, choice))
  {
    CountsUpdate(s.convs, i, ConverseStep(s, i, choice).convs[i]);
  }

  lemma DispatchAscends(s: State, choice: bool)
    requires s.at <= |s.stages| && Ascending(s) && Enabled(s, Dispatch(choice)) && (InStage(s.phase) ==> !s.stages[s.at].barrier)
    ensures var t := DispatchStep(s, choice); t.at <= |t.stages| && Ascending(t)
  {
    var t := DispatchStep(s, choice);
    assert t.completed == s.completed || t.completed == s.completed + [s.at];
  }

  lemma DispatchReason(s: State, choice: bool)
    requires ReasonInv(s) && Enabled(s, Dispatch(choice))
    ensures ReasonInv(DispatchStep(s, choice))
  {
    DispatchAscends(s, choice);
    var t := DispatchStep(s, choice);
    if s.phase == Calling {
      assert WorkStages(s.stages, t.at) == WorkStages(s.stages, s.at) + [s.at];
    }
  }

  /** Steps that are not the dispatcher's leave its reasons alone. */
  lemma OthersKeepReasons(s: State, a: Action)
    requires ReasonInv(s) && Enabled(s, a) && !a.Dispatch?
    ensures ReasonInv(Apply(s, a))
  {
    var t := Apply(s, a);
    assert t.stages == s.stages && t.at == s.at && t.completed == s.completed && t.phase == s.phase;
    assert t.dispatched == s.dispatched && (s.timeUp ==> t.timeUp) && (s.cancelled ==> t.cancelled);
  }

  lemma TimeKeepsTokens(s: State, a: Action)
    requires TokensInUse(s) && Enabled(s, a) && !a.Dispatch? && !a.Converse?
    ensures TokensInUse(Apply(s, a))
  {
  }

  lemma StepKeepsReasons(s: State, a: Action)
    requires Inv(s) && TokensInUse(s) && ReasonInv(s) && Enabled(s, a)
    ensures TokensInUse(Apply(s, a)) && ReasonInv(Apply(s, a))
  {
    match a
    case Dispatch(choice) =>
      DispatchTokens(s, choice);
      DispatchReason(s, choice);
    case Converse(i, choice) =>
      ConverseTokens(s, i, choice);
      OthersKeepReasons(s, a);
    case _ =>
      TimeKeepsTokens(s, a);
      OthersKeepReasons(s, a);
  }

  lemma {:induction false} RunReasons(run: seq<State>, acts: seq<Action>, i: nat)
    requires IsRun(run, acts) && i < |run|
    ensures TokensInUse(run[i]) && ReasonInv(run[i])
  {
    if i > 0 {
      RunReasons(run, acts, i - 1);
      RunInv(run, acts, i - 1);
      assert StepAt(run, acts, i - 1);
      StepKeepsReasons(run[i - 1], acts[i - 1]);
    }
  }

  // ---------------------------------------------------------------- results

  /** A stage stops admitting only because its time is up or its limit is reached. */
  lemma AdmissionEndsForAReason(run: seq<State>, acts: seq<Action>, i: nat)
    requires IsRun(run, acts) && i < |run| && Winding(run[i].phase) && !run[i].timeUp
    ensures var s := run[i]; s.at < |s.stages| && 0 < s.stages[s.at].limit == Admitted(s.convs, s.at)
  {
    RunReasons(run, acts, i);
    RunInv(run, acts, i);
  }

  /** The callback saw the stages in order, each once and no barrier, and unless the generator was cancelled all that lie
      behind the dispatcher. */
  lemma StagesAreReportedInOrder(run: seq<State>, acts: seq<Action>, i: nat)
    requires IsRun(run, acts) && i < |run|
    ensures var s := run[i];
            && s.at <= |s.stages| && (!s.cancelled ==> s.completed == WorkStages(s.stages, s.at))
            && (forall j | 0 <= j < |s.completed| :: s.completed[j] < s.at && !s.stages[s.completed[j]].barrier)
            && (forall j, k | 0 <= j < k < |s.completed| :: s.completed[j] < s.completed[k])
  {
    RunReasons(run, acts, i);
  }

  /** The generator finishes only behind the last stage, because it was cancelled, or because the callback said so. */
  lemma {:induction false} FinishedForAReason(run: seq<State>, acts: seq<Action>, i: nat)
    requires IsRun(run, acts) && i < |run| && run[i].phase == Finished
    ensures run[i].at == |run[i].stages| || run[i].cancelled
            || exists j | 0 <= j < i :: run[j].phase == Calling && acts[j] == Dispatch(false)
  {
    RunReasons(run, acts, i);
    assert StepAt(run, acts, i - 1);
    Finishes(run[i - 1], acts[i - 1]);
    if run[i - 1].phase == Finished { FinishedForAReason(run, acts, i - 1); }
  }

  lemma Finishes(s: State, a: Action)
    requires Enabled(s, a) && Apply(s, a).phase == Finished
    ensures Apply(s, a).stages == s.stages && (s.cancelled ==> Apply(s, a).cancelled)
    ensures (s.phase == Finished && Apply(s, a).at == s.at) || Apply(s, a).at >= |s.stages| || s.cancelled
            || (s.phase == Calling && a == Dispatch(false))
  {
  }

  lemma SomeHolder(convs: seq<Conv>) returns (i: nat)
    requires Holding(convs) > 0
    ensures i < |convs| && HoldsToken(convs[i].phase)
  {
    i := SomeWeight(TokenWeight, convs);
  }

  /** Until it has finished somebody can move without the time running out or the generator being cancelled: the
      dispatcher, a conversation whose request comes back, or a recording. */
  lemma NeverStuck(run: seq<State>, acts: seq<Action>, i: nat) returns (a: Action)
    requires IsRun(run, acts) && i < |run| && run[i].phase != Finished
    ensures Enabled(run[i], a) && !a.StageTimeUp? && !a.CancelAll?
    ensures a.Converse? ==> a.choice
  {
    var s := run[i];
    RunReasons(run, acts, i);
    RunInv(run, acts, i);
    a := Dispatch(true);
    if !Enabled(s, a) {
      if s.phase == AwaitRecords {
        var j :| 0 <= j < |s.records| && !s.records[j].written;
        a := WriteRecord(j);
      } else if s.phase == Acquiring {
        var k := SomeHolder(s.convs);
        a := Converse(k, true);
      } else {
        var k :| 0 <= k < |s.convs| && s.convs[k].phase != Done;
        HeldToken(s, k);
        a := Converse(k, true);
      }
    }
  }

  lemma HeldToken(s: State, k: nat)
    requires Inv(s) && k < |s.convs| && InStage(s.phase)
    ensures s.maxInFlight > 0 && HoldsToken(s.convs[k].phase) ==> s.tokens > 0
  {
    TotalAtLeast(TokenWeight, s.convs, k, k);
  }
}
