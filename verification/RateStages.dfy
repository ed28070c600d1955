/**
 Rate-driven stages: one dispatcher admits conversations at the times of an arrival process, bounded by a
 semaphore and by the stage's request limit; each conversation runs in its own goroutine and hands every
 finished request to a recording goroutine; a stage ends by waiting for all of them.

 Arrival times, request outcomes and the callback's verdict are open choices; the end of a stage's time
 and the cancellation of the whole generator may come at any moment.
 */
module RateStages {
  import opened Shared

  datatype Stage = Stage(barrier: bool, limit: int)

  datatype Phase = Between | Choosing | Sleeping | Acquiring | Admitting | AwaitConversations | AwaitRecords | Calling | Finished

  datatype ConvPhase = Running | InRequest | Releasing | Ending | Done

  /** `requests` counts the requests sent, `recorded` those handed to a recording goroutine. */
  datatype Conv = Conv(sid: nat, stage: nat, phase: ConvPhase, requests: nat, recorded: nat)

  datatype Record = Record(sid: nat, written: bool)

  datatype State = State(
    maxInFlight: int,
    stages: seq<Stage>,
    at: nat,
    phase: Phase,
    tokens: nat,
    dispatched: nat,
    nextSid: nat,
    convs: seq<Conv>,
    records: seq<Record>,
    timeUp: bool,
    cancelled: bool,
    completed: seq<nat>)

  /** `choice` settles what the step leaves open. */
  datatype Action = Dispatch(choice: bool) | Converse(i: nat, choice: bool) | WriteRecord(j: nat) | StageTimeUp | CancelAll

  predicate AllDone(convs: seq<Conv>) { forall i | 0 <= i < |convs| :: convs[i].phase == Done }

  predicate AllWritten(records: seq<Record>) { forall j | 0 <= j < |records| :: records[j].written }

  predicate AtLimit(s: State)
    requires s.at < |s.stages|
  {
    0 < s.stages[s.at].limit <= s.dispatched
  }

  /** The dispatcher has waited for all conversations. */
  predicate Quiet(p: Phase) { p.Between? || p.AwaitRecords? || p.Calling? || p.Finished? }

  predicate InStage(p: Phase) { p != Between && p != Finished }

  predicate Enabled(s: State, a: Action) {
    match a
    case Dispatch(choice) =>
      && (InStage(s.phase) ==> s.at < |s.stages|)
      && (match s.phase
          case Acquiring => s.maxInFlight <= 0 || (choice && s.tokens < s.maxInFlight) || s.timeUp
          case AwaitConversations => AllDone(s.convs)
          case AwaitRecords => AllWritten(s.records)
          case _ => s.phase != Finished)
    case Converse(i, choice) =>
      && i < |s.convs| && s.convs[i].phase != Done
      && (s.convs[i].phase == InRequest && !choice ==> s.cancelled)
      && (s.convs[i].phase == Releasing && s.maxInFlight > 0 ==> s.tokens > 0)
    case WriteRecord(j) => j < |s.records| && !s.records[j].written
    case _ => true
  }

  function DispatchStep(s: State, choice: bool): State
    requires Enabled(s, Dispatch(choice))
  {
    match s.phase
    case Between =>
      if s.at >= |s.stages| || s.cancelled then s.(phase := Finished)
      else if s.stages[s.at].barrier then s.(at := s.at + 1)
      else s.(phase := Choosing, tokens := 0, dispatched := 0, timeUp := false)
    case Choosing => s.(phase := if s.timeUp || AtLimit(s) then AwaitConversations else Sleeping)
    case Sleeping => s.(phase := if s.timeUp then AwaitConversations else Acquiring)
    case Acquiring =>
      if s.maxInFlight <= 0 then s.(phase := Admitting)
      else
        // taking a token and finding the time up leaves the token behind
        var t := if choice && s.tokens < s.maxInFlight then s.(tokens := s.tokens + 1) else s;
        t.(phase := if s.timeUp then AwaitConversations else Admitting)
    case Admitting =>
      s.(phase := Choosing, dispatched := s.dispatched + 1, nextSid := s.nextSid + 1,
         convs := s.convs + [Conv(s.nextSid, s.at, Running, 0, 0)])
    case AwaitConversations => s.(phase := AwaitRecords)
    case AwaitRecords => if s.cancelled then s.(phase := Between, at := s.at + 1) else s.(phase := Calling)
    case Calling =>
      var t := s.(completed := s.completed + [s.at], at := s.at + 1);
      t.(phase := if choice then Between else Finished)
    case Finished => s
  }

  function ConverseStep(s: State, i: nat, choice: bool): State
    requires Enabled(s, Converse(i, choice))
  {
    var c := s.convs[i];
    match c.phase
    case Running =>
      s.(convs := s.convs[i := if choice then c.(phase := InRequest, requests := c.requests + 1) else c.(phase := Releasing)])
    case InRequest =>
      if choice then
        s.(convs := s.convs[i := c.(phase := Running, recorded := c.recorded + 1)], records := s.records + [Record(c.sid, false)])
      else s.(convs := s.convs[i := c.(phase := Releasing)])
    case Releasing =>
      s.(convs := s.convs[i := c.(phase := Ending)], tokens := if s.maxInFlight > 0 then s.tokens - 1 else s.tokens)
    case Ending => s.(convs := s.convs[i := c.(phase := Done)])
    case Done => s
  }

  function Apply(s: State, a: Action): State
    requires Enabled(s, a)
  {
    match a
    case Dispatch(choice) => DispatchStep(s, choice)
    case Converse(i, choice) => ConverseStep(s, i, choice)
    case WriteRecord(j) => s.(records := s.records[j := s.records[j].(written := true)])
    case StageTimeUp => s.(timeUp := true)
    case CancelAll => s.(cancelled := true, timeUp := true)
  }

  ghost predicate Init(s: State) {
    s == State(s.maxInFlight, s.stages, 0, Between, 0, 0, s.nextSid, [], [], false, s.cancelled, []) && s.nextSid == 0
  }

  /** The i-th step of a run is an enabled action with its effect. */
  ghost predicate StepAt(run: seq<State>, acts: seq<Action>, i: nat) {
    i < |acts| && i + 1 < |run| && Enabled(run[i], acts[i]) && run[i + 1] == Apply(run[i], acts[i])
  }

  ghost predicate IsRun(run: seq<State>, acts: seq<Action>) {
    && |run| == |acts| + 1
    && Init(run[0])
    && forall i | 0 <= i < |acts| :: StepAt(run, acts, i)
  }

  // ---------------------------------------------------------------- invariant

  predicate HoldsToken(p: ConvPhase) { p == Running || p == InRequest || p == Releasing }

  function Holding(convs: seq<Conv>): nat { Total(TokenWeight, convs) }

  function TokenWeight(c: Conv): nat { if HoldsToken(c.phase) then 1 else 0 }

  /** Conversations in the middle of their work. */
  function Active(convs: seq<Conv>): nat { Total(ActiveWeight, convs) }

  function ActiveWeight(c: Conv): nat { if c.phase.Running? || c.phase.InRequest? then 1 else 0 }

  /** Conversations admitted in stage k. */
  function Admitted(convs: seq<Conv>, k: nat): nat { Total(AdmittedIn(k), convs) }

  function AdmittedIn(k: nat): Conv -> nat { (c: Conv) => if c.stage == k then 1 else 0 }

  function RecordsOf(records: seq<Record>, sid: nat): nat { Total(RecordOf(sid), records) }

  function RecordOf(sid: nat): Record -> nat { (r: Record) => if r.sid == sid then 1 else 0 }

  ghost predicate ConvInv(s: State, i: nat)
    requires i < |s.convs|
  {
    var c := s.convs[i];
    && c.sid == i
    && c.stage <= s.at
    && c.recorded + (if c.phase == InRequest then 1 else 0) <= c.requests
    && RecordsOf(s.records, i) == c.recorded
    && (!s.cancelled ==> c.requests == c.recorded + (if c.phase == InRequest then 1 else 0))
  }

  ghost predicate TokenInv(s: State) {
    s.maxInFlight > 0 && InStage(s.phase) ==>
      Holding(s.convs) + (if s.phase == Admitting then 1 else 0) <= s.tokens <= s.maxInFlight
  }

  ghost predicate DispatchInv(s: State) {
    && s.nextSid == |s.convs|
    && (Quiet(s.phase) ==> AllDone(s.convs))
    && (s.phase == Calling ==> AllWritten(s.records) && forall i | 0 <= i < |s.convs| :: s.convs[i].requests == s.convs[i].recorded)
    && (InStage(s.phase) ==> s.at < |s.stages| && Admitted(s.convs, s.at) == s.dispatched)
    && (InStage(s.phase) && s.stages[s.at].limit > 0 ==> s.dispatched <= s.stages[s.at].limit)
    && (s.phase.Sleeping? || s.phase.Acquiring? || s.phase.Admitting? ==> !AtLimit(s))
    && (s.phase == Between ==> forall i | 0 <= i < |s.convs| :: s.convs[i].stage < s.at)
    && (forall k | 0 <= k < |s.stages| && s.stages[k].limit > 0 :: Admitted(s.convs, k) <= s.stages[k].limit)
  }

  ghost predicate Inv(s: State) {
    && DispatchInv(s)
    && TokenInv(s)
    && (forall i | 0 <= i < |s.convs| :: ConvInv(s, i))
    && (forall j | 0 <= j < |s.records| :: s.records[j].sid < |s.convs|)
  }

  lemma CountsUpdate(convs: seq<Conv>, i: nat, c: Conv)
    requires i < |convs| && c.stage == convs[i].stage
    ensures Holding(convs[i := c]) == Holding(convs) - TokenWeight(convs[i]) + TokenWeight(c)
    ensures forall k: nat :: Admitted(convs[i := c], k) == Admitted(convs, k)
  {
    TotalUpdate(TokenWeight, convs, i, c);
    forall k: nat ensures Admitted(convs[i := c], k) == Admitted(convs, k) { TotalUpdate(AdmittedIn(k), convs, i, c); }
  }

  lemma CountsAppend(convs: seq<Conv>, c: Conv)
    ensures Holding(convs + [c]) == Holding(convs) + TokenWeight(c)
    ensures forall k: nat :: Admitted(convs + [c], k) == Admitted(convs, k) + if c.stage == k then 1 else 0
  {
    TotalAppend(TokenWeight, convs, c);
    forall k: nat ensures Admitted(convs + [c], k) == Admitted(convs, k) + if c.stage == k then 1 else 0 {
      TotalAppend(AdmittedIn(k), convs, c);
    }
  }

  lemma {:induction false} ActiveHold(convs: seq<Conv>)
    ensures Active(convs) <= Holding(convs)
  {
    if convs != [] { ActiveHold(convs[..|convs| - 1]); }
  }

  lemma AdmitPreserves(s: State, choice: bool)
    requires Inv(s) && s.phase == Admitting && Enabled(s, Dispatch(choice))
    ensures Inv(DispatchStep(s, choice))
  {
    var t, n := DispatchStep(s, choice), |s.convs|;
    CountsAppend(s.convs, t.convs[n]);
    TotalOfNothing(RecordOf(n), s.records);
    forall i | 0 <= i < |t.convs| ensures ConvInv(t, i) {
      if i < n { assert ConvInv(s, i); }
    }
  }

  lemma StartPreserves(s: State, choice: bool)
    requires Inv(s) && s.phase == Between && Enabled(s, Dispatch(choice))
    ensures Inv(DispatchStep(s, choice))
  {
    var t := DispatchStep(s, choice);
    TotalOfNothing(TokenWeight, s.convs);
    TotalOfNothing(AdmittedIn(s.at), s.convs);
    forall i | 0 <= i < |t.convs| ensures ConvInv(t, i) { assert ConvInv(s, i); }
  }

  /** The dispatcher moves on without touching conversations or records. */
  predicate Moves(s: State, t: State) {
    t == s.(phase := t.phase, at := t.at, tokens := t.tokens, completed := t.completed)
  }

  lemma MoveKeepsConvs(s: State, t: State)
    requires Inv(s) && Moves(s, t) && t.at >= s.at
    ensures forall i | 0 <= i < |t.convs| :: ConvInv(t, i)
  {
    forall i | 0 <= i < |t.convs| ensures ConvInv(t, i) { assert ConvInv(s, i); }
  }

  /** Steps of the dispatcher while conversations come and go. */
  lemma OpenPreserves(s: State, choice: bool)
    requires Inv(s) && Enabled(s, Dispatch(choice)) && (s.phase == Choosing || s.phase == Sleeping || s.phase == Acquiring)
    ensures Inv(DispatchStep(s, choice))
  {
    MoveKeepsConvs(s, DispatchStep(s, choice));
  }

  /** Steps that wait for conversations and records, and the callback. */
  lemma ClosingPreserves(s: State, choice: bool)
    requires Inv(s) && Enabled(s, Dispatch(choice)) && (s.phase == AwaitConversations || s.phase == AwaitRecords || s.phase == Calling)
    ensures Inv(DispatchStep(s, choice))
  {
    var t := DispatchStep(s, choice);
    MoveKeepsConvs(s, t);
    forall i | 0 <= i < |s.convs|
      ensures s.convs[i].stage <= s.at
      ensures s.phase == AwaitRecords && !s.cancelled ==> s.convs[i].requests == s.convs[i].recorded
    {
      assert ConvInv(s, i);
    }
  }

  lemma DispatchPreserves(s: State, choice: bool)
    requires Inv(s) && Enabled(s, Dispatch(choice))
    ensures Inv(DispatchStep(s, choice))
  {
    match s.phase
    case Between => StartPreserves(s, choice);
    case Admitting => AdmitPreserves(s, choice);
    case Choosing => OpenPreserves(s, choice);
    case Sleeping => OpenPreserves(s, choice);
    case Acquiring => OpenPreserves(s, choice);
    case AwaitConversations => ClosingPreserves(s, choice);
    case AwaitRecords => ClosingPreserves(s, choice);
    case Calling => ClosingPreserves(s, choice);
  }

  lemma ConverseKeepsConvs(s: State, i: nat, choice: bool)
    requires Inv(s) && Enabled(s, Converse(i, choice))
    ensures var t := ConverseStep(s, i, choice); forall k | 0 <= k < |t.convs| :: ConvInv(t, k)
  {
    var t := ConverseStep(s, i, choice);
    forall k | 0 <= k < |t.convs| ensures ConvInv(t, k) {
      assert ConvInv(s, k) && ConvInv(s, i);
      ConverseKeepsConv(s, i, choice, k);
    }
  }

  lemma ConverseKeepsConv(s: State, i: nat, choice: bool, k: nat)
    requires Enabled(s, Converse(i, choice)) && k < |s.convs| && ConvInv(s, k) && ConvInv(s, i)
    ensures k < |ConverseStep(s, i, choice).convs| && ConvInv(ConverseStep(s, i, choice), k)
  {
    RecordsAfter(s, i, choice, k);
  }

  /** Only a request that comes back adds a record, and only to its own conversation. */
  lemma RecordsAfter(s: State, i: nat, choice: bool, k: nat)
    requires Enabled(s, Converse(i, choice))
    ensures RecordsOf(ConverseStep(s, i, choice).records, k)
            == RecordsOf(s.records, k) + if s.convs[i].phase == InRequest && choice && s.convs[i].sid == k then 1 else 0
  {
    TotalAppend(RecordOf(k), s.records, Record(s.convs[i].sid, false));
  }

  /** The dispatcher's invariant does not depend on how far the conversations are. */
  lemma ConverseKeepsDispatch(s: State, t: State)
    requires DispatchInv(s) && !Quiet(s.phase) && |t.convs| == |s.convs|
    requires t == s.(convs := t.convs, records := t.records, tokens := t.tokens)
    requires forall k: nat :: Admitted(t.convs, k) == Admitted(s.convs, k)
    ensures DispatchInv(t)
  {
  }

  lemma ConverseKeepsTokens(s: State, i: nat, choice: bool)
    requires TokenInv(s) && Enabled(s, Converse(i, choice))
    ensures TokenInv(ConverseStep(s, i, choice))
  {
    CountsUpdate(s.convs, i, ConverseStep(s, i, choice).convs[i]);
  }

  lemma ConversePreserves(s: State, i: nat, choice: bool)
    requires Inv(s) && Enabled(s, Converse(i, choice))
    ensures Inv(ConverseStep(s, i, choice))
  {
    var t := ConverseStep(s, i, choice);
    assert ConvInv(s, i);
    assert !Quiet(s.phase) by { assert !AllDone(s.convs); }
    ConverseKeepsConvs(s, i, choice);
    ConverseKeepsTokens(s, i, choice);
    CountsUpdate(s.convs, i, t.convs[i]);
    ConverseKeepsDispatch(s, t);
  }

  lemma WritePreserves(s: State, j: nat)
    requires Inv(s) && Enabled(s, WriteRecord(j))
    ensures Inv(Apply(s, WriteRecord(j)))
  {
    var t := Apply(s, WriteRecord(j));
    forall i | 0 <= i < |t.convs| ensures ConvInv(t, i) {
      assert ConvInv(s, i);
      TotalUpdate(RecordOf(i), s.records, j, t.records[j]);
    }
  }

  lemma TimePreserves(s: State, a: Action)
    requires Inv(s) && (a.StageTimeUp? || a.CancelAll?)
    ensures Inv(Apply(s, a))
  {
    var t := Apply(s, a);
    forall i | 0 <= i < |t.convs| ensures ConvInv(t, i) { assert ConvInv(s, i); }
  }

  lemma StepPreserves(s: State, a: Action)
    requires Inv(s) && Enabled(s, a)
    ensures Inv(Apply(s, a))
  {
    match a
    case Dispatch(choice) => DispatchPreserves(s, choice);
    case Converse(i, choice) => ConversePreserves(s, i, choice);
    case WriteRecord(j) => WritePreserves(s, j);
    case _ => TimePreserves(s, a);
  }

  lemma {:induction false} RunInv(run: seq<State>, acts: seq<Action>, i: nat)
    requires IsRun(run, acts) && i < |run|
    ensures Inv(run[i])
  {
    if i > 0 {
      RunInv(run, acts, i - 1);
      assert StepAt(run, acts, i - 1);
      StepPreserves(run[i - 1], acts[i - 1]);
    }
  }

  // ---------------------------------------------------------------- results

  /** With a positive bound, never more conversations are at work than the bound allows. */
  lemma InFlightIsBounded(run: seq<State>, acts: seq<Action>, i: nat)
    requires IsRun(run, acts) && i < |run| && run[i].maxInFlight > 0
    ensures Active(run[i].convs) <= run[i].maxInFlight
  {
    RunInv(run, acts, i);
    ActiveHold(run[i].convs);
    if !InStage(run[i].phase) { TotalOfNothing(TokenWeight, run[i].convs); }
  }

  /** No stage admits more conversations than its limit. */
  lemma ArrivalsStayWithinLimit(run: seq<State>, acts: seq<Action>, i: nat, k: nat)
    requires IsRun(run, acts) && i < |run| && k < |run[i].stages| && run[i].stages[k].limit > 0
    ensures Admitted(run[i].convs, k) <= run[i].stages[k].limit
  {
    RunInv(run, acts, i);
  }

  /** When the completion callback of a stage fires, every conversation admitted so far has finished and
      every request any of them made has been recorded and written. */
  lemma CallbackSeesEverything(run: seq<State>, acts: seq<Action>, i: nat)
    requires IsRun(run, acts) && i < |run| && run[i].phase == Calling
    ensures AllDone(run[i].convs) && AllWritten(run[i].records)
    ensures forall c | 0 <= c < |run[i].convs| :: RecordsOf(run[i].records, run[i].convs[c].sid) == run[i].convs[c].requests
  {
    RunInv(run, acts, i);
    forall c | 0 <= c < |run[i].convs| ensures RecordsOf(run[i].records, run[i].convs[c].sid) == run[i].convs[c].requests {
      assert ConvInv(run[i], c);
    }
  }

  /** Stream ids are never reused, in no stage of the generator. */
  lemma StreamIdsAreUnique(run: seq<State>, acts: seq<Action>, i: nat, c: nat, d: nat)
    requires IsRun(run, acts) && i < |run| && c < |run[i].convs| && d < |run[i].convs|
    ensures run[i].convs[c].sid == run[i].convs[d].sid ==> c == d
  {
    RunInv(run, acts, i);
    assert ConvInv(run[i], c) && ConvInv(run[i], d);
  }
}
