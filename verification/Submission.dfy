/**
 Idempotent submission of a benchmark run.

 Any number of callers submit plans for one run id at the same time.  Each works through three
 stores that offer only "get" and "create if absent": the durable manifest (an index file and a
 copy in the result directory), the discovery Service and the Job.  Every store operation is one
 step; a step may also fail, and a create or update may take effect although its caller is told
 that it failed.  The environment may add artifacts to a result directory and, in the runs that
 allow it, delete the Job or the Service.
 */
module Submission {
  import opened Shared

  type Fingerprint = string
  type Path = string

  datatype Manifest = Manifest(runId: string, fingerprint: Fingerprint, path: Path)
  datatype Service = Service(managed: bool, fingerprint: Fingerprint, owner: Option<nat>, version: nat)
  datatype Job = Job(managed: bool, fingerprint: Fingerprint, uid: nat)

  datatype Plan = Plan(fingerprint: Fingerprint, path: Path)

  datatype Answer = Created | Existing | Archived | Failed

  /** Why the Service is being looked up: for a Job already found, or before creating one. */
  datatype Purpose = ForJob(uid: nat) | ForCreate

  /** `made`: this caller created the index manifest; `isNew`: this caller created the Job. */
  datatype Phase =
    | LinkIndex | ReadIndex
    | LinkCopy(made: bool) | ReadCopy(made: bool) | RollBack
    | GetJob(existed: bool) | CheckArtifacts
    | GetService(purpose: Purpose) | CreateService(purpose: Purpose) | RegetService(purpose: Purpose)
    | CreateJob | RegetJob
    | GetOwner(uid: nat, isNew: bool) | UpdateOwner(uid: nat, isNew: bool, version: nat)
    | Done(answer: Answer)

  datatype Caller = Caller(plan: Plan, phase: Phase, jobsMade: nat)

  datatype State = State(
    runId: string,
    index: Option<Manifest>,
    copies: map<Path, Manifest>,
    artifacts: set<Path>,
    service: Option<Service>,
    job: Option<Job>,
    nextUid: nat,
    callers: seq<Caller>)

  /** How a store operation goes: as it should, not at all, or with its reply lost. */
  datatype Fault = Fine | Broken | ReplyLost

  datatype Action = Call(c: nat, fault: Fault) | Produce(path: Path) | DeleteJob | DeleteService

  predicate Enabled(s: State, a: Action) {
    a.Call? ==> a.c < |s.callers| && !s.callers[a.c].phase.Done?
  }

  function Goto(s: State, c: nat, p: Phase): State
    requires c < |s.callers|
  {
    s.(callers := s.callers[c := s.callers[c].(phase := p)])
  }

  function Abandon(s: State, c: nat, made: bool): State
    requires c < |s.callers|
  {
    Goto(s, c, if made then RollBack else Done(Failed))
  }

  function ManifestStep(s: State, c: nat, f: Fault): State
    requires c < |s.callers|
  {
    var desired := Manifest(s.runId, s.callers[c].plan.fingerprint, s.callers[c].plan.path);
    match s.callers[c].phase
    case LinkIndex =>
      if f != Fine then Goto(s, c, Done(Failed))
      else if s.index.None? then Goto(s, c, LinkCopy(true)).(index := Some(desired))
      else Goto(s, c, ReadIndex)
    case ReadIndex =>
      if f != Fine || s.index != Some(desired) then Goto(s, c, Done(Failed)) else Goto(s, c, LinkCopy(false))
    case LinkCopy(made) =>
      if f != Fine then Abandon(s, c, made)
      else if desired.path !in s.copies then Goto(s, c, GetJob(!made)).(copies := s.copies[desired.path := desired])
      else Goto(s, c, ReadCopy(made))
    case ReadCopy(made) =>
      if f != Fine || desired.path !in s.copies || s.copies[desired.path] != desired then Abandon(s, c, made)
      else Goto(s, c, GetJob(!made))
    case RollBack => Goto(s, c, Done(Failed)).(index := if f == Broken then s.index else None)
    case _ => s
  }

  /** The Service exists and belongs to the caller's plan. */
  predicate Ours(s: State, c: nat)
    requires c < |s.callers|
  {
    s.service.Some? && s.service.value.managed && s.service.value.fingerprint == s.callers[c].plan.fingerprint
  }

  predicate OurJob(s: State, c: nat)
    requires c < |s.callers|
  {
    s.job.Some? && s.job.value.managed && s.job.value.fingerprint == s.callers[c].plan.fingerprint
  }

  function AfterService(p: Purpose): Phase {
    match p
    case ForJob(uid) => GetOwner(uid, false)
    case ForCreate => CreateJob
  }

  function ServiceStep(s: State, c: nat, f: Fault): State
    requires c < |s.callers|
  {
    var desired := Service(true, s.callers[c].plan.fingerprint, None, 0);
    match s.callers[c].phase
    case GetService(p) =>
      if f != Fine then Goto(s, c, Done(Failed))
      else if s.service.None? then Goto(s, c, CreateService(p))
      else if Ours(s, c) then Goto(s, c, AfterService(p))
      else Goto(s, c, Done(Failed))
    case CreateService(p) =>
      if f == Broken then Goto(s, c, Done(Failed))
      else if s.service.Some? then Goto(s, c, if f == Fine then RegetService(p) else Done(Failed))
      else Goto(s, c, if f == Fine then AfterService(p) else Done(Failed)).(service := Some(desired))
    case RegetService(p) =>
      if f == Fine && Ours(s, c) then Goto(s, c, AfterService(p)) else Goto(s, c, Done(Failed))
    case GetOwner(uid, isNew) =>
      if f != Fine || !Ours(s, c) then Goto(s, c, Done(Failed))
      else if s.service.value.owner == Some(uid) then Goto(s, c, Done(if isNew then Created else Existing))
      else Goto(s, c, UpdateOwner(uid, isNew, s.service.value.version))
    case UpdateOwner(uid, isNew, version) =>
      if f == Broken || s.service.None? then Goto(s, c, Done(Failed))
      else if s.service.value.version != version then Goto(s, c, if f == Fine then GetOwner(uid, isNew) else Done(Failed))
      else
        var owned := s.service.value.(owner := Some(uid), version := version + 1);
        Goto(s, c, if f == Fine then Done(if isNew then Created else Existing) else Done(Failed)).(service := Some(owned))
    case _ => s
  }

  function JobStep(s: State, c: nat, f: Fault): State
    requires c < |s.callers|
  {
    match s.callers[c].phase
    case GetJob(existed) =>
      if f != Fine then Goto(s, c, Done(Failed))
      else if s.job.None? then Goto(s, c, if existed then CheckArtifacts else GetService(ForCreate))
      else if OurJob(s, c) then Goto(s, c, GetService(ForJob(s.job.value.uid)))
      else Goto(s, c, Done(Failed))
    case CheckArtifacts =>
      if f != Fine then Goto(s, c, Done(Failed))
      else Goto(s, c, if s.callers[c].plan.path in s.artifacts then Done(Archived) else GetService(ForCreate))
    case CreateJob =>
      if f == Broken then Goto(s, c, Done(Failed))
      else if s.job.Some? then Goto(s, c, if f == Fine then RegetJob else Done(Failed))
      else
        var x := s.callers[c];
        var y := x.(jobsMade := x.jobsMade + 1, phase := if f == Fine then GetOwner(s.nextUid, true) else Done(Failed));
        s.(callers := s.callers[c := y], job := Some(Job(true, x.plan.fingerprint, s.nextUid)), nextUid := s.nextUid + 1)
    case RegetJob =>
      if f == Fine && OurJob(s, c) then Goto(s, c, GetOwner(s.job.value.uid, false)) else Goto(s, c, Done(Failed))
    case _ => s
  }

  function CallStep(s: State, c: nat, f: Fault): State
    requires c < |s.callers|
  {
    match s.callers[c].phase
    case GetJob(_) => JobStep(s, c, f)
    case CheckArtifacts => JobStep(s, c, f)
    case CreateJob => JobStep(s, c, f)
    case RegetJob => JobStep(s, c, f)
    case GetService(_) => ServiceStep(s, c, f)
    case CreateService(_) => ServiceStep(s, c, f)
    case RegetService(_) => ServiceStep(s, c, f)
    case GetOwner(_, _) => ServiceStep(s, c, f)
    case UpdateOwner(_, _, _) => ServiceStep(s, c, f)
    case _ => ManifestStep(s, c, f)
  }

  function Apply(s: State, a: Action): State
    requires Enabled(s, a)
  {
    match a
    case Call(c, f) => CallStep(s, c, f)
    case Produce(p) => s.(artifacts := s.artifacts + {p})
    case DeleteJob => s.(job := None)
    case DeleteService => s.(service := None)
  }

  /** Callers start afresh.  Stores may hold anything, except that a Job and a Service found
      under the id agree. */
  ghost predicate Init(s: State) {
    && (forall c | 0 <= c < |s.callers| :: s.callers[c].phase == LinkIndex && s.callers[c].jobsMade == 0)
    && (s.job.Some? && s.service.Some? ==> s.job.value.fingerprint == s.service.value.fingerprint)
    && (s.job.Some? ==> s.job.value.uid < s.nextUid)
  }

  /** The i-th step of a run is an enabled action with its effect. */
  ghost predicate StepAt(run: seq<State>, acts: seq<Action>, i: nat) {
    i < |acts| && i + 1 < |run| && Enabled(run[i], acts[i]) && run[i + 1] == Apply(run[i], acts[i])
  }

  /** One step after the other, from any state. */
  ghost predicate IsPath(path: seq<State>, acts: seq<Action>) {
    |path| == |acts| + 1 && forall i | 0 <= i < |acts| :: StepAt(path, acts, i)
  }

  ghost predicate IsRun(run: seq<State>, acts: seq<Action>) { IsPath(run, acts) && Init(run[0]) }

  predicate NoDeletion(acts: seq<Action>) {
    forall i | 0 <= i < |acts| :: acts[i] != DeleteJob && acts[i] != DeleteService
  }

  // ---------------------------------------------------------------- runs without deletion

  /** Jobs created by the callers so far. */
  function JobsMade(cs: seq<Caller>): nat { Total(MadeBy, cs) }

  function MadeBy(c: Caller): nat { c.jobsMade }

  /** Callers that were answered, or are about to be answered, "created". */
  predicate Winner(p: Phase) {
    match p
    case GetOwner(_, isNew) => isNew
    case UpdateOwner(_, isNew, _) => isNew
    case Done(a) => a == Created
    case _ => false
  }

  predicate WillCreate(p: Phase) {
    match p
    case CheckArtifacts => true
    case GetService(q) => q.ForCreate?
    case CreateService(q) => q.ForCreate?
    case RegetService(q) => q.ForCreate?
    case CreateJob => true
    case _ => false
  }

  /** The uid of the Job the caller is attaching the Service to, if it got that far. */
  function Target(p: Phase): Option<nat> {
    match p
    case GetService(ForJob(uid)) => Some(uid)
    case CreateService(ForJob(uid)) => Some(uid)
    case RegetService(ForJob(uid)) => Some(uid)
    case GetOwner(uid, _) => Some(uid)
    case UpdateOwner(uid, _, _) => Some(uid)
    case _ => None
  }

  ghost predicate CallerInv(s: State, had: bool, c: nat)
    requires c < |s.callers|
  {
    var p := s.callers[c].phase;
    && (WillCreate(p) ==> !had)
    && (p == CreateJob || p == RegetJob || p.GetOwner? || p.UpdateOwner? ==> Ours(s, c))
    && (p == RegetJob ==> s.job.Some?)
    && (Target(p).Some? ==> OurJob(s, c) && s.job.value.uid == Target(p).value)
    && (Winner(p) ==> s.callers[c].jobsMade > 0)
    && (p == Done(Created) || p == Done(Existing) ==> OurJob(s, c) && Ours(s, c) && s.service.value.owner == Some(s.job.value.uid))
  }

  predicate StoresInv(s: State, had: bool) {
    && (had ==> s.job.Some?)
    && (s.job.Some? && s.service.Some? ==> s.job.value.fingerprint == s.service.value.fingerprint)
    && (s.job.Some? && !had ==> s.job.value.managed && s.service.Some? && s.service.value.managed)
  }

  /** `had`: the Job was there before anybody submitted. */
  ghost predicate Inv(s: State, had: bool) {
    && JobsMade(s.callers) == (if s.job.Some? && !had then 1 else 0)
    && StoresInv(s, had)
    && (forall c | 0 <= c < |s.callers| :: CallerInv(s, had, c))
  }

  /** Without deletion the stores only grow: a Job stays as it is, a Service keeps its
      fingerprint, and an owner reference to the Job is never replaced. */
  ghost predicate Grows(s: State, t: State, c: nat) {
    && c < |s.callers| == |t.callers|
    && (forall d | 0 <= d < |s.callers| && d != c :: t.callers[d] == s.callers[d])
    && t.callers[c].plan == s.callers[c].plan
    && (s.job.Some? ==> t.job == s.job)
    && (s.service.Some? ==>
      && t.service.Some?
      && t.service.value.managed == s.service.value.managed
      && t.service.value.fingerprint == s.service.value.fingerprint
      && (s.job.Some? && s.service.value.owner == Some(s.job.value.uid) ==> t.service.value.owner == s.service.value.owner))
  }

  lemma OthersKeep(s: State, t: State, had: bool, c: nat, d: nat)
    requires Grows(s, t, c) && d < |s.callers| && d != c && CallerInv(s, had, d)
    ensures CallerInv(t, had, d)
  {
  }

  lemma Assemble(s: State, t: State, had: bool, c: nat)
    requires Inv(s, had) && Grows(s, t, c) && CallerInv(t, had, c)
    requires t.callers[c].jobsMade - s.callers[c].jobsMade == (if t.job.Some? && s.job.None? then 1 else 0)
    requires t.job.Some? && t.service.Some? ==> t.job.value.fingerprint == t.service.value.fingerprint
    requires t.job.Some? && !had ==> t.job.value.managed && t.service.Some? && t.service.value.managed
    ensures Inv(t, had)
  {
    assert t.callers == s.callers[c := t.callers[c]];
    TotalUpdate(MadeBy, s.callers, c, t.callers[c]);
    forall d | 0 <= d < |t.callers| ensures CallerInv(t, had, d) {
      if d != c { OthersKeep(s, t, had, c, d); }
    }
  }

  predicate OnManifest(p: Phase) { p.LinkIndex? || p.ReadIndex? || p.LinkCopy? || p.ReadCopy? || p.RollBack? }

  predicate OnService(p: Phase) { p.GetService? || p.CreateService? || p.RegetService? || p.GetOwner? || p.UpdateOwner? }

  predicate OnJob(p: Phase) { p.GetJob? || p.CheckArtifacts? || p.CreateJob? || p.RegetJob? }

  lemma ManifestGrows(s: State, had: bool, c: nat, f: Fault)
    requires StoresInv(s, had) && c < |s.callers| && CallerInv(s, had, c)
    ensures Grows(s, ManifestStep(s, c, f), c)
  {
  }

  lemma ManifestCaller(s: State, had: bool, c: nat, f: Fault)
    requires StoresInv(s, had) && c < |s.callers| && CallerInv(s, had, c) && OnManifest(s.callers[c].phase)
    ensures CallerInv(ManifestStep(s, c, f), had, c)
  {
  }

  lemma ManifestPreserves(s: State, had: bool, c: nat, f: Fault)
    requires Inv(s, had) && c < |s.callers| && OnManifest(s.callers[c].phase)
    ensures Inv(ManifestStep(s, c, f), had)
  {
    assert CallerInv(s, had, c);
    ManifestGrows(s, had, c, f);
    ManifestCaller(s, had, c, f);
    Assemble(s, ManifestStep(s, c, f), had, c);
  }

  lemma ServiceGrows(s: State, had: bool, c: nat, f: Fault)
    requires StoresInv(s, had) && c < |s.callers| && CallerInv(s, had, c)
    ensures Grows(s, ServiceStep(s, c, f), c)
  {
  }

  /** Finding or creating the Service. */
  lemma UpsertCaller(s: State, had: bool, c: nat, f: Fault)
    requires StoresInv(s, had) && c < |s.callers| && CallerInv(s, had, c)
    requires OnService(s.callers[c].phase) && !s.callers[c].phase.GetOwner? && !s.callers[c].phase.UpdateOwner?
    ensures CallerInv(ServiceStep(s, c, f), had, c)
  {
  }

  /** Making the Job its owner. */
  lemma OwnerCaller(s: State, had: bool, c: nat, f: Fault)
    requires StoresInv(s, had) && c < |s.callers| && CallerInv(s, had, c)
    requires s.callers[c].phase.GetOwner? || s.callers[c].phase.UpdateOwner?
    ensures CallerInv(ServiceStep(s, c, f), had, c)
  {
  }

  lemma ServicePreserves(s: State, had: bool, c: nat, f: Fault)
    requires Inv(s, had) && c < |s.callers| && OnService(s.callers[c].phase)
    ensures Inv(ServiceStep(s, c, f), had)
  {
    assert CallerInv(s, had, c);
    ServiceGrows(s, had, c, f);
    if s.callers[c].phase.GetOwner? || s.callers[c].phase.UpdateOwner? {
      OwnerCaller(s, had, c, f);
    } else {
      UpsertCaller(s, had, c, f);
    }
    Assemble(s, ServiceStep(s, c, f), had, c);
  }

  lemma JobGrows(s: State, had: bool, c: nat, f: Fault)
    requires StoresInv(s, had) && c < |s.callers| && CallerInv(s, had, c)
    ensures Grows(s, JobStep(s, c, f), c)
  {
  }

  lemma JobCaller(s: State, had: bool, c: nat, f: Fault)
    requires StoresInv(s, had) && c < |s.callers| && CallerInv(s, had, c) && OnJob(s.callers[c].phase)
    ensures CallerInv(JobStep(s, c, f), had, c)
  {
  }

  lemma JobPreserves(s: State, had: bool, c: nat, f: Fault)
    requires Inv(s, had) && c < |s.callers| && OnJob(s.callers[c].phase)
    ensures Inv(JobStep(s, c, f), had)
  {
    assert CallerInv(s, had, c);
    JobGrows(s, had, c, f);
    JobCaller(s, had, c, f);
    Assemble(s, JobStep(s, c, f), had, c);
  }

  lemma StepPreserves(s: State, had: bool, a: Action)
    requires Inv(s, had) && Enabled(s, a) && a != DeleteJob && a != DeleteService
    ensures Inv(Apply(s, a), had)
  {
    match a
    case Call(c, f) =>
      var p := s.callers[c].phase;
      if OnManifest(p) {
        ManifestPreserves(s, had, c, f);
      } else if OnService(p) {
        ServicePreserves(s, had, c, f);
      } else {
        JobPreserves(s, had, c, f);
      }
    case Produce(p) =>
      forall d | 0 <= d < |s.callers| ensures CallerInv(Apply(s, a), had, d) { assert CallerInv(s, had, d); }
  }

  lemma {:induction false} RunInv(run: seq<State>, acts: seq<Action>, i: nat)
    requires IsRun(run, acts) && NoDeletion(acts) && i < |run|
    ensures Inv(run[i], run[0].job.Some?)
  {
    if i > 0 {
      RunInv(run, acts, i - 1);
      assert StepAt(run, acts, i - 1);
      StepPreserves(run[i - 1], run[0].job.Some?, acts[i - 1]);
    } else {
      TotalOfNothing(MadeBy, run[0].callers);
    }
  }

  /** However the callers interleave, at most one Job is ever created, and none when there was
      one already; at most one caller is answered "created". */
  lemma AtMostOneJob(run: seq<State>, acts: seq<Action>, i: nat)
    requires IsRun(run, acts) && NoDeletion(acts) && i < |run|
    ensures JobsMade(run[i].callers) <= 1
    ensures run[0].job.Some? ==> JobsMade(run[i].callers) == 0
    ensures forall c, d | 0 <= c < |run[i].callers| && 0 <= d < |run[i].callers|
              && run[i].callers[c].phase == Done(Created) && run[i].callers[d].phase == Done(Created) :: c == d
  {
    RunInv(run, acts, i);
    var s := run[i];
    forall c, d | 0 <= c < |s.callers| && 0 <= d < |s.callers|
      && s.callers[c].phase == Done(Created) && s.callers[d].phase == Done(Created)
      ensures c == d
    {
      assert CallerInv(s, run[0].job.Some?, c) && CallerInv(s, run[0].job.Some?, d);
      TotalAtLeast(MadeBy, s.callers, c, d);
    }
  }

  /** The Job and the Service under the id carry the same fingerprint at every moment, and a Job
      created by a caller is never without its Service. */
  lemma JobAndServiceAgree(run: seq<State>, acts: seq<Action>, i: nat)
    requires IsRun(run, acts) && NoDeletion(acts) && i < |run|
    ensures run[i].job.Some? && run[i].service.Some? ==> run[i].job.value.fingerprint == run[i].service.value.fingerprint
    ensures run[i].job.Some? && run[0].job.None? ==> run[i].service.Some?
  {
    RunInv(run, acts, i);
  }

  /** A caller that was told its run exists finds, for good, a managed Job with its own
      fingerprint, owning a Service with the same fingerprint. */
  lemma SuccessIsTruthful(run: seq<State>, acts: seq<Action>, i: nat, c: nat)
    requires IsRun(run, acts) && NoDeletion(acts) && i < |run| && c < |run[i].callers|
    requires run[i].callers[c].phase in {Done(Created), Done(Existing)}
    ensures OurJob(run[i], c) && Ours(run[i], c)
    ensures run[i].service.value.owner == Some(run[i].job.value.uid)
  {
    RunInv(run, acts, i);
    assert CallerInv(run[i], run[0].job.Some?, c);
  }

  // ---------------------------------------------------------------- archived runs

  /** The caller made the index manifest and may yet remove it. */
  predicate CanRollBack(p: Phase) { (p.LinkCopy? && p.made) || (p.ReadCopy? && p.made) || p == RollBack }

  /** The index manifest is there to stay: nobody who made it can still roll it back. */
  predicate Persisted(s: State) {
    s.index.Some? && forall d | 0 <= d < |s.callers| :: !CanRollBack(s.callers[d].phase)
  }

  /** Places from which a caller does not go on to create a Job. */
  predicate Harmless(s: State, c: nat)
    requires c < |s.callers|
  {
    var p := s.callers[c].phase;
    && (p.GetJob? ==> p.existed)
    && (p.GetService? ==> p.purpose.ForJob?) && (p.CreateService? ==> p.purpose.ForJob?)
    && (p.RegetService? ==> p.purpose.ForJob?)
    && p != CreateJob && p != RegetJob && !Winner(p)
    && (p == LinkIndex || p == ReadIndex || p.Done? || (s.index.Some? && s.index.value.path == s.callers[c].plan.path))
  }

  ghost predicate ArchiveInv(s: State, c: nat, jobsMade: nat) {
    && c < |s.callers|
    && Persisted(s)
    && s.index.value.path in s.artifacts
    && Harmless(s, c)
    && s.callers[c].jobsMade == jobsMade
  }

  /** One caller moved, the index and the artifacts stayed, and it did not make the manifest. */
  predicate Keeps(s: State, t: State, d: nat) {
    && d < |s.callers| == |t.callers| && t.index == s.index && t.artifacts == s.artifacts
    && t.callers == s.callers[d := t.callers[d]] && !CanRollBack(t.callers[d].phase)
  }

  lemma ManifestKeeps(s: State, d: nat, f: Fault)
    requires s.index.Some? && d < |s.callers| && !CanRollBack(s.callers[d].phase)
    ensures Keeps(s, ManifestStep(s, d, f), d)
  {
  }

  lemma ServiceKeeps(s: State, d: nat, f: Fault)
    requires d < |s.callers| && !CanRollBack(s.callers[d].phase)
    ensures Keeps(s, ServiceStep(s, d, f), d)
  {
  }

  lemma JobKeeps(s: State, d: nat, f: Fault)
    requires d < |s.callers| && !CanRollBack(s.callers[d].phase)
    ensures Keeps(s, JobStep(s, d, f), d)
  {
  }

  /** The index and what has been produced outlast any step, since nobody is left to roll the manifest back. */
  lemma PersistedStep(s: State, d: nat, f: Fault)
    requires Persisted(s) && d < |s.callers|
    ensures Persisted(CallStep(s, d, f)) && Keeps(s, CallStep(s, d, f), d)
  {
    ManifestKeeps(s, d, f);
    ServiceKeeps(s, d, f);
    JobKeeps(s, d, f);
  }

  /** The caller is harmless still, and has created no Job. */
  predicate StaysHarmless(s: State, t: State, c: nat) {
    c < |s.callers| == |t.callers| && Harmless(t, c) && t.callers[c].jobsMade == s.callers[c].jobsMade
  }

  lemma HarmlessManifest(s: State, c: nat, f: Fault)
    requires Persisted(s) && c < |s.callers| && Harmless(s, c)
    ensures StaysHarmless(s, ManifestStep(s, c, f), c)
  {
  }

  lemma HarmlessService(s: State, c: nat, f: Fault)
    requires c < |s.callers| && Harmless(s, c)
    ensures StaysHarmless(s, ServiceStep(s, c, f), c)
  {
  }

  lemma HarmlessJob(s: State, c: nat, f: Fault)
    requires s.index.Some? && c < |s.callers| && s.index.value.path in s.artifacts && Harmless(s, c)
    ensures StaysHarmless(s, JobStep(s, c, f), c)
  {
  }

  lemma HarmlessStep(s: State, c: nat, f: Fault)
    requires Persisted(s) && c < |s.callers| && s.index.value.path in s.artifacts && Harmless(s, c)
    ensures StaysHarmless(s, CallStep(s, c, f), c)
  {
    HarmlessManifest(s, c, f);
    HarmlessService(s, c, f);
    HarmlessJob(s, c, f);
  }

  lemma ArchiveStep(s: State, c: nat, jobsMade: nat, a: Action)
    requires ArchiveInv(s, c, jobsMade) && Enabled(s, a)
    ensures ArchiveInv(Apply(s, a), c, jobsMade)
  {
    if a.Call? {
      PersistedStep(s, a.c, a.fault);
      if a.c == c { HarmlessStep(s, c, a.fault); }
    }
  }

  lemma {:induction false} ArchiveRun(run: seq<State>, acts: seq<Action>, i: nat, j: nat, c: nat, jobsMade: nat)
    requires IsPath(run, acts) && i <= j < |run| && ArchiveInv(run[i], c, jobsMade)
    ensures ArchiveInv(run[j], c, jobsMade)
    decreases j - i
  {
    if i < j {
      ArchiveRun(run, acts, i, j - 1, c, jobsMade);
      assert StepAt(run, acts, j - 1);
      ArchiveStep(run[j - 1], c, jobsMade, acts[j - 1]);
    }
  }
}
