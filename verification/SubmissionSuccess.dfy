/**
 What a submission answers: an undisturbed caller's answer as a function of what it finds, and callers with one plan
 that race each other and are never answered "failed".
 */
module SubmissionSuccess {
  import opened Shared
  import opened Submission
  import opened SubmissionRepeat

  // ---------------------------------------------------------------- one caller on its own

  /** What is found is the caller's, or nothing is found. */
  predicate IndexFits(s: State, c: nat)
    requires c < |s.callers|
  {
    s.index.None? || s.index.value == Desired(s, c)
  }

  predicate ServiceFits(s: State, c: nat)
    requires c < |s.callers|
  {
    s.service.None? || Ours(s, c)
  }

  /** The answer a caller is due when nobody interferes and nothing fails. */
  function DueAnswer(s: State, c: nat): Answer
    requires c < |s.callers|
  {
    if !IndexFits(s, c) || !SlotOpen(s, c) then Failed
    else if s.job.Some? then
      if OurJob(s, c) && ServiceFits(s, c) then Existing else Failed
    else if s.index.Some? && s.callers[c].plan.path in s.artifacts then Archived
    else if ServiceFits(s, c) then Created
    else Failed
  }

  /** The caller takes n steps, or as many as it has, and nobody else takes any. */
  function Alone(s: State, c: nat, n: nat): State
    requires c < |s.callers|
    ensures |Alone(s, c, n).callers| == |s.callers|
  {
    if n == 0 then s
    else
      var t := Alone(s, c, n - 1);
      CallMoves(t, c, Fine);
      if t.callers[c].phase.Done? then t else CallStep(t, c, Fine)
  }

  ghost predicate ComesTo(s: State, c: nat, t: State)
    requires c < |s.callers|
  {
    exists n: nat :: Alone(s, c, n) == t
  }

  lemma OneMore(s: State, c: nat, t: State)
    requires c < |s.callers| && ComesTo(s, c, t)
    ensures c < |t.callers|
    ensures !t.callers[c].phase.Done? ==> ComesTo(s, c, CallStep(t, c, Fine))
  {
    var n: nat :| Alone(s, c, n) == t;
    if !t.callers[c].phase.Done? { assert Alone(s, c, n + 1) == CallStep(t, c, Fine); }
  }

  /** The stores but for what is made on the way are as they were, and so is the caller's plan. */
  predicate SamePlan(s: State, t: State, c: nat) {
    && c < |s.callers| == |t.callers| && t.callers[c].plan == s.callers[c].plan && t.runId == s.runId
    && t.artifacts == s.artifacts
  }

  /** Through the manifest files, to the question whether there is a Job. */
  lemma PastManifest(s: State, c: nat) returns (t: State)
    requires c < |s.callers| && s.callers[c].phase == LinkIndex
    ensures ComesTo(s, c, t) && SamePlan(s, t, c) && t.service == s.service && t.job == s.job
    ensures t.callers[c].phase == if IndexFits(s, c) && SlotOpen(s, c) then GetJob(s.index.Some?) else Done(Failed)
  {
    assert Alone(s, c, 0) == s;
    OneMore(s, c, s);
    t := CallStep(s, c, Fine);
    if t.callers[c].phase == ReadIndex {
      OneMore(s, c, t);
      t := CallStep(t, c, Fine);
    }
    if t.callers[c].phase.Done? { return; }
    t := PastCopy(s, c, t);
  }

  lemma PastCopy(s: State, c: nat, u: State) returns (t: State)
    requires c < |s.callers| && ComesTo(s, c, u) && SamePlan(s, u, c) && IndexFits(s, c)
    requires u.callers[c].phase == LinkCopy(s.index.None?)
    requires u.service == s.service && u.job == s.job && u.copies == s.copies
    ensures ComesTo(s, c, t) && SamePlan(s, t, c) && t.service == s.service && t.job == s.job
    ensures t.callers[c].phase == if SlotOpen(s, c) then GetJob(s.index.Some?) else Done(Failed)
  {
    OneMore(s, c, u);
    t := CallStep(u, c, Fine);
    if t.callers[c].phase.ReadCopy? {
      OneMore(s, c, t);
      t := CallStep(t, c, Fine);
      if t.callers[c].phase == RollBack {
        OneMore(s, c, t);
        t := CallStep(t, c, Fine);
      }
    }
  }

  /** From the question whether there is a Service to what comes after it. */
  lemma PastService(s: State, c: nat, u: State, p: Purpose) returns (t: State)
    requires c < |s.callers| && ComesTo(s, c, u) && SamePlan(s, u, c)
    requires u.callers[c].phase == GetService(p) && u.service == s.service
    ensures ComesTo(s, c, t) && SamePlan(s, t, c) && t.job == u.job
    ensures t.callers[c].phase == if ServiceFits(s, c) then AfterService(p) else Done(Failed)
    ensures ServiceFits(s, c) ==> Ours(t, c)
  {
    OneMore(s, c, u);
    t := CallStep(u, c, Fine);
    if t.callers[c].phase == CreateService(p) {
      OneMore(s, c, t);
      t := CallStep(t, c, Fine);
    }
  }

  /** Making the Job the owner of the Service succeeds at the first attempt. */
  lemma PastOwner(s: State, c: nat, u: State, uid: nat, isNew: bool) returns (t: State)
    requires c < |s.callers| && ComesTo(s, c, u) && SamePlan(s, u, c)
    requires u.callers[c].phase == GetOwner(uid, isNew) && Ours(u, c)
    ensures ComesTo(s, c, t) && SamePlan(s, t, c) && t.callers[c].phase == Done(if isNew then Created else Existing)
    ensures t.job == u.job && t.service.Some? && t.service.value.owner == Some(uid)
  {
    OneMore(s, c, u);
    t := CallStep(u, c, Fine);
    if t.callers[c].phase.UpdateOwner? { t := PastUpdate(s, c, t); }
  }

  lemma PastUpdate(s: State, c: nat, u: State) returns (t: State)
    requires c < |s.callers| && ComesTo(s, c, u) && SamePlan(s, u, c) && u.service.Some?
    requires u.callers[c].phase.UpdateOwner? && u.callers[c].phase.version == u.service.value.version
    ensures ComesTo(s, c, t) && SamePlan(s, t, c) && t.job == u.job && t.service.Some?
    ensures var p := u.callers[c].phase;
            t.callers[c].phase == Done(if p.isNew then Created else Existing) && t.service.value.owner == Some(p.uid)
  {
    OneMore(s, c, u);
    t := CallStep(u, c, Fine);
  }

  lemma WithJob(s: State, c: nat, u: State) returns (t: State)
    requires c < |s.callers| && ComesTo(s, c, u) && SamePlan(s, u, c) && u.service == s.service && u.job == s.job
    requires u.callers[c].phase.GetJob? && s.job.Some?
    ensures ComesTo(s, c, t) && SamePlan(s, t, c) && t.job == s.job
    ensures t.callers[c].phase == Done(if OurJob(s, c) && ServiceFits(s, c) then Existing else Failed)
    ensures t.callers[c].phase == Done(Existing) ==> t.service.Some? && t.service.value.owner == Some(t.job.value.uid)
  {
    OneMore(s, c, u);
    t := CallStep(u, c, Fine);
    if OurJob(s, c) {
      t := PastService(s, c, t, ForJob(s.job.value.uid));
      if ServiceFits(s, c) { t := PastOwner(s, c, t, s.job.value.uid, false); }
    }
  }

  lemma WithoutJob(s: State, c: nat, u: State) returns (t: State)
    requires c < |s.callers| && ComesTo(s, c, u) && SamePlan(s, u, c) && u.service == s.service && u.job == s.job
    requires u.callers[c].phase == GetJob(s.index.Some?) && s.job.None?
    ensures ComesTo(s, c, t) && SamePlan(s, t, c)
    ensures t.callers[c].phase == Done(if s.index.Some? && s.callers[c].plan.path in s.artifacts then Archived
                                       else if ServiceFits(s, c) then Created
                                       else Failed)
    ensures t.callers[c].phase == Done(Created) ==>
              OurJob(t, c) && t.service.Some? && t.service.value.owner == Some(t.job.value.uid)
  {
    OneMore(s, c, u);
    t := CallStep(u, c, Fine);
    if t.callers[c].phase == CheckArtifacts {
      OneMore(s, c, t);
      t := CallStep(t, c, Fine);
    }
    if t.callers[c].phase.Done? { return; }
    t := PastService(s, c, t, ForCreate);
    if t.callers[c].phase.Done? { return; }
    t := MakeJob(s, c, t);
  }

  lemma MakeJob(s: State, c: nat, u: State) returns (t: State)
    requires c < |s.callers| && ComesTo(s, c, u) && SamePlan(s, u, c)
    requires u.callers[c].phase == CreateJob && u.job.None? && Ours(u, c)
    ensures ComesTo(s, c, t) && SamePlan(s, t, c) && t.callers[c].phase == Done(Created)
    ensures OurJob(t, c) && t.service.Some? && t.service.value.owner == Some(t.job.value.uid)
  {
    OneMore(s, c, u);
    t := CallStep(u, c, Fine);
    t := PastOwner(s, c, t, u.nextUid, true);
  }

  /** A caller that begins and is left to itself is answered, and exactly so: by the manifests, the Job, the artifacts
      and the Service it finds.  When it is answered that its run exists, its Job owns its Service. */
  lemma UndisturbedAnswer(s: State, c: nat) returns (n: nat)
    requires c < |s.callers| && s.callers[c].phase == LinkIndex
    ensures Alone(s, c, n).callers[c].phase == Done(DueAnswer(s, c))
    ensures DueAnswer(s, c) == Created || DueAnswer(s, c) == Existing ==>
              var t := Alone(s, c, n);
              OurJob(t, c) && t.service.Some? && t.service.value.owner == Some(t.job.value.uid)
  {
    var t := PastManifest(s, c);
    if !t.callers[c].phase.Done? {
      if s.job.Some? { t := WithJob(s, c, t); } else { t := WithoutJob(s, c, t); }
    }
    n :| Alone(s, c, n) == t;
  }

  /** The two states have the same stores. */
  predicate SameStores(s: State, t: State) {
    && t.index == s.index && t.copies == s.copies && t.artifacts == s.artifacts
    && t.service == s.service && t.job == s.job && t.nextUid == s.nextUid
  }

  /** All that a submission of this plan leaves behind is there. */
  predicate AllThere(s: State, c: nat)
    requires c < |s.callers|
  {
    && s.index == Some(Desired(s, c))
    && s.callers[c].plan.path in s.copies && s.copies[s.callers[c].plan.path] == Desired(s, c)
    && OurJob(s, c) && Ours(s, c) && s.service.value.owner == Some(s.job.value.uid)
  }

  lemma FindsManifests(s: State, c: nat) returns (t: State)
    requires c < |s.callers| && s.callers[c].phase == LinkIndex && AllThere(s, c)
    ensures ComesTo(s, c, t) && t == Goto(s, c, GetJob(true))
  {
    assert Alone(s, c, 0) == s;
    OneMore(s, c, s);
    t := CallStep(s, c, Fine);
    assert t == Goto(s, c, ReadIndex);
    OneMore(s, c, t);
    t := CallStep(t, c, Fine);
    assert t == Goto(s, c, LinkCopy(false));
    OneMore(s, c, t);
    t := CallStep(t, c, Fine);
    assert t == Goto(s, c, ReadCopy(false));
    OneMore(s, c, t);
    t := CallStep(t, c, Fine);
  }

  /** Submitting again what is all there is answered "existing" and changes nothing. */
  lemma RepeatChangesNothing(s: State, c: nat) returns (n: nat)
    requires c < |s.callers| && s.callers[c].phase == LinkIndex && AllThere(s, c)
    ensures Alone(s, c, n).callers[c].phase == Done(Existing) && SameStores(s, Alone(s, c, n))
  {
    var t := FindsManifests(s, c);
    t := FindsCluster(s, c, t);
    n :| Alone(s, c, n) == t;
  }

  lemma FindsCluster(s: State, c: nat, u: State) returns (t: State)
    requires c < |s.callers| && ComesTo(s, c, u) && u == Goto(s, c, GetJob(true)) && AllThere(s, c)
    ensures ComesTo(s, c, t) && t == Goto(s, c, Done(Existing))
  {
    OneMore(s, c, u);
    t := JobStep(u, c, Fine);
    assert t == Goto(s, c, GetService(ForJob(s.job.value.uid)));
    t := FindsService(s, c, t, s.job.value.uid);
  }

  lemma FindsService(s: State, c: nat, u: State, uid: nat) returns (t: State)
    requires c < |s.callers| && ComesTo(s, c, u) && u == Goto(s, c, GetService(ForJob(uid))) && Ours(s, c)
    requires s.service.value.owner == Some(uid)
    ensures ComesTo(s, c, t) && t == Goto(s, c, Done(Existing))
  {
    OneMore(s, c, u);
    t := ServiceStep(u, c, Fine);
    assert t == Goto(s, c, GetOwner(uid, false));
    OneMore(s, c, t);
    t := ServiceStep(t, c, Fine);
  }

  // ---------------------------------------------------------------- callers with one plan

  /** Every store is empty or holds what the plan asks for. */
  predicate StoresFit(s: State, plan: Plan) {
    var desired := Manifest(s.runId, plan.fingerprint, plan.path);
    && (s.index.Some? ==> s.index.value == desired)
    && (plan.path in s.copies ==> s.copies[plan.path] == desired)
    && (s.service.Some? ==> s.service.value.managed && s.service.value.fingerprint == plan.fingerprint)
    && (s.job.Some? ==> s.job.value.managed && s.job.value.fingerprint == plan.fingerprint)
  }

  /** Where a caller is nothing stands in its way: what it looks up again is there, and when its update is out of date
      the Service has the owner it wants. */
  ghost predicate OnItsWay(s: State, plan: Plan, c: nat)
    requires c < |s.callers|
  {
    var p := s.callers[c].phase;
    && s.callers[c].plan == plan
    && p != RollBack && p != Done(Failed)
    && (p == ReadIndex ==> s.index.Some?)
    && (p.ReadCopy? ==> plan.path in s.copies)
    && (p.RegetService? || p == CreateJob || p == RegetJob || p.GetOwner? || p.UpdateOwner? ==> s.service.Some?)
    && (p == RegetJob ==> s.job.Some?)
    && (Target(p).Some? ==> s.job.Some? && s.job.value.uid == Target(p).value)
    && (p.UpdateOwner? && s.service.value.version != p.version ==> s.service.value.owner == Some(p.uid))
    && (s.callers[c].jobsMade > 0 ==> Winner(p))
    && (p == Done(Existing) ==> s.job.Some?)
  }

  ghost predicate AllOnTheirWay(s: State, plan: Plan) {
    StoresFit(s, plan) && forall c | 0 <= c < |s.callers| :: OnItsWay(s, plan, c)
  }

  /** Only caller c moved, no store lost what it held, and a new version of the Service is owned by the Job. */
  ghost predicate Advances(s: State, t: State, c: nat) {
    && c < |s.callers| == |t.callers| && t.runId == s.runId && t.callers == s.callers[c := t.callers[c]]
    && (s.index.Some? ==> t.index.Some?)
    && (forall p | p in s.copies :: p in t.copies)
    && (s.job.Some? ==> t.job == s.job)
    && (s.service.Some? ==> t.service.Some? && (t.service == s.service || OwnedByJob(t)))
  }

  predicate OwnedByJob(s: State) {
    s.job.Some? && s.service.Some? && s.service.value.owner == Some(s.job.value.uid)
  }

  /** One caller's step leaves the others on their way. */
  lemma OthersStayOnTheirWay(s: State, t: State, plan: Plan, c: nat, d: nat)
    requires Advances(s, t, c) && d < |s.callers| && d != c && OnItsWay(s, plan, d)
    ensures OnItsWay(t, plan, d)
  {
  }

  lemma ManifestSucceeds(s: State, plan: Plan, c: nat)
    requires StoresFit(s, plan) && c < |s.callers| && OnItsWay(s, plan, c) && OnManifest(s.callers[c].phase)
    ensures var t := ManifestStep(s, c, Fine); Advances(s, t, c) && StoresFit(t, plan) && OnItsWay(t, plan, c)
  {
  }

  lemma UpsertSucceeds(s: State, plan: Plan, c: nat)
    requires StoresFit(s, plan) && c < |s.callers| && OnItsWay(s, plan, c) && OnService(s.callers[c].phase)
    requires !s.callers[c].phase.GetOwner? && !s.callers[c].phase.UpdateOwner?
    ensures var t := ServiceStep(s, c, Fine); Advances(s, t, c) && StoresFit(t, plan) && OnItsWay(t, plan, c)
  {
  }

  lemma OwnerSucceeds(s: State, plan: Plan, c: nat)
    requires StoresFit(s, plan) && c < |s.callers| && OnItsWay(s, plan, c)
    requires s.callers[c].phase.GetOwner? || s.callers[c].phase.UpdateOwner?
    ensures var t := ServiceStep(s, c, Fine); Advances(s, t, c) && StoresFit(t, plan) && OnItsWay(t, plan, c)
  {
  }

  lemma JobIsFound(s: State, plan: Plan, c: nat)
    requires StoresFit(s, plan) && c < |s.callers| && OnItsWay(s, plan, c)
    requires OnJob(s.callers[c].phase) && s.callers[c].phase != CreateJob
    ensures var t := JobStep(s, c, Fine); Advances(s, t, c) && StoresFit(t, plan) && OnItsWay(t, plan, c)
  {
  }

  lemma JobIsCreated(s: State, plan: Plan, c: nat)
    requires StoresFit(s, plan) && c < |s.callers| && OnItsWay(s, plan, c) && s.callers[c].phase == CreateJob
    ensures var t := JobStep(s, c, Fine); Advances(s, t, c) && StoresFit(t, plan) && OnItsWay(t, plan, c)
  {
  }

  /** Nothing is deleted and nothing fails. */
  predicate Undisturbed(acts: seq<Action>) {
    forall i | 0 <= i < |acts| :: acts[i].Produce? || (acts[i].Call? && acts[i].fault == Fine)
  }

  /** Every caller has the same plan, and the stores are empty or already hold what it asks for. */
  ghost predicate OnePlan(s: State, plan: Plan) {
    StoresFit(s, plan) && forall c | 0 <= c < |s.callers| :: s.callers[c].plan == plan
  }

  lemma CallSucceeds(s: State, plan: Plan, c: nat)
    requires StoresFit(s, plan) && c < |s.callers| && OnItsWay(s, plan, c) && !s.callers[c].phase.Done?
    ensures var t := CallStep(s, c, Fine); Advances(s, t, c) && StoresFit(t, plan) && OnItsWay(t, plan, c)
  {
    var p := s.callers[c].phase;
    if OnManifest(p) {
      ManifestSucceeds(s, plan, c);
    } else if OnService(p) {
      if p.GetOwner? || p.UpdateOwner? { OwnerSucceeds(s, plan, c); } else { UpsertSucceeds(s, plan, c); }
    } else {
      if p == CreateJob { JobIsCreated(s, plan, c); } else { JobIsFound(s, plan, c); }
    }
  }

  lemma AllStayOnTheirWay(s: State, plan: Plan, a: Action)
    requires AllOnTheirWay(s, plan) && Enabled(s, a) && (a.Produce? || (a.Call? && a.fault == Fine))
    ensures AllOnTheirWay(Apply(s, a), plan)
  {
    var t := Apply(s, a);
    if a.Call? {
      assert OnItsWay(s, plan, a.c);
      CallSucceeds(s, plan, a.c);
      forall d | 0 <= d < |t.callers| ensures OnItsWay(t, plan, d) {
        if d != a.c { OthersStayOnTheirWay(s, t, plan, a.c, d); }
      }
    } else {
      forall d | 0 <= d < |t.callers| ensures OnItsWay(t, plan, d) { assert OnItsWay(s, plan, d); }
    }
  }

  lemma {:induction false} RunStaysOnItsWay(run: seq<State>, acts: seq<Action>, plan: Plan, i: nat)
    requires IsRun(run, acts) && Undisturbed(acts) && OnePlan(run[0], plan) && i < |run|
    ensures AllOnTheirWay(run[i], plan)
  {
    if i > 0 {
      RunStaysOnItsWay(run, acts, plan, i - 1);
      assert StepAt(run, acts, i - 1);
      AllStayOnTheirWay(run[i - 1], plan, acts[i - 1]);
    }
  }

  /** However callers with one plan interleave, nobody rolls back and nobody is answered "failed"; and whenever one
      of them tries to update the Service, with success or too late, the Service is owned by the Job from then on. */
  lemma NobodyFails(run: seq<State>, acts: seq<Action>, plan: Plan, i: nat, c: nat)
    requires IsRun(run, acts) && Undisturbed(acts) && OnePlan(run[0], plan) && i < |run| && c < |run[i].callers|
    ensures run[i].callers[c].phase != RollBack && run[i].callers[c].phase != Done(Failed)
    ensures i + 1 < |run| && acts[i] == Call(c, Fine) && run[i].callers[c].phase.UpdateOwner? ==>
              c < |run[i + 1].callers| && OwnedByJob(run[i + 1])
  {
    RunStaysOnItsWay(run, acts, plan, i);
    assert OnItsWay(run[i], plan, c);
    if i + 1 < |run| { assert StepAt(run, acts, i); }
  }

  /** When all callers of one plan are answered, and not all of them that the run is archived, then exactly one is
      answered "created" if there was no Job at first, and none if there was. */
  lemma ExactlyOneCreates(run: seq<State>, acts: seq<Action>, plan: Plan, i: nat, c: nat) returns (w: nat)
    requires IsRun(run, acts) && Undisturbed(acts) && OnePlan(run[0], plan) && i < |run|
    requires forall d | 0 <= d < |run[i].callers| :: run[i].callers[d].phase.Done?
    requires c < |run[i].callers| && run[i].callers[c].phase != Done(Archived)
    ensures run[0].job.Some? ==>
              forall d | 0 <= d < |run[i].callers| :: run[i].callers[d].phase in {Done(Existing), Done(Archived)}
    ensures run[0].job.None? ==> w < |run[i].callers| && run[i].callers[w].phase == Done(Created)
    ensures run[0].job.None? ==>
              forall d | 0 <= d < |run[i].callers| && d != w :: run[i].callers[d].phase in {Done(Existing), Done(Archived)}
  {
    var s, had := run[i], run[0].job.Some?;
    RunInv(run, acts, i);
    RunStaysOnItsWay(run, acts, plan, i);
    AtMostOneJob(run, acts, i);
    assert CallerInv(s, had, c) && OnItsWay(s, plan, c);
    w := c;
    if !had {
      w := SomeWeight(MadeBy, s.callers);
      assert OnItsWay(s, plan, w);
    }
    forall d | 0 <= d < |s.callers|
      ensures s.callers[d].phase == Done(Existing) || s.callers[d].phase == Done(Archived)
        || (!had && d == w && s.callers[d].phase == Done(Created))
    {
      assert CallerInv(s, had, d) && OnItsWay(s, plan, d);
      TotalAtLeast(MadeBy, s.callers, d, d);
    }
  }

  // ---------------------------------------------------------------- faults

  /** Requests to the cluster, and the removal of the manifest, take effect before their reply can be lost. */
  predicate Requests(p: Phase) { p.CreateService? || p.UpdateOwner? || p == CreateJob || p == RollBack }

  /** A fault ends the submission: the caller is answered "failed", after taking back the manifest it made, if it still
      can.  A step that breaks leaves the stores alone; one whose reply is lost does to them what it would have done. */
  lemma FaultsAreReported(s: State, c: nat, f: Fault)
    requires c < |s.callers| && !s.callers[c].phase.Done? && f != Fine
    ensures var p := s.callers[c].phase;
            CallStep(s, c, f).callers[c].phase == if CanRollBack(p) && p != RollBack then RollBack else Done(Failed)
    ensures SameStores(CallStep(s, c, f),
                       if f == ReplyLost && Requests(s.callers[c].phase) then CallStep(s, c, Fine) else s)
  {
    var p := s.callers[c].phase;
    if p.CreateService? || p.UpdateOwner? {
      assert CallStep(s, c, f) == ServiceStep(s, c, f);
    } else if OnService(p) {
      assert CallStep(s, c, f) == ServiceStep(s, c, f);
    } else if OnJob(p) {
      assert CallStep(s, c, f) == JobStep(s, c, f);
    }
  }

  // ---------------------------------------------------------------- updates of the Service

  /** A Service once there stays, and every change of it is a new version. */
  predicate NewVersions(s: State, t: State) {
    s.service.Some? ==>
      && t.service.Some? && s.service.value.version <= t.service.value.version
      && (t.service.value.version == s.service.value.version ==> t.service == s.service)
  }

  lemma CallNewVersions(s: State, c: nat, f: Fault)
    requires c < |s.callers|
    ensures NewVersions(s, CallStep(s, c, f))
  {
    if OnService(s.callers[c].phase) {
      assert CallStep(s, c, f) == ServiceStep(s, c, f);
    } else if OnJob(s.callers[c].phase) {
      assert CallStep(s, c, f) == JobStep(s, c, f);
    }
  }

  lemma {:induction false} RunNewVersions(run: seq<State>, acts: seq<Action>, i: nat, j: nat)
    requires IsPath(run, acts) && NoDeletion(acts) && i <= j < |run|
    ensures NewVersions(run[i], run[j])
    decreases j
  {
    if i < j {
      RunNewVersions(run, acts, i, j - 1);
      assert StepAt(run, acts, j - 1);
      if acts[j - 1].Call? { CallNewVersions(run[j - 1], acts[j - 1].c, acts[j - 1].fault); }
    }
  }

  /** An update that takes effect finds the Service as it was when the caller read it, whatever others did meanwhile. */
  lemma UpdatesAreNotStale(run: seq<State>, acts: seq<Action>, i: nat, j: nat, c: nat, uid: nat, isNew: bool)
    requires IsPath(run, acts) && NoDeletion(acts) && i < j < |acts| && c < |run[i].callers| && c < |run[j].callers|
    requires acts[i] == Call(c, Fine) && run[i].callers[c].phase == GetOwner(uid, isNew) && run[i].service.Some?
    requires acts[j].Call? && acts[j].c == c
    requires run[j].callers[c].phase == UpdateOwner(uid, isNew, run[i].service.value.version)
    ensures c < |run[i + 1].callers|
    ensures run[i + 1].callers[c].phase.UpdateOwner? ==>
              run[i + 1].callers[c].phase == UpdateOwner(uid, isNew, run[i].service.value.version)
    ensures run[j + 1].service != run[j].service ==>
              run[j].service == run[i].service
              && run[j + 1].service == Some(run[i].service.value.(owner := Some(uid), version := run[i].service.value.version + 1))
  {
    RunNewVersions(run, acts, i, j);
    assert StepAt(run, acts, i) && StepAt(run, acts, j);
  }
}
