/**
 When a run that was archived can be repeated: the index manifest and its artifacts are there, a caller begins, and
 the question is whether it can still come to create a Job.
 */
module SubmissionRepeat {
  import opened Shared
  import opened Submission

  /** The manifest a caller wants. */
  function Desired(s: State, c: nat): Manifest
    requires c < |s.callers|
  {
    Manifest(s.runId, s.callers[c].plan.fingerprint, s.callers[c].plan.path)
  }

  /** The place of the copy in the caller's result directory is free, or holds the caller's own manifest. */
  predicate SlotOpen(s: State, c: nat)
    requires c < |s.callers|
  {
    s.callers[c].plan.path !in s.copies || s.copies[s.callers[c].plan.path] == Desired(s, c)
  }

  ghost predicate SomebodyCanRollBack(s: State) { exists d | 0 <= d < |s.callers| :: CanRollBack(s.callers[d].phase) }

  /** A caller begins when the index manifest is there, and its artifacts. */
  predicate BeginsArchived(s: State, c: nat) {
    && c < |s.callers| && s.callers[c].phase == LinkIndex
    && s.index.Some? && s.index.value.path in s.artifacts
  }

  ghost predicate Creates(path: seq<State>, acts: seq<Action>, s: State, c: nat)
    requires c < |s.callers|
  {
    && IsPath(path, acts) && path[0] == s
    && c < |path[|acts|].callers| && path[|acts|].callers[c].jobsMade > s.callers[c].jobsMade
  }

  /** Some continuation, whatever the other callers, the stores and the cluster do, has the caller create a Job. */
  ghost predicate MayCreateJob(s: State, c: nat)
    requires c < |s.callers|
  {
    exists path, acts :: Creates(path, acts, s, c)
  }

  // ---------------------------------------------------------------- a taken slot

  /** The caller's slot holds another manifest, and it has not come past it. */
  ghost predicate Blocked(s: State, c: nat, jobsMade: nat) {
    && c < |s.callers| && !SlotOpen(s, c) && s.callers[c].jobsMade == jobsMade
    && (OnManifest(s.callers[c].phase) || s.callers[c].phase == Done(Failed))
  }

  /** Only caller d moved, and nobody changed a copy, a plan or the run id. */
  predicate Moved(s: State, t: State, d: nat) {
    && d < |s.callers| == |t.callers| && t.runId == s.runId
    && t.callers == s.callers[d := t.callers[d]] && t.callers[d].plan == s.callers[d].plan
    && forall p | p in s.copies :: p in t.copies && t.copies[p] == s.copies[p]
  }

  lemma ManifestMoves(s: State, d: nat, f: Fault)
    requires d < |s.callers|
    ensures Moved(s, ManifestStep(s, d, f), d)
  {
  }

  lemma ServiceMoves(s: State, d: nat, f: Fault)
    requires d < |s.callers|
    ensures Moved(s, ServiceStep(s, d, f), d)
  {
  }

  lemma JobMoves(s: State, d: nat, f: Fault)
    requires d < |s.callers|
    ensures Moved(s, JobStep(s, d, f), d)
  {
  }

  lemma CallMoves(s: State, d: nat, f: Fault)
    requires d < |s.callers|
    ensures Moved(s, CallStep(s, d, f), d)
  {
    ManifestMoves(s, d, f);
    ServiceMoves(s, d, f);
    JobMoves(s, d, f);
  }

  lemma BlockedCall(s: State, c: nat, f: Fault)
    requires c < |s.callers| && !SlotOpen(s, c) && OnManifest(s.callers[c].phase)
    ensures var t := CallStep(s, c, f);
            && t.callers[c].jobsMade == s.callers[c].jobsMade
            && (OnManifest(t.callers[c].phase) || t.callers[c].phase == Done(Failed))
  {
  }

  lemma BlockedStep(s: State, c: nat, jobsMade: nat, a: Action)
    requires Blocked(s, c, jobsMade) && Enabled(s, a)
    ensures Blocked(Apply(s, a), c, jobsMade)
  {
    if a.Call? {
      CallMoves(s, a.c, a.fault);
      if a.c == c { BlockedCall(s, c, a.fault); }
    }
  }

  lemma {:induction false} BlockedForGood(path: seq<State>, acts: seq<Action>, i: nat, j: nat, c: nat, jobsMade: nat)
    requires IsPath(path, acts) && i <= j < |path| && Blocked(path[i], c, jobsMade)
    ensures Blocked(path[j], c, jobsMade)
    decreases j - i
  {
    if i < j {
      BlockedForGood(path, acts, i, j - 1, c, jobsMade);
      assert StepAt(path, acts, j - 1);
      BlockedStep(path[j - 1], c, jobsMade, acts[j - 1]);
    }
  }

  /** A submission that begins once the manifest and its artifacts exist never creates a Job, whatever is deleted
      meanwhile, if nobody can still roll the manifest back or the caller's slot holds another manifest. */
  lemma {:induction false} ArchivedRunIsNotRepeated(path: seq<State>, acts: seq<Action>, i: nat, j: nat, c: nat)
    requires IsPath(path, acts) && i <= j < |path| && BeginsArchived(path[i], c)
    requires !SomebodyCanRollBack(path[i]) || !SlotOpen(path[i], c)
    ensures c < |path[j].callers|
    ensures path[j].callers[c].jobsMade == path[i].callers[c].jobsMade && path[j].callers[c].phase != Done(Created)
  {
    if SlotOpen(path[i], c) {
      ArchiveRun(path, acts, i, j, c, path[i].callers[c].jobsMade);
    } else {
      BlockedForGood(path, acts, i, j, c, path[i].callers[c].jobsMade);
    }
  }

  // ---------------------------------------------------------------- the way to a second Job

  ghost predicate Reaches(s: State, t: State) { exists path, acts :: Leads(path, acts, s, t) }

  ghost predicate Leads(path: seq<State>, acts: seq<Action>, s: State, t: State) {
    IsPath(path, acts) && path[0] == s && path[|acts|] == t
  }

  lemma Stay(s: State)
    ensures Reaches(s, s)
  {
    assert Leads([s], [], s, s);
  }

  lemma ReachStep(s: State, t: State, a: Action)
    requires Reaches(s, t) && Enabled(t, a)
    ensures Reaches(s, Apply(t, a))
  {
    var path, acts :| Leads(path, acts, s, t);
    var longer, more := path + [Apply(t, a)], acts + [a];
    forall i | 0 <= i < |more| ensures StepAt(longer, more, i) {
      if i < |acts| { assert StepAt(path, acts, i); }
    }
    assert Leads(longer, more, s, Apply(t, a));
  }

  /** Nothing is left of the run but copies: no index, no Service, no Job. */
  predicate Cleared(s: State, t: State, c: nat) {
    && c < |s.callers| == |t.callers| && t.index.None? && t.service.None? && t.job.None?
    && t.runId == s.runId && t.copies == s.copies && t.callers[c] == s.callers[c]
  }

  /** The Job and the Service are deleted, and the maker of the manifest rolls it back. */
  lemma RollsBack(s: State, c: nat, d: nat) returns (t: State)
    requires c < |s.callers| && d < |s.callers| && c != d && CanRollBack(s.callers[d].phase)
    ensures Reaches(s, t) && Cleared(s, t, c)
  {
    Stay(s);
    ReachStep(s, s, DeleteJob);
    t := Apply(s, DeleteJob);
    ReachStep(s, t, DeleteService);
    t := Apply(t, DeleteService);
    if t.callers[d].phase != RollBack {
      ReachStep(s, t, Call(d, Broken));
      t := Apply(t, Call(d, Broken));
    }
    ReachStep(s, t, Call(d, Fine));
    t := Apply(t, Call(d, Fine));
  }

  /** The caller has its manifest made, and finds no Job. */
  lemma MakesManifest(s: State, t: State, c: nat) returns (u: State)
    requires Reaches(s, t) && c < |t.callers| && t.callers[c].phase == LinkIndex && SlotOpen(t, c)
    requires t.index.None? && t.service.None? && t.job.None?
    ensures Reaches(s, u) && c < |u.callers| && u.callers[c] == t.callers[c].(phase := GetJob(false))
    ensures u.service.None? && u.job.None?
  {
    ReachStep(s, t, Call(c, Fine));
    u := Apply(t, Call(c, Fine));
    assert u.callers[c].phase == LinkCopy(true);
    ReachStep(s, u, Call(c, Fine));
    u := Apply(u, Call(c, Fine));
    if u.callers[c].phase == ReadCopy(true) {
      ReachStep(s, u, Call(c, Fine));
      u := Apply(u, Call(c, Fine));
    }
  }

  lemma MakesService(s: State, t: State, c: nat) returns (u: State)
    requires Reaches(s, t) && c < |t.callers| && t.callers[c].phase == GetJob(false) && t.service.None? && t.job.None?
    ensures Reaches(s, u) && c < |u.callers| && u.callers[c] == t.callers[c].(phase := CreateJob) && u.job.None?
  {
    ReachStep(s, t, Call(c, Fine));
    u := Apply(t, Call(c, Fine));
    assert u.callers[c].phase == GetService(ForCreate);
    ReachStep(s, u, Call(c, Fine));
    u := Apply(u, Call(c, Fine));
    assert u.callers[c].phase == CreateService(ForCreate);
    ReachStep(s, u, Call(c, Fine));
    u := Apply(u, Call(c, Fine));
  }

  lemma MakesJob(s: State, t: State, c: nat) returns (u: State)
    requires Reaches(s, t) && c < |t.callers| && t.callers[c].phase == CreateJob && t.job.None?
    ensures Reaches(s, u) && c < |u.callers| && u.callers[c].jobsMade == t.callers[c].jobsMade + 1
  {
    ReachStep(s, t, Call(c, Fine));
    u := Apply(t, Call(c, Fine));
  }

  /** If somebody can roll back and the slot is open, the caller may yet create a Job. */
  lemma RollbackRepeats(s: State, c: nat)
    requires c < |s.callers| && s.callers[c].phase == LinkIndex && SomebodyCanRollBack(s) && SlotOpen(s, c)
    ensures MayCreateJob(s, c)
  {
    var d :| 0 <= d < |s.callers| && CanRollBack(s.callers[d].phase);
    var t := RollsBack(s, c, d);
    var u := MakesManifest(s, t, c);
    var v := MakesService(s, u, c);
    var w := MakesJob(s, v, c);
    var path, acts :| Leads(path, acts, s, w);
    assert Creates(path, acts, s, c);
  }

  /** Of a caller that begins when the manifest and its artifacts are there: it may come to create a Job exactly when
      somebody can still roll the manifest back and the caller's slot is free or already its own. */
  lemma RepeatedIff(s: State, c: nat)
    requires BeginsArchived(s, c)
    ensures MayCreateJob(s, c) <==> SomebodyCanRollBack(s) && SlotOpen(s, c)
  {
    if SomebodyCanRollBack(s) && SlotOpen(s, c) {
      RollbackRepeats(s, c);
    } else {
      forall path, acts ensures !Creates(path, acts, s, c) {
        if IsPath(path, acts) && path[0] == s { ArchivedRunIsNotRepeated(path, acts, 0, |acts|, c); }
      }
    }
  }
}
