/**
 Why a persisted manifest must be past its maker's rollback: a run of the submission protocol in which the manifest,
 its artifacts and a finished Job are all there, and yet a later submission creates a second Job.
 */
module SubmissionStory {
  import opened Shared
  import opened Submission

  const PLAN := Plan("print", "runs/a")
  const MANIFEST := Manifest("a", "print", "runs/a")

  /** The maker of the index manifest, which is slow to write the copy. */
  function Maker(i: nat): Phase {
    if i < 1 then LinkIndex else if i < 14 then LinkCopy(true) else if i < 15 then RollBack else Done(Failed)
  }

  /** A second caller, which finds the manifest and goes on to create the Job. */
  function Second(i: nat): Phase {
    if i < 2 then LinkIndex
    else if i < 3 then ReadIndex
    else if i < 4 then LinkCopy(false)
    else if i < 5 then GetJob(true)
    else if i < 6 then CheckArtifacts
    else if i < 7 then GetService(ForCreate)
    else if i < 8 then CreateService(ForCreate)
    else if i < 9 then CreateJob
    else if i < 10 then GetOwner(0, true)
    else if i < 11 then UpdateOwner(0, true, 0)
    else Done(Created)
  }

  /** A third caller, which comes last. */
  function Third(i: nat): Phase {
    if i < 16 then LinkIndex
    else if i < 17 then LinkCopy(true)
    else if i < 18 then ReadCopy(true)
    else if i < 19 then GetJob(false)
    else if i < 20 then GetService(ForCreate)
    else if i < 21 then CreateJob
    else GetOwner(1, true)
  }

  function Story(i: nat): State {
    State("a",
          if 1 <= i < 15 || i >= 16 then Some(MANIFEST) else None,
          if i >= 4 then map["runs/a" := MANIFEST] else map[],
          if i >= 12 then {"runs/a"} else {},
          if i < 8 then None else Some(Service(true, "print", if i < 11 then None else Some(0), if i < 11 then 0 else 1)),
          if 9 <= i < 13 then Some(Job(true, "print", 0)) else if i < 21 then None else Some(Job(true, "print", 1)),
          if i < 9 then 0 else if i < 21 then 1 else 2,
          [Caller(PLAN, Maker(i), 0), Caller(PLAN, Second(i), if i < 9 then 0 else 1), Caller(PLAN, Third(i), if i < 21 then 0 else 1)])
  }

  function Deed(i: nat): Action {
    if i == 0 then Call(0, Fine)
    else if i <= 10 then Call(1, Fine)
    else if i == 11 then Produce("runs/a")
    else if i == 12 then DeleteJob
    else if i == 13 then Call(0, Broken)
    else if i == 14 then Call(0, Fine)
    else Call(2, Fine)
  }

  predicate Tells(i: nat) { Enabled(Story(i), Deed(i)) && Apply(Story(i), Deed(i)) == Story(i + 1) }

  lemma Manifests()
    ensures Tells(0) && Tells(1) && Tells(2) && Tells(3)
  {
  }

  lemma NoArtifactsYet()
    ensures Tells(4) && Tells(5)
  {
  }

  lemma FirstService()
    ensures Tells(6) && Tells(7)
  {
  }

  lemma FirstJob()
    ensures Tells(8)
  {
  }

  lemma FirstOwner()
    ensures Tells(9) && Tells(10)
  {
  }

  lemma RolledBack()
    ensures Tells(11) && Tells(12) && Tells(13) && Tells(14)
  {
  }

  lemma ManifestAgain()
    ensures Tells(15) && Tells(16)
  {
  }

  lemma JobIsGone()
    ensures Tells(17) && Tells(18)
  {
  }

  lemma SecondJob()
    ensures Tells(19) && Tells(20)
  {
  }

  lemma AllOf(p: nat -> bool)
    requires p(0) && p(1) && p(2) && p(3) && p(4) && p(5) && p(6) && p(7) && p(8) && p(9) && p(10)
    requires p(11) && p(12) && p(13) && p(14) && p(15) && p(16) && p(17) && p(18) && p(19) && p(20)
    ensures forall i | 0 <= i < 21 :: p(i)
  {
  }

  lemma EveryDeed()
    ensures forall i | 0 <= i < 21 :: Tells(i)
  {
    Manifests();
    NoArtifactsYet();
    FirstService();
    FirstJob();
    FirstOwner();
    RolledBack();
    ManifestAgain();
    JobIsGone();
    SecondJob();
    var tells := (i: nat) => Tells(i);
    AllOf(tells);
    forall i | 0 <= i < 21 ensures Tells(i) { assert tells(i); }
  }

  /** At moment 13 the manifest is there, its artifacts are there, the Job is gone and the third caller has not begun;
      at moment 21 the third caller has created another Job.  The maker of the manifest rolled it back in between. */
  lemma SlowMakerRepeatsARun() returns (run: seq<State>, acts: seq<Action>)
    ensures IsRun(run, acts) && |run| == 22 && |run[13].callers| == |run[21].callers| == 3
    ensures run[13].index == Some(MANIFEST) && MANIFEST.path in run[13].artifacts && run[13].job.None?
    ensures run[13].callers[2] == Caller(PLAN, LinkIndex, 0) && !Persisted(run[13])
    ensures run[21].callers[2].jobsMade == 1 && JobsMade(run[21].callers) == 2
  {
    run := seq(22, i requires 0 <= i < 22 => Story(i));
    acts := seq(21, i requires 0 <= i < 21 => Deed(i));
    EveryDeed();
    forall i | 0 <= i < |acts| ensures StepAt(run, acts, i) { assert Tells(i); }
    var cs := run[21].callers;
    TotalAppend(MadeBy, cs[..2], cs[2]);
    TotalAppend(MadeBy, cs[..1], cs[1]);
    TotalAppend(MadeBy, [], cs[0]);
    assert cs == cs[..2] + [cs[2]] && cs[..2] == cs[..1] + [cs[1]] && cs[..1] == [] + [cs[0]];
    assert run[13].callers[0].phase == LinkCopy(true);
  }
}
