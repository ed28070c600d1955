/**
 How the barrier server depends on the worker ids in use, which it never checks: with no more ids than a barrier
 waits for, every late handler is turned away; with one id more, some late handler is left waiting for ever.
 */
module BarrierIds {
  import opened Shared
  import opened BarrierServer
  import opened BarrierSafety

  // ---------------------------------------------------------------- late handlers

  /** The handler holds a state that was already released when it comes to lock it. */
  predicate Late(s: Server, h: nat) {
    InPhase(s, h, Fetched) && Attached(s, h) && s.gens[s.handlers[h].gen.value].broadcasts > 0
  }

  /** Over every run with these ids, every late handler finds its worker registered. */
  ghost predicate AllLateRejected(n: nat, ids: set<int>) {
    forall run: seq<Server>, acts: seq<Action>, i: nat, h: nat
      | IsRun(run, acts) && run[0].workers == n && run[0].ids == ids && i < |run| && Late(run[i], h) :: Duplicate(run[i], h)
  }

  lemma {:induction false} RunKeeps(run: seq<Server>, acts: seq<Action>, i: nat)
    requires IsRun(run, acts) && i < |run|
    ensures run[i].workers == run[0].workers && run[i].ids == run[0].ids
  {
    if i > 0 {
      RunKeeps(run, acts, i - 1);
      assert StepAt(run, acts, i - 1);
    }
  }

  lemma LateIsDuplicate(run: seq<Server>, acts: seq<Action>, i: nat, h: nat)
    requires IsRun(run, acts) && i < |run| && FewIds(run[0]) && Late(run[i], h)
    ensures Duplicate(run[i], h)
  {
    RunInv(run, acts, i);
    var s := run[i];
    var g := s.handlers[h].gen.value;
    assert HandlerInv(s, h) && GenerationInv(s, g);
    FullReady(s.gens[g].ready, s.ids, s.workers);
  }

  // ---------------------------------------------------------------- a run with one id too many

  ghost predicate Reaches(n: nat, ids: set<int>, s: Server) {
    exists run, acts :: Witness(run, acts, n, ids, s)
  }

  ghost predicate Witness(run: seq<Server>, acts: seq<Action>, n: nat, ids: set<int>, s: Server) {
    IsRun(run, acts) && run[0].workers == n && run[0].ids == ids && run[|run| - 1] == s
  }

  lemma ReachStep(n: nat, ids: set<int>, s: Server, a: Action)
    requires Reaches(n, ids, s) && Enabled(s, a) && KnownWorker(s, a)
    ensures Reaches(n, ids, Apply(s, a))
  {
    var run, acts :| Witness(run, acts, n, ids, s);
    var longer, more := run + [Apply(s, a)], acts + [a];
    forall i | 0 <= i < |more| ensures StepAt(longer, more, i) {
      if i < |acts| { assert StepAt(run, acts, i); }
    }
    assert Witness(longer, more, n, ids, Apply(s, a));
  }

  predicate Distinct(list: seq<int>) { forall i, j | 0 <= i < j < |list| :: list[i] != list[j] }

  lemma Member(ids: set<int>) returns (x: int)
    requires |ids| > 0
    ensures x in ids
  {
    assert (forall y :: y !in ids) ==> ids == {};
    x :| x in ids;
  }

  lemma {:induction false} Enumerate(ids: set<int>, m: nat) returns (list: seq<int>)
    requires m <= |ids|
    ensures |list| == m && Distinct(list) && forall i | 0 <= i < m :: list[i] in ids
  {
    if m == 0 {
      list := [];
    } else {
      var x := Member(ids);
      var rest := Enumerate(ids - {x}, m - 1);
      list := [x] + rest;
    }
  }

  /** The first k of the list have arrived at barrier 0. */
  ghost predicate HaveArrived(s: Server, list: seq<int>, k: nat) {
    && k <= |list| && |s.handlers| == k && s.gens == [] && s.barriers == map[]
    && forall i | 0 <= i < k :: s.handlers[i] == Handler(list[i], 0, Arrived, None, [])
  }

  /** All have arrived, and the first k hold the one state of barrier 0. */
  ghost predicate HaveFetched(s: Server, list: seq<int>, k: nat) {
    && k <= |list| == |s.handlers|
    && s.gens == (if k == 0 then [] else [Generation(0, map[], 0, 0, None)])
    && s.barriers == (if k == 0 then map[] else map[0 := 0])
    && (forall i | 0 <= i < k :: s.handlers[i] == Handler(list[i], 0, Fetched, Some(0), []))
    && forall i | k <= i < |list| :: s.handlers[i] == Handler(list[i], 0, Arrived, None, [])
  }

  /** The first k have registered in it, the others still hold it. */
  ghost predicate HaveLocked(s: Server, list: seq<int>, k: nat) {
    && k <= |list| == |s.handlers| && |s.gens| == 1 && |s.gens[0].ready| == k
    && (forall w :: w in s.gens[0].ready ==> w in list[..k])
    && (k == s.workers ==> s.gens[0].broadcasts > 0)
    && forall i | k <= i < |list| ::
      s.handlers[i].worker == list[i] && s.handlers[i].phase == Fetched && s.handlers[i].gen == Some(0)
  }

  lemma {:induction false} ArriveAll(n: nat, ids: set<int>, list: seq<int>, k: nat) returns (s: Server)
    requires n >= 1 && k <= |list| && forall i | 0 <= i < |list| :: list[i] in ids
    ensures Reaches(n, ids, s) && s.workers == n && s.ids == ids && HaveArrived(s, list, k)
  {
    if k == 0 {
      s := Server(n, ids, [], [], map[]);
      assert Witness([s], [], n, ids, s);
    } else {
      var t := ArriveAll(n, ids, list, k - 1);
      ReachStep(n, ids, t, Arrive(list[k - 1], 0));
      s := Apply(t, Arrive(list[k - 1], 0));
    }
  }

  lemma {:induction false} FetchAll(n: nat, ids: set<int>, list: seq<int>, k: nat) returns (s: Server)
    requires n >= 1 && k <= |list| && forall i | 0 <= i < |list| :: list[i] in ids
    ensures Reaches(n, ids, s) && s.workers == n && s.ids == ids && HaveFetched(s, list, k)
  {
    if k == 0 {
      s := ArriveAll(n, ids, list, |list|);
    } else {
      var t := FetchAll(n, ids, list, k - 1);
      ReachStep(n, ids, t, Fetch(k - 1));
      s := Apply(t, Fetch(k - 1));
    }
  }

  lemma LockOne(s: Server, list: seq<int>, k: nat)
    requires HaveLocked(s, list, k) && k < s.workers < |list| && Distinct(list)
    ensures Enabled(s, Lock(k, 0)) && HaveLocked(Apply(s, Lock(k, 0)), list, k + 1)
  {
    assert list[k] !in list[..k];
    var t := Apply(s, Lock(k, 0));
    assert list[..k + 1] == list[..k] + [list[k]];
    assert t.gens[0].ready == s.gens[0].ready[list[k] := k];
  }

  lemma {:induction false} LockSome(n: nat, ids: set<int>, list: seq<int>, k: nat) returns (s: Server)
    requires n >= 1 && k <= n < |list| && Distinct(list) && forall i | 0 <= i < |list| :: list[i] in ids
    ensures Reaches(n, ids, s) && s.workers == n && s.ids == ids && HaveLocked(s, list, k)
  {
    if k == 0 {
      s := FetchAll(n, ids, list, |list|);
    } else {
      var t := LockSome(n, ids, list, k - 1);
      LockOne(t, list, k - 1);
      ReachStep(n, ids, t, Lock(k - 1, 0));
      s := Apply(t, Lock(k - 1, 0));
    }
  }

  lemma OneIdTooMany(n: nat, ids: set<int>)
    requires n >= 1 && |ids| > n
    ensures !AllLateRejected(n, ids)
  {
    var list := Enumerate(ids, n + 1);
    var s := LockSome(n, ids, list, n);
    var run, acts :| Witness(run, acts, n, ids, s);
    assert list[n] !in list[..n];
    assert Late(run[|run| - 1], n) && !Duplicate(run[|run| - 1], n);
  }

  /** Exactly when no more ids are in use than a barrier waits for is every late handler of every run rejected as a
      duplicate. */
  lemma LateHandlersRejectedIff(n: nat, ids: set<int>)
    requires n >= 1
    ensures AllLateRejected(n, ids) <==> |ids| <= n
  {
    if |ids| > n {
      OneIdTooMany(n, ids);
    } else {
      forall run: seq<Server>, acts: seq<Action>, i: nat, h: nat
        | IsRun(run, acts) && run[0].workers == n && run[0].ids == ids && i < |run| && Late(run[i], h)
        ensures Duplicate(run[i], h)
      {
        LateIsDuplicate(run, acts, i, h);
      }
    }
  }

  // ---------------------------------------------------------------- what becomes of a late handler

  /** The handler is registered in a state with more registrations than release it, and was sent nothing. */
  predicate Stranded(s: Server, g: nat, h: nat) {
    && g < |s.gens| && |s.gens[g].ready| > s.workers
    && h < |s.handlers| && s.handlers[h].gen == Some(g) && s.handlers[h].sent == []
    && (s.handlers[h].phase == Waiting || s.handlers[h].phase == Cancelled)
  }

  /** A late handler is turned away, or stranded. */
  lemma LateIsRejectedOrStranded(run: seq<Server>, acts: seq<Action>, i: nat, h: nat, now: Time)
    requires IsRun(run, acts) && i < |run| && Late(run[i], h)
    ensures Enabled(run[i], Lock(h, now))
    ensures if Duplicate(run[i], h) then Apply(run[i], Lock(h, now)) == SetPhase(run[i], h, Rejected)
            else Stranded(Apply(run[i], Lock(h, now)), run[i].handlers[h].gen.value, h)
  {
    SafeRun(run, acts, i);
    var s := run[i];
    var g := s.handlers[h].gen.value;
    assert HandlerSafe(s, h) && GenerationSafe(s, g);
    if !Duplicate(s, h) {
      assert |s.gens[g].ready[s.handlers[h].worker := h]| == |s.gens[g].ready| + 1;
    }
  }

  lemma StrandedLock(s: Server, k: nat, now: Time, g: nat, h: nat)
    requires Safe(s) && Stranded(s, g, h) && Enabled(s, Lock(k, now))
    ensures var t := Apply(s, Lock(k, now));
            Stranded(t, g, h) && t.gens[g].broadcasts == s.gens[g].broadcasts && t.handlers[h].phase == s.handlers[h].phase
  {
    var t := Apply(s, Lock(k, now));
    var own := s.handlers[k].gen.value;
    if Completes(s, k) && Listed(s.gens[own].ready[s.handlers[k].worker := k], h) {
      Reached(s, k, h);
    }
  }

  lemma StrandedStep(s: Server, a: Action, g: nat, h: nat)
    requires Safe(s) && Stranded(s, g, h) && Enabled(s, a)
    ensures var t := Apply(s, a);
            && Stranded(t, g, h) && t.gens[g].broadcasts == s.gens[g].broadcasts
            && (t.handlers[h].phase == s.handlers[h].phase || a == Cancel(h))
  {
    if a.Lock? { StrandedLock(s, a.h, a.now, g, h); }
  }

  /** From then on its state never broadcasts again, nothing is ever sent to it, it can never reply, and it waits
      until its request is cancelled. */
  lemma {:induction false} StrandedForGood(run: seq<Server>, acts: seq<Action>, i: nat, j: nat, g: nat, h: nat)
    requires IsRun(run, acts) && i <= j < |run| && Stranded(run[i], g, h)
    ensures Stranded(run[j], g, h) && !Enabled(run[j], Reply(h))
    ensures run[j].gens[g].broadcasts == run[i].gens[g].broadcasts
    ensures run[j].handlers[h].phase == run[i].handlers[h].phase || exists k | i <= k < j :: acts[k] == Cancel(h)
    decreases j - i
  {
    if i < j {
      StrandedForGood(run, acts, i, j - 1, g, h);
      SafeRun(run, acts, j - 1);
      assert StepAt(run, acts, j - 1);
      StrandedStep(run[j - 1], acts[j - 1], g, h);
    }
  }

  /** The smallest case, moment by moment: workers 1 and 0 at a barrier that waits for one. */
  function Scene(i: nat): Server {
    var one, zero := Handler(1, 0, Arrived, None, []), Handler(0, 0, Arrived, None, []);
    var holding, late := one.(phase := Fetched, gen := Some(0)), zero.(phase := Fetched, gen := Some(0));
    var released := Handler(1, 0, Deleting, Some(0), [ONE_SECOND]);
    var empty, full := Generation(0, map[], 0, 0, None), Generation(0, map[1 := 0], 1, ONE_SECOND, Some(0));
    if i == 0 then Server(1, {0, 1}, [], [], map[])
    else if i == 1 then Server(1, {0, 1}, [one], [], map[])
    else if i == 2 then Server(1, {0, 1}, [one, zero], [], map[])
    else if i == 3 then Server(1, {0, 1}, [holding, zero], [empty], map[0 := 0])
    else if i == 4 then Server(1, {0, 1}, [holding, late], [empty], map[0 := 0])
    else if i == 5 then Server(1, {0, 1}, [released, late], [full], map[0 := 0])
    else Server(1, {0, 1}, [released, late.(phase := Waiting)], [full.(ready := map[1 := 0, 0 := 1])], map[0 := 0])
  }

  lemma ArriveAndFetch()
    ensures Apply(Scene(0), Arrive(1, 0)) == Scene(1) && Apply(Scene(1), Arrive(0, 0)) == Scene(2)
    ensures Enabled(Scene(2), Fetch(0)) && Apply(Scene(2), Fetch(0)) == Scene(3)
    ensures Enabled(Scene(3), Fetch(1)) && Apply(Scene(3), Fetch(1)) == Scene(4)
  {
  }

  lemma FirstRelease()
    ensures Enabled(Scene(4), Lock(0, 0)) && Apply(Scene(4), Lock(0, 0)) == Scene(5)
  {
    var s, t := Scene(4), Apply(Scene(4), Lock(0, 0));
    var ready: map<int, nat> := map[1 := 0];
    assert s.gens[0].ready[1 := 0] == ready;
    assert ready[1] == 0 && Listed(ready, 0) && !Listed(ready, 1);
    assert Completes(s, 0);
    assert |t.handlers| == 2;
    assert t.handlers[0] == Scene(5).handlers[0];
    assert t.handlers[1] == Scene(5).handlers[1];
    assert t.gens == Scene(5).gens;
  }

  lemma LateRegistration()
    ensures Enabled(Scene(5), Lock(1, 0)) && Apply(Scene(5), Lock(1, 0)) == Scene(6)
  {
    var s := Scene(5);
    var ready: map<int, nat> := map[1 := 0];
    assert s.gens[0].ready == ready && |ready| == 1;
    assert !Duplicate(s, 1) && !Completes(s, 1);
    assert ready[0 := 1] == map[1 := 0, 0 := 1];
  }

  lemma TwoWorkersWhereOneIsExpected() returns (run: seq<Server>, acts: seq<Action>)
    ensures acts == [Arrive(1, 0), Arrive(0, 0), Fetch(0), Fetch(1), Lock(0, 0), Lock(1, 0)]
    ensures IsRun(run, acts) && run[0].workers == 1 && run[0].ids == {0, 1}
    ensures Late(run[5], 1) && Stranded(run[6], 0, 1) && run[6].handlers[1].phase == Waiting
  {
    acts := [Arrive(1, 0), Arrive(0, 0), Fetch(0), Fetch(1), Lock(0, 0), Lock(1, 0)];
    run := seq(7, i requires 0 <= i < 7 => Scene(i));
    forall i | 0 <= i < |acts| ensures StepAt(run, acts, i) { Moment(run, acts, i); }
    LastScenes();
  }

  lemma LastScenes()
    ensures Init(Scene(0)) && Late(Scene(5), 1) && Stranded(Scene(6), 0, 1) && Scene(6).handlers[1].phase == Waiting
  {
    var ready: map<int, nat> := map[1 := 0, 0 := 1];
    assert |ready| == 2;
  }

  lemma Moment(run: seq<Server>, acts: seq<Action>, i: nat)
    requires acts == [Arrive(1, 0), Arrive(0, 0), Fetch(0), Fetch(1), Lock(0, 0), Lock(1, 0)] && i < 6
    requires |run| == 7 && forall k | 0 <= k < 7 :: run[k] == Scene(k)
    ensures StepAt(run, acts, i)
  {
    assert run[i] == Scene(i) && run[i + 1] == Scene(i + 1);
    ArriveAndFetch();
    FirstRelease();
    LateRegistration();
    assert i == 0 || i == 1 || i == 2 || i == 3 || i == 4 || i == 5;
  }
}
