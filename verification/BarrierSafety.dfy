/**
 What the barrier server guarantees whatever worker ids are in use: no send loop ever blocks, and a state is deleted
 once, by the handler that released it.
 */
module BarrierSafety {
  import opened Shared
  import opened BarrierServer

  // ---------------------------------------------------------------- invariant

  /** The handler is registered, and in this state. */
  predicate Belongs(s: Server, h: nat, g: nat) {
    h < |s.handlers| && s.handlers[h].gen == Some(g) && Registered(s.handlers[h].phase)
  }

  /** A state lists registered handlers of its own. */
  ghost predicate ReadySafe(s: Server) {
    forall g, w | 0 <= g < |s.gens| && w in s.gens[g].ready :: Belongs(s, s.gens[g].ready[w], g)
  }

  /** A handler was sent something once at most, the start time of its state, and only after it registered and that
      state broadcast; one that is about to delete holds the state it released, and that state is still the one under its barrier's id. */
  ghost predicate HandlerSafe(s: Server, h: nat)
    requires h < |s.handlers|
  {
    var x := s.handlers[h];
    && |x.sent| <= 1
    && (!Registered(x.phase) ==> x.sent == [])
    && (Registered(x.phase) ==> x.gen.Some?)
    && (x.gen.Some? ==>
      && x.gen.value < |s.gens|
      && s.gens[x.gen.value].id == x.barrier
      && (s.gens[x.gen.value].broadcasts == 0 ==> x.sent == [])
      && (x.sent != [] ==> x.sent == [s.gens[x.gen.value].start])
      && (x.phase == Deleting ==>
        && s.gens[x.gen.value].broadcasts == 1 && s.gens[x.gen.value].releaser == Some(h)
        && x.barrier in s.barriers && s.barriers[x.barrier] == x.gen.value))
  }

  /** A state has broadcast, once, exactly when it is full; until then it is the one under its id. */
  ghost predicate GenerationSafe(s: Server, g: nat)
    requires g < |s.gens|
  {
    var x := s.gens[g];
    && x.broadcasts == (if |x.ready| >= s.workers then 1 else 0)
    && (x.broadcasts == 0 ==> x.id in s.barriers && s.barriers[x.id] == g)
  }

  ghost predicate Safe(s: Server) {
    && s.workers >= 1 && ReadySafe(s) && MapInv(s)
    && (forall h | 0 <= h < |s.handlers| :: HandlerSafe(s, h))
    && (forall g | 0 <= g < |s.gens| :: GenerationSafe(s, g))
  }

  lemma FetchSafe(s: Server, h: nat)
    requires Safe(s) && Enabled(s, Fetch(h))
    ensures Safe(Apply(s, Fetch(h)))
  {
    var t := Apply(s, Fetch(h));
    assert HandlerSafe(s, h);
    forall g, w | 0 <= g < |t.gens| && w in t.gens[g].ready ensures Belongs(t, t.gens[g].ready[w], g) {
      if g < |s.gens| { assert Belongs(s, s.gens[g].ready[w], g); }
    }
    forall g | 0 <= g < |t.gens| ensures GenerationSafe(t, g) {
      if g < |s.gens| { assert GenerationSafe(s, g); }
    }
    forall i | 0 <= i < |t.handlers| ensures HandlerSafe(t, i) { assert HandlerSafe(s, i); }
  }

  /** The send loop reaches, besides the handler that runs it, only handlers registered in the same state. */
  lemma Reached(s: Server, h: nat, k: nat)
    requires ReadySafe(s) && Attached(s, h) && k < |s.handlers| && k != h
    requires Listed(s.gens[s.handlers[h].gen.value].ready[s.handlers[h].worker := h], k)
    ensures Belongs(s, k, s.handlers[h].gen.value)
  {
    var g := s.handlers[h].gen.value;
    var ready := s.gens[g].ready[s.handlers[h].worker := h];
    var w :| w in ready && ready[w] == k;
    assert w in s.gens[g].ready;
  }

  lemma LockReady(s: Server, h: nat, now: Time)
    requires Safe(s) && Enabled(s, Lock(h, now))
    ensures ReadySafe(Apply(s, Lock(h, now))) && MapInv(Apply(s, Lock(h, now)))
  {
    var t := Apply(s, Lock(h, now));
    assert HandlerSafe(s, h);
    forall g, w | 0 <= g < |t.gens| && w in t.gens[g].ready ensures Belongs(t, t.gens[g].ready[w], g) {
      if w in s.gens[g].ready { assert Belongs(s, s.gens[g].ready[w], g); }
    }
  }

  lemma LockGeneration(s: Server, h: nat, now: Time, g: nat)
    requires Safe(s) && Enabled(s, Lock(h, now)) && g < |s.gens|
    ensures g < |Apply(s, Lock(h, now)).gens| && GenerationSafe(Apply(s, Lock(h, now)), g)
  {
    assert GenerationSafe(s, g) && HandlerSafe(s, h);
    var own := s.handlers[h].gen.value;
    if !Duplicate(s, h) {
      assert |s.gens[own].ready[s.handlers[h].worker := h]| == |s.gens[own].ready| + 1;
    }
  }

  /** A lock section that releases nothing. */
  lemma RegisterHandler(s: Server, h: nat, now: Time, k: nat)
    requires Safe(s) && Enabled(s, Lock(h, now)) && !Completes(s, h) && k < |s.handlers|
    ensures k < |Apply(s, Lock(h, now)).handlers| && HandlerSafe(Apply(s, Lock(h, now)), k)
  {
    assert HandlerSafe(s, k) && HandlerSafe(s, h);
  }

  /** A lock section that releases the barrier: whoever is reached was sent nothing before. */
  lemma ReleaseHandler(s: Server, h: nat, now: Time, k: nat)
    requires Safe(s) && Enabled(s, Lock(h, now)) && Completes(s, h) && k < |s.handlers|
    ensures k < |Apply(s, Lock(h, now)).handlers| && HandlerSafe(Apply(s, Lock(h, now)), k)
  {
    assert HandlerSafe(s, k) && HandlerSafe(s, h);
    var own := s.handlers[h].gen.value;
    assert GenerationSafe(s, own);
    if k != h && Listed(s.gens[own].ready[s.handlers[h].worker := h], k) { Reached(s, h, k); }
  }

  lemma LockSafe(s: Server, h: nat, now: Time)
    requires Safe(s) && Enabled(s, Lock(h, now))
    ensures Safe(Apply(s, Lock(h, now)))
  {
    var t := Apply(s, Lock(h, now));
    LockReady(s, h, now);
    forall g | 0 <= g < |s.gens| ensures g < |t.gens| && GenerationSafe(t, g) { LockGeneration(s, h, now, g); }
    forall k | 0 <= k < |s.handlers| ensures k < |t.handlers| && HandlerSafe(t, k) {
      if Completes(s, h) { ReleaseHandler(s, h, now, k); } else { RegisterHandler(s, h, now, k); }
    }
    SameSize(s, h, now);
  }

  lemma SameSize(s: Server, h: nat, now: Time)
    requires Enabled(s, Lock(h, now))
    ensures |Apply(s, Lock(h, now)).handlers| == |s.handlers| && |Apply(s, Lock(h, now)).gens| == |s.gens|
    ensures Apply(s, Lock(h, now)).workers == s.workers
  {
  }

  lemma DeleteSafe(s: Server, h: nat)
    requires Safe(s) && Enabled(s, Delete(h))
    ensures Safe(Apply(s, Delete(h)))
  {
    var t := Apply(s, Delete(h));
    assert HandlerSafe(s, h);
    forall g, w | 0 <= g < |t.gens| && w in t.gens[g].ready ensures Belongs(t, t.gens[g].ready[w], g) {
      assert Belongs(s, s.gens[g].ready[w], g);
    }
    forall g | 0 <= g < |t.gens| ensures GenerationSafe(t, g) { assert GenerationSafe(s, g); }
    forall k | 0 <= k < |t.handlers| ensures HandlerSafe(t, k) { assert HandlerSafe(s, k); }
  }

  lemma QuietSafe(s: Server, a: Action)
    requires Safe(s) && Enabled(s, a) && (a.Arrive? || a.Lose? || a.Reply? || a.Cancel?)
    ensures Safe(Apply(s, a))
  {
    var t := Apply(s, a);
    forall g, w | 0 <= g < |t.gens| && w in t.gens[g].ready ensures Belongs(t, t.gens[g].ready[w], g) {
      assert Belongs(s, s.gens[g].ready[w], g);
    }
    forall g | 0 <= g < |t.gens| ensures GenerationSafe(t, g) { assert GenerationSafe(s, g); }
    forall k | 0 <= k < |t.handlers| ensures HandlerSafe(t, k) {
      if k < |s.handlers| { assert HandlerSafe(s, k); }
    }
  }

  lemma StepSafe(s: Server, a: Action)
    requires Safe(s) && Enabled(s, a)
    ensures Safe(Apply(s, a))
  {
    match a
    case Fetch(h) => FetchSafe(s, h);
    case Lock(h, now) => LockSafe(s, h, now);
    case Delete(h) => DeleteSafe(s, h);
    case _ => QuietSafe(s, a);
  }

  lemma {:induction false} SafeRun(run: seq<Server>, acts: seq<Action>, i: nat)
    requires IsRun(run, acts) && i < |run|
    ensures Safe(run[i])
  {
    if i > 0 {
      SafeRun(run, acts, i - 1);
      assert StepAt(run, acts, i - 1);
      StepSafe(run[i - 1], acts[i - 1]);
    }
  }

  // ---------------------------------------------------------------- results

  /** Each state broadcasts at most once, each channel carries at most one value, and whenever a
      handler is about to run the send loop every channel it sends on is still empty, so the
      loop never blocks while it holds the lock. */
  lemma BroadcastNeverBlocks(run: seq<Server>, acts: seq<Action>, i: nat)
    requires IsRun(run, acts) && i < |run|
    ensures forall g | 0 <= g < |run[i].gens| :: run[i].gens[g].broadcasts <= 1
    ensures forall h | 0 <= h < |run[i].handlers| :: |run[i].handlers[h].sent| <= 1
    ensures forall h: nat, now: Time | Enabled(run[i], Lock(h, now)) && Completes(run[i], h) ::
              run[i].handlers[h].sent == []
              && forall k | 0 <= k < |run[i].handlers| && Listed(run[i].gens[run[i].handlers[h].gen.value].ready, k) ::
                run[i].handlers[k].sent == []
  {
    SafeRun(run, acts, i);
    var s := run[i];
    forall g | 0 <= g < |s.gens| ensures s.gens[g].broadcasts <= 1 { assert GenerationSafe(s, g); }
    forall h | 0 <= h < |s.handlers| ensures |s.handlers[h].sent| <= 1 { assert HandlerSafe(s, h); }
    forall h: nat, now: Time | Enabled(s, Lock(h, now)) && Completes(s, h)
      ensures s.handlers[h].sent == []
      ensures forall k | 0 <= k < |s.handlers| && Listed(s.gens[s.handlers[h].gen.value].ready, k) ::
                s.handlers[k].sent == []
    {
      assert HandlerSafe(s, h);
      var g := s.handlers[h].gen.value;
      assert GenerationSafe(s, g);
      forall k | 0 <= k < |s.handlers| && Listed(s.gens[g].ready, k) ensures s.handlers[k].sent == [] {
        var w :| w in s.gens[g].ready && s.gens[g].ready[w] == k;
        assert Belongs(s, k, g) && HandlerSafe(s, k);
      }
    }
  }

  /** Whoever is about to remove a barrier id removes exactly the state it released, a full one that broadcast once,
      and at this moment no other handler is about to.  That none ever will is `DeletedAtMostOnce`. */
  lemma DeleteRemovesReleasedState(run: seq<Server>, acts: seq<Action>, i: nat, h: nat)
    requires IsRun(run, acts) && i < |run| && Enabled(run[i], Delete(h))
    ensures var s := run[i];
            && Attached(s, h)
            && var g := s.handlers[h].gen.value;
            && s.gens[g].broadcasts == 1 && s.gens[g].releaser == Some(h) && |s.gens[g].ready| >= s.workers
            && (FewIds(run[0]) ==> Released(s, g))
            && s.handlers[h].barrier in s.barriers && s.barriers[s.handlers[h].barrier] == g
            && (forall k: nat | InPhase(s, k, Deleting) && s.handlers[k].gen == s.handlers[h].gen :: k == h)
  {
    SafeRun(run, acts, i);
    var s := run[i];
    assert HandlerSafe(s, h);
    assert GenerationSafe(s, s.handlers[h].gen.value);
    if FewIds(run[0]) {
      RunInv(run, acts, i);
      assert HandlerInv(s, h);
    }
    forall k: nat | InPhase(s, k, Deleting) && s.handlers[k].gen == s.handlers[h].gen ensures k == h {
      assert HandlerSafe(s, k);
    }
  }

  /** The state is out of the map of ids for good. */
  ghost predicate Retired(s: Server, g: nat) {
    g < |s.gens| && forall id | id in s.barriers :: s.barriers[id] != g
  }

  lemma RetiredStep(s: Server, a: Action, g: nat)
    requires Retired(s, g) && Enabled(s, a)
    ensures Retired(Apply(s, a), g)
  {
  }

  lemma {:induction false} RetiredForGood(run: seq<Server>, acts: seq<Action>, i: nat, j: nat, g: nat)
    requires IsRun(run, acts) && i <= j < |run| && Retired(run[i], g)
    ensures Retired(run[j], g)
    decreases j - i
  {
    if i < j {
      RetiredForGood(run, acts, i, j - 1, g);
      assert StepAt(run, acts, j - 1);
      RetiredStep(run[j - 1], acts[j - 1], g);
    }
  }

  /** Over a whole run, no state is deleted twice. */
  lemma DeletedAtMostOnce(run: seq<Server>, acts: seq<Action>, i: nat, j: nat, h: nat, k: nat)
    requires IsRun(run, acts) && i < j < |acts| && acts[i] == Delete(h) && acts[j] == Delete(k)
    ensures Attached(run[i], h) && Attached(run[j], k) && run[i].handlers[h].gen != run[j].handlers[k].gen
  {
    assert StepAt(run, acts, i) && StepAt(run, acts, j);
    SafeRun(run, acts, i);
    SafeRun(run, acts, j);
    assert HandlerSafe(run[i], h) && HandlerSafe(run[j], k);
    var g := run[i].handlers[h].gen.value;
    assert MapInv(run[i]);
    assert Retired(run[i + 1], g);
    RetiredForGood(run, acts, i + 1, j, g);
  }

  // ---------------------------------------------------------------- start times

  /** The step is the lock section that completes this state. */
  predicate Releases(s: Server, a: Action, g: nat) {
    a.Lock? && Attached(s, a.h) && s.handlers[a.h].gen == Some(g) && Completes(s, a.h)
  }

  /** A state that has broadcast does so no more, and keeps its start time. */
  lemma StartStep(s: Server, a: Action, g: nat)
    requires Safe(s) && Enabled(s, a) && g < |s.gens| && s.gens[g].broadcasts == 1
    ensures var t := Apply(s, a); g < |t.gens| && t.gens[g].start == s.gens[g].start && t.gens[g].broadcasts == 1
    ensures !Releases(s, a, g)
  {
    assert GenerationSafe(s, g);
  }

  /** The step that completes a state sets its start time, one second ahead of that moment, and no later step changes
      it. */
  lemma {:induction false} StartIsSetOnce(run: seq<Server>, acts: seq<Action>, i: nat, j: nat, h: nat, now: Time)
    requires IsRun(run, acts) && i < j < |run| && acts[i] == Lock(h, now) && Attached(run[i], h) && Completes(run[i], h)
    ensures var g := run[i].handlers[h].gen.value;
            g < |run[j].gens| && run[j].gens[g].start == now + ONE_SECOND && run[j].gens[g].broadcasts == 1
    decreases j
  {
    var g := run[i].handlers[h].gen.value;
    SafeRun(run, acts, i);
    SafeRun(run, acts, j - 1);
    assert StepAt(run, acts, j - 1);
    if j == i + 1 {
      assert GenerationSafe(run[i], g);
    } else {
      StartIsSetOnce(run, acts, i, j - 1, h, now);
      StartStep(run[j - 1], acts[j - 1], g);
    }
  }

  /** Only the lock section that completes a state makes it broadcast, and it sets the start time. */
  lemma BecomesReleased(s: Server, a: Action, g: nat)
    requires Safe(s) && Enabled(s, a) && g < |Apply(s, a).gens| && Apply(s, a).gens[g].broadcasts > 0
    requires g < |s.gens| ==> s.gens[g].broadcasts == 0
    ensures Releases(s, a, g) && Apply(s, a).gens[g].start == a.now + ONE_SECOND
  {
    if g < |s.gens| { assert GenerationSafe(s, g); }
  }

  /** A state that has broadcast was completed by some step, and its start time is one second after that. */
  lemma {:induction false} ReleaseStep(run: seq<Server>, acts: seq<Action>, i: nat, g: nat) returns (j: nat)
    requires IsRun(run, acts) && i < |run| && g < |run[i].gens| && run[i].gens[g].broadcasts > 0
    ensures j < i && Releases(run[j], acts[j], g) && run[i].gens[g].start == acts[j].now + ONE_SECOND
  {
    SafeRun(run, acts, i - 1);
    assert StepAt(run, acts, i - 1);
    if g < |run[i - 1].gens| && run[i - 1].gens[g].broadcasts > 0 {
      assert GenerationSafe(run[i - 1], g);
      StartStep(run[i - 1], acts[i - 1], g);
      j := ReleaseStep(run, acts, i - 1, g);
    } else {
      BecomesReleased(run[i - 1], acts[i - 1], g);
      j := i - 1;
    }
  }

  /** Whatever ids are in use, whoever is told a start time is told the moment its own state was completed, plus one
      second. */
  lemma ToldTheReleaseTime(run: seq<Server>, acts: seq<Action>, i: nat, h: nat) returns (j: nat)
    requires IsRun(run, acts) && i < |run| && h < |run[i].handlers| && run[i].handlers[h].sent != []
    ensures j < i && run[i].handlers[h].gen.Some? && Releases(run[j], acts[j], run[i].handlers[h].gen.value)
    ensures run[i].handlers[h].sent == [acts[j].now + ONE_SECOND]
  {
    SafeRun(run, acts, i);
    assert HandlerSafe(run[i], h);
    assert GenerationSafe(run[i], run[i].handlers[h].gen.value);
    j := ReleaseStep(run, acts, i, run[i].handlers[h].gen.value);
  }

  /** After the lock section that completes a state its handler removes the id and replies, everybody registered there
      who still waits can reply, and whoever fetches the id next gets a fresh state. */
  lemma ReleaseLetsEverybodyGo(s: Server, h: nat, now: Time)
    requires Safe(s) && Enabled(s, Lock(h, now)) && Completes(s, h)
    ensures Enabled(Apply(s, Lock(h, now)), Delete(h)) && Enabled(Apply(Apply(s, Lock(h, now)), Delete(h)), Reply(h))
    ensures var u := Apply(Apply(s, Lock(h, now)), Delete(h));
            forall k: nat | InPhase(u, k, Arrived) && u.handlers[k].barrier == s.handlers[h].barrier ::
              Apply(u, Fetch(k)).handlers[k].gen == Some(|u.gens|)
              && Apply(u, Fetch(k)).gens == u.gens + [Generation(s.handlers[h].barrier, map[], 0, 0, None)]
    ensures var t := Apply(s, Lock(h, now));
            forall w | w in s.gens[s.handlers[h].gen.value].ready ::
              var k := s.gens[s.handlers[h].gen.value].ready[w]; InPhase(s, k, Waiting) ==> Enabled(t, Reply(k))
  {
    var own := s.handlers[h].gen.value;
    assert HandlerSafe(s, h);
    assert GenerationSafe(s, own);
    var ready := s.gens[own].ready[s.handlers[h].worker := h];
    assert ready[s.handlers[h].worker] == h;
    var t := Apply(s, Lock(h, now));
    assert t.handlers[h] == s.handlers[h].(phase := Deleting, sent := [now + ONE_SECOND]);
    var u := Apply(t, Delete(h));
    assert u.handlers[h] == t.handlers[h].(phase := Waiting);
    forall w | w in s.gens[own].ready && InPhase(s, s.gens[own].ready[w], Waiting)
      ensures Enabled(Apply(s, Lock(h, now)), Reply(s.gens[own].ready[w]))
    {
      assert ready[w] == s.gens[own].ready[w];
    }
  }
}
