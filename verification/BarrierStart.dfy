/**
 When the workers start: the time that everybody who passes a barrier is told lies a second after the last of them
 registered there.  And who is never turned away: workers that send each request once.
 */
module BarrierStart {
  import opened Shared
  import opened BarrierServer
  import opened BarrierLockstep

  // ---------------------------------------------------------------- registrations

  /** The step is a lock section in which a request registers in the generation g. */
  predicate Registers(s: System, step: Step, g: nat) {
    && step.Internal? && step.action.Lock? && Attached(s.server, step.action.h)
    && s.server.handlers[step.action.h].gen == Some(g) && !Duplicate(s.server, step.action.h)
  }

  /** The moment of that lock section, and the worker whose request it is. */
  function RegisteredAt(s: System, step: Step, g: nat): Time
    requires Registers(s, step, g)
  {
    step.action.now
  }

  function Registrant(s: System, step: Step, g: nat): int
    requires Registers(s, step, g)
  {
    s.server.handlers[step.action.h].worker
  }

  /** Registrations are only added, one at a time, and to the states that accept them. */
  lemma TakeRegisters(s: System, step: Step, g: nat)
    requires SystemInv(s) && CanStep(s, step) && g < |s.server.gens|
    ensures var t := Take(s, step);
            g < |t.server.gens|
            && (!Registers(s, step, g) ==> t.server.gens[g] == s.server.gens[g])
            && (Registers(s, step, g) ==>
              && !Released(s.server, g)
              && (forall v :: v in t.server.gens[g].ready <==> v in s.server.gens[g].ready || v == Registrant(s, step, g))
              && t.server.workers == s.server.workers
              && (Released(t.server, g) ==> t.server.gens[g].start == RegisteredAt(s, step, g) + ONE_SECOND))
  {
    if Registers(s, step, g) {
      RegisteringIsUnreleased(s.server, step.action.h);
      assert GenerationInv(s.server, g);
    }
  }

  lemma TakeCreates(s: System, step: Step, g: nat)
    requires SystemInv(s) && CanStep(s, step) && g >= |s.server.gens| && g < |Take(s, step).server.gens|
    ensures Take(s, step).server.gens[g].ready == map[] && Take(s, step).server.workers > 0
  {
  }

  lemma TakeKeepsWorkers(s: System, step: Step)
    requires CanStep(s, step)
    ensures Take(s, step).server.workers == s.server.workers
  {
  }

  /** A step changes a generation only by a registration, and one that releases it sets its start time. */
  ghost predicate Follows(s: System, step: Step, t: System, g: nat) {
    && t.server.workers == s.server.workers && (g < |s.server.gens| ==> g < |t.server.gens|)
    && (g < |t.server.gens| && !Registers(s, step, g) ==>
      if g < |s.server.gens| then t.server.gens[g] == s.server.gens[g]
      else t.server.gens[g].ready == map[] && t.server.workers > 0)
    && (Registers(s, step, g) ==>
      && g < |s.server.gens| && !Released(s.server, g)
      && (forall v :: v in t.server.gens[g].ready <==> v in s.server.gens[g].ready || v == Registrant(s, step, g))
      && (Released(t.server, g) ==> t.server.gens[g].start == RegisteredAt(s, step, g) + ONE_SECOND))
  }

  /** A released generation stays as it is, and it is a registration that releases one. */
  predicate FollowsRelease(s: System, step: Step, t: System, g: nat) {
    if g < |s.server.gens| && Released(s.server, g) then
      !Registers(s, step, g) && g < |t.server.gens| && t.server.gens[g] == s.server.gens[g] && Released(t.server, g)
    else
      g < |t.server.gens| && Released(t.server, g) ==>
        Registers(s, step, g) && t.server.gens[g].start == RegisteredAt(s, step, g) + ONE_SECOND
  }

  lemma RunFollowsRelease(run: seq<System>, steps: seq<Step>, i: nat, g: nat)
    requires IsSystemRun(run, steps) && i < |steps|
    ensures FollowsRelease(run[i], steps[i], run[i + 1], g)
  {
    RunFollows(run, steps, i, g);
    var s, t := run[i], run[i + 1];
    if g < |s.server.gens| && g < |t.server.gens| && t.server.gens[g].ready == s.server.gens[g].ready {
      assert Released(t.server, g) == Released(s.server, g);
    }
  }

  lemma RunFollows(run: seq<System>, steps: seq<Step>, i: nat, g: nat)
    requires IsSystemRun(run, steps) && i < |steps|
    ensures Follows(run[i], steps[i], run[i + 1], g)
  {
    assert BarrierLockstep.StepAt(run, steps, i);
    SystemRunInv(run, steps, i);
    TakeKeepsWorkers(run[i], steps[i]);
    if g < |run[i].server.gens| {
      TakeRegisters(run[i], steps[i], g);
    } else if g < |run[i + 1].server.gens| {
      TakeCreates(run[i], steps[i], g);
    }
  }

  /** What the i-th step of a run does to a generation. */
  ghost predicate FollowsAt(run: seq<System>, steps: seq<Step>, i: nat, g: nat) {
    i < |steps| && i + 1 < |run|
    && Follows(run[i], steps[i], run[i + 1], g) && FollowsRelease(run[i], steps[i], run[i + 1], g)
  }

  /** The story of one generation, from before there was any. */
  ghost predicate Story(run: seq<System>, steps: seq<Step>, g: nat) {
    && |run| == |steps| + 1 && run[0].server.gens == []
    && forall i | 0 <= i < |steps| :: FollowsAt(run, steps, i, g)
  }

  lemma EveryRunIsAStory(run: seq<System>, steps: seq<Step>, g: nat)
    requires IsSystemRun(run, steps)
    ensures Story(run, steps, g)
  {
    forall i | 0 <= i < |steps| ensures FollowsAt(run, steps, i, g) {
      RunFollows(run, steps, i, g);
      RunFollowsRelease(run, steps, i, g);
    }
  }

  /** The worker is listed in the generation, if there is one. */
  predicate ListedIn(s: System, g: nat, v: int) { g < |s.server.gens| && v in s.server.gens[g].ready }

  lemma Joins(s: System, step: Step, t: System, g: nat, v: int)
    requires Follows(s, step, t, g) && !ListedIn(s, g, v) && ListedIn(t, g, v)
    ensures Registers(s, step, g) && Registrant(s, step, g) == v
  {
  }

  /** Whoever is listed in a generation registered there. */
  lemma {:induction false} RegistrationOf(run: seq<System>, steps: seq<Step>, i: nat, g: nat, v: int) returns (m: nat)
    requires Story(run, steps, g) && i < |run| && ListedIn(run[i], g, v)
    ensures m < i && Registers(run[m], steps[m], g) && Registrant(run[m], steps[m], g) == v
  {
    assert FollowsAt(run, steps, i - 1, g);
    if ListedIn(run[i - 1], g, v) {
      m := RegistrationOf(run, steps, i - 1, g, v);
    } else {
      Joins(run[i - 1], steps[i - 1], run[i], g, v);
      m := i - 1;
    }
  }

  /** Once all have registered nobody does any more, and the start time stays. */
  lemma {:induction false} ClosedForGood(run: seq<System>, steps: seq<Step>, i: nat, m: nat, g: nat)
    requires Story(run, steps, g) && i <= m < |run| && g < |run[i].server.gens| && Released(run[i].server, g)
    ensures g < |run[m].server.gens| && run[m].server.gens[g] == run[i].server.gens[g] && Released(run[m].server, g)
    ensures m < |steps| ==> !Registers(run[m], steps[m], g)
    decreases m
  {
    if i < m {
      ClosedForGood(run, steps, i, m - 1, g);
      assert FollowsAt(run, steps, m - 1, g);
    }
    if m < |steps| { assert FollowsAt(run, steps, m, g); }
  }

  /** The registration that brings the number to n sets the start time. */
  lemma {:induction false} LastRegistration(run: seq<System>, steps: seq<Step>, i: nat, g: nat) returns (j: nat)
    requires Story(run, steps, g) && i < |run| && g < |run[i].server.gens| && Released(run[i].server, g)
    ensures j < i && Registers(run[j], steps[j], g)
    ensures run[i].server.gens[g].start == RegisteredAt(run[j], steps[j], g) + ONE_SECOND
    ensures g < |run[j + 1].server.gens| && Released(run[j + 1].server, g)
  {
    assert FollowsAt(run, steps, i - 1, g);
    if g < |run[i - 1].server.gens| && Released(run[i - 1].server, g) {
      j := LastRegistration(run, steps, i - 1, g);
    } else {
      j := i - 1;
    }
  }

  ghost predicate RegisteredBefore(run: seq<System>, steps: seq<Step>, i: nat, g: nat, v: int)
    requires i < |run| == |steps| + 1
  {
    exists m | 0 <= m < i :: Registers(run[m], steps[m], g) && Registrant(run[m], steps[m], g) == v
  }

  /** The server's clock never falls between one lock section and a later one. */
  ghost predicate ClockNeverFalls(steps: seq<Step>) {
    forall i, j | 0 <= i < j < |steps| && steps[i].Internal? && steps[j].Internal?
      && steps[i].action.Lock? && steps[j].action.Lock? :: steps[i].action.now <= steps[j].action.now
  }

  /** The time a worker is told when it passes a barrier is the moment of the last registration in that generation plus
      one second; all n workers registered there, and while the server's clock never falls every registration, of
      whatever worker and at whatever step of the run, lies a second or more before the start. */
  lemma StartIsAheadOfEverybody(run: seq<System>, steps: seq<Step>, i: nat, w: nat, k: nat) returns (j: nat)
    requires IsSystemRun(run, steps) && i < |run| && w < |run[i].workers| && k < Index(run[i].workers[w])
    ensures var Pass(g, start) := run[i].workers[w].passed[k];
            && j < i && Registers(run[j], steps[j], g) && start == RegisteredAt(run[j], steps[j], g) + ONE_SECOND
            && (forall m | j < m < |steps| :: !Registers(run[m], steps[m], g))
            && (ClockNeverFalls(steps) ==>
              forall m | 0 <= m < |steps| && Registers(run[m], steps[m], g) ::
                RegisteredAt(run[m], steps[m], g) + ONE_SECOND <= start)
            && (forall v | 0 <= v < |run[i].workers| :: RegisteredBefore(run, steps, i, g, v))
  {
    SystemRunInv(run, steps, i);
    assert PassedInv(run[i], w, k);
    var Pass(g, start) := run[i].workers[w].passed[k];
    EveryRunIsAStory(run, steps, g);
    j := LastRegistration(run, steps, i, g);
    forall m | j < m < |steps| ensures !Registers(run[m], steps[m], g) { ClosedForGood(run, steps, j + 1, m, g); }
    NobodyPassesEarly(run, steps, i, w, k);
    forall v | 0 <= v < |run[i].workers| ensures RegisteredBefore(run, steps, i, g, v) {
      var m := RegistrationOf(run, steps, i, g, v);
    }
  }

  // ---------------------------------------------------------------- workers that send once

  /** Nobody retries, times out or hangs up; requests may still get lost. */
  predicate SendsOnce(step: Step) { !step.Retry? && !step.GiveUp? && (step.Internal? ==> !step.action.Cancel?) }

  /** Two requests of one worker are for different barriers, in the order of sending. */
  predicate Ascending(hs: seq<Handler>, k: nat, h: nat)
    requires k < h < |hs|
  {
    hs[k].worker == hs[h].worker ==> hs[k].barrier < hs[h].barrier
  }

  /** Nobody has given up, and a worker with no request out has asked for barriers behind it only. */
  ghost predicate OnCourse(s: System, w: nat)
    requires w < |s.workers|
  {
    && !s.workers[w].failed
    && (s.workers[w].current.None? ==>
      forall h | 0 <= h < |s.server.handlers| && s.server.handlers[h].worker == w :: s.server.handlers[h].barrier < Index(s.workers[w]))
  }

  predicate TurnedAway(x: Handler) { x.phase == Rejected || x.phase == Cancelled }

  ghost predicate AllOnCourse(s: System) {
    && (forall k, h | 0 <= k < h < |s.server.handlers| :: Ascending(s.server.handlers, k, h))
    && (forall w | 0 <= w < |s.workers| :: OnCourse(s, w))
    && (forall h | 0 <= h < |s.server.handlers| :: !TurnedAway(s.server.handlers[h]))
  }

  /** A request that is alone for its barrier is no duplicate. */
  lemma NoDuplicates(s: System, h: nat)
    requires SystemInv(s) && AllOnCourse(s) && InPhase(s.server, h, Fetched) && Attached(s.server, h)
    ensures !Duplicate(s.server, h)
  {
    var x := s.server.handlers[h];
    var g := x.gen.value;
    assert HandlerInv(s.server, h) && GenerationInv(s.server, g);
    forall k | 0 <= k < |s.server.handlers| && k != h && s.server.handlers[k].worker == x.worker
      ensures s.server.handlers[k].barrier != x.barrier
    {
      if k < h { assert Ascending(s.server.handlers, k, h); } else { assert Ascending(s.server.handlers, h, k); }
    }
    var k := if Duplicate(s.server, h) then s.server.gens[g].ready[x.worker] else h;
    assert HandlerInv(s.server, k);
  }

  lemma InternalOnCourse(s: System, a: Action)
    requires SystemInv(s) && AllOnCourse(s) && CanStep(s, Internal(a)) && !a.Cancel?
    ensures AllOnCourse(Take(s, Internal(a)))
  {
    var t := Take(s, Internal(a));
    SameNumber(s.server, a);
    if a.Lock? { NoDuplicates(s, a.h); }
    forall h | 0 <= h < |t.server.handlers|
      ensures !TurnedAway(t.server.handlers[h]) && Kin(s.server.handlers[h], t.server.handlers[h], true)
    {
      HandlerKin(s.server, a, h);
      assert !TurnedAway(s.server.handlers[h]);
    }
    forall k, h | 0 <= k < h < |t.server.handlers| ensures Ascending(t.server.handlers, k, h) {
      assert Ascending(s.server.handlers, k, h);
    }
    forall w | 0 <= w < |t.workers| ensures OnCourse(t, w) { assert OnCourse(s, w); }
  }

  lemma SendOnCourse(s: System, w: nat)
    requires SystemInv(s) && AllOnCourse(s) && CanStep(s, Send(w))
    ensures AllOnCourse(Take(s, Send(w)))
  {
    var t := Take(s, Send(w));
    assert OnCourse(s, w);
    forall k, h | 0 <= k < h < |t.server.handlers| ensures Ascending(t.server.handlers, k, h) {
      if h < |s.server.handlers| { assert Ascending(s.server.handlers, k, h); }
    }
    forall v | 0 <= v < |t.workers| ensures OnCourse(t, v) { assert OnCourse(s, v); }
  }

  /** The reply takes the worker past its barrier. */
  predicate GoesOn(s: System, w: nat)
    requires CanStep(s, Receive(w))
  {
    var t := Take(s, Receive(w));
    !t.workers[w].failed && Index(t.workers[w]) == Index(s.workers[w]) + 1
  }

  lemma ReceiveOnCourse(s: System, w: nat)
    requires SystemInv(s) && AllOnCourse(s) && CanStep(s, Receive(w))
    ensures AllOnCourse(Take(s, Receive(w))) && GoesOn(s, w)
  {
    var t := Take(s, Receive(w));
    var h := s.workers[w].current.value;
    assert HandlerInv(s.server, h) && CurrentInv(s, w) && !TurnedAway(s.server.handlers[h]);
    forall k, i | 0 <= k < i < |t.server.handlers| ensures Ascending(t.server.handlers, k, i) {
      assert Ascending(s.server.handlers, k, i);
    }
    forall v | 0 <= v < |t.workers| ensures OnCourse(t, v) {
      assert OnCourse(s, v);
      forall k | 0 <= k < |t.server.handlers| && t.server.handlers[k].worker == w
        ensures t.server.handlers[k].barrier < Index(t.workers[w])
      {
        assert RequestInv(s, k);
      }
    }
  }

  lemma TakeOnCourse(s: System, step: Step)
    requires SystemInv(s) && AllOnCourse(s) && CanStep(s, step) && SendsOnce(step)
    ensures AllOnCourse(Take(s, step))
  {
    match step
    case Send(w) => SendOnCourse(s, w);
    case Receive(w) => ReceiveOnCourse(s, w);
    case Internal(a) => InternalOnCourse(s, a);
  }

  /** Of workers that send each request once nobody is ever turned away or gives up, and every reply takes its worker
      past the barrier. */
  lemma {:induction false} NobodyIsTurnedAway(run: seq<System>, steps: seq<Step>, i: nat)
    requires IsSystemRun(run, steps) && i < |run| && forall j | 0 <= j < |steps| :: SendsOnce(steps[j])
    ensures AllOnCourse(run[i])
    ensures forall w | CanStep(run[i], Receive(w)) :: GoesOn(run[i], w)
  {
    if i > 0 {
      NobodyIsTurnedAway(run, steps, i - 1);
      SystemRunInv(run, steps, i - 1);
      assert BarrierLockstep.StepAt(run, steps, i - 1);
      TakeOnCourse(run[i - 1], steps[i - 1]);
    }
    SystemRunInv(run, steps, i);
    forall w | CanStep(run[i], Receive(w)) ensures GoesOn(run[i], w) { ReceiveOnCourse(run[i], w); }
  }
}
