/**
 The workers' side of the barrier protocol, on top of the barrier server.

 A worker waits at barrier k by sending a request for id k.  On a connection error it sends the
 same request again and forgets the previous one; on a start time it goes on to barrier k + 1;
 on any other reply, or when it times out, it gives up for good.

 One assumption is made about the network: the server handles the requests of one worker in the
 order in which the worker sent them (a later request is looked up only after every earlier one
 went through the lock section or was lost).
 */
module BarrierLockstep {
  import opened Shared
  import opened BarrierServer

  /** The generation through which a worker passed a barrier, and the start time it was told. */
  datatype Pass = Pass(gen: nat, start: Time)

  /** `current` is the request whose reply the worker still listens to; `passed[k]` records how
      it passed barrier k. */
  datatype Worker = Worker(current: Option<nat>, failed: bool, passed: seq<Pass>)

  datatype System = System(server: Server, workers: seq<Worker>)

  datatype Step =
    | Send(w: nat)
    | Retry(w: nat)
    | GiveUp(w: nat)
    | Receive(w: nat)
    | Internal(action: Action)

  /** The barrier the worker waits at next: `barrierIdx` of the scenario loop. */
  function Index(x: Worker): nat { |x.passed| }

  predicate Unlocked(p: Phase) { p.Arrived? || p.Fetched? }

  predicate InOrder(s: Server, h: nat) {
    h < |s.handlers| &&
    forall k | 0 <= k < h :: s.handlers[k].worker == s.handlers[h].worker ==> !Unlocked(s.handlers[k].phase)
  }

  predicate Pending(s: System, w: nat) {
    w < |s.workers| && !s.workers[w].failed && s.workers[w].current.Some?
    && s.workers[w].current.value < |s.server.handlers|
  }

  predicate CanStep(s: System, step: Step) {
    match step
    case Send(w) => w < |s.workers| && !s.workers[w].failed && s.workers[w].current.None?
    case Retry(w) => Pending(s, w)
    case GiveUp(w) => w < |s.workers|
    case Receive(w) =>
      Pending(s, w)
      && var p := s.server.handlers[s.workers[w].current.value].phase;
      p.Rejected? || p.Replied? || p.Cancelled?
    case Internal(a) => Enabled(s.server, a) && !a.Arrive? && (a.Fetch? ==> InOrder(s.server, a.h))
  }

  function SendRequest(s: System, w: nat): System
    requires w < |s.workers|
  {
    s.(server := Apply(s.server, Arrive(w, Index(s.workers[w]))),
       workers := s.workers[w := s.workers[w].(current := Some(|s.server.handlers|))])
  }

  function Take(s: System, step: Step): System
    requires CanStep(s, step)
  {
    match step
    case Send(w) => SendRequest(s, w)
    case Retry(w) => SendRequest(s, w)
    case GiveUp(w) => s.(workers := s.workers[w := s.workers[w].(failed := true)])
    case Receive(w) =>
      var x := s.server.handlers[s.workers[w].current.value];
      if x.phase == Replied && x.gen.Some? && x.sent != []
      then s.(workers := s.workers[w := s.workers[w].(current := None, passed := s.workers[w].passed + [Pass(x.gen.value, x.sent[0])])])
      else s.(workers := s.workers[w := s.workers[w].(failed := true)])
    case Internal(a) => s.(server := Apply(s.server, a))
  }

  ghost predicate InitSystem(s: System) {
    && Init(s.server)
    && |s.workers| == s.server.workers && s.server.ids == Below(s.server.workers)
    && forall w | 0 <= w < |s.workers| :: s.workers[w] == Worker(None, false, [])
  }

  /** The i-th step of a run is an enabled action with its effect. */
  ghost predicate StepAt(run: seq<System>, steps: seq<Step>, i: nat) {
    i < |steps| && i + 1 < |run| && CanStep(run[i], steps[i]) && run[i + 1] == Take(run[i], steps[i])
  }

  ghost predicate IsSystemRun(run: seq<System>, steps: seq<Step>) {
    && |run| == |steps| + 1
    && InitSystem(run[0])
    && forall i | 0 <= i < |steps| :: StepAt(run, steps, i)
  }

  // ---------------------------------------------------------------- invariant

  /** Requests are for the worker's present barrier until they have been locked, and never for
      one it has not reached. */
  ghost predicate RequestInv(s: System, h: nat)
    requires h < |s.server.handlers|
  {
    var x := s.server.handlers[h];
    && 0 <= x.worker < |s.workers|
    && 0 <= x.barrier <= Index(s.workers[x.worker])
    && (Unlocked(x.phase) ==> x.barrier == Index(s.workers[x.worker]))
  }

  /** Two requests of one worker for one barrier: the later one meets the later generation. */
  ghost predicate OrderInv(s: System, k: nat, h: nat)
    requires k < h < |s.server.handlers|
  {
    var x, y := s.server.handlers[k], s.server.handlers[h];
    x.worker == y.worker ==>
      && (y.gen.Some? ==> !Unlocked(x.phase))
      && (y.gen.Some? && x.gen.Some? && x.barrier == y.barrier ==> x.gen.value <= y.gen.value)
  }

  ghost predicate CurrentInv(s: System, w: nat)
    requires w < |s.workers|
  {
    s.workers[w].current.Some? ==>
      var h := s.workers[w].current.value;
      && h < |s.server.handlers|
      && s.server.handlers[h].worker == w
      && s.server.handlers[h].barrier == Index(s.workers[w])
      && forall k | h < k < |s.server.handlers| :: s.server.handlers[k].worker != w
  }

  /** Having passed barrier k through a generation, a worker is in no later generation of k. */
  ghost predicate PassedInv(s: System, w: nat, k: nat)
    requires w < |s.workers| && k < Index(s.workers[w])
  {
    var Pass(g, start) := s.workers[w].passed[k];
    && g < |s.server.gens|
    && s.server.gens[g].id == k
    && s.server.gens[g].start == start
    && Released(s.server, g)
    && forall later | g < later < |s.server.gens| && s.server.gens[later].id == k :: w !in s.server.gens[later].ready
  }

  /** A worker with no request out has none that is still to be locked. */
  ghost predicate IdleInv(s: System, w: nat)
    requires w < |s.workers|
  {
    s.workers[w].current.None? ==>
      forall k | 0 <= k < |s.server.handlers| && s.server.handlers[k].worker == w :: !Unlocked(s.server.handlers[k].phase)
  }

  ghost predicate SystemInv(s: System) {
    && Inv(s.server)
    && |s.workers| == s.server.workers && (forall w | 0 <= w < |s.workers| :: w in s.server.ids)
    && (forall h | 0 <= h < |s.server.handlers| :: RequestInv(s, h))
    && (forall k, h | 0 <= k < h < |s.server.handlers| :: OrderInv(s, k, h))
    && (forall w | 0 <= w < |s.workers| :: CurrentInv(s, w) && IdleInv(s, w))
    && (forall w, k | 0 <= w < |s.workers| && 0 <= k < Index(s.workers[w]) :: PassedInv(s, w, k))
  }

  /** How a handler may look after a server step: the same request, no further back, and with the same state in
      hand unless it was the step's own fetch. */
  predicate Kin(x: Handler, y: Handler, fetched: bool) {
    && y.worker == x.worker && y.barrier == x.barrier && (Unlocked(y.phase) ==> Unlocked(x.phase))
    && (!fetched ==> y.gen == x.gen)
  }

  lemma LockKin(s: Server, k: nat, now: Time, h: nat)
    requires Enabled(s, Lock(k, now)) && h < |s.handlers|
    ensures |Apply(s, Lock(k, now)).handlers| == |s.handlers| && Kin(s.handlers[h], Apply(s, Lock(k, now)).handlers[h], false)
  {
    var x, y := s.handlers[h], Apply(s, Lock(k, now)).handlers[h];
    if Completes(s, k) {
      assert y.worker == x.worker && y.barrier == x.barrier && y.gen == x.gen;
      assert y.phase == if h == k then Deleting else x.phase;
    }
  }

  lemma FetchKin(s: Server, k: nat, h: nat)
    requires Enabled(s, Fetch(k)) && h < |s.handlers|
    ensures |Apply(s, Fetch(k)).handlers| == |s.handlers| && Kin(s.handlers[h], Apply(s, Fetch(k)).handlers[h], h == k)
  {
  }

  lemma PhaseKin(s: Server, a: Action, h: nat)
    requires Enabled(s, a) && !a.Arrive? && !a.Lock? && !a.Fetch? && h < |s.handlers|
    ensures |Apply(s, a).handlers| == |s.handlers| && Kin(s.handlers[h], Apply(s, a).handlers[h], false)
  {
  }

  lemma HandlerKin(s: Server, a: Action, h: nat)
    requires Enabled(s, a) && !a.Arrive? && h < |s.handlers|
    ensures |Apply(s, a).handlers| == |s.handlers| && Kin(s.handlers[h], Apply(s, a).handlers[h], a == Fetch(h))
  {
    match a
    case Lock(k, now) => LockKin(s, k, now, h);
    case Fetch(k) => FetchKin(s, k, h);
    case _ => PhaseKin(s, a, h);
  }

  lemma InternalRequests(s: System, t: System)
    requires SystemInv(s) && t.workers == s.workers && |t.server.handlers| == |s.server.handlers|
    requires forall h | 0 <= h < |s.server.handlers| :: Kin(s.server.handlers[h], t.server.handlers[h], true)
    ensures forall h | 0 <= h < |t.server.handlers| :: RequestInv(t, h)
    ensures forall w | 0 <= w < |t.workers| :: CurrentInv(t, w) && IdleInv(t, w)
  {
    forall h | 0 <= h < |t.server.handlers| ensures RequestInv(t, h) { assert RequestInv(s, h); }
    forall w | 0 <= w < |t.workers| ensures CurrentInv(t, w) && IdleInv(t, w) {
      assert CurrentInv(s, w) && IdleInv(s, w);
    }
  }

  /** What a server step may change, as far as the workers' invariants are concerned. */
  lemma InternalPreserves(s: System, a: Action)
    requires SystemInv(s) && CanStep(s, Internal(a))
    ensures SystemInv(Take(s, Internal(a)))
  {
    var t := Take(s, Internal(a));
    StepPreserves(s.server, a);
    forall h | 0 <= h < |s.server.handlers|
      ensures |t.server.handlers| == |s.server.handlers| && Kin(s.server.handlers[h], t.server.handlers[h], true)
    {
      HandlerKin(s.server, a, h);
    }
    SameNumber(s.server, a);
    InternalRequests(s, t);
    forall k, h | 0 <= k < h < |t.server.handlers| ensures OrderInv(t, k, h) {
      if a.Fetch? { FetchOrder(s, a.h, k, h); } else { OtherOrder(s, a, k, h); }
    }
    forall w, k | 0 <= w < |t.workers| && 0 <= k < Index(t.workers[w]) ensures PassedInv(t, w, k) {
      PassedStep(s, a, w, k);
    }
  }

  lemma FetchOrder(s: System, f: nat, k: nat, h: nat)
    requires SystemInv(s) && CanStep(s, Internal(Fetch(f))) && k < h < |s.server.handlers|
    ensures k < h < |Take(s, Internal(Fetch(f))).server.handlers| && OrderInv(Take(s, Internal(Fetch(f))), k, h)
  {
    assert OrderInv(s, k, h);
    assert HandlerInv(s.server, k) && HandlerInv(s.server, h);
    if f == h && s.server.handlers[k].gen.Some? {
      assert MapInv(s.server);
    }
  }

  lemma OtherOrder(s: System, a: Action, k: nat, h: nat)
    requires SystemInv(s) && CanStep(s, Internal(a)) && !a.Fetch? && k < h < |s.server.handlers|
    ensures k < h < |Take(s, Internal(a)).server.handlers| && OrderInv(Take(s, Internal(a)), k, h)
  {
    assert OrderInv(s, k, h);
    HandlerKin(s.server, a, k);
    HandlerKin(s.server, a, h);
  }

  lemma SameNumber(s: Server, a: Action)
    requires Enabled(s, a) && !a.Arrive?
    ensures |Apply(s, a).handlers| == |s.handlers|
  {
  }

  lemma PassedStep(s: System, a: Action, w: nat, k: nat)
    requires SystemInv(s) && CanStep(s, Internal(a))
    requires w < |s.workers| && k < Index(s.workers[w])
    ensures PassedInv(Take(s, Internal(a)), w, k)
  {
    assert PassedInv(s, w, k);
    var t := Take(s, Internal(a));
    var g := s.workers[w].passed[k].gen;
    if a.Lock? {
      assert RequestInv(s, a.h) && HandlerInv(s.server, a.h);
      if !Duplicate(s.server, a.h) {
        RegisteringIsUnreleased(s.server, a.h);
        assert s.server.handlers[a.h].gen.value != g;
        assert t.server.gens[g] == s.server.gens[g];
      }
    }
  }

  lemma SendPreserves(s: System, w: nat)
    requires SystemInv(s) && w < |s.workers|
    requires s.workers[w].current.Some? ==> CanStep(s, Retry(w))
    ensures SystemInv(SendRequest(s, w))
  {
    var t := SendRequest(s, w);
    StepPreserves(s.server, Arrive(w, Index(s.workers[w])));
    forall h | 0 <= h < |t.server.handlers| ensures RequestInv(t, h) {
      if h < |s.server.handlers| { assert RequestInv(s, h); }
    }
    forall k, h | 0 <= k < h < |t.server.handlers| ensures OrderInv(t, k, h) {
      if h < |s.server.handlers| { assert OrderInv(s, k, h); }
    }
    forall v | 0 <= v < |t.workers| ensures CurrentInv(t, v) && IdleInv(t, v) {
      assert CurrentInv(s, v) && IdleInv(s, v);
    }
    forall v, k | 0 <= v < |t.workers| && 0 <= k < Index(t.workers[v]) ensures PassedInv(t, v, k) {
      assert PassedInv(s, v, k);
    }
  }

  lemma ReceiveRequests(s: System, w: nat)
    requires SystemInv(s) && CanStep(s, Receive(w))
    ensures var t := Take(s, Receive(w));
            && (forall k | 0 <= k < |t.server.handlers| :: RequestInv(t, k))
            && (forall v | 0 <= v < |t.workers| :: CurrentInv(t, v) && IdleInv(t, v))
  {
    var t := Take(s, Receive(w));
    var h := s.workers[w].current.value;
    assert CurrentInv(s, w) && HandlerInv(s.server, h);
    forall k | 0 <= k < |t.server.handlers|
      ensures RequestInv(t, k) && (s.server.handlers[k].worker == w ==> !Unlocked(s.server.handlers[k].phase))
    {
      assert RequestInv(s, k);
      if k < h { assert OrderInv(s, k, h); }
    }
    forall v | 0 <= v < |t.workers| ensures CurrentInv(t, v) && IdleInv(t, v) {
      assert CurrentInv(s, v) && IdleInv(s, v);
    }
  }

  lemma ReceivePreserves(s: System, w: nat)
    requires SystemInv(s) && CanStep(s, Receive(w))
    ensures SystemInv(Take(s, Receive(w)))
  {
    var t := Take(s, Receive(w));
    ReceiveRequests(s, w);
    forall k, i | 0 <= k < i < |t.server.handlers| ensures OrderInv(t, k, i) { assert OrderInv(s, k, i); }
    forall v, k | 0 <= v < |t.workers| && 0 <= k < Index(t.workers[v]) ensures PassedInv(t, v, k) {
      if k < Index(s.workers[v]) { assert PassedInv(s, v, k); } else { PassesNewest(s, w); }
    }
  }

  /** No generation of its present barrier that a worker registered in is later than the one its
      current request met. */
  lemma OneNewest(s: System, w: nat, later: nat)
    requires SystemInv(s) && Pending(s, w) && s.server.handlers[s.workers[w].current.value].gen.Some?
    requires later < |s.server.gens| && s.server.gens[later].id == Index(s.workers[w])
    requires w in s.server.gens[later].ready
    ensures later <= s.server.handlers[s.workers[w].current.value].gen.value
  {
    var h := s.workers[w].current.value;
    assert CurrentInv(s, w) && GenerationInv(s.server, later);
    var other := s.server.gens[later].ready[w];
    assert HandlerInv(s.server, other);
    if other < h { assert OrderInv(s, other, h); }
  }

  /** The reply a worker accepts comes from the newest generation it ever registered in. */
  lemma PassesNewest(s: System, w: nat)
    requires SystemInv(s) && CanStep(s, Receive(w))
    requires s.server.handlers[s.workers[w].current.value].phase == Replied
    ensures Index(s.workers[w]) < Index(Take(s, Receive(w)).workers[w])
    ensures PassedInv(Take(s, Receive(w)), w, Index(s.workers[w]))
  {
    var h := s.workers[w].current.value;
    var x := s.server.handlers[h];
    var k := Index(s.workers[w]);
    assert CurrentInv(s, w) && HandlerInv(s.server, h);
    var g := x.gen.value;
    forall later | g < later < |s.server.gens| && s.server.gens[later].id == k
      ensures w !in s.server.gens[later].ready
    {
      if w in s.server.gens[later].ready { OneNewest(s, w, later); }
    }
  }

  lemma TakePreserves(s: System, step: Step)
    requires SystemInv(s) && CanStep(s, step)
    ensures SystemInv(Take(s, step))
  {
    match step
    case Send(w) => SendPreserves(s, w);
    case Retry(w) => SendPreserves(s, w);
    case Receive(w) => ReceivePreserves(s, w);
    case Internal(a) => InternalPreserves(s, a);
    case GiveUp(w) =>
      var t := Take(s, step);
      forall h | 0 <= h < |t.server.handlers| ensures RequestInv(t, h) { assert RequestInv(s, h); }
      forall k, h | 0 <= k < h < |t.server.handlers| ensures OrderInv(t, k, h) { assert OrderInv(s, k, h); }
      forall v | 0 <= v < |t.workers| ensures CurrentInv(t, v) && IdleInv(t, v) { assert CurrentInv(s, v) && IdleInv(s, v); }
      forall v, k | 0 <= v < |t.workers| && 0 <= k < Index(t.workers[v]) ensures PassedInv(t, v, k) { assert PassedInv(s, v, k); }
  }

  lemma {:induction false} SystemRunInv(run: seq<System>, steps: seq<Step>, i: nat)
    requires IsSystemRun(run, steps) && i < |run|
    ensures SystemInv(run[i])
  {
    if i > 0 {
      SystemRunInv(run, steps, i - 1);
      assert StepAt(run, steps, i - 1);
      TakePreserves(run[i - 1], steps[i - 1]);
    }
  }

  // ---------------------------------------------------------------- results

  /** A worker that passed barrier k did so through a state in which all n workers registered. */
  lemma NobodyPassesEarly(run: seq<System>, steps: seq<Step>, i: nat, w: nat, k: nat)
    requires IsSystemRun(run, steps) && i < |run|
    requires w < |run[i].workers| && k < Index(run[i].workers[w])
    ensures var s := run[i]; var g := s.workers[w].passed[k].gen;
            && g < |s.server.gens| && s.server.gens[g].id == k
            && forall v | 0 <= v < |s.workers| :: v in s.server.gens[g].ready
  {
    SystemRunInv(run, steps, i);
    var s := run[i];
    assert PassedInv(s, w, k);
    assert GenerationInv(s.server, s.workers[w].passed[k].gen);
    FullReady(s.server.gens[s.workers[w].passed[k].gen].ready, s.server.ids, s.server.workers);
  }

  /** Barrier indices of any two workers differ by at most one, at every moment. */
  lemma IndicesStayWithinOne(run: seq<System>, steps: seq<Step>, i: nat, v: nat, w: nat)
    requires IsSystemRun(run, steps) && i < |run|
    requires v < |run[i].workers| && w < |run[i].workers|
    ensures Index(run[i].workers[w]) <= Index(run[i].workers[v]) + 1
  {
    SystemRunInv(run, steps, i);
    var s := run[i];
    if Index(s.workers[w]) > 0 {
      var k := Index(s.workers[w]) - 1;
      NobodyPassesEarly(run, steps, i, w, k);
      var g := s.workers[w].passed[k].gen;
      assert GenerationInv(s.server, g);
      var h := s.server.gens[g].ready[v];
      assert HandlerInv(s.server, h) && RequestInv(s, h);
    }
  }

  /** All workers that pass barrier k pass the same generation of it and hold the same start
      time, however often the id was re-created. */
  lemma SameStartTime(run: seq<System>, steps: seq<Step>, i: nat, v: nat, w: nat, k: nat)
    requires IsSystemRun(run, steps) && i < |run|
    requires v < |run[i].workers| && w < |run[i].workers|
    requires k < Index(run[i].workers[v]) && k < Index(run[i].workers[w])
    ensures run[i].workers[v].passed[k] == run[i].workers[w].passed[k]
  {
    SystemRunInv(run, steps, i);
    assert PassedInv(run[i], v, k) && PassedInv(run[i], w, k);
    NobodyPassesEarly(run, steps, i, v, k);
    NobodyPassesEarly(run, steps, i, w, k);
  }
}
