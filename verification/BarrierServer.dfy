/**
 The barrier server that synchronises the start of a phase across worker pods.

 Every HTTP request runs in its own handler.  A handler first looks up (or creates) the
 barrier state of its barrier id under the server lock, then registers under the lock of that
 state, and, when it completed the barrier, removes the id under the server lock again.  Each
 of these lock sections is one step here, and the steps of different handlers interleave
 freely.  A barrier id can be used again after its state was removed: every state ever
 created is kept in `gens`, so a reused id shows up as a later generation.
 */
module BarrierServer {
  import opened Shared

  type Time = int

  /** Where a handler is.  `Arrived`: not yet looked up; `Fetched`: holds a state, not yet
      locked it; `Deleting`: released the barrier and has not yet removed the id. */
  datatype Phase = Arrived | Lost | Fetched | Rejected | Deleting | Waiting | Replied | Cancelled

  /** One request.  `sent` lists everything ever sent on its response channel (capacity 1). */
  datatype Handler = Handler(worker: int, barrier: int, phase: Phase, gen: Option<nat>, sent: seq<Time>)

  /** One barrier state.  `broadcasts` counts the executions of its send loop. */
  datatype Generation = Generation(id: int, ready: map<int, nat>, broadcasts: nat, start: Time, releaser: Option<nat>)

  /** `workers` is the number of registrations that release a barrier; `ids` are the worker ids in use, which the
      server never checks. */
  datatype Server = Server(workers: nat, ids: set<int>, handlers: seq<Handler>, gens: seq<Generation>, barriers: map<int, nat>)

  datatype Action =
    | Arrive(worker: int, barrier: int)
    | Lose(h: nat)
    | Fetch(h: nat)
    | Lock(h: nat, now: Time)
    | Delete(h: nat)
    | Reply(h: nat)
    | Cancel(h: nat)

  const ONE_SECOND: Time := 1_000_000_000

  predicate InPhase(s: Server, h: nat, p: Phase) {
    h < |s.handlers| && s.handlers[h].phase == p
  }

  predicate Enabled(s: Server, a: Action) {
    match a
    case Arrive(_, _) => true
    case Lose(h) => InPhase(s, h, Arrived)
    case Fetch(h) => InPhase(s, h, Arrived)
    case Lock(h, _) => InPhase(s, h, Fetched) && Attached(s, h)
    case Delete(h) => InPhase(s, h, Deleting)
    case Reply(h) => InPhase(s, h, Waiting) && s.handlers[h].sent != []
    case Cancel(h) => InPhase(s, h, Waiting)
  }

  predicate Attached(s: Server, h: nat) {
    h < |s.handlers| && s.handlers[h].gen.Some? && s.handlers[h].gen.value < |s.gens|
  }

  /** The handler already finds its worker registered in the state it fetched. */
  predicate Duplicate(s: Server, h: nat)
    requires Attached(s, h)
  {
    s.handlers[h].worker in s.gens[s.handlers[h].gen.value].ready
  }

  /** Registering this handler brings the state to the expected number of workers. */
  predicate Completes(s: Server, h: nat)
    requires Attached(s, h)
  {
    !Duplicate(s, h) && |s.gens[s.handlers[h].gen.value].ready| + 1 == s.workers
  }

  function SetPhase(s: Server, h: nat, p: Phase): Server
    requires h < |s.handlers|
  {
    s.(handlers := s.handlers[h := s.handlers[h].(phase := p)])
  }

  function FetchBarrier(s: Server, h: nat): Server
    requires h < |s.handlers|
  {
    var id := s.handlers[h].barrier;
    var fetched := s.handlers[h].(phase := Fetched, gen := Some(if id in s.barriers then s.barriers[id] else |s.gens|));
    var t := s.(handlers := s.handlers[h := fetched]);
    if id in s.barriers then t
    else t.(gens := s.gens + [Generation(id, map[], 0, 0, None)], barriers := s.barriers[id := |s.gens|])
  }

  /** Handler `h` owns one of the channels listed in `ready`. */
  predicate Listed(ready: map<int, nat>, h: nat) {
    exists w | w in ready :: ready[w] == h
  }

  /** Sends `t` on the channel of every registered handler. */
  function Broadcast(hs: seq<Handler>, ready: map<int, nat>, t: Time): (r: seq<Handler>)
    ensures |r| == |hs|
  {
    seq(|hs|, i requires 0 <= i < |hs| => if Listed(ready, i) then hs[i].(sent := hs[i].sent + [t]) else hs[i])
  }

  function LockBarrier(s: Server, h: nat, now: Time): Server
    requires Attached(s, h)
  {
    if Duplicate(s, h) then SetPhase(s, h, Rejected)
    else
      var g := s.handlers[h].gen.value;
      var ready := s.gens[g].ready[s.handlers[h].worker := h];
      if Completes(s, h) then
        var t := now + ONE_SECOND;
        var gen := s.gens[g].(ready := ready, broadcasts := s.gens[g].broadcasts + 1, start := t, releaser := Some(h));
        var marked := s.handlers[h := s.handlers[h].(phase := Deleting)];
        s.(gens := s.gens[g := gen], handlers := Broadcast(marked, ready, t))
      else
        SetPhase(s.(gens := s.gens[g := s.gens[g].(ready := ready)]), h, Waiting)
  }

  function Apply(s: Server, a: Action): Server
    requires Enabled(s, a)
  {
    match a
    case Arrive(w, b) => s.(handlers := s.handlers + [Handler(w, b, Arrived, None, [])])
    case Lose(h) => SetPhase(s, h, Lost)
    case Fetch(h) => FetchBarrier(s, h)
    case Lock(h, now) => LockBarrier(s, h, now)
    case Delete(h) =>
      var t := SetPhase(s, h, Waiting);
      t.(barriers := s.barriers - {s.handlers[h].barrier})
    case Reply(h) => SetPhase(s, h, Replied)
    case Cancel(h) => SetPhase(s, h, Cancelled)
  }

  ghost predicate Init(s: Server) {
    s.workers >= 1 && s.handlers == [] && s.gens == [] && s.barriers == map[]
  }

  /** Requests carry ids in use. */
  predicate KnownWorker(s: Server, a: Action) {
    a.Arrive? ==> a.worker in s.ids
  }

  /** No more ids are in use than the barriers wait for. */
  predicate FewIds(s: Server) { |s.ids| <= s.workers }

  /** The i-th step of a run is an enabled action with its effect. */
  ghost predicate StepAt(run: seq<Server>, acts: seq<Action>, i: nat) {
    i < |acts| && i + 1 < |run| && Enabled(run[i], acts[i]) && KnownWorker(run[i], acts[i]) && run[i + 1] == Apply(run[i], acts[i])
  }

  ghost predicate IsRun(run: seq<Server>, acts: seq<Action>) {
    && |run| == |acts| + 1
    && Init(run[0])
    && forall i | 0 <= i < |acts| :: StepAt(run, acts, i)
  }

  // ---------------------------------------------------------------- invariant

  predicate Released(s: Server, g: nat)
    requires g < |s.gens|
  {
    |s.gens[g].ready| == s.workers
  }

  /** The handler has been through the lock section of its state and is registered there. */
  predicate Registered(p: Phase) {
    p.Deleting? || p.Waiting? || p.Replied? || p.Cancelled?
  }

  ghost predicate HandlerInv(s: Server, h: nat)
    requires h < |s.handlers|
  {
    var x := s.handlers[h];
    && x.worker in s.ids
    && (x.phase.Arrived? || x.phase.Lost? <==> x.gen.None?)
    && (x.gen.Some? ==>
      && x.gen.value < |s.gens|
      && s.gens[x.gen.value].id == x.barrier
      && (Registered(x.phase) <==> x.worker in s.gens[x.gen.value].ready && s.gens[x.gen.value].ready[x.worker] == h)
      && (x.phase == Replied ==> Released(s, x.gen.value))
      && (x.phase == Deleting ==>
        && Released(s, x.gen.value)
        && s.gens[x.gen.value].releaser == Some(h)
        && x.barrier in s.barriers && s.barriers[x.barrier] == x.gen.value))
    && x.sent == (if Registered(x.phase) && x.gen.Some? && x.gen.value < |s.gens| && Released(s, x.gen.value)
                  then [s.gens[x.gen.value].start] else [])
  }

  ghost predicate GenerationInv(s: Server, g: nat)
    requires g < |s.gens|
  {
    var x := s.gens[g];
    && (forall w | w in x.ready ::
      && w in s.ids
      && x.ready[w] < |s.handlers|
      && s.handlers[x.ready[w]].worker == w
      && s.handlers[x.ready[w]].gen == Some(g))
    && |x.ready| <= s.workers
    && x.broadcasts == (if Released(s, g) then 1 else 0)
    && (!Released(s, g) ==> x.id in s.barriers && s.barriers[x.id] == g)
  }

  ghost predicate MapInv(s: Server) {
    forall id | id in s.barriers ::
      && s.barriers[id] < |s.gens|
      && s.gens[s.barriers[id]].id == id
      && (forall g | s.barriers[id] < g < |s.gens| :: s.gens[g].id != id)
  }

  ghost predicate Inv(s: Server) {
    && s.workers >= 1 && |s.ids| <= s.workers
    && (forall h | 0 <= h < |s.handlers| :: HandlerInv(s, h))
    && (forall g | 0 <= g < |s.gens| :: GenerationInv(s, g))
    && MapInv(s)
  }

  /** Pigeonhole: with no more ids than the barrier waits for, a released state has registered every id. */
  lemma FullReady(ready: map<int, nat>, ids: set<int>, n: nat)
    requires forall w | w in ready :: w in ids
    requires |ready| == n >= |ids|
    ensures forall w | w in ids :: w in ready
  {
    var keys := ready.Keys;
    assert |keys| == |ready|;
    forall w | w in keys ensures w in ids { assert w in ready; }
    var rest := ids - keys;
    assert ids == keys + rest && |ids| == |keys| + |rest|;
    assert rest == {};
    assert forall w | w in ids :: w in keys || w in rest;
  }

  lemma FetchPreserves(s: Server, h: nat)
    requires Inv(s) && Enabled(s, Fetch(h))
    ensures Inv(Apply(s, Fetch(h)))
  {
    var t := Apply(s, Fetch(h));
    assert HandlerInv(s, h);
    forall g | 0 <= g < |t.gens| ensures GenerationInv(t, g) {
      if g < |s.gens| { assert GenerationInv(s, g); }
    }
    forall i | 0 <= i < |t.handlers| ensures HandlerInv(t, i) {
      assert HandlerInv(s, i);
      if i == h && t.handlers[h].gen.value < |s.gens| {
        assert GenerationInv(s, t.handlers[h].gen.value);
      }
    }
  }

  lemma LockPreserves(s: Server, h: nat, now: Time)
    requires Inv(s) && Enabled(s, Lock(h, now))
    ensures Inv(Apply(s, Lock(h, now)))
  {
    assert HandlerInv(s, h);
    var t := Apply(s, Lock(h, now));
    if Duplicate(s, h) {
      forall i | 0 <= i < |t.handlers| ensures HandlerInv(t, i) { assert HandlerInv(s, i); }
      forall i | 0 <= i < |t.gens| ensures GenerationInv(t, i) { assert GenerationInv(s, i); }
    } else {
      RegisterHandlers(s, h, now);
      RegisterGenerations(s, h, now);
    }
  }

  /** A state that still accepts a registration has not been released. */
  lemma RegisteringIsUnreleased(s: Server, h: nat)
    requires Inv(s) && Attached(s, h) && !Duplicate(s, h)
    ensures !Released(s, s.handlers[h].gen.value)
  {
    var g := s.handlers[h].gen.value;
    assert HandlerInv(s, h) && GenerationInv(s, g);
    if Released(s, g) { FullReady(s.gens[g].ready, s.ids, s.workers); }
  }

  lemma RegisterGeneration(s: Server, h: nat, now: Time, g: nat)
    requires Inv(s) && Enabled(s, Lock(h, now)) && !Duplicate(s, h) && g < |s.gens|
    ensures GenerationInv(Apply(s, Lock(h, now)), g)
  {
    RegisteringIsUnreleased(s, h);
    assert GenerationInv(s, g) && HandlerInv(s, h);
  }

  lemma RegisterGenerations(s: Server, h: nat, now: Time)
    requires Inv(s) && Enabled(s, Lock(h, now)) && !Duplicate(s, h)
    ensures var t := Apply(s, Lock(h, now)); MapInv(t) && forall g | 0 <= g < |t.gens| :: GenerationInv(t, g)
  {
    forall g | 0 <= g < |s.gens| ensures GenerationInv(Apply(s, Lock(h, now)), g) { RegisterGeneration(s, h, now, g); }
  }

  lemma RegisterHandlers(s: Server, h: nat, now: Time)
    requires Inv(s) && Enabled(s, Lock(h, now)) && !Duplicate(s, h)
    ensures var t := Apply(s, Lock(h, now)); forall i | 0 <= i < |t.handlers| :: HandlerInv(t, i)
  {
    var t := Apply(s, Lock(h, now));
    RegisteringIsUnreleased(s, h);
    var g := s.handlers[h].gen.value;
    assert HandlerInv(s, h) && GenerationInv(s, g);
    forall i | 0 <= i < |t.handlers| ensures HandlerInv(t, i) {
      assert HandlerInv(s, i);
      if Completes(s, h) { ReadyValues(s, h, i); }
    }
  }

  /** The send loop reaches exactly the handlers registered in the released state. */
  lemma ReadyValues(s: Server, h: nat, i: nat)
    requires Inv(s) && Attached(s, h) && s.handlers[h].phase == Fetched && !Duplicate(s, h)
    requires i < |s.handlers|
    ensures Listed(s.gens[s.handlers[h].gen.value].ready[s.handlers[h].worker := h], i)
       <==> i == h || (s.handlers[i].gen == s.handlers[h].gen && Registered(s.handlers[i].phase))
  {
    var g := s.handlers[h].gen.value;
    var ready := s.gens[g].ready[s.handlers[h].worker := h];
    assert HandlerInv(s, h) && HandlerInv(s, i) && GenerationInv(s, g);
    if i == h {
      assert ready[s.handlers[h].worker] == i;
    } else if s.handlers[i].gen == Some(g) && Registered(s.handlers[i].phase) {
      assert ready[s.handlers[i].worker] == i;
    }
  }

  lemma DeletePreserves(s: Server, h: nat)
    requires Inv(s) && Enabled(s, Delete(h))
    ensures Inv(Apply(s, Delete(h)))
  {
    var t := Apply(s, Delete(h));
    assert HandlerInv(s, h);
    forall i | 0 <= i < |t.handlers| ensures HandlerInv(t, i) { assert HandlerInv(s, i); }
    forall i | 0 <= i < |t.gens| ensures GenerationInv(t, i) { assert GenerationInv(s, i); }
  }

  /** Steps that leave the barrier states and the map of ids alone. */
  lemma QuietPreserves(s: Server, a: Action)
    requires Inv(s) && Enabled(s, a) && KnownWorker(s, a) && (a.Arrive? || a.Lose? || a.Reply? || a.Cancel?)
    ensures Inv(Apply(s, a))
  {
    var t := Apply(s, a);
    forall i | 0 <= i < |t.handlers| ensures HandlerInv(t, i) {
      if i < |s.handlers| { assert HandlerInv(s, i); }
    }
    forall i | 0 <= i < |t.gens| ensures GenerationInv(t, i) { assert GenerationInv(s, i); }
  }

  lemma StepPreserves(s: Server, a: Action)
    requires Inv(s) && Enabled(s, a) && KnownWorker(s, a)
    ensures Inv(Apply(s, a))
  {
    match a
    case Fetch(h) => FetchPreserves(s, h);
    case Lock(h, now) => LockPreserves(s, h, now);
    case Delete(h) => DeletePreserves(s, h);
    case _ => QuietPreserves(s, a);
  }

  lemma {:induction false} RunInv(run: seq<Server>, acts: seq<Action>, i: nat)
    requires IsRun(run, acts) && i < |run| && FewIds(run[0])
    ensures Inv(run[i])
  {
    if i > 0 {
      RunInv(run, acts, i - 1);
      assert StepAt(run, acts, i - 1);
      StepPreserves(run[i - 1], acts[i - 1]);
    }
  }

  // ---------------------------------------------------------------- results

  /** A handler that fetched a state and locks it only after its release is turned away as a
      duplicate: it neither registers nor releases anything. */
  lemma LateHandlerIsRejected(run: seq<Server>, acts: seq<Action>, i: nat, h: nat, now: Time)
    requires IsRun(run, acts) && i < |run| && FewIds(run[0]) && Enabled(run[i], Lock(h, now))
    requires Released(run[i], run[i].handlers[h].gen.value)
    ensures Apply(run[i], Lock(h, now)) == SetPhase(run[i], h, Rejected)
  {
    RunInv(run, acts, i);
    var s := run[i];
    var g := s.handlers[h].gen.value;
    assert HandlerInv(s, h) && GenerationInv(s, g);
    FullReady(s.gens[g].ready, s.ids, s.workers);
  }

  /** Nobody who registered is forgotten: once its state is released, a handler that is still
      waiting can always reply, and with the start time of that state. */
  lemma ReleasedHandlerCanReply(run: seq<Server>, acts: seq<Action>, i: nat, h: nat)
    requires IsRun(run, acts) && i < |run| && FewIds(run[0]) && InPhase(run[i], h, Waiting)
    ensures Attached(run[i], h)
    ensures Released(run[i], run[i].handlers[h].gen.value) <==> Enabled(run[i], Reply(h))
    ensures Enabled(run[i], Reply(h)) ==> run[i].handlers[h].sent == [run[i].gens[run[i].handlers[h].gen.value].start]
  {
    RunInv(run, acts, i);
    assert HandlerInv(run[i], h);
  }
}
