/**
 Streams that draw from one request budget without a lock.

 Each stream prefetches its next conversation in a separate goroutine: `fill` reserves a request by
 a compare-and-swap loop on the shared counter, takes the next dataset position from a second
 shared counter, and puts the conversation into the stream's buffer of capacity one; once the
 budget is spent it puts an end marker instead.  Every access to shared memory is one step.

 A stream leaves when it takes the end marker, and it may leave at any moment because it was cancelled (the stage
 timed out, the pool shrank, the generator gave up).  The prefetch it leaves behind still runs to its end: it may
 reserve and draw a conversation that nobody will ever take.
 */
module BudgetedStreams {
  import opened Shared

  datatype Pending = Item(position: nat) | Exhausted

  datatype Filler = Off | Loading | Swapping(seen: nat) | Closing | Drawing | Offering(pending: Pending)

  /** `Gone`: ran out of budget; `Left`: was cancelled. */
  datatype Main = Starting | Waiting | Busy | Gone | Left

  datatype Stream = Stream(main: Main, filler: Filler, buffer: seq<Pending>)

  /** `cursor` is the dataset index; `issued` lists the positions whose requests were sent. */
  datatype State = State(limit: int, count: nat, cursor: nat, closes: nat, onceUsed: bool, streams: seq<Stream>, issued: seq<nat>)

  datatype Action = Begin(k: nat) | Fill(k: nat) | Take(k: nat) | Finish(k: nat) | Leave(k: nat)

  predicate Enabled(s: State, a: Action) {
    && a.k < |s.streams|
    && var x := s.streams[a.k];
       match a
       case Begin(_) => x.main == Starting
       case Fill(_) => x.filler != Off && (x.filler.Offering? ==> |x.buffer| < 1)
       case Take(_) => x.main == Waiting && x.buffer != []
       case Finish(_) => x.main == Busy
       case Leave(_) => x.main != Gone && x.main != Left
  }

  function SetStream(s: State, k: nat, x: Stream): State
    requires k < |s.streams|
  {
    s.(streams := s.streams[k := x])
  }

  function FillStep(s: State, k: nat): State
    requires k < |s.streams| && s.streams[k].filler != Off
  {
    var x := s.streams[k];
    match x.filler
    case Loading =>
      SetStream(s, k, x.(filler := if s.limit <= 0 then Drawing else if s.count >= s.limit then Closing else Swapping(s.count)))
    case Swapping(seen) =>
      if s.count == seen then SetStream(s, k, x.(filler := Drawing)).(count := s.count + 1)
      else SetStream(s, k, x.(filler := Loading))
    case Closing =>
      SetStream(s, k, x.(filler := Offering(Exhausted))).(
        closes := if s.onceUsed then s.closes else s.closes + 1, onceUsed := true)
    case Drawing => SetStream(s, k, x.(filler := Offering(Item(s.cursor)))).(cursor := s.cursor + 1)
    case Offering(p) => SetStream(s, k, x.(filler := Off, buffer := x.buffer + [p]))
  }

  function Apply(s: State, a: Action): State
    requires Enabled(s, a)
  {
    var x := s.streams[a.k];
    match a
    case Begin(k) => SetStream(s, k, x.(main := Waiting, filler := Loading))
    case Fill(k) => FillStep(s, k)
    case Take(k) =>
      var rest := x.(buffer := x.buffer[1..]);
      (match x.buffer[0]
       case Exhausted => SetStream(s, k, rest.(main := Gone))
       case Item(p) => SetStream(s, k, rest.(main := Busy, filler := Loading)).(issued := s.issued + [p]))
    case Finish(k) => SetStream(s, k, x.(main := Waiting))
    case Leave(k) => SetStream(s, k, x.(main := Left))
  }

  ghost predicate Init(s: State) {
    && s.count == 0 && s.cursor == 0 && s.closes == 0 && !s.onceUsed && s.issued == []
    && forall k | 0 <= k < |s.streams| :: s.streams[k] == Stream(Starting, Off, [])
  }

  /** The i-th step of a run is an enabled action with its effect. */
  ghost predicate StepAt(run: seq<State>, acts: seq<Action>, i: nat) {
    i < |acts| && i + 1 < |run| && Enabled(run[i], acts[i]) && run[i + 1] == Apply(run[i], acts[i])
  }

  ghost predicate IsRun(run: seq<State>, acts: seq<Action>) {
    && |run| == |acts| + 1
    && Init(run[0])
    && forall i | 0 <= i < |acts| :: StepAt(run, acts, i)
  }

  // ---------------------------------------------------------------- invariant

  function Position(p: Pending): seq<nat> { if p.Item? then [p.position] else [] }

  /** The drawn conversations a stream has not taken yet. */
  function InFlight(x: Stream): seq<nat> {
    if x.filler.Offering? then Position(x.filler.pending) else if x.buffer != [] then Position(x.buffer[0]) else []
  }

  /** Reservations made but not yet turned into a dataset position. */
  function Reserving(xs: seq<Stream>): nat { Total(Reserved, xs) }

  function Reserved(x: Stream): nat { if x.filler == Drawing then 1 else 0 }

  function InFlightCount(xs: seq<Stream>): nat { Total(FlightSize, xs) }

  function FlightSize(x: Stream): nat { |InFlight(x)| }

  /** A running stream has exactly one prefetch under way or waiting in its buffer. */
  ghost predicate StreamInv(s: State, x: Stream) {
    && (x.main.Starting? || x.main.Gone? ==> x.filler == Off && x.buffer == [])
    && (x.main.Waiting? || x.main.Busy? ==> (x.filler == Off <==> |x.buffer| == 1))
    && |x.buffer| <= 1 && (x.filler != Off ==> x.buffer == [])
    && (x.filler == Closing || x.filler == Offering(Exhausted) || x.buffer == [Exhausted] || x.main == Gone ==> 0 < s.limit <= s.count)
    && (x.filler == Offering(Exhausted) || x.buffer == [Exhausted] || x.main == Gone ==> s.onceUsed)
    && (forall p | p in InFlight(x) :: p < s.cursor && p !in s.issued)
    && (x.filler.Swapping? ==> x.filler.seen < s.limit)
  }

  /** No position is in flight at two streams. */
  ghost predicate Disjoint(xs: seq<Stream>) {
    forall k, l, p | 0 <= k < |xs| && 0 <= l < |xs| && k != l && p in InFlight(xs[k]) :: p !in InFlight(xs[l])
  }

  ghost predicate Inv(s: State) {
    && (forall k | 0 <= k < |s.streams| :: StreamInv(s, s.streams[k]))
    && Disjoint(s.streams)
    && CountInv(s)
  }

  ghost predicate CountInv(s: State) {
    && (s.limit > 0 ==> s.cursor + Reserving(s.streams) == s.count <= s.limit)
    && |s.issued| + InFlightCount(s.streams) == s.cursor
    && (forall i | 0 <= i < |s.issued| :: s.issued[i] < s.cursor)
    && (forall i, j | 0 <= i < j < |s.issued| :: s.issued[i] != s.issued[j])
    && s.closes == (if s.onceUsed then 1 else 0)
    && (s.onceUsed ==> 0 < s.limit <= s.count)
  }

  lemma CountsUpdate(xs: seq<Stream>, k: nat, x: Stream)
    requires k < |xs|
    ensures Reserving(xs[k := x]) == Reserving(xs) - Reserved(xs[k]) + Reserved(x)
    ensures InFlightCount(xs[k := x]) == InFlightCount(xs) - |InFlight(xs[k])| + |InFlight(x)|
  {
    TotalUpdate(Reserved, xs, k, x);
    TotalUpdate(FlightSize, xs, k, x);
  }

  /** A position that is new in flight at stream k is the one just drawn. */
  lemma MovePreserves(s: State, t: State, k: nat)
    requires Inv(s) && k < |s.streams| == |t.streams| && t.streams == s.streams[k := t.streams[k]]
    requires t.limit == s.limit && t.count >= s.count && t.cursor >= s.cursor && (s.onceUsed ==> t.onceUsed)
    requires forall p | p in InFlight(t.streams[k]) :: p in InFlight(s.streams[k]) || p >= s.cursor
    requires forall p | p in t.issued :: p in s.issued || p in InFlight(s.streams[k])
    requires StreamInv(t, t.streams[k]) && CountInv(t)
    ensures Inv(t)
  {
    forall l | 0 <= l < |t.streams| ensures StreamInv(t, t.streams[l]) {
      if l != k { assert StreamInv(s, s.streams[l]); }
    }
    forall i, l, p | 0 <= i < |t.streams| && 0 <= l < |t.streams| && i != l && p in InFlight(t.streams[i])
      ensures p !in InFlight(t.streams[l])
    {
      assert StreamInv(s, s.streams[i]) && StreamInv(s, s.streams[l]);
    }
  }

  lemma FillKeepsStream(s: State, k: nat)
    requires Inv(s) && Enabled(s, Fill(k))
    ensures StreamInv(FillStep(s, k), FillStep(s, k).streams[k])
  {
    var x, y := s.streams[k], FillStep(s, k).streams[k];
    assert StreamInv(s, x);
    if x.filler.Offering? {
      assert x.buffer == [] && y.buffer == [x.filler.pending];
      assert InFlight(y) == InFlight(x);
    } else if x.filler == Drawing {
      assert s.cursor !in s.issued;
      assert InFlight(y) == [s.cursor];
    } else {
      assert InFlight(y) == InFlight(x) || InFlight(y) == [];
    }
  }

  lemma FillKeepsCounts(s: State, k: nat)
    requires Inv(s) && Enabled(s, Fill(k))
    ensures CountInv(FillStep(s, k))
  {
    assert StreamInv(s, s.streams[k]);
    CountsUpdate(s.streams, k, FillStep(s, k).streams[k]);
  }

  lemma FillPreserves(s: State, k: nat)
    requires Inv(s) && Enabled(s, Fill(k))
    ensures Inv(FillStep(s, k))
  {
    assert StreamInv(s, s.streams[k]);
    FillKeepsStream(s, k);
    FillKeepsCounts(s, k);
    MovePreserves(s, FillStep(s, k), k);
  }

  lemma TakeKeepsCounts(s: State, k: nat)
    requires Inv(s) && Enabled(s, Take(k))
    ensures CountInv(Apply(s, Take(k)))
  {
    var x, t := s.streams[k], Apply(s, Take(k));
    assert StreamInv(s, x);
    assert x.buffer == [x.buffer[0]];
    CountsUpdate(s.streams, k, t.streams[k]);
    assert InFlight(t.streams[k]) == [];
    if x.buffer[0].Item? {
      assert x.buffer[0].position in InFlight(x);
      IssueCounts(s, t, x.buffer[0].position);
    }
  }

  lemma TakeKeepsStream(s: State, k: nat)
    requires Inv(s) && Enabled(s, Take(k))
    ensures var t := Apply(s, Take(k));
            StreamInv(t, t.streams[k]) && InFlight(t.streams[k]) == []
            && forall p | p in t.issued :: p in s.issued || p in InFlight(s.streams[k])
  {
    assert StreamInv(s, s.streams[k]);
  }

  lemma TakePreserves(s: State, k: nat)
    requires Inv(s) && Enabled(s, Take(k))
    ensures Inv(Apply(s, Take(k)))
  {
    TakeKeepsStream(s, k);
    TakeKeepsCounts(s, k);
    MovePreserves(s, Apply(s, Take(k)), k);
  }

  lemma IssueCounts(s: State, t: State, p: nat)
    requires CountInv(s) && p < s.cursor && p !in s.issued
    requires t == s.(streams := t.streams, issued := s.issued + [p])
    requires Reserving(t.streams) == Reserving(s.streams) && InFlightCount(t.streams) == InFlightCount(s.streams) - 1
    ensures CountInv(t)
  {
  }

  /** Steps that leave the prefetched conversation and the counters alone. */
  lemma MainPreserves(s: State, a: Action)
    requires Inv(s) && Enabled(s, a) && !a.Fill? && !a.Take?
    ensures Inv(Apply(s, a))
  {
    var k, t := a.k, Apply(s, a);
    assert StreamInv(s, s.streams[k]);
    CountsUpdate(s.streams, k, t.streams[k]);
    assert InFlight(t.streams[k]) == InFlight(s.streams[k]);
    MovePreserves(s, t, k);
  }

  lemma StepPreserves(s: State, a: Action)
    requires Inv(s) && Enabled(s, a)
    ensures Inv(Apply(s, a))
  {
    var k := a.k;
    match a
    case Fill(_) => FillPreserves(s, k);
    case Take(_) => TakePreserves(s, k);
    case _ => MainPreserves(s, a);
  }

  lemma NothingYet(xs: seq<Stream>)
    requires forall k | 0 <= k < |xs| :: xs[k].filler == Off && xs[k].buffer == []
    ensures Reserving(xs) == 0 && InFlightCount(xs) == 0
  {
    TotalOfNothing(Reserved, xs);
    TotalOfNothing(FlightSize, xs);
  }

  lemma {:induction false} RunInv(run: seq<State>, acts: seq<Action>, i: nat)
    requires IsRun(run, acts) && i < |run|
    ensures Inv(run[i])
  {
    if i > 0 {
      RunInv(run, acts, i - 1);
      assert StepAt(run, acts, i - 1);
      StepPreserves(run[i - 1], acts[i - 1]);
    } else {
      NothingYet(run[0].streams);
    }
  }

  // ---------------------------------------------------------------- results

  /** However the compare-and-swap loops interleave and whoever leaves, no more conversations are drawn than the
      limit, no position is issued twice, and the completion channel is closed at most once and only when the budget
      is spent. */
  lemma BudgetIsRespected(run: seq<State>, acts: seq<Action>, i: nat)
    requires IsRun(run, acts) && i < |run| && run[i].limit > 0
    ensures |run[i].issued| <= run[i].cursor <= run[i].count <= run[i].limit
    ensures forall j, k | 0 <= j < k < |run[i].issued| :: run[i].issued[j] != run[i].issued[k]
    ensures run[i].closes <= 1
    ensures run[i].closes == 1 ==> run[i].count == run[i].limit
  {
    RunInv(run, acts, i);
  }

  /** Each number below n exactly once. */
  ghost predicate IsPermutation(xs: seq<nat>, n: nat) {
    && |xs| == n
    && (forall i | 0 <= i < n :: xs[i] < n)
    && (forall i, j | 0 <= i < j < n :: xs[i] != xs[j])
  }

  /** When every stream has run out of budget, exactly `limit` conversations were issued, and they
      are dataset positions 0, ..., limit - 1, each once; and the end was announced, once. */
  lemma DrainedIssuesEachPositionOnce(run: seq<State>, acts: seq<Action>, i: nat)
    requires IsRun(run, acts) && i < |run| && run[i].limit > 0
    requires |run[i].streams| >= 1 && forall k | 0 <= k < |run[i].streams| :: run[i].streams[k].main == Gone
    ensures IsPermutation(run[i].issued, run[i].limit) && run[i].closes == 1
  {
    RunInv(run, acts, i);
    var s := run[i];
    forall k | 0 <= k < |s.streams| ensures s.streams[k].filler == Off && s.streams[k].buffer == [] {
      assert StreamInv(s, s.streams[k]);
    }
    NothingYet(s.streams);
    assert StreamInv(s, s.streams[0]);
  }

  /** Nobody is ever stuck: a stream that has not left can go on without leaving, and a prefetch under way can always
      take its next step, also when the stream it belongs to is gone. */
  lemma StreamsAreNeverStuck(run: seq<State>, acts: seq<Action>, i: nat, k: nat)
    requires IsRun(run, acts) && i < |run| && k < |run[i].streams|
    ensures run[i].streams[k].main != Gone && run[i].streams[k].main != Left ==>
              Enabled(run[i], Begin(k)) || Enabled(run[i], Fill(k)) || Enabled(run[i], Take(k)) || Enabled(run[i], Finish(k))
    ensures run[i].streams[k].filler != Off ==> Enabled(run[i], Fill(k))
  {
    RunInv(run, acts, i);
    assert StreamInv(run[i], run[i].streams[k]);
  }
}
