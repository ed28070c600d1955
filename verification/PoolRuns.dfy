/**
 Whole runs of a conversation pool: C streams share one scheduler.

 A stream asks the scheduler for a conversation, draws its content if that was not done yet, runs
 one turn and hands the conversation back.  Because of cancellation a stream may leave at any
 point, also while it holds a conversation, which is then never handed back.
 */
module PoolRuns {
  import opened Shared
  import opened PoolConversation
  import opened PoolScheduler

  datatype Stream = Idle | Holding(id: nat) | Finished(id: nat, replace: bool) | Left(held: Option<nat>)

  /** One request of a conversation and, if it was answered, the answer. */
  datatype Exchange = Exchange(turn: nat, request: Request, answer: Option<string>)

  /** `handed` lists the conversations handed out, `issued` the requests sent, per conversation. */
  datatype State = State(
    pool: Pool,
    convs: map<nat, Conversation>,
    streams: seq<Stream>,
    handed: seq<nat>,
    issued: map<nat, seq<Exchange>>)

  datatype Action =
    | Ask(k: nat)
    | Draw(k: nat, source: Source)
    | Run(k: nat, outcome: Outcome)
    | HandBack(k: nat)
    | Leave(k: nat)
    | Stop

  function Conv(s: State, id: nat): Conversation { if id in s.convs then s.convs[id] else FRESH }

  function Issued(s: State, id: nat): seq<Exchange> { if id in s.issued then s.issued[id] else [] }

  predicate Enabled(s: State, a: Action) {
    match a
    case Ask(k) => k < |s.streams| && s.streams[k].Idle?
    case Draw(k, _) => k < |s.streams| && s.streams[k].Holding? && Conv(s, s.streams[k].id).source.None?
    case Run(k, _) => k < |s.streams| && s.streams[k].Holding? && Conv(s, s.streams[k].id).source.Some?
    case HandBack(k) => k < |s.streams| && s.streams[k].Finished?
    case Leave(k) => k < |s.streams| && !s.streams[k].Left?
    case Stop => true
  }

  function Held(x: Stream): Option<nat> {
    match x
    case Idle => None
    case Holding(id) => Some(id)
    case Finished(id, _) => Some(id)
    case Left(held) => held
  }

  function SetStream(s: State, k: nat, x: Stream): State
    requires k < |s.streams|
  {
    s.(streams := s.streams[k := x])
  }

  function RunStep(s: State, k: nat, o: Outcome): State
    requires Enabled(s, Run(k, o))
  {
    var id := s.streams[k].id;
    var c := Conv(s, id);
    var r := Turn(c, o);
    SetStream(s, k, Finished(id, r.replace)).(
      convs := s.convs[id := r.conv], issued := s.issued[id := Logged(c, o, Issued(s, id))])
  }

  function Apply(s: State, a: Action): State
    requires Enabled(s, a)
  {
    match a
    case Ask(k) =>
      var (p, got) := Next(s.pool);
      if got.None? then SetStream(s, k, Left(None)).(pool := p)
      else SetStream(s, k, Holding(got.value)).(pool := p, handed := s.handed + [got.value])
    case Draw(k, source) =>
      var id := s.streams[k].id;
      s.(convs := s.convs[id := Conv(s, id).(source := Some(source))])
    case Run(k, o) => RunStep(s, k, o)
    case HandBack(k) =>
      SetStream(s, k, Idle).(pool := Complete(s.pool, s.streams[k].id, s.streams[k].replace))
    case Leave(k) => SetStream(s, k, Left(Held(s.streams[k])))
    case Stop => s.(pool := s.pool.(stopped := true))
  }

  ghost predicate Init(s: State) {
    && (exists limit :: s.pool == NewPool(s.pool.size, Budget(limit, 0, false)))
    && s.pool.size >= 1
    && s.convs == map[] && s.issued == map[] && s.handed == []
    && forall k | 0 <= k < |s.streams| :: s.streams[k] == Idle
  }

  /** The i-th step of a run is an enabled action with its effect. */
  ghost predicate StepAt(run: seq<State>, acts: seq<Action>, i: nat) {
    i < |acts| && i + 1 < |run| && Enabled(run[i], acts[i]) && run[i + 1] == Apply(run[i], acts[i])
  }

  ghost predicate IsRun(run: seq<State>, acts: seq<Action>) {
    && |run| == |acts| + 1
    && Init(run[0])
    && forall i | 0 <= i < |acts| :: StepAt(run, acts, i)
  }

  // ---------------------------------------------------------------- scheduling invariant

  ghost predicate HoldInv(s: State) {
    && (forall k | 0 <= k < |s.streams| && Held(s.streams[k]).Some? :: CheckedOut(s.pool, Held(s.streams[k]).value))
    && (forall k, l | 0 <= k < l < |s.streams| && Held(s.streams[k]).Some? :: Held(s.streams[k]) != Held(s.streams[l]))
    && (forall id | id in s.pool.live :: id in s.pool.queue || id in HeldIds(s.streams))
  }

  function HeldIds(xs: seq<Stream>): set<nat> {
    if xs == [] then {}
    else HeldIds(xs[..|xs| - 1]) + (if Held(xs[|xs| - 1]).Some? then {Held(xs[|xs| - 1]).value} else {})
  }

  function Holders(xs: seq<Stream>): nat { Total(HoldWeight, xs) }

  function HoldWeight(x: Stream): nat { if Held(x).Some? then 1 else 0 }

  ghost predicate BudgetInv(s: State) {
    && (s.pool.budget.limit > 0 ==> |s.handed| <= s.pool.budget.count <= s.pool.budget.limit)
    && (s.pool.budget.limit > 0 && s.pool.size >= |s.streams| ==> |s.handed| == s.pool.budget.count)
    && (s.pool.budget.limit <= 0 ==> s.pool.budget.count == 0)
    && (s.pool.budget.done <==> Spent(s.pool.budget))
    && Holders(s.streams) <= |s.handed|
    && (!s.pool.stopped && !Spent(s.pool.budget) ==> |s.pool.live| == InitialSize(s.pool.size, s.pool.budget))
  }

  ghost predicate ScheduleInv(s: State) {
    s.pool.size >= 1 && PoolInv(s.pool) && HoldInv(s) && BudgetInv(s)
  }

  lemma {:induction false} HeldIdsIff(xs: seq<Stream>, id: nat)
    ensures id in HeldIds(xs) <==> exists k | 0 <= k < |xs| :: Held(xs[k]) == Some(id)
  {
    if xs != [] {
      var last := |xs| - 1;
      HeldIdsIff(xs[..last], id);
      if id in HeldIds(xs[..last]) {
        var k :| 0 <= k < last && Held(xs[..last][k]) == Some(id);
        assert Held(xs[k]) == Some(id);
      }
      if k :| 0 <= k < |xs| && Held(xs[k]) == Some(id) {
        if k < last { assert Held(xs[..last][k]) == Some(id); }
      }
    }
  }

  lemma {:induction false} HoldersBound(xs: seq<Stream>)
    ensures |HeldIds(xs)| <= Holders(xs) <= |xs|
    ensures forall k | 0 <= k < |xs| && Held(xs[k]).None? :: Holders(xs) < |xs|
  {
    if xs != [] {
      var last := |xs| - 1;
      HoldersBound(xs[..last]);
      forall k | 0 <= k < |xs| && Held(xs[k]).None? ensures Holders(xs) < |xs| {
        if k < last { assert Held(xs[..last][k]).None?; }
      }
    }
  }

  /** The held set changes with the one stream that moves. */
  lemma HeldIdsUpdate(xs: seq<Stream>, k: nat, x: Stream, id: nat)
    requires k < |xs|
    requires forall i, j | 0 <= i < j < |xs| && Held(xs[i]).Some? :: Held(xs[i]) != Held(xs[j])
    ensures id in HeldIds(xs[k := x]) <==> Held(x) == Some(id) || (id in HeldIds(xs) && Held(xs[k]) != Some(id))
  {
    HeldIdsIff(xs, id);
    HeldIdsIff(xs[k := x], id);
    var ys := xs[k := x];
    if Held(x) == Some(id) { assert Held(ys[k]) == Some(id); }
    if i :| 0 <= i < |xs| && Held(xs[i]) == Some(id) {
      if i != k { assert Held(ys[i]) == Some(id); }
    }
  }

  /** Counting: as long as the budget is not spent, a stream that holds nothing finds the queue
      non-empty. */
  lemma ReadyWhenReservable(s: State, k: nat)
    requires ScheduleInv(s) && s.pool.size >= |s.streams| && k < |s.streams| && Held(s.streams[k]).None?
    requires !s.pool.stopped && !Spent(s.pool.budget)
    ensures s.pool.queue != []
  {
    HoldersBound(s.streams);
    if s.pool.queue == [] {
      assert s.pool.live <= HeldIds(s.streams);
      SubsetSize(s.pool.live, HeldIds(s.streams));
    }
  }

  lemma SubsetSize(a: set<nat>, b: set<nat>)
    requires a <= b
    ensures |a| <= |b|
  {
    assert b == a + (b - a);
  }

  lemma AskPreserves(s: State, k: nat)
    requires ScheduleInv(s) && Enabled(s, Ask(k))
    ensures ScheduleInv(Apply(s, Ask(k)))
  {
    NextInv(s.pool);
    AskHolds(s, k);
    AskBudget(s, k);
  }

  lemma AskHolds(s: State, k: nat)
    requires ScheduleInv(s) && Enabled(s, Ask(k))
    ensures HoldInv(Apply(s, Ask(k)))
  {
    var t := Apply(s, Ask(k));
    NextInv(s.pool);
    forall id | id in t.pool.live ensures id in t.pool.queue || id in HeldIds(t.streams) {
      HeldIdsUpdate(s.streams, k, t.streams[k], id);
    }
  }

  lemma AskBudget(s: State, k: nat)
    requires ScheduleInv(s) && Enabled(s, Ask(k))
    ensures BudgetInv(Apply(s, Ask(k)))
  {
    TotalUpdate(HoldWeight, s.streams, k, Apply(s, Ask(k)).streams[k]);
    if s.pool.size >= |s.streams| && !s.pool.stopped && !Spent(s.pool.budget) { ReadyWhenReservable(s, k); }
  }

  lemma HandBackHolds(s: State, k: nat)
    requires ScheduleInv(s) && Enabled(s, HandBack(k))
    ensures HoldInv(Apply(s, HandBack(k)))
  {
    var t := Apply(s, HandBack(k));
    var id := s.streams[k].id;
    assert Held(s.streams[k]) == Some(id);
    CompleteOthers(s.pool, id, s.streams[k].replace);
    forall l | 0 <= l < |t.streams| && Held(t.streams[l]).Some? ensures CheckedOut(t.pool, Held(t.streams[l]).value) {
      OnlyHolder(s, k, l);
    }
    forall j | j in t.pool.live ensures j in t.pool.queue || j in HeldIds(t.streams) {
      HeldIdsUpdate(s.streams, k, Idle, j);
    }
  }

  lemma HandBackPreserves(s: State, k: nat)
    requires ScheduleInv(s) && Enabled(s, HandBack(k))
    ensures ScheduleInv(Apply(s, HandBack(k)))
  {
    assert Held(s.streams[k]) == Some(s.streams[k].id);
    CompleteInv(s.pool, s.streams[k].id, s.streams[k].replace);
    TotalUpdate(HoldWeight, s.streams, k, Idle);
    HandBackHolds(s, k);
  }

  /** What one stream holds, no other stream holds. */
  lemma OnlyHolder(s: State, k: nat, l: nat)
    requires HoldInv(s) && k < |s.streams| && l < |s.streams| && k != l && Held(s.streams[k]).Some?
    ensures Held(s.streams[k]) != Held(s.streams[l])
  {
    if l < k { assert Held(s.streams[l]).Some? ==> Held(s.streams[l]) != Held(s.streams[k]); }
  }

  lemma SameHolderPreserves(s: State, t: State, k: nat)
    requires ScheduleInv(s) && k < |s.streams| && t.pool == s.pool && t.handed == s.handed
    requires |t.streams| == |s.streams| && t.streams == s.streams[k := t.streams[k]] && Held(t.streams[k]) == Held(s.streams[k])
    ensures ScheduleInv(t)
  {
    TotalUpdate(HoldWeight, s.streams, k, t.streams[k]);
    forall id | id in t.pool.live ensures id in t.pool.queue || id in HeldIds(t.streams) {
      HeldIdsUpdate(s.streams, k, t.streams[k], id);
    }
  }

  lemma SchedulePreserves(s: State, a: Action)
    requires ScheduleInv(s) && Enabled(s, a)
    ensures ScheduleInv(Apply(s, a))
  {
    match a
    case Ask(k) => AskPreserves(s, k);
    case HandBack(k) => HandBackPreserves(s, k);
    case Draw(k, _) => SameHolderPreserves(s, Apply(s, a), k);
    case Run(k, _) => SameHolderPreserves(s, Apply(s, a), k);
    case Leave(k) => SameHolderPreserves(s, Apply(s, a), k);
    case Stop =>
  }

  lemma InitSchedule(s: State)
    requires Init(s)
    ensures ScheduleInv(s)
  {
    var limit :| s.pool == NewPool(s.pool.size, Budget(limit, 0, false));
    NewPoolInv(s.pool.size, Budget(limit, 0, false));
    TotalOfNothing(HoldWeight, s.streams);
  }

  lemma {:induction false} RunSchedule(run: seq<State>, acts: seq<Action>, i: nat)
    requires IsRun(run, acts) && i < |run|
    ensures ScheduleInv(run[i])
  {
    if i > 0 {
      RunSchedule(run, acts, i - 1);
      assert StepAt(run, acts, i - 1);
      SchedulePreserves(run[i - 1], acts[i - 1]);
    } else {
      InitSchedule(run[0]);
    }
  }

  /** With a pool at least as large as the number of streams, a stream that asks is turned away only
      because the scheduler is stopped or the budget is spent: a reservation is never wasted on an
      empty queue, whatever conversations were lost to streams that left. */
  lemma NoWastedBudget(run: seq<State>, acts: seq<Action>, i: nat, k: nat)
    requires IsRun(run, acts) && i < |run| && Enabled(run[i], Ask(k))
    requires run[i].pool.size >= |run[i].streams|
    ensures Next(run[i].pool).1.None? <==> run[i].pool.stopped || Spent(run[i].pool.budget)
  {
    RunSchedule(run, acts, i);
    var s := run[i];
    if !s.pool.stopped && !Spent(s.pool.budget) { ReadyWhenReservable(s, k); }
  }

  /** Under a limit, the conversations handed out are exactly the reservations counted, never more
      than the limit. */
  lemma HandedOutIsCounted(run: seq<State>, acts: seq<Action>, i: nat)
    requires IsRun(run, acts) && i < |run| && run[i].pool.budget.limit > 0
    requires run[i].pool.size >= |run[i].streams|
    ensures |run[i].handed| == run[i].pool.budget.count <= run[i].pool.budget.limit
  {
    RunSchedule(run, acts, i);
  }

  /** Under a limit the end of the budget is announced as soon as the last request is reserved, and not before; without
      one nothing is counted and nothing announced. */
  lemma DoneWhenSpent(run: seq<State>, acts: seq<Action>, i: nat)
    requires IsRun(run, acts) && i < |run|
    ensures var b := run[i].pool.budget;
            && b.limit == run[0].pool.budget.limit
            && (b.limit > 0 ==> b.count <= b.limit && (b.done <==> b.count == b.limit))
            && (b.limit <= 0 ==> b.count == 0 && !b.done)
  {
    RunSchedule(run, acts, i);
    SameLimit(run, acts, i);
  }

  lemma {:induction false} SameLimit(run: seq<State>, acts: seq<Action>, i: nat)
    requires IsRun(run, acts) && i < |run|
    ensures run[i].pool.budget.limit == run[0].pool.budget.limit
  {
    if i > 0 {
      SameLimit(run, acts, i - 1);
      assert StepAt(run, acts, i - 1);
    }
  }

  /** Ready and checked-out conversations partition the live ones, each is ready once or checked
      out to one stream, and there are never more than the pool size. */
  lemma ReadyAndHeldPartitionLive(run: seq<State>, acts: seq<Action>, i: nat)
    requires IsRun(run, acts) && i < |run|
    ensures var s := run[i];
            && |s.pool.live| <= s.pool.size
            && (forall j, l | 0 <= j < l < |s.pool.queue| :: s.pool.queue[j] != s.pool.queue[l])
            && (forall id | id in HeldIds(s.streams) :: id !in s.pool.queue)
            && (set id | id in s.pool.queue) + HeldIds(s.streams) == s.pool.live
            && (forall k, l | 0 <= k < l < |s.streams| && Held(s.streams[k]).Some? :: Held(s.streams[k]) != Held(s.streams[l]))
  {
    RunSchedule(run, acts, i);
    var s := run[i];
    forall id | id in HeldIds(s.streams) ensures CheckedOut(s.pool, id) {
      HeldIdsIff(s.streams, id);
      var k :| 0 <= k < |s.streams| && Held(s.streams[k]) == Some(id);
    }
  }

  /** First in, first out, over whole runs: what was handed out followed by what is ready only ever
      grows at its end. */
  lemma {:induction false} Fifo(run: seq<State>, acts: seq<Action>, i: nat, j: nat)
    requires IsRun(run, acts) && i <= j < |run|
    ensures run[i].handed + run[i].pool.queue <= run[j].handed + run[j].pool.queue
    ensures |run[i].handed| <= |run[j].handed|
    decreases j - i
  {
    if i < j {
      Fifo(run, acts, i, j - 1);
      assert StepAt(run, acts, j - 1);
      FifoStep(run[j - 1], acts[j - 1]);
    }
  }

  lemma FifoStep(s: State, a: Action)
    requires Enabled(s, a)
    ensures s.handed + s.pool.queue <= Apply(s, a).handed + Apply(s, a).pool.queue
    ensures |s.handed| <= |Apply(s, a).handed|
  {
    var t := Apply(s, a);
    if a.Ask? && Next(s.pool).1.Some? {
      assert s.handed + s.pool.queue == t.handed + t.pool.queue;
    }
  }

  /** A conversation with `ahead` others before it is the one handed out by exactly the
      (ahead + 1)-th success from now on. */
  lemma HandedOutInTurn(run: seq<State>, acts: seq<Action>, i: nat, ahead: nat, j: nat)
    requires IsRun(run, acts) && i <= j < |run| && ahead < |run[i].pool.queue|
    ensures if |run[j].handed| <= |run[i].handed| + ahead
            then |run[i].handed| + ahead - |run[j].handed| < |run[j].pool.queue|
                 && run[j].pool.queue[|run[i].handed| + ahead - |run[j].handed|] == run[i].pool.queue[ahead]
            else run[j].handed[|run[i].handed| + ahead] == run[i].pool.queue[ahead]
  {
    Fifo(run, acts, i, j);
    var at := |run[i].handed| + ahead;
    var before, after := run[i].handed + run[i].pool.queue, run[j].handed + run[j].pool.queue;
    assert before[at] == run[i].pool.queue[ahead];
    assert after[at] == before[at];
  }

  // ---------------------------------------------------------------- conversations

  /** Requests of one conversation: turn t carries 2t + 1 messages and extends the previous request
      by the answer it got and the next user message. */
  ghost predicate InSequence(source: Source, log: seq<Exchange>) {
    && (forall t | 0 <= t < |log| :: log[t].turn == t)
    && (source.Completion? ==> |log| <= 1 && forall t | 0 <= t < |log| :: log[t].request == Prompt(source.prompt))
    && (source.Chat? ==>
      && |log| <= |source.turns|
      && (forall t | 0 <= t < |log| :: source.turns[t] != [] && log[t].request.Messages? && |log[t].request.messages| == 2 * t + 1)
      && (|log| > 0 ==> log[0].request.messages == [Last(source.turns[0])])
      && (forall t | 0 < t < |log| :: Extends(log[t - 1], log[t], source.turns[t])))
  }

  predicate Extends(previous: Exchange, next: Exchange, prepared: seq<Message>) {
    && previous.answer.Some? && previous.request.Messages? && next.request.Messages? && prepared != []
    && next.request.messages == previous.request.messages + [Message("assistant", previous.answer.value), Last(prepared)]
  }

  function Last(ms: seq<Message>): Message
    requires ms != []
  {
    ms[|ms| - 1]
  }

  /** Every turn taken so far was asked and answered, and the history is what was exchanged. */
  ghost predicate AtTurn(c: Conversation, log: seq<Exchange>) {
    && |c.history| == 2 * c.turn
    && |log| == c.turn
    && (c.source.None? ==> c.turn == 0)
    && (c.source.Some? ==> InSequence(c.source.value, log))
    && (c.source.Some? && c.source.value.Completion? ==> c.turn == 0)
    && (c.turn > 0 ==> log[c.turn - 1].answer.Some? && log[c.turn - 1].request.Messages?
                       && c.history == log[c.turn - 1].request.messages + [Assistant(log[c.turn - 1].answer.value)])
  }

  /** Nothing more is to be asked: a completion, an exchange that brought no answer, no turn left or an empty one. */
  predicate Exhausted(source: Source, log: seq<Exchange>) {
    source.Completion? || (log != [] && log[|log| - 1].answer.None?) || |log| >= |source.turns| || source.turns[|log|] == []
  }

  /** A conversation waiting in the ready queue. */
  ghost predicate Resting(c: Conversation, log: seq<Exchange>) {
    && AtTurn(c, log)
    && (c.source.Some? ==> c.source.value.Chat? && c.turn < |c.source.value.turns|)
  }

  ghost predicate StreamInv(s: State, k: nat)
    requires k < |s.streams|
  {
    match s.streams[k]
    case Holding(id) => AtTurn(Conv(s, id), Issued(s, id))
    case Finished(id, replace) =>
      && Conv(s, id).source.Some?
      && if replace then Exhausted(Conv(s, id).source.value, Issued(s, id)) else Resting(Conv(s, id), Issued(s, id))
    case _ => true
  }

  ghost predicate QueueInv(s: State) { forall id | id in s.pool.queue :: Resting(Conv(s, id), Issued(s, id)) }

  ghost predicate StreamsInv(s: State) { forall k | 0 <= k < |s.streams| :: StreamInv(s, k) }

  ghost predicate IssuedInv(s: State) {
    && (forall id: nat :: id in s.issued ==>
      id in s.convs && s.convs[id].source.Some? && InSequence(s.convs[id].source.value, s.issued[id]))
    && (forall id: nat | id in s.convs || id in s.issued :: id < s.pool.nextId)
  }

  ghost predicate ConversationInv(s: State) { QueueInv(s) && StreamsInv(s) && IssuedInv(s) }

  function Logged(c: Conversation, o: Outcome, log: seq<Exchange>): seq<Exchange>
    requires c.source.Some?
  {
    var r := Turn(c, o);
    if r.request.None? then log
    else log + [Exchange(c.turn, r.request.value, if o.Answered? then Some(o.text) else None)]
  }

  lemma TurnExtends(c: Conversation, o: Outcome, log: seq<Exchange>)
    requires c.source.Some? && AtTurn(c, log)
    ensures Turn(c, o).conv.source == c.source
    ensures InSequence(c.source.value, Logged(c, o, log))
    ensures !Turn(c, o).replace ==> Resting(Turn(c, o).conv, Logged(c, o, log))
    ensures Turn(c, o).replace ==> Exhausted(c.source.value, Logged(c, o, log))
    ensures Turn(c, o).replace <==>
              Exhausted(c.source.value, log) || !o.Answered? || |log| + 1 == |c.source.value.turns|
  {
    var r := Turn(c, o);
    if HasTurn(c) {
      var after := Logged(c, o, log);
      var e := after[c.turn];
      assert e.request.messages == c.history + [UserMessage(c)];
      if c.turn > 0 {
        assert Extends(log[c.turn - 1], e, c.source.value.turns[c.turn]);
      } else {
        assert c.history == [];
      }
      forall t | 0 < t < |after| ensures Extends(after[t - 1], after[t], c.source.value.turns[t]) {
        if t < |log| { assert Extends(log[t - 1], log[t], c.source.value.turns[t]); }
      }
    }
  }

  /** Only the conversation `id`, held by stream k, has changed. */
  ghost predicate Touches(s: State, t: State, k: nat, id: nat) {
    && k < |s.streams| == |t.streams| && t.pool == s.pool && Held(s.streams[k]) == Some(id) && Held(t.streams[k]) == Some(id)
    && t.streams == s.streams[k := t.streams[k]]
    && forall j: nat | j != id :: Conv(t, j) == Conv(s, j) && Issued(t, j) == Issued(s, j)
  }

  /** What the others hold or what is ready is not affected. */
  lemma TouchKeepsOthers(s: State, t: State, k: nat, id: nat)
    requires ScheduleInv(s) && QueueInv(s) && StreamsInv(s) && Touches(s, t, k, id) && StreamInv(t, k)
    ensures QueueInv(t) && StreamsInv(t)
  {
    forall l | 0 <= l < |t.streams| ensures StreamInv(t, l) {
      assert StreamInv(s, l);
      if l != k { OnlyHolder(s, k, l); }
    }
    assert CheckedOut(s.pool, id);
  }

  lemma RunPreserves(s: State, k: nat, o: Outcome)
    requires ScheduleInv(s) && ConversationInv(s) && Enabled(s, Run(k, o))
    ensures ConversationInv(RunStep(s, k, o))
  {
    assert StreamInv(s, k);
    RunStream(s, k, o);
    RunIssued(s, k, o);
    TouchKeepsOthers(s, RunStep(s, k, o), k, s.streams[k].id);
  }

  lemma RunStream(s: State, k: nat, o: Outcome)
    requires Enabled(s, Run(k, o)) && StreamInv(s, k)
    ensures StreamInv(RunStep(s, k, o), k) && Touches(s, RunStep(s, k, o), k, s.streams[k].id)
  {
    var id := s.streams[k].id;
    TurnExtends(Conv(s, id), o, Issued(s, id));
  }

  lemma RunIssued(s: State, k: nat, o: Outcome)
    requires Enabled(s, Run(k, o)) && StreamInv(s, k) && IssuedInv(s)
    ensures IssuedInv(RunStep(s, k, o))
  {
    var id := s.streams[k].id;
    TurnExtends(Conv(s, id), o, Issued(s, id));
  }

  lemma DrawPreserves(s: State, k: nat, source: Source)
    requires ScheduleInv(s) && ConversationInv(s) && Enabled(s, Draw(k, source))
    ensures ConversationInv(Apply(s, Draw(k, source)))
  {
    var t := Apply(s, Draw(k, source));
    var id := s.streams[k].id;
    assert Held(s.streams[k]) == Some(id);
    assert StreamInv(s, k);
    assert Issued(s, id) == [];
    assert StreamInv(t, k);
    TouchKeepsOthers(s, t, k, id);
  }

  /** The conversations are as they were, and so is what every other stream does. */
  predicate SameTalk(s: State, t: State, k: nat) {
    && k < |s.streams| == |t.streams| && t.convs == s.convs && t.issued == s.issued
    && t.streams == s.streams[k := t.streams[k]] && t.pool.nextId >= s.pool.nextId
  }

  lemma SameTalkKeeps(s: State, t: State, k: nat)
    requires StreamsInv(s) && IssuedInv(s) && SameTalk(s, t, k) && StreamInv(t, k)
    ensures StreamsInv(t) && IssuedInv(t)
  {
    forall l | 0 <= l < |t.streams| ensures StreamInv(t, l) { assert StreamInv(s, l); }
  }

  lemma HandBackConversations(s: State, k: nat)
    requires ScheduleInv(s) && ConversationInv(s) && Enabled(s, HandBack(k))
    ensures ConversationInv(Apply(s, HandBack(k)))
  {
    var t, id := Apply(s, HandBack(k)), s.streams[k].id;
    assert Held(s.streams[k]) == Some(id);
    assert StreamInv(s, k);
    CompleteOthers(s.pool, id, s.streams[k].replace);
    SameTalkKeeps(s, t, k);
    forall j | j in t.pool.queue ensures Resting(Conv(t, j), Issued(t, j)) {
      assert j in s.pool.queue || j == s.pool.nextId || (j == id && !s.streams[k].replace);
    }
  }

  lemma AskConversations(s: State, k: nat)
    requires ScheduleInv(s) && ConversationInv(s) && Enabled(s, Ask(k))
    ensures ConversationInv(Apply(s, Ask(k)))
  {
    var t := Apply(s, Ask(k));
    if Next(s.pool).1.Some? { assert Next(s.pool).1.value in s.pool.queue; }
    forall id | id in t.pool.queue ensures Resting(Conv(t, id), Issued(t, id)) { assert id in s.pool.queue; }
    assert StreamInv(t, k);
    SameTalkKeeps(s, t, k);
  }

  lemma LeavePreserves(s: State, k: nat)
    requires ConversationInv(s) && Enabled(s, Leave(k))
    ensures ConversationInv(Apply(s, Leave(k)))
  {
    SameTalkKeeps(s, Apply(s, Leave(k)), k);
  }

  lemma StopPreserves(s: State)
    requires ConversationInv(s)
    ensures ConversationInv(Apply(s, Stop))
  {
    var t := Apply(s, Stop);
    forall l | 0 <= l < |t.streams| ensures StreamInv(t, l) { assert StreamInv(s, l); }
  }

  lemma ConversationPreserves(s: State, a: Action)
    requires ScheduleInv(s) && ConversationInv(s) && Enabled(s, a)
    ensures ConversationInv(Apply(s, a))
  {
    match a
    case Run(k, o) => RunPreserves(s, k, o);
    case Draw(k, source) => DrawPreserves(s, k, source);
    case HandBack(k) => HandBackConversations(s, k);
    case Ask(k) => AskConversations(s, k);
    case Leave(k) => LeavePreserves(s, k);
    case Stop => StopPreserves(s);
  }

  lemma {:induction false} RunConversations(run: seq<State>, acts: seq<Action>, i: nat)
    requires IsRun(run, acts) && i < |run|
    ensures ConversationInv(run[i])
  {
    if i > 0 {
      RunConversations(run, acts, i - 1);
      RunSchedule(run, acts, i - 1);
      assert StepAt(run, acts, i - 1);
      ConversationPreserves(run[i - 1], acts[i - 1]);
    }
  }

  /** Whatever the interleaving, each conversation issues its turns in order, each request extending
      the previous one by exactly the generated answer and the next user message. */
  lemma TurnsAreInSequence(run: seq<State>, acts: seq<Action>, i: nat, id: nat)
    requires IsRun(run, acts) && i < |run| && Issued(run[i], id) != []
    ensures Conv(run[i], id).source.Some? && InSequence(Conv(run[i], id).source.value, Issued(run[i], id))
  {
    RunConversations(run, acts, i);
  }

  /** A conversation in the ready queue whose content was drawn has a history of two messages per
      turn taken and a turn left to take. */
  lemma ReadyConversationsAreAtRest(run: seq<State>, acts: seq<Action>, i: nat, id: nat)
    requires IsRun(run, acts) && i < |run| && id in run[i].pool.queue
    ensures var c := Conv(run[i], id);
            |c.history| == 2 * c.turn && (c.source.Some? ==> c.source.value.Chat? && c.turn < |c.source.value.turns|)
  {
    RunConversations(run, acts, i);
  }

  /** No two requests of one scheduler are recorded under the same id. */
  lemma RequestIdsAreUnique(run: seq<State>, acts: seq<Action>, i: nat, c: nat, d: nat, t: nat, u: nat)
    requires IsRun(run, acts) && i < |run| && t < |Issued(run[i], c)| && u < |Issued(run[i], d)|
    requires RequestId(c, Issued(run[i], c)[t].turn) == RequestId(d, Issued(run[i], d)[u].turn)
    ensures c == d && t == u
  {
    RunConversations(run, acts, i);
    RequestIdInjective(c, Issued(run[i], c)[t].turn, d, Issued(run[i], d)[u].turn);
  }

  // ---------------------------------------------------------------- when a conversation is over

  /** A turn ends with the verdict that the conversation is over exactly if there was nothing to ask, the request was
      not answered, or that was the last turn. */
  lemma ReplacedIff(run: seq<State>, acts: seq<Action>, i: nat, k: nat, o: Outcome)
    requires IsRun(run, acts) && i < |acts| && acts[i] == Run(k, o)
    ensures k < |run[i].streams| == |run[i + 1].streams| && run[i].streams[k].Holding?
    ensures var id := run[i].streams[k].id; var log := Issued(run[i], id);
            && Conv(run[i], id).source.Some?
            && var source := Conv(run[i], id).source.value;
            run[i + 1].streams[k] ==
            Finished(id, Exhausted(source, log) || !o.Answered? || |log| + 1 == |source.turns|)
  {
    RunConversations(run, acts, i);
    assert StepAt(run, acts, i) && StreamInv(run[i], k);
    var id := run[i].streams[k].id;
    TurnExtends(Conv(run[i], id), o, Issued(run[i], id));
  }

  /** A conversation that a running pool lets go of is over; and if it is a chat whose requests were all answered and
      whose turns are none of them empty, it has issued one request for every turn. */
  lemma LetGoWhenOver(run: seq<State>, acts: seq<Action>, i: nat, id: nat)
    requires IsRun(run, acts) && i < |acts| && !run[i].pool.stopped
    requires id in run[i].pool.live && id !in run[i + 1].pool.live
    ensures var c, log := Conv(run[i + 1], id), Issued(run[i + 1], id);
            && c.source.Some? && Exhausted(c.source.value, log)
            && (c.source.value.Chat? && (forall t | 0 <= t < |log| :: log[t].answer.Some?)
                && (forall t | 0 <= t < |c.source.value.turns| :: c.source.value.turns[t] != [])
                ==> |log| == |c.source.value.turns|)
  {
    RunConversations(run, acts, i);
    RunConversations(run, acts, i + 1);
    assert StepAt(run, acts, i);
    if acts[i].HandBack? {
      assert StreamInv(run[i], acts[i].k);
      assert run[i].streams[acts[i].k] == Finished(id, true);
    }
  }

  /** What a running pool is handed back goes to the end of the queue unless it is over; a conversation that is over
      makes room, as long as there is budget, for a new one with nothing drawn and nothing asked. */
  lemma HandedBackOrReplaced(run: seq<State>, acts: seq<Action>, i: nat, k: nat)
    requires IsRun(run, acts) && i < |acts| && acts[i] == HandBack(k) && !run[i].pool.stopped
    ensures k < |run[i].streams| && run[i].streams[k].Finished?
    ensures var Finished(id, over) := run[i].streams[k]; var s, t := run[i], run[i + 1];
            && (!over ==> t.pool.queue == s.pool.queue + [id])
            && (over ==> id !in t.pool.live)
            && (over && !Spent(s.pool.budget) ==>
              |t.pool.queue| > 0 &&
              var newId := t.pool.queue[|t.pool.queue| - 1];
              && t.pool.queue == s.pool.queue + [newId] && newId !in s.handed + s.pool.queue
              && Conv(t, newId) == FRESH && Issued(t, newId) == [])
            && (over && Spent(s.pool.budget) ==> t.pool.queue == s.pool.queue)
  {
    RunSchedule(run, acts, i);
    RunConversations(run, acts, i);
    assert StepAt(run, acts, i);
    var s, id := run[i], run[i].streams[k].id;
    assert Held(s.streams[k]) == Some(id);
    CompleteInv(s.pool, id, s.streams[k].replace);
    HandedAreOld(run, acts, i);
    assert s.pool.nextId !in s.handed + s.pool.queue;
  }

  /** Only ids in use were handed out. */
  lemma {:induction false} HandedAreOld(run: seq<State>, acts: seq<Action>, i: nat)
    requires IsRun(run, acts) && i < |run|
    ensures forall id | id in run[i].handed :: id < run[i].pool.nextId
  {
    if i > 0 {
      HandedAreOld(run, acts, i - 1);
      RunSchedule(run, acts, i - 1);
      assert StepAt(run, acts, i - 1);
      var p := run[i - 1].pool;
      assert acts[i - 1].Ask? && Next(p).1.Some? ==> Next(p).1.value in p.queue;
      assert run[i].pool.nextId >= p.nextId;
    }
  }

  /** A conversation the pool has let go of issues nothing more and is never taken up again. */
  lemma {:induction false} GoneForGood(run: seq<State>, acts: seq<Action>, i: nat, j: nat, id: nat)
    requires IsRun(run, acts) && i <= j < |run| && id < run[i].pool.nextId && id !in run[i].pool.live
    ensures id < run[j].pool.nextId && id !in run[j].pool.live
    ensures Issued(run[j], id) == Issued(run[i], id) && Conv(run[j], id) == Conv(run[i], id)
    decreases j
  {
    if i < j {
      GoneForGood(run, acts, i, j - 1, id);
      RunSchedule(run, acts, j - 1);
      assert StepAt(run, acts, j - 1);
      GoneStep(run[j - 1], acts[j - 1], id);
    }
  }

  lemma GoneFromPool(p: Pool, given: nat, over: bool, id: nat)
    requires id < p.nextId && id !in p.live && given in p.live
    ensures id < Complete(p, given, over).nextId && id !in Complete(p, given, over).live
    ensures id < Next(p).0.nextId && id !in Next(p).0.live
  {
  }

  lemma GoneFromConversations(s: State, k: nat, id: nat)
    requires HoldInv(s) && k < |s.streams| && s.streams[k].Holding? && id !in s.pool.live
    ensures s.streams[k].id in s.pool.live && s.streams[k].id != id
  {
    assert Held(s.streams[k]).Some?;
  }

  lemma GoneStep(s: State, a: Action, id: nat)
    requires ScheduleInv(s) && Enabled(s, a) && id < s.pool.nextId && id !in s.pool.live
    ensures var t := Apply(s, a); id < t.pool.nextId && id !in t.pool.live
    ensures Issued(Apply(s, a), id) == Issued(s, id) && Conv(Apply(s, a), id) == Conv(s, id)
  {
    match a
    case Run(k, _) => GoneFromConversations(s, k, id);
    case Draw(k, _) => GoneFromConversations(s, k, id);
    case HandBack(k) =>
      assert Held(s.streams[k]).Some?;
      GoneFromPool(s.pool, s.streams[k].id, s.streams[k].replace, id);
    case _ =>
  }

  /** What a conversation is about was drawn for it by a stream that held it, once. */
  lemma {:induction false} SourceWasDrawn(run: seq<State>, acts: seq<Action>, i: nat, id: nat) returns (j: nat)
    requires IsRun(run, acts) && i < |run| && Conv(run[i], id).source.Some?
    ensures j < i && acts[j].Draw? && acts[j].k < |run[j].streams| && run[j].streams[acts[j].k] == Holding(id)
    ensures Conv(run[i], id).source == Some(acts[j].source)
    ensures forall m | 0 <= m <= j :: Conv(run[m], id).source.None?
    ensures forall m | j < m <= i :: Conv(run[m], id).source == Some(acts[j].source)
  {
    assert StepAt(run, acts, i - 1);
    SourceStep(run[i - 1], acts[i - 1], id);
    if Conv(run[i - 1], id).source.Some? {
      j := SourceWasDrawn(run, acts, i - 1, id);
    } else {
      j := i - 1;
      UndrawnBefore(run, acts, i - 1, id);
    }
  }

  lemma SourceStep(s: State, a: Action, id: nat)
    requires Enabled(s, a)
    ensures var c, d := Conv(s, id), Conv(Apply(s, a), id);
            if a.Draw? && s.streams[a.k].id == id then c.source.None? && d.source == Some(a.source) else d.source == c.source
  {
  }

  lemma {:induction false} UndrawnBefore(run: seq<State>, acts: seq<Action>, i: nat, id: nat)
    requires IsRun(run, acts) && i < |run| && Conv(run[i], id).source.None?
    ensures forall m | 0 <= m <= i :: Conv(run[m], id).source.None?
  {
    if i > 0 {
      assert StepAt(run, acts, i - 1);
      SourceStep(run[i - 1], acts[i - 1], id);
      UndrawnBefore(run, acts, i - 1, id);
    }
  }
}
