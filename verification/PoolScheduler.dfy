/**
 The conversation pool: a fixed number of streams takes turns over a larger working set of
 conversations.

 The first half gives the meaning of every scheduler operation on an abstract pool whose ready
 queue is a plain sequence.  The second half is the scheduler as it is built: a growing list with
 a moving head that is compacted from time to time, a map of live conversations and a shared
 request budget, each method proved to do what its meaning says.
 */
module PoolScheduler {

  import opened Shared
  import opened PoolConversation

  /** The request budget of one stage; `limit <= 0` means unlimited, and nothing is counted then. */
  datatype Budget = Budget(limit: int, count: nat, done: bool)

  datatype Pool = Pool(size: int, queue: seq<nat>, live: set<nat>, nextId: nat, stopped: bool, budget: Budget)

  predicate Spent(b: Budget) { 0 < b.limit <= b.count }

  /** What a reservation does to the budget. */
  function Reserved(b: Budget): Budget {
    if b.limit <= 0 then b
    else if Spent(b) then b.(done := true)
    else b.(count := b.count + 1, done := b.done || b.count + 1 >= b.limit)
  }

  function AddSlot(p: Pool): Pool {
    p.(queue := p.queue + [p.nextId], live := p.live + {p.nextId}, nextId := p.nextId + 1)
  }

  function AddSlots(p: Pool, n: nat): Pool {
    if n == 0 then p else AddSlot(AddSlots(p, n - 1))
  }

  /** How many conversations a new pool starts with. */
  function InitialSize(size: int, b: Budget): nat {
    if size <= 0 then 0 else if 0 < b.limit < size then b.limit else size
  }

  function NewPool(size: int, b: Budget): Pool {
    AddSlots(Pool(size, [], {}, 0, false, b), InitialSize(size, b))
  }

  /** The conversation handed out, if any, and the pool afterwards. */
  function Next(p: Pool): (Pool, Option<nat>) {
    if p.stopped then (p, None)
    else
      var q := p.(budget := Reserved(p.budget));
      if Spent(p.budget) || q.queue == [] then (q, None)
      else (q.(queue := q.queue[1..]), Some(q.queue[0]))
  }

  function Complete(p: Pool, id: nat, replace: bool): Pool {
    var q := p.(live := p.live - {id});
    if p.stopped then q
    else if replace then (if |q.live| < p.size && !Spent(p.budget) then AddSlot(q) else q)
    else p.(queue := p.queue + [id], live := q.live + {id})
  }

  /** Ready conversations are distinct and live, ids are handed out once, and the pool never
      exceeds its size. */
  ghost predicate PoolInv(p: Pool) {
    && (forall i, j | 0 <= i < j < |p.queue| :: p.queue[i] != p.queue[j])
    && (forall id | id in p.queue :: id in p.live)
    && (forall id | id in p.live :: id < p.nextId)
    && |p.live| <= (if p.size < 0 then 0 else p.size)
  }

  predicate CheckedOut(p: Pool, id: nat) { id in p.live && id !in p.queue }

  lemma {:induction false} AddSlotsBuilds(p: Pool, n: nat)
    requires PoolInv(p) && |p.live| + n <= p.size
    ensures PoolInv(AddSlots(p, n))
    ensures AddSlots(p, n).size == p.size && AddSlots(p, n).budget == p.budget && AddSlots(p, n).stopped == p.stopped
    ensures |AddSlots(p, n).live| == |p.live| + n && AddSlots(p, n).nextId == p.nextId + n
    ensures |AddSlots(p, n).queue| == |p.queue| + n
    ensures (forall id | id in p.live :: id in p.queue) ==> forall id | id in AddSlots(p, n).live :: id in AddSlots(p, n).queue
  {
    if n > 0 {
      AddSlotsBuilds(p, n - 1);
      var q := AddSlots(p, n - 1);
      assert q.nextId !in q.live;
    }
  }

  lemma NewPoolInv(size: int, b: Budget)
    ensures PoolInv(NewPool(size, b)) && |NewPool(size, b).live| == InitialSize(size, b)
    ensures |NewPool(size, b).queue| == InitialSize(size, b)
    ensures size >= 0 ==> InitialSize(size, b) <= size && (b.limit > 0 ==> InitialSize(size, b) <= b.limit)
    ensures size >= 0 && InitialSize(size, b) != size ==> 0 < b.limit == InitialSize(size, b)
    ensures forall id | id in NewPool(size, b).live :: id in NewPool(size, b).queue
    ensures NewPool(size, b).size == size && NewPool(size, b).budget == b && !NewPool(size, b).stopped
  {
    if size > 0 { AddSlotsBuilds(Pool(size, [], {}, 0, false, b), InitialSize(size, b)); }
  }

  lemma NextInv(p: Pool)
    requires PoolInv(p)
    ensures PoolInv(Next(p).0)
    ensures Next(p).1.Some? ==> CheckedOut(Next(p).0, Next(p).1.value)
  {
  }

  lemma CompleteInv(p: Pool, id: nat, replace: bool)
    requires PoolInv(p) && CheckedOut(p, id)
    ensures PoolInv(Complete(p, id, replace))
    ensures |Complete(p, id, replace).live| == |p.live| - (if p.stopped || (replace && Spent(p.budget)) then 1 else 0)
    ensures id in Complete(p, id, replace).live <==> !p.stopped && !replace
    ensures !p.stopped && !replace ==> Complete(p, id, replace) == p.(queue := p.queue + [id])
    ensures p.stopped || (replace && Spent(p.budget)) ==> Complete(p, id, replace).queue == p.queue
  {
    var q := p.(live := p.live - {id});
    assert |q.live| == |p.live| - 1;
    assert q.live + {id} == p.live;
    assert p.nextId !in q.live;
  }

  /** Handing one conversation back leaves what else is checked out checked out. */
  lemma CompleteOthers(p: Pool, id: nat, replace: bool)
    requires PoolInv(p) && CheckedOut(p, id)
    ensures var q := Complete(p, id, replace);
            && (forall j | CheckedOut(p, j) && j != id :: CheckedOut(q, j))
            && (forall j | j in q.live :: j in q.queue || (CheckedOut(p, j) && j != id))
            && (forall j | j in q.queue :: j in p.queue || j == p.nextId || (j == id && !replace))
  {
  }

  lemma {:induction false} DistinctSize(s: seq<nat>, t: set<nat>)
    requires forall i, j | 0 <= i < j < |s| :: s[i] != s[j]
    requires forall x | x in s :: x in t
    ensures |s| <= |t|
  {
    if s != [] {
      var last := s[|s| - 1];
      assert last !in s[..|s| - 1];
      DistinctSize(s[..|s| - 1], t - {last});
      assert last in t;
    }
  }

  // ---------------------------------------------------------------- the scheduler itself

  class RequestBudget {
    const limit: int
    var count: nat
    var done: bool

    constructor (limit: int)
      ensures this.limit == limit && count == 0 && !done
    {
      this.limit := limit;
      count, done := 0, false;
    }

    ghost function View(): Budget
      reads this
    {
      Budget(limit, count, done)
    }
  }

  class ConversationPoolScheduler {
    const poolSize: int
    const budget: RequestBudget
    var ready: seq<nat>
    var head: nat
    var convs: map<nat, PooledConversation>
    var nextId: nat
    var stopped: bool

    ghost function View(): Pool
      requires head <= |ready|
      reads this, budget
    {
      Pool(poolSize, ready[head..], convs.Keys, nextId, stopped, budget.View())
    }

    /** The list in use is the part from `head` on; what lies before it is bounded. */
    ghost predicate Valid()
      reads this, budget
    {
      && head <= |ready|
      && (head <= 1024 || 2 * head < |ready|)
      && (forall id | id in convs :: convs[id].id == id)
      && PoolInv(View())
    }

    constructor (poolSize: int, concurrency: int, budget: RequestBudget)
      ensures Valid() && this.budget == budget
      ensures View() == NewPool(if poolSize <= 0 then concurrency else poolSize, budget.View())
    {
      var size := if poolSize <= 0 then concurrency else poolSize;
      this.poolSize := size;
      this.budget := budget;
      ready, head, convs, nextId, stopped := [], 0, map[], 0, false;
      new;
      var initial := size;
      if 0 < budget.limit < initial {
        initial := budget.limit;
      }
      assert View() == Pool(size, [], {}, 0, false, budget.View());
      AddConversationSlots(initial);
      NewPoolInv(size, budget.View());
    }

    method AddConversationSlots(n: int)
      requires head == 0 && forall id | id in convs :: convs[id].id == id
      modifies this
      ensures head == 0 && forall id | id in convs :: convs[id].id == id
      ensures View() == AddSlots(old(View()), if n < 0 then 0 else n)
    {
      var i := 0;
      while i < n
        invariant 0 <= i && (0 < n ==> i <= n) && (n <= 0 ==> i == 0)
        invariant head == 0 && forall id | id in convs :: convs[id].id == id
        invariant View() == AddSlots(old(View()), i)
      {
        AddConversationSlot();
        i := i + 1;
      }
    }

    method AddConversationSlot()
      requires head <= |ready| && forall id | id in convs :: convs[id].id == id
      modifies this
      ensures head == old(head) && |ready| == old(|ready|) + 1
      ensures forall id | id in convs :: convs[id].id == id
      ensures View() == AddSlot(old(View()))
    {
      var id := nextId;
      nextId := nextId + 1;
      var pc := new PooledConversation(id);
      convs := convs[id := pc];
      ready := ready + [id];
    }

    /** Takes the conversation at the head; drops the dead part of the list once it is both long
        and at least half of it. */
    method PopReady() returns (id: nat, ok: bool)
      requires Valid()
      modifies this`ready, this`head
      ensures Valid()
      ensures ok == (old(View()).queue != [])
      ensures ok ==> id == old(View()).queue[0] && View() == old(View()).(queue := old(View()).queue[1..])
      ensures !ok ==> View() == old(View())
    {
      if head >= |ready| {
        ready, head := [], 0;
        return 0, false;
      }
      ghost var before := View();
      id := ready[head];
      head := head + 1;
      if head > 1024 && head * 2 >= |ready| {
        ready := ready[head..];
        head := 0;
      }
      ok := true;
      assert View() == before.(queue := before.queue[1..]);
    }

    method ReserveRequest() returns (ok: bool)
      requires Valid()
      modifies budget
      ensures ok == !Spent(old(budget.View()))
      ensures budget.View() == Reserved(old(budget.View()))
    {
      if budget.limit <= 0 {
        return true;
      }
      if budget.count >= budget.limit {
        budget.done := true;
        return false;
      }
      budget.count := budget.count + 1;
      if budget.count >= budget.limit {
        budget.done := true;
      }
      return true;
    }

    method NextConversation() returns (pc: PooledConversation?)
      requires Valid()
      modifies this`ready, this`head, budget
      ensures Valid()
      ensures View() == Next(old(View())).0
      ensures (pc == null) == Next(old(View())).1.None?
      ensures pc != null ==> pc.id == Next(old(View())).1.value && CheckedOut(View(), pc.id)
    {
      NextInv(View());
      if stopped {
        return null;
      }
      var reserved := ReserveRequest();
      if !reserved {
        return null;
      }
      var id, ok := PopReady();
      return if ok then convs[id] else null;
    }

    method CompleteConversation(pc: PooledConversation, replace: bool)
      requires Valid() && CheckedOut(View(), pc.id)
      modifies this
      ensures Valid()
      ensures View() == Complete(old(View()), pc.id, replace)
    {
      CompleteInv(View(), pc.id, replace);
      RemoveConversation(pc);
      if stopped {
        return;
      }
      if replace {
        if |convs| < poolSize && CanCreateConversation() {
          AddConversationSlot();
        }
      } else {
        Requeue(pc);
      }
    }

    predicate CanCreateConversation()
      reads budget
    {
      budget.limit <= 0 || budget.count < budget.limit
    }

    method RemoveConversation(pc: PooledConversation)
      requires head <= |ready| && forall id | id in convs :: convs[id].id == id
      modifies this`convs
      ensures forall id | id in convs :: convs[id].id == id
      ensures View() == old(View()).(live := old(View()).live - {pc.id}) && |convs| == |View().live|
    {
      convs := convs - {pc.id};
      assert |convs| == |convs.Keys|;
    }

    method Requeue(pc: PooledConversation)
      requires head <= |ready| && forall id | id in convs :: convs[id].id == id
      modifies this`convs, this`ready
      ensures head <= |ready| == old(|ready|) + 1 && forall id | id in convs :: convs[id].id == id
      ensures View() == old(View()).(queue := old(View()).queue + [pc.id], live := old(View()).live + {pc.id})
    {
      convs := convs[pc.id := pc];
      ready := ready + [pc.id];
    }

    method Stop()
      requires Valid()
      modifies this`stopped
      ensures Valid() && View() == old(View()).(stopped := true)
    {
      stopped := true;
    }

    /** The list never holds more than twice what is live, nor more than 1024 dead entries beyond it. */
    lemma SliceIsBounded()
      requires Valid()
      ensures |ready| <= |convs| + (if |convs| < 1024 then 1024 else |convs|)
    {
      DistinctSize(View().queue, View().live);
      assert |convs| == |convs.Keys|;
    }
  }
}
