/**
 The data of the thread pool (thread_pool/threadpool.c) and what each of its lock-held
 regions does to that data, as functions on values.

 `Shared` is what the pool's mutexes guard. A task is a function pointer and
 its argument, which the pool only passes on.
 The task queue is the sequence of tasks a reader of the ring would take, oldest first.
 */
module PoolModel {
  import opened Modular

  datatype Task = Task(routine: int, arg: int)

  // One cell of the `threads` array: zero, or the id of the worker created into it.
  datatype Slot = Empty | Tid(id: nat)

  datatype Config = Config(min: nat, max: nat, cap: nat) {
    predicate Ok() {
      min <= max && 1 <= cap
    }
  }

  datatype Shared = Shared(
    queue: seq<Task>,
    live: int,
    busy: int,
    waitExit: int,
    shutdown: bool,
    slots: seq<Slot>)

  const MIN_WAIT_TASK_NUM := 10
  const DEFAULT_THREAD_VARY := 10

  /* ---------------------------------------------------------------- threadpool_add */

  datatype AddOutcome = Blocks | Enqueued

  /** What a reader of a ring of `cap` cells sees after one more store at the rear: with room,
      the task comes last; in a full ring the store also lands on every older index that shares
      the cell. */
  function Deposit(cap: nat, queue: seq<Task>, task: Task): (r: seq<Task>)
    requires 1 <= cap
    ensures |r| == |queue| + 1 && r[|queue|] == task
  {
    if |queue| < cap then queue + [task]
    else
      seq(|queue| + 1, i requires 0 <= i < |queue| + 1 =>
        if i % cap == |queue| % cap then task else queue[i])
  }

  /** Adding is first-in first-out for every task exactly when there is room. Without room the
      oldest task is lost and the new one will be taken twice. */
  lemma DepositAppendsIffRoom(cap: nat, queue: seq<Task>)
    requires 1 <= cap && |queue| <= cap
    ensures (forall task :: Deposit(cap, queue, task) == queue + [task]) <==> |queue| < cap
    ensures |queue| == cap ==>
              forall task :: Deposit(cap, queue, task) == [task] + queue[1..] + [task]
  {
    if |queue| == cap {
      forall task ensures Deposit(cap, queue, task) == [task] + queue[1..] + [task] {
        forall i | 0 <= i < cap ensures i % cap == i {
          QuotientIsUnique(i / cap, i % cap, 0, i, cap);
        }
        QuotientIsUnique(cap / cap, cap % cap, 1, 0, cap);
      }
      var other := Task(queue[0].routine + 1, 0);
      assert Deposit(cap, queue, other)[0] != (queue + [other])[0];
    }
  }

  /** From taking the lock to either waiting on queue_not_full or leaving the function. Seeing
      `shutdown` does not stop the store. */
  function AddRegion(c: Config, sh: Shared, task: Task): (Shared, AddOutcome)
    requires c.Ok()
  {
    if |sh.queue| == c.cap && !sh.shutdown then (sh, Blocks)
    else (sh.(queue := Deposit(c.cap, sh.queue, task)), Enqueued)
  }

  /** Whatever the task, a call of threadpool_add that returns has put it last, kept the tasks
      queued before it, and stayed within the capacity, exactly unless it met a full queue after
      shutdown. */
  lemma AddAppendsUnlessLate(c: Config, sh: Shared)
    requires c.Ok() && |sh.queue| <= c.cap
    ensures !(sh.shutdown && |sh.queue| == c.cap) <==>
              forall task :: AddRegion(c, sh, task).1.Enqueued? ==>
                AddRegion(c, sh, task).0.queue == sh.queue + [task] &&
                |AddRegion(c, sh, task).0.queue| <= c.cap
    ensures forall task :: AddRegion(c, sh, task).1.Blocks? <==> !sh.shutdown && |sh.queue| == c.cap
  {
    if sh.shutdown && |sh.queue| == c.cap {
      assert AddRegion(c, sh, sh.queue[0]).1.Enqueued?;
    }
  }

  /* ------------------------------------------------------------- threadpool_thread */

  datatype WorkerOutcome = Retires | Sleeps | Leaves | Takes(task: Task)

  /** From taking the lock (fresh, or `woken` inside pthread_cond_wait) to giving it up. */
  function WorkerRegion(c: Config, sh: Shared, woken: bool): (Shared, WorkerOutcome)
  {
    var asked := woken && sh.waitExit > 0;
    var sh1 := if asked then sh.(waitExit := sh.waitExit - 1) else sh;
    if asked && sh.live > c.min then (sh1.(live := sh.live - 1), Retires)
    else if |sh.queue| == 0 && !sh.shutdown then (sh1, Sleeps)
    else if sh.shutdown then (sh1, Leaves)
    else (sh1.(queue := sh.queue[1..]), Takes(sh.queue[0]))
  }

  /* ----------------------------------------------------------------- adjust_thread */

  datatype Growth = Growth(slots: seq<Slot>, live: int, filled: seq<nat>)

  // The test of one cell: never used, or the oracle says that its thread is gone.
  predicate Reusable(slot: Slot, dead: set<nat>) {
    slot.Empty? || slot.id in dead
  }

  /** The growth loop from index `i` on. `filled` lists the cells written, in order; the k-th of
      them receives thread `next + k`. */
  function Scan(c: Config, slots: seq<Slot>, dead: set<nat>, live: int, next: nat, i: nat, add: nat): (g: Growth)
    requires |slots| == c.max
    ensures |g.slots| == c.max && g.live == live + |g.filled|
    decreases c.max - i
  {
    if i < c.max && add < DEFAULT_THREAD_VARY && live < c.max then
      if Reusable(slots[i], dead) then
        var g := Scan(c, slots[i := Tid(next)], dead, live + 1, next + 1, i + 1, add + 1);
        g.(filled := [i] + g.filled)
      else
        Scan(c, slots, dead, live, next, i + 1, add)
    else
      Growth(slots, live, [])
  }

  function GrowRegion(c: Config, sh: Shared, dead: set<nat>, next: nat): (Shared, seq<nat>)
    requires |sh.slots| == c.max
  {
    var g := Scan(c, sh.slots, dead, sh.live, next, 0, 0);
    (sh.(slots := g.slots, live := g.live), g.filled)
  }

  function Min(a: int, b: int): int {
    if a <= b then a else b
  }

  function Max(a: int, b: int): int {
    if a >= b then a else b
  }

  // How many of the cells from index i on the loop would find reusable.
  function ReusableFrom(slots: seq<Slot>, dead: set<nat>, i: nat): nat
    requires i <= |slots|
    decreases |slots| - i
  {
    if i == |slots| then 0
    else (if Reusable(slots[i], dead) then 1 else 0) + ReusableFrom(slots, dead, i + 1)
  }

  lemma {:induction false} ReusableFromIgnoresEarlier(slots: seq<Slot>, dead: set<nat>, j: nat, v: Slot, i: nat)
    requires j < i <= |slots|
    ensures ReusableFrom(slots[j := v], dead, i) == ReusableFrom(slots, dead, i)
    decreases |slots| - i
  {
    if i < |slots| {
      ReusableFromIgnoresEarlier(slots, dead, j, v, i + 1);
    }
  }

  /** A growth loop from index `i` on has written increasing cells, each reusable, put the new ids
      there in order, and left every other cell alone. */
  ghost predicate Fills(c: Config, slots: seq<Slot>, dead: set<nat>, next: nat, i: nat, g: Growth) {
    && |slots| == |g.slots| == c.max
    && (forall k :: 0 <= k < |g.filled| ==> i <= g.filled[k] < c.max && Reusable(slots[g.filled[k]], dead))
    && (forall k, m :: 0 <= k < m < |g.filled| ==> g.filled[k] < g.filled[m])
    && (forall k :: 0 <= k < |g.filled| ==> g.slots[g.filled[k]] == Tid(next + k))
    && (forall j :: 0 <= j < c.max && j !in g.filled ==> g.slots[j] == slots[j])
  }

  // A loop that fills cell i and goes on.
  lemma FillsMore(c: Config, slots: seq<Slot>, dead: set<nat>, next: nat, i: nat, rest: Growth)
    requires |slots| == c.max && i < c.max && Reusable(slots[i], dead)
    requires Fills(c, slots[i := Tid(next)], dead, next + 1, i + 1, rest)
    ensures Fills(c, slots, dead, next, i, rest.(filled := [i] + rest.filled))
  {
    var g := rest.(filled := [i] + rest.filled);
    assert i !in rest.filled;
    forall k | 0 <= k < |g.filled|
      ensures i <= g.filled[k] < c.max && Reusable(slots[g.filled[k]], dead)
      ensures g.slots[g.filled[k]] == Tid(next + k)
    {
      assert k > 0 ==> g.filled[k] == rest.filled[k - 1];
    }
  }

  /** The loop fills cells as above, and adds as many threads as the three limits allow. */
  lemma {:induction false} ScanSpec(c: Config, slots: seq<Slot>, dead: set<nat>, live: int, next: nat, i: nat, add: nat)
    requires |slots| == c.max && i <= c.max && add <= DEFAULT_THREAD_VARY && live <= c.max
    ensures
      var g := Scan(c, slots, dead, live, next, i, add);
      && Fills(c, slots, dead, next, i, g)
      && |g.filled| == Min(Min(DEFAULT_THREAD_VARY - add, c.max - live), ReusableFrom(slots, dead, i))
    decreases c.max - i
  {
    if i < c.max && add < DEFAULT_THREAD_VARY && live < c.max {
      if Reusable(slots[i], dead) {
        var slots' := slots[i := Tid(next)];
        ScanSpec(c, slots', dead, live + 1, next + 1, i + 1, add + 1);
        ReusableFromIgnoresEarlier(slots, dead, i, Tid(next), i + 1);
        FillsMore(c, slots, dead, next, i, Scan(c, slots', dead, live + 1, next + 1, i + 1, add + 1));
      } else {
        ScanSpec(c, slots, dead, live, next, i + 1, add);
      }
    }
  }
}
