/**
 The pool object of thread_pool/threadpool.c: its counters, its ring of tasks and its array of
 thread ids, updated in place by one method per lock-held region. `View` is the value the
 regions of PoolModel speak about; every method computes exactly its region.
 */
module ThreadPoolObject {
  import opened PoolModel
  import PoolMachine
  import opened Modular

  // The tasks in the order in which a ring of cells gives them out.
  function RingView(cells: seq<Task>, front: nat, size: nat): (q: seq<Task>)
    requires |cells| > 0
    ensures |q| == size
  {
    seq(size, i requires 0 <= i => cells[(front + i) % |cells|])
  }

  // Storing at the cell after the last one.
  lemma RingStore(cells: seq<Task>, front: nat, size: nat, task: Task)
    requires |cells| > 0
    ensures RingView(cells[(front + size) % |cells| := task], front, size + 1)
         == Deposit(|cells|, RingView(cells, front, size), task)
  {
    forall i | 0 <= i < size + 1
      ensures RingView(cells[(front + size) % |cells| := task], front, size + 1)[i]
           == Deposit(|cells|, RingView(cells, front, size), task)[i]
    {
      RingStoreAt(cells, front, size, task, i);
    }
  }

  lemma RingStoreAt(cells: seq<Task>, front: nat, size: nat, task: Task, i: nat)
    requires |cells| > 0 && i <= size
    ensures cells[(front + size) % |cells| := task][(front + i) % |cells|]
         == Deposit(|cells|, RingView(cells, front, size), task)[i]
  {
    SameCell(front, i, size, |cells|);
    if i < size < |cells| {
      DistinctCells(i, size, |cells|);
    }
  }

  // Moving the front past the oldest cell.
  lemma RingTake(cells: seq<Task>, front: nat, size: nat)
    requires |cells| > 0 && front < |cells| && size > 0
    ensures RingView(cells, front, size)[0] == cells[front]
    ensures RingView(cells, (front + 1) % |cells|, size - 1) == RingView(cells, front, size)[1..]
    ensures ((front + 1) % |cells| + (size - 1)) % |cells| == (front + size) % |cells|
  {
    var r := RingView(cells, (front + 1) % |cells|, size - 1);
    var q := RingView(cells, front, size);
    forall i | 0 <= i < size - 1 ensures r[i] == q[i + 1] {
      RingShift(front, i, |cells|);
    }
    assert r == q[1..];
    RingShift(front, size - 1, |cells|);
    QuotientIsUnique(front / |cells|, front % |cells|, 0, front, |cells|);
  }

  lemma RingShift(front: nat, i: nat, n: nat)
    requires n > 0
    ensures ((front + 1) % n + i) % n == (front + (i + 1)) % n
  {
    ModOfSum(front + 1, i, n);
  }

  // The rest of the growth loop from a reusable cell on, with what has been filled so far.
  lemma FillOne(c: Config, cells: seq<Slot>, dead: set<nat>, live: int, next: nat, i: nat, add: nat, filled: seq<nat>)
    requires |cells| == c.max && i < c.max && add < DEFAULT_THREAD_VARY && live < c.max && Reusable(cells[i], dead)
    ensures
      var rest := Scan(c, cells, dead, live, next, i, add);
      var less := Scan(c, cells[i := Tid(next)], dead, live + 1, next + 1, i + 1, add + 1);
      rest.(filled := filled + rest.filled) == less.(filled := (filled + [i]) + less.filled)
  {
    var less := Scan(c, cells[i := Tid(next)], dead, live + 1, next + 1, i + 1, add + 1);
    assert filled + ([i] + less.filled) == (filled + [i]) + less.filled;
  }

  class ThreadPool {
    const c: Config
    const threads: array<Slot>
    const taskQueue: array<Task>
    var liveThrNum: int
    var busyThrNum: int
    var waitExitThrNum: int
    var queueFront: nat
    var queueRear: nat
    var queueSize: nat
    var shutdown: bool

    ghost predicate Valid()
      reads this
    {
      && c.Ok()
      && threads.Length == c.max
      && taskQueue.Length == c.cap
      && queueFront < c.cap
      && queueRear == (queueFront + queueSize) % c.cap
    }

    ghost function View(): Shared
      requires Valid()
      reads this, threads, taskQueue
    {
      Shared(RingView(taskQueue[..], queueFront, queueSize),
             liveThrNum, busyThrNum, waitExitThrNum, shutdown, threads[..])
    }

    /** threadpool_create. The field wait_exit_thr_num is left as allocated: `garbage`. */
    constructor (min: nat, max: nat, cap: nat, garbage: int, task0: Task)
      requires Config(min, max, cap).Ok()
      ensures Valid() && fresh(threads) && fresh(taskQueue)
      ensures c == Config(min, max, cap)
      ensures View() == Shared([], min, 0, garbage, false,
                               seq(max, i requires 0 <= i => if i < min then Tid(i) else Empty))
      ensures View() == PoolMachine.Init(c, garbage).sh
    {
      c := Config(min, max, cap);
      liveThrNum := min;
      busyThrNum := 0;
      waitExitThrNum := garbage;
      queueFront, queueRear, queueSize := 0, 0, 0;
      shutdown := false;
      threads := new Slot[max](_ => Empty);
      taskQueue := new Task[cap](_ => task0);
      new;
      for i := 0 to min
        invariant Valid() && fresh(threads) && fresh(taskQueue)
        invariant c == Config(min, max, cap) && liveThrNum == min && busyThrNum == 0
        invariant waitExitThrNum == garbage && queueSize == 0 && !shutdown
        invariant forall j :: 0 <= j < max ==> threads[j] == if j < i then Tid(j) else Empty
      {
        threads[i] := Tid(i);
      }
    }

    /** The body of threadpool_add, from its lock to its wait or its return. */
    method Add(task: Task) returns (outcome: AddOutcome)
      requires Valid()
      modifies this`queueRear, this`queueSize, taskQueue
      ensures Valid()
      ensures (View(), outcome) == AddRegion(c, old(View()), task)
    {
      if queueSize == c.cap && !shutdown {
        return Blocks;
      }
      ghost var cells := taskQueue[..];
      RingStore(cells, queueFront, queueSize, task);
      ModOfSum(queueFront + queueSize, 1, c.cap);
      taskQueue[queueRear] := task;
      assert taskQueue[..] == cells[queueRear := task];
      queueRear := (queueRear + 1) % c.cap;
      queueSize := queueSize + 1;
      outcome := Enqueued;
    }

    /** threadpool_thread, from its lock (or its wake-up) to the next time it gives the lock up. */
    method WorkerPass(woken: bool) returns (outcome: WorkerOutcome)
      requires Valid()
      modifies this`waitExitThrNum, this`liveThrNum, this`queueFront, this`queueSize
      ensures Valid()
      ensures (View(), outcome) == WorkerRegion(c, old(View()), woken)
    {
      if woken && waitExitThrNum > 0 {
        waitExitThrNum := waitExitThrNum - 1;
        if liveThrNum > c.min {
          liveThrNum := liveThrNum - 1;
          return Retires;
        }
      }
      if queueSize == 0 && !shutdown {
        return Sleeps;
      }
      if shutdown {
        return Leaves;
      }
      RingTake(taskQueue[..], queueFront, queueSize);
      var task := taskQueue[queueFront];
      queueFront := (queueFront + 1) % c.cap;
      queueSize := queueSize - 1;
      outcome := Takes(task);
    }

    method StartTask()
      requires Valid()
      modifies this`busyThrNum
      ensures Valid() && View() == old(View()).(busy := old(View()).busy + 1)
    {
      busyThrNum := busyThrNum + 1;
    }

    method EndTask()
      requires Valid()
      modifies this`busyThrNum
      ensures Valid() && View() == old(View()).(busy := old(View()).busy - 1)
    {
      busyThrNum := busyThrNum - 1;
    }

    /** The growth loop of adjust_thread. `dead` answers is_thread_alive; pthread_create hands
        out the ids next, next + 1, and so on. */
    method Grow(dead: set<nat>, next: nat) returns (filled: seq<nat>)
      requires Valid()
      modifies this`liveThrNum, threads
      ensures Valid()
      ensures (View(), filled) == GrowRegion(c, old(View()), dead, next)
    {
      filled := [];
      var i, add := 0, 0;
      ghost var whole := Scan(c, threads[..], dead, liveThrNum, next, 0, 0);
      while i < c.max && add < DEFAULT_THREAD_VARY && liveThrNum < c.max
        invariant Valid() && 0 <= i <= c.max && add == |filled|
        invariant View() == old(View()).(slots := threads[..], live := liveThrNum)
        invariant var rest := Scan(c, threads[..], dead, liveThrNum, next + add, i, add);
                  whole == rest.(filled := filled + rest.filled)
        decreases c.max - i
      {
        if threads[i].Empty? || threads[i].id in dead {
          ghost var cells := threads[..];
          threads[i] := Tid(next + add);
          assert threads[..] == cells[i := Tid(next + add)];
          FillOne(c, cells, dead, liveThrNum, next + add, i, add, filled);
          filled := filled + [i];
          add := add + 1;
          liveThrNum := liveThrNum + 1;
        }
        i := i + 1;
      }
      assert filled + [] == filled;
    }

    method AskIdleToExit()
      requires Valid()
      modifies this`waitExitThrNum
      ensures Valid() && View() == old(View()).(waitExit := DEFAULT_THREAD_VARY)
    {
      waitExitThrNum := DEFAULT_THREAD_VARY;
    }

    method ShutDown()
      requires Valid()
      modifies this`shutdown
      ensures Valid() && View() == old(View()).(shutdown := true)
    {
      shutdown := true;
    }
  }
}
