/**
 The whole thread pool as a transition system: any number of workers and of callers of
 threadpool_add, the adjuster, and one caller of threadpool_destroy.

 A step is one lock-held region, one region of the busy counter, one unlocked access to the
 flag `shutdown`, one signal or broadcast, or one join. Each condition variable is the set of
 threads waiting on it; a wake-up without a signal is a step of its own.
 */
module PoolMachine {
  import opened PoolModel

  /** Where a worker is. Its id is its position in `State.workers`. A ticket is the position of
      the task among all tasks ever queued. */
  datatype Worker =
    | Ready                               // before the lock at the head of its loop
    | Waiting                             // in pthread_cond_wait on queue_not_empty
    | Woken                               // woken there, before it has the lock again
    | Took(ticket: nat, task: Task)       // unlocked with a task, before busy_thr_num++
    | Running(ticket: nat, task: Task)    // executing the task
    | Returned(ticket: nat, task: Task)   // before busy_thr_num--
    | Retired                             // left to shrink the pool
    | Exited                              // left because of shutdown
  {
    predicate Holds() {
      Took? || Running? || Returned?
    }

    predicate Gone() {
      Retired? || Exited?
    }
  }

  /** One call of threadpool_add. */
  datatype Caller =
    | Calling(task: Task)
    | Blocked(task: Task)                 // in pthread_cond_wait on queue_not_full
    | Resumed(task: Task)                 // woken there, before it has the lock again
    | Done(task: Task)                    // has stored its task

  datatype Adjuster =
    | Testing                             // reads `shutdown`
    | Sleeping
    | SawQueue(queueSize: int, liveThr: int)
    | SawBusy(queueSize: int, liveThr: int, busyThr: int)
    | Grown(liveThr: int, busyThr: int)   // past the growth test
    | Signalling(left: nat)
    | Stopped

  datatype Destroyer =
    | NotCalled
    | Joining                             // pthread_join on the adjuster
    | Broadcasting(i: nat)
    | Reaping(i: nat)                     // pthread_join on threads[i]
    | Freed

  /** The components after `destroyer` are history: they never influence a step. `home[w]` is
      the cell worker w was created into; `finished` lists tickets in the order their
      workers were done with them; `hasty` counts the workers that retired although tasks were
      queued; `tidy` is lost when a worker retires and when the pool grows after shutdown. */
  datatype State = State(
    sh: Shared,
    workers: seq<Worker>,
    callers: seq<Caller>,
    adjuster: Adjuster,
    destroyer: Destroyer,
    home: seq<nat>,
    added: seq<Task>,
    taken: nat,
    finished: seq<nat>,
    hasty: nat,
    tidy: bool)

  datatype Step =
    | Call(task: Task)
    | Add(p: nat, wake: nat)
    | LateAdd(p: nat, wake: nat, queue: seq<Task>)
    | SpuriousCaller(p: nat)
    | Pass(w: nat)
    | Start(w: nat)
    | Return(w: nat)
    | End(w: nat)
    | SpuriousWorker(w: nat)
    | TestShutdown
    | SnapQueue
    | SnapBusy
    | Grow(dead: set<nat>)
    | Shrink
    | Signal(wake: nat)
    | Destroy
    | JoinAdjuster
    | Broadcast
    | Reap
  {
    // The steps by which a worker itself moves on.
    predicate OfWorker() {
      Pass? || Start? || Return? || End?
    }

    // The steps that move worker `w` and nobody else.
    predicate MovesOne() {
      OfWorker() || SpuriousWorker?
    }

    predicate MaySignal() {
      Add? || LateAdd? || Signal?
    }
  }

  predicate AnyWaiting(workers: seq<Worker>) {
    exists w :: 0 <= w < |workers| && workers[w].Waiting?
  }

  // pthread_cond_signal picks a waiter if there is one; `wake` is the pick.
  predicate CanSignal(workers: seq<Worker>, wake: nat) {
    AnyWaiting(workers) ==> wake < |workers| && workers[wake].Waiting?
  }

  function Signalled(workers: seq<Worker>, wake: nat): seq<Worker> {
    if wake < |workers| && workers[wake].Waiting? then workers[wake := Woken] else workers
  }

  function AllWoken(workers: seq<Worker>): (r: seq<Worker>)
    ensures |r| == |workers|
    ensures forall w :: 0 <= w < |r| ==> r[w] == if workers[w].Waiting? then Woken else workers[w]
  {
    seq(|workers|, w requires 0 <= w < |workers| =>
      if workers[w].Waiting? then Woken else workers[w])
  }

  function AllResumed(callers: seq<Caller>): (r: seq<Caller>)
    ensures |r| == |callers|
    ensures forall p :: 0 <= p < |r| ==>
              r[p] == if callers[p].Blocked? then Resumed(callers[p].task) else callers[p]
  {
    seq(|callers|, p requires 0 <= p < |callers| =>
      if callers[p].Blocked? then Resumed(callers[p].task) else callers[p])
  }

  function Fresh(n: nat): (r: seq<Worker>)
    ensures |r| == n && forall w :: 0 <= w < n ==> r[w] == Ready
  {
    seq(n, _ => Ready)
  }

  /** threadpool_create has returned; wait_exit_thr_num holds whatever malloc left there. */
  function Init(c: Config, garbage: int): State
    requires c.Ok()
  {
    State(
      Shared([], c.min, 0, garbage, false,
             seq(c.max, i requires 0 <= i => if i < c.min then Tid(i) else Empty)),
      Fresh(c.min), [], Testing, NotCalled,
      seq(c.min, i requires 0 <= i => i), [], 0, [], 0, true)
  }

  predicate Enabled(c: Config, s: State, step: Step)
    requires c.Ok()
  {
    match step
    case Call(task) => true
    case Add(p, wake) =>
      && !s.sh.shutdown
      && p < |s.callers| && (s.callers[p].Calling? || s.callers[p].Resumed?)
      && (AddRegion(c, s.sh, s.callers[p].task).1.Enqueued? ==> CanSignal(s.workers, wake))
    case LateAdd(p, wake, queue) =>
      && s.sh.shutdown
      && p < |s.callers| && (s.callers[p].Calling? || s.callers[p].Resumed?)
      && CanSignal(s.workers, wake)
    case SpuriousCaller(p) => p < |s.callers| && s.callers[p].Blocked?
    case Pass(w) => w < |s.workers| && (s.workers[w].Ready? || s.workers[w].Woken?)
    case Start(w) => w < |s.workers| && s.workers[w].Took?
    case Return(w) => w < |s.workers| && s.workers[w].Running?
    case End(w) => w < |s.workers| && s.workers[w].Returned?
    case SpuriousWorker(w) => w < |s.workers| && s.workers[w].Waiting?
    case TestShutdown => s.adjuster.Testing?
    case SnapQueue => s.adjuster.Sleeping?
    case SnapBusy => s.adjuster.SawQueue?
    case Grow(dead) =>
      && s.adjuster.SawBusy?
      && |s.sh.slots| == c.max
      // is_thread_alive may still answer "alive" for a thread that has left, never the reverse
      && forall w :: w in dead ==> w < |s.workers| && s.workers[w].Gone()
    case Shrink => s.adjuster.Grown?
    case Signal(wake) => s.adjuster.Signalling? && s.adjuster.left > 0 && CanSignal(s.workers, wake)
    case Destroy => s.destroyer.NotCalled?
    case JoinAdjuster => s.destroyer.Joining? && s.adjuster.Stopped?
    case Broadcast => s.destroyer.Broadcasting?
    case Reap =>
      && s.destroyer.Reaping?
      && (s.destroyer.i < s.sh.live ==>
            // pthread_join returns once the thread in that cell has left
            && s.destroyer.i < |s.sh.slots|
            && s.sh.slots[s.destroyer.i].Tid?
            && s.sh.slots[s.destroyer.i].id < |s.workers|
            && s.workers[s.sh.slots[s.destroyer.i].id].Gone())
  }

  function PassStep(c: Config, s: State, w: nat): State
    requires w < |s.workers|
  {
    var (sh, outcome) := WorkerRegion(c, s.sh, s.workers[w].Woken?);
    match outcome
    case Retires =>
      s.(sh := sh, workers := s.workers[w := Retired], tidy := false,
         hasty := if |s.sh.queue| > 0 then s.hasty + 1 else s.hasty)
    case Sleeps => s.(sh := sh, workers := s.workers[w := Waiting])
    case Leaves => s.(sh := sh, workers := s.workers[w := Exited])
    case Takes(task) =>
      s.(sh := sh, workers := s.workers[w := Took(s.taken, task)],
         taken := s.taken + 1, callers := AllResumed(s.callers))
  }

  function AddStep(c: Config, s: State, p: nat, wake: nat): State
    requires c.Ok() && p < |s.callers| && !s.callers[p].Done?
  {
    var task := s.callers[p].task;
    var (sh, outcome) := AddRegion(c, s.sh, task);
    match outcome
    case Blocks => s.(callers := s.callers[p := Blocked(task)])
    case Enqueued =>
      s.(sh := sh, callers := s.callers[p := Done(task)], added := s.added + [task],
         workers := Signalled(s.workers, wake))
  }

  // The growth test against the snapshots, and the growth region when it passes.
  function GrowStep(c: Config, s: State, dead: set<nat>): State
    requires s.adjuster.SawBusy? && |s.sh.slots| == c.max
  {
    var next := s.(adjuster := Grown(s.adjuster.liveThr, s.adjuster.busyThr));
    if s.adjuster.queueSize >= MIN_WAIT_TASK_NUM && s.adjuster.liveThr < c.max then
      var (sh, filled) := GrowRegion(c, s.sh, dead, |s.workers|);
      next.(sh := sh, home := s.home + filled, workers := s.workers + Fresh(|filled|),
            tidy := s.tidy && !s.sh.shutdown)
    else next
  }

  predicate ShrinkTest(c: Config, a: Adjuster)
    requires a.Grown?
  {
    a.busyThr * 2 < a.liveThr && a.liveThr > c.min
  }

  function ShrinkStep(c: Config, s: State): State
    requires s.adjuster.Grown?
  {
    if ShrinkTest(c, s.adjuster) then
      s.(sh := s.sh.(waitExit := DEFAULT_THREAD_VARY),
         adjuster := Signalling(DEFAULT_THREAD_VARY))
    else s.(adjuster := Testing)
  }

  function Apply(c: Config, s: State, step: Step): State
    requires c.Ok() && Enabled(c, s, step)
  {
    match step
    case Call(task) => s.(callers := s.callers + [Calling(task)])
    case Add(p, wake) => AddStep(c, s, p, wake)
    case LateAdd(p, wake, queue) =>
      // the store runs without the lock: nothing is said about the queue it leaves
      s.(sh := s.sh.(queue := queue), callers := s.callers[p := Done(s.callers[p].task)],
         workers := Signalled(s.workers, wake))
    case SpuriousCaller(p) => s.(callers := s.callers[p := Resumed(s.callers[p].task)])
    case Pass(w) => PassStep(c, s, w)
    case Start(w) =>
      s.(sh := s.sh.(busy := s.sh.busy + 1),
         workers := s.workers[w := Running(s.workers[w].ticket, s.workers[w].task)])
    case Return(w) =>
      s.(workers := s.workers[w := Returned(s.workers[w].ticket, s.workers[w].task)])
    case End(w) =>
      s.(sh := s.sh.(busy := s.sh.busy - 1), workers := s.workers[w := Ready],
         finished := s.finished + [s.workers[w].ticket])
    case SpuriousWorker(w) => s.(workers := s.workers[w := Woken])
    case TestShutdown => s.(adjuster := if s.sh.shutdown then Stopped else Sleeping)
    case SnapQueue => s.(adjuster := SawQueue(|s.sh.queue|, s.sh.live))
    case SnapBusy => s.(adjuster := SawBusy(s.adjuster.queueSize, s.adjuster.liveThr, s.sh.busy))
    case Grow(dead) => GrowStep(c, s, dead)
    case Shrink => ShrinkStep(c, s)
    case Signal(wake) =>
      s.(workers := Signalled(s.workers, wake),
         adjuster := if s.adjuster.left == 1 then Testing else Signalling(s.adjuster.left - 1))
    case Destroy => s.(sh := s.sh.(shutdown := true), destroyer := Joining)
    case JoinAdjuster => s.(destroyer := Broadcasting(0))
    case Broadcast =>
      if s.destroyer.i < s.sh.live
      then s.(workers := AllWoken(s.workers), destroyer := Broadcasting(s.destroyer.i + 1))
      else s.(destroyer := Reaping(0))
    case Reap =>
      s.(destroyer := if s.destroyer.i < s.sh.live then Reaping(s.destroyer.i + 1) else Freed)
  }

  // The step of its own that a worker takes next, if it is not waiting and has not left.
  function NextOf(s: State, w: nat): Step
    requires w < |s.workers|
  {
    match s.workers[w]
    case Took(_, _) => Start(w)
    case Running(_, _) => Return(w)
    case Returned(_, _) => End(w)
    case _ => Pass(w)
  }

  /** A run is a list of steps, each enabled where it is taken. */
  predicate Legal(c: Config, s: State, steps: seq<Step>)
    requires c.Ok()
    decreases |steps|
  {
    |steps| > 0 ==> Enabled(c, s, steps[0]) && Legal(c, Apply(c, s, steps[0]), steps[1..])
  }

  function Exec(c: Config, s: State, steps: seq<Step>): State
    requires c.Ok() && Legal(c, s, steps)
    decreases |steps|
  {
    if |steps| == 0 then s else Exec(c, Apply(c, s, steps[0]), steps[1..])
  }
}
