/** What holds in every run of the pool, from threadpool_create on. */
module PoolTheorems {
  import opened PoolModel
  import opened PoolMachine
  import opened PoolCounting
  import opened PoolInvariants

  // A state that some run reaches.
  function Reached(c: Config, garbage: int, steps: seq<Step>): State
    requires c.Ok() && Legal(c, Init(c, garbage), steps)
  {
    Exec(c, Init(c, garbage), steps)
  }

  lemma ReachedInv(c: Config, garbage: int, steps: seq<Step>)
    requires c.Ok() && Legal(c, Init(c, garbage), steps)
    ensures Inv(c, Reached(c, garbage, steps))
  {
    InvInit(c, garbage);
    InvRun(c, Init(c, garbage), steps);
  }

  /** live_thr_num stays within its bounds and counts the workers that have not retired;
      busy_thr_num counts the workers between its increment and its decrement. This holds
      whatever wait_exit_thr_num starts as and however old the adjuster's snapshots are. */
  lemma CountersAreRight(c: Config, garbage: int, steps: seq<Step>)
    requires c.Ok() && Legal(c, Init(c, garbage), steps)
    ensures
      var s := Reached(c, garbage, steps);
      && c.min <= s.sh.live <= c.max
      && s.sh.live == |s.workers| - Count(Left, s.workers)
      && s.sh.busy == Count(InTask, s.workers)
      && 0 <= s.sh.busy <= s.sh.live
  {
    ReachedInv(c, garbage, steps);
    CountSplit(Reached(c, garbage, steps).workers);
  }

  /** Until shutdown the ring holds exactly the added tasks nobody has taken, in order and within
      its capacity, and the added tasks are those of the calls that have stored theirs, one for
      each call. At any time the k-th task added is with one worker, or finished once, or was not
      taken yet; and a worker that holds ticket k holds the k-th task added. */
  lemma TasksAreTakenInOrderAndOnce(c: Config, garbage: int, steps: seq<Step>)
    requires c.Ok() && Legal(c, Init(c, garbage), steps)
    ensures
      var s := Reached(c, garbage, steps);
      && s.taken <= |s.added|
      && (!s.sh.shutdown ==> s.sh.queue == s.added[s.taken..] && |s.sh.queue| <= c.cap)
      && (!s.sh.shutdown ==> Stored(s.callers) == multiset(s.added))
      && (forall k: nat :: Count(HolderOf(k), s.workers) + multiset(s.finished)[k]
                           == if k < s.taken then 1 else 0)
      && (forall w :: 0 <= w < |s.workers| && s.workers[w].Holds() ==>
            s.workers[w].ticket < |s.added| && s.workers[w].task == s.added[s.workers[w].ticket])
  {
    ReachedInv(c, garbage, steps);
    var s := Reached(c, garbage, steps);
    forall w | 0 <= w < |s.workers| && s.workers[w].Holds()
      ensures s.workers[w].ticket < |s.added| && s.workers[w].task == s.added[s.workers[w].ticket]
    {
      assert HoldsItsTask(s.workers, s.added, w);
    }
  }

  /** What a worker makes of the lock. It retires exactly if it was woken, exits are asked for and
      live_thr_num is above the minimum, whatever the queue holds; otherwise it leaves after
      shutdown, waits if no task is queued, and takes the oldest one if there is. Being woken
      with exits asked for uses one of them up in any case. */
  lemma PassOutcome(c: Config, s: State, w: nat)
    requires c.Ok() && Enabled(c, s, Pass(w))
    ensures
      var s' := Apply(c, s, Pass(w));
      var asked := s.workers[w].Woken? && s.sh.waitExit > 0;
      && (s'.workers[w].Retired? <==> asked && s.sh.live > c.min)
      && (s'.workers[w].Exited? <==> s.sh.shutdown && !s'.workers[w].Retired?)
      && (s'.workers[w].Waiting? <==> !s.sh.shutdown && s.sh.queue == [] && !s'.workers[w].Retired?)
      && (!s'.workers[w].Gone() && !s'.workers[w].Waiting? ==>
            s.sh.queue == [s'.workers[w].task] + s'.sh.queue && s'.workers[w] == Took(s.taken, s'.workers[w].task))
      && (s'.workers[w].Gone() || s'.workers[w].Waiting? ==> s'.sh.queue == s.sh.queue)
      && s'.sh.live == s.sh.live - One(s'.workers[w].Retired?)
      && s'.sh.waitExit == s.sh.waitExit - One(asked)
      && s'.hasty == s.hasty + One(s'.workers[w].Retired? && s.sh.queue != [])
  {
    var sh := s.sh;
    if |sh.queue| > 0 {
      assert sh.queue == [sh.queue[0]] + sh.queue[1..];
    }
  }

  /** Every store, a late one too, wakes one worker if any waits; the call that stored returns. */
  lemma StoreWakesOne(c: Config, s: State, step: Step)
    requires c.Ok() && Enabled(c, s, step) && (step.Add? || step.LateAdd?)
    requires Apply(c, s, step).callers[step.p].Done?
    ensures
      var s' := Apply(c, s, step);
      && s'.callers[step.p] == Done(s.callers[step.p].task)
      && |s'.workers| == |s.workers|
      && (forall w :: 0 <= w < |s.workers| && s'.workers[w] != s.workers[w] ==>
            w == step.wake && s.workers[w].Waiting? && s'.workers[w].Woken?)
      && (AnyWaiting(s.workers) <==> exists w :: 0 <= w < |s.workers| && s'.workers[w] != s.workers[w])
  {
    if AnyWaiting(s.workers) {
      assert Apply(c, s, step).workers[step.wake] != s.workers[step.wake];
    }
  }

  /* ---------------------------------------------------- the calls of threadpool_add */

  function TasksOf(callers: seq<Caller>): (r: seq<Task>)
    ensures |r| == |callers|
  {
    seq(|callers|, p requires 0 <= p < |callers| => callers[p].task)
  }

  // The tasks with which threadpool_add is called in this run.
  function Called(steps: seq<Step>): seq<Task> {
    if |steps| == 0 then [] else CalledBy(steps[0]) + Called(steps[1..])
  }

  function CalledBy(step: Step): seq<Task> {
    if step.Call? then [step.task] else []
  }

  // The same calls, and more; those that had stored their tasks have not changed.
  predicate CallsGoOn(before: seq<Caller>, after: seq<Caller>, called: seq<Task>) {
    && TasksOf(after) == TasksOf(before) + called
    && forall p :: 0 <= p < |before| && p < |after| && before[p].Done? ==> after[p] == before[p]
  }

  lemma GoOnTwice(a: seq<Caller>, b: seq<Caller>, c: seq<Caller>, first: seq<Task>, more: seq<Task>)
    requires CallsGoOn(a, b, first) && CallsGoOn(b, c, more)
    ensures CallsGoOn(a, c, first + more)
  {
    assert (TasksOf(a) + first) + more == TasksOf(a) + (first + more);
    assert |a| <= |TasksOf(a) + first| == |b|;
  }

  /** A call keeps the task it was made with, whatever it waits for, and once it has stored it, it
      has returned for good. */
  lemma {:induction false} CallsKeepTheirTasks(c: Config, s: State, steps: seq<Step>)
    requires c.Ok() && Legal(c, s, steps)
    ensures
      var before, after := s.callers, Exec(c, s, steps).callers;
      && TasksOf(after) == TasksOf(before) + Called(steps)
      && forall p :: 0 <= p < |before| && p < |after| && before[p].Done? ==> after[p] == before[p]
    decreases |steps|
  {
    if |steps| == 0 {
      assert TasksOf(s.callers) + [] == TasksOf(s.callers);
    } else {
      var s1 := Apply(c, s, steps[0]);
      CallsStep(c, s, steps[0]);
      CallsKeepTheirTasks(c, s1, steps[1..]);
      GoOnTwice(s.callers, s1.callers, Exec(c, s1, steps[1..]).callers, CalledBy(steps[0]), Called(steps[1..]));
    }
  }

  lemma CallsStep(c: Config, s: State, step: Step)
    requires c.Ok() && Enabled(c, s, step)
    ensures CallsGoOn(s.callers, Apply(c, s, step).callers, CalledBy(step))
  {
    if step.Pass? {
      PassKeepsTasks(c, s, step.w);
    } else if !step.Call? {
      OthersKeepTasks(c, s, step);
    }
  }

  lemma PassKeepsTasks(c: Config, s: State, w: nat)
    requires c.Ok() && Enabled(c, s, Pass(w))
    ensures
      var s' := Apply(c, s, Pass(w));
      && TasksOf(s'.callers) == TasksOf(s.callers)
      && forall p :: 0 <= p < |s.callers| && s.callers[p].Done? ==> s'.callers[p] == s.callers[p]
  {
  }

  lemma OthersKeepTasks(c: Config, s: State, step: Step)
    requires c.Ok() && Enabled(c, s, step) && !step.Call? && !step.Pass?
    ensures
      var s' := Apply(c, s, step);
      && TasksOf(s'.callers) == TasksOf(s.callers)
      && forall p :: 0 <= p < |s.callers| && s.callers[p].Done? ==> s'.callers[p] == s.callers[p]
  {
  }

  /** A call that is neither asleep on a full queue nor through can always go on, and one that is
      asleep may wake without a signal. */
  lemma CallersCanGoOn(c: Config, s: State, p: nat)
    requires c.Ok() && p < |s.callers|
    ensures (exists step: Step :: (step.Add? || step.LateAdd?) && step.p == p && Enabled(c, s, step))
       <==> s.callers[p].Calling? || s.callers[p].Resumed?
    ensures Enabled(c, s, SpuriousCaller(p)) <==> s.callers[p].Blocked?
  {
    var wake: nat := if AnyWaiting(s.workers) then var w :| 0 <= w < |s.workers| && s.workers[w].Waiting?; w else 0;
    assert CanSignal(s.workers, wake);
    if s.callers[p].Calling? || s.callers[p].Resumed? {
      var step := if s.sh.shutdown then LateAdd(p, wake, []) else Add(p, wake);
      assert (step.Add? || step.LateAdd?) && step.p == p && Enabled(c, s, step);
    }
  }

  /* ------------------------------------------------------------------ wake-ups */

  /** While some worker waits, the queue is no longer than the awake idle workers and the workers
      that retired although tasks were queued; the retirements so far bound the latter. */
  lemma WaitingBoundsTheQueue(c: Config, garbage: int, steps: seq<Step>)
    requires c.Ok() && Legal(c, Init(c, garbage), steps)
    requires !Reached(c, garbage, steps).sh.shutdown && AnyWaiting(Reached(c, garbage, steps).workers)
    ensures
      var s := Reached(c, garbage, steps);
      && |s.sh.queue| <= Count(Awake, s.workers) + s.hasty
      && s.hasty <= Count(Left, s.workers)
  {
    ReachedInv(c, garbage, steps);
  }

  // As many awake idle workers as queued tasks, if anybody waits at all.
  predicate EnoughUp(s: State) {
    AnyWaiting(s.workers) ==> |s.sh.queue| <= Count(Awake, s.workers)
  }

  // Worker w, woken and asked to exit, retires in this step although only as many idle workers
  // as queued tasks are awake, itself included, and others wait.
  predicate RetiresTooSoon(c: Config, s: State, step: Step) {
    && step.Pass? && step.w < |s.workers|
    && s.workers[step.w].Woken? && s.sh.waitExit > 0 && s.sh.live > c.min
    && |s.sh.queue| == Count(Awake, s.workers) && AnyWaiting(s.workers)
  }

  /** Before shutdown the one thing that loses a wake-up is such a retirement. */
  lemma WakeUpLostExactlyByRetiring(c: Config, s: State, step: Step)
    requires c.Ok() && !s.sh.shutdown && EnoughUp(s) && Enabled(c, s, step)
    ensures !EnoughUp(Apply(c, s, step)) <==> RetiresTooSoon(c, s, step)
  {
    if step.Pass? {
      PassLosesExactlyByRetiring(c, s, step.w);
    } else {
      OthersLoseNothing(c, s, step);
    }
  }

  lemma PassLosesExactlyByRetiring(c: Config, s: State, w: nat)
    requires c.Ok() && !s.sh.shutdown && EnoughUp(s) && Enabled(c, s, Pass(w))
    ensures !EnoughUp(Apply(c, s, Pass(w))) <==> RetiresTooSoon(c, s, Pass(w))
  {
    var s' := Apply(c, s, Pass(w));
    CountAfter(c, s, Pass(w), Awake);
    StillWaiting(s.workers, w, s'.workers[w]);
    if AnyWaiting(s.workers) {
      var v :| 0 <= v < |s.workers| && s.workers[v].Waiting?;
      assert s'.workers[v].Waiting?;
    }
  }

  lemma OthersLoseNothing(c: Config, s: State, step: Step)
    requires c.Ok() && !s.sh.shutdown && EnoughUp(s) && Enabled(c, s, step) && !step.Pass?
    ensures EnoughUp(Apply(c, s, step))
  {
    CountAfter(c, s, step, Awake);
    if step.MovesOne() {
      StillWaiting(s.workers, step.w, Apply(c, s, step).workers[step.w]);
    } else if step.MaySignal() && CanSignal(s.workers, step.wake) {
      SignalledWaiting(s.workers, step.wake);
    }
  }

  lemma {:induction false} CountGivesMember(group: Group, workers: seq<Worker>) returns (w: nat)
    requires Count(group, workers) > 0
    ensures w < |workers| && In(group, workers[w])
  {
    var last := |workers| - 1;
    if In(group, workers[last]) {
      w := last;
    } else {
      w := CountGivesMember(group, workers[..last]);
    }
  }

  // No step of this run is such a retirement.
  predicate NoneTooSoon(c: Config, s: State, steps: seq<Step>)
    requires c.Ok() && Legal(c, s, steps)
    decreases |steps|
  {
    |steps| > 0 ==>
      !RetiresTooSoon(c, s, steps[0]) && NoneTooSoon(c, Apply(c, s, steps[0]), steps[1..])
  }

  // Enough workers are up at each point of this run.
  predicate AlwaysEnoughUp(c: Config, s: State, steps: seq<Step>)
    requires c.Ok() && Legal(c, s, steps)
    decreases |steps|
  {
    EnoughUp(s) && (|steps| > 0 ==> AlwaysEnoughUp(c, Apply(c, s, steps[0]), steps[1..]))
  }

  lemma {:induction false} NotShutDownBefore(c: Config, s: State, steps: seq<Step>)
    requires c.Ok() && Legal(c, s, steps) && !Exec(c, s, steps).sh.shutdown
    ensures !s.sh.shutdown
    decreases |steps|
  {
    if |steps| > 0 {
      NotShutDownBefore(c, Apply(c, s, steps[0]), steps[1..]);
      ShutdownStays(c, s, steps[0]);
    }
  }

  lemma ShutdownStays(c: Config, s: State, step: Step)
    requires c.Ok() && Enabled(c, s, step)
    ensures s.sh.shutdown ==> Apply(c, s, step).sh.shutdown
  {
  }

  lemma {:induction false} EnoughUpIffNoneTooSoon(c: Config, s: State, steps: seq<Step>)
    requires c.Ok() && Legal(c, s, steps) && EnoughUp(s) && !Exec(c, s, steps).sh.shutdown
    ensures AlwaysEnoughUp(c, s, steps) <==> NoneTooSoon(c, s, steps)
    ensures NoneTooSoon(c, s, steps) ==> EnoughUp(Exec(c, s, steps))
    decreases |steps|
  {
    if |steps| > 0 {
      var s1 := Apply(c, s, steps[0]);
      NotShutDownBefore(c, s, steps);
      WakeUpLostExactlyByRetiring(c, s, steps[0]);
      if EnoughUp(s1) {
        EnoughUpIffNoneTooSoon(c, s1, steps[1..]);
      }
    }
  }

  // A worker that has not left and does not wait.
  predicate SomeoneUp(s: State) {
    exists w :: 0 <= w < |s.workers| && !s.workers[w].Waiting? && !s.workers[w].Gone()
  }

  /** With enough workers up nothing waits before shutdown for a wake-up that never comes: if a task
      is queued or a caller blocked, some worker is not waiting. */
  lemma EnoughUpMeansSomeoneUp(c: Config, s: State)
    requires Inv(c, s) && EnoughUp(s) && !s.sh.shutdown
    ensures (|s.sh.queue| > 0 || exists p :: 0 <= p < |s.callers| && s.callers[p].Blocked?) ==>
              |s.sh.queue| > 0 && (s.sh.live > 0 ==> SomeoneUp(s))
  {
    assert forall p :: 0 <= p < |s.callers| && s.callers[p].Blocked? ==> |s.sh.queue| == c.cap;
    if |s.sh.queue| > 0 && s.sh.live > 0 {
      var w := CountGivesMember(if AnyWaiting(s.workers) then Awake else OnBooks, s.workers);
      assert !s.workers[w].Waiting? && !s.workers[w].Gone();
    }
  }

  /** In a run from threadpool_create on, up to shutdown, no wake-up is ever lost exactly if no
      worker ever retires too soon; and then no task or caller waits with every worker asleep. */
  lemma NoLostWakeUp(c: Config, garbage: int, steps: seq<Step>)
    requires c.Ok() && Legal(c, Init(c, garbage), steps)
    requires !Reached(c, garbage, steps).sh.shutdown
    ensures AlwaysEnoughUp(c, Init(c, garbage), steps) <==> NoneTooSoon(c, Init(c, garbage), steps)
    ensures
      var s := Reached(c, garbage, steps);
      NoneTooSoon(c, Init(c, garbage), steps) &&
      (|s.sh.queue| > 0 || exists p :: 0 <= p < |s.callers| && s.callers[p].Blocked?) ==>
        |s.sh.queue| > 0 && (s.sh.live > 0 ==> SomeoneUp(s))
  {
    ReachedInv(c, garbage, steps);
    EnoughUpIffNoneTooSoon(c, Init(c, garbage), steps);
    if EnoughUp(Reached(c, garbage, steps)) {
      EnoughUpMeansSomeoneUp(c, Reached(c, garbage, steps));
    }
  }

  /** A caller waits on queue_not_full only while the queue is full. */
  lemma BlockedCallersFaceAFullQueue(c: Config, garbage: int, steps: seq<Step>, p: nat)
    requires c.Ok() && Legal(c, Init(c, garbage), steps)
    requires !Reached(c, garbage, steps).sh.shutdown
    requires p < |Reached(c, garbage, steps).callers| && Reached(c, garbage, steps).callers[p].Blocked?
    ensures |Reached(c, garbage, steps).sh.queue| == c.cap
  {
    ReachedInv(c, garbage, steps);
  }

  /* -------------------------------------------------------------------- growth */

  lemma {:induction false} SameSize(a: set<nat>, b: set<nat>, f: seq<nat>)
    requires forall x :: x in a ==> x < |f| && f[x] in b
    requires forall x, y :: x in a && y in a && f[x] == f[y] ==> x == y
    requires forall z :: z in b ==> exists x :: x in a && f[x] == z
    ensures |a| == |b|
    decreases |a|
  {
    if a == {} {
      assert b == {};
    } else {
      var x :| x in a;
      SameSize(a - {x}, b - {f[x]}, f);
    }
  }

  function Members(group: Group, workers: seq<Worker>): (r: set<nat>)
    ensures forall w: nat :: w in r <==> w < |workers| && In(group, workers[w])
    ensures |r| == Count(group, workers)
  {
    if |workers| == 0 then {}
    else
      var last := |workers| - 1;
      Members(group, workers[..last]) + if In(group, workers[last]) then {last} else {}
  }

  lemma {:induction false} ReusableIsRest(slots: seq<Slot>, dead: set<nat>, i: nat)
    requires i <= |slots|
    ensures ReusableFrom(slots, dead, i)
         == |slots| - i - |set j: nat | i <= j < |slots| && !Reusable(slots[j], dead)|
    decreases |slots| - i
  {
    var all := set j: nat | i <= j < |slots| && !Reusable(slots[j], dead);
    if i < |slots| {
      ReusableIsRest(slots, dead, i + 1);
      var fewer := set j: nat | i + 1 <= j < |slots| && !Reusable(slots[j], dead);
      assert all == if Reusable(slots[i], dead) then fewer else fewer + {i};
    }
  }

  // The oracle knows everyone who has left.
  ghost predicate KnowsAllGone(s: State, dead: set<nat>) {
    forall w: nat :: w in dead <==> w < |s.workers| && s.workers[w].Gone()
  }

  /** Before shutdown the cells that a perfect is_thread_alive finds reusable are as many as
      threads may still be created. */
  lemma FreeCells(c: Config, s: State, dead: set<nat>)
    requires Inv(c, s) && !s.sh.shutdown && KnowsAllGone(s, dead)
    ensures ReusableFrom(s.sh.slots, dead, 0) == c.max - s.sh.live
  {
    var here := Members(OnBooks, s.workers);
    var cells := set j: nat | 0 <= j < |s.sh.slots| && !Reusable(s.sh.slots[j], dead);
    forall x | x in here ensures Owns(s, x) && s.home[x] in cells {
    }
    forall z | z in cells ensures exists x :: x in here && s.home[x] == z {
      assert s.sh.slots[z].id in here;
    }
    SameSize(here, cells, s.home);
    ReusableIsRest(s.sh.slots, dead, 0);
  }

  /** A growth round before shutdown overwrites no cell of a worker still there, gives every new
      worker a cell of its own, and adds as many workers as the cells it finds reusable, the
      room below max and the limit of ten allow: all that the room allows when the oracle
      knows everyone who has left. */
  lemma GrowthRound(c: Config, garbage: int, steps: seq<Step>, dead: set<nat>)
    requires c.Ok() && Legal(c, Init(c, garbage), steps)
    requires Enabled(c, Reached(c, garbage, steps), Grow(dead))
    requires !Reached(c, garbage, steps).sh.shutdown
    requires Reached(c, garbage, steps).adjuster.queueSize >= MIN_WAIT_TASK_NUM
    requires Reached(c, garbage, steps).adjuster.liveThr < c.max
    ensures
      var s := Reached(c, garbage, steps);
      var s' := Apply(c, s, Grow(dead));
      var n := |s'.workers| - |s.workers|;
      && s'.sh.live == s.sh.live + n <= c.max
      && n == Min(Min(10, c.max - s.sh.live), ReusableFrom(s.sh.slots, dead, 0))
      && (KnowsAllGone(s, dead) ==> n == Min(10, c.max - s.sh.live))
      && (forall w :: 0 <= w < |s.workers| && !s.workers[w].Gone() ==> Owns(s, w) && Owns(s', w))
      && (forall w :: |s.workers| <= w < |s'.workers| ==> Owns(s', w))
  {
    ReachedInv(c, garbage, steps);
    var s := Reached(c, garbage, steps);
    GrowthSize(c, s, dead);
    CellsKept(c, s, Grow(dead));
    GrowthKeepsWorkers(c, s, dead);
    if KnowsAllGone(s, dead) {
      FreeCells(c, s, dead);
    }
  }

  lemma GrowthSize(c: Config, s: State, dead: set<nat>)
    requires c.Ok() && s.sh.live <= c.max && Enabled(c, s, Grow(dead))
    requires s.adjuster.queueSize >= MIN_WAIT_TASK_NUM && s.adjuster.liveThr < c.max
    ensures
      var s' := Apply(c, s, Grow(dead));
      var n := |s'.workers| - |s.workers|;
      && s'.sh.live == s.sh.live + n <= c.max
      && n == Min(Min(10, c.max - s.sh.live), ReusableFrom(s.sh.slots, dead, 0))
  {
    ScanSpec(c, s.sh.slots, dead, s.sh.live, |s.workers|, 0, 0);
  }

  // Growth keeps the old workers as they are and adds ready ones.
  lemma GrowthKeepsWorkers(c: Config, s: State, dead: set<nat>)
    requires c.Ok() && Enabled(c, s, Grow(dead))
    ensures
      var s' := Apply(c, s, Grow(dead));
      && |s.workers| <= |s'.workers|
      && (forall w :: 0 <= w < |s.workers| ==> s'.workers[w] == s.workers[w])
      && (forall w :: |s.workers| <= w < |s'.workers| ==> s'.workers[w] == Ready)
  {
  }

  /** Workers still there stand in different cells of `threads`. */
  lemma DistinctCellsOfWorkers(c: Config, garbage: int, steps: seq<Step>, w: nat, v: nat)
    requires c.Ok() && Legal(c, Init(c, garbage), steps)
    requires w < |Reached(c, garbage, steps).workers| && !Reached(c, garbage, steps).workers[w].Gone()
    requires v < |Reached(c, garbage, steps).workers| && !Reached(c, garbage, steps).workers[v].Gone()
    requires w != v
    ensures
      var s := Reached(c, garbage, steps);
      Owns(s, w) && Owns(s, v) && s.home[w] != s.home[v]
  {
    ReachedInv(c, garbage, steps);
  }

  /** In a tidy run the workers are threads[0..live), created in that order, across all growth
      rounds; so the loop of destroy that joins threads[0..live) joins every worker, and the
      pool is freed only after the last one has left. */
  lemma TidyRunsJoinEveryWorker(c: Config, garbage: int, steps: seq<Step>)
    requires c.Ok() && Legal(c, Init(c, garbage), steps)
    requires Reached(c, garbage, steps).tidy
    ensures
      var s := Reached(c, garbage, steps);
      && s.sh.live == |s.workers| <= c.max == |s.sh.slots|
      && (forall i :: 0 <= i < c.max ==> s.sh.slots[i] == if i < |s.workers| then Tid(i) else Empty)
      && (s.destroyer.Freed? ==> forall w :: 0 <= w < |s.workers| ==> s.workers[w].Exited?)
  {
    ReachedInv(c, garbage, steps);
    var s := Reached(c, garbage, steps);
    forall w | s.destroyer.Freed? && 0 <= w < |s.workers| ensures s.workers[w].Exited? {
      assert s.sh.slots[w] == Tid(w);
    }
  }

  // No shrink round runs.
  predicate NoShrinkRound(c: Config, s: State, steps: seq<Step>)
    requires c.Ok() && Legal(c, s, steps)
    decreases |steps|
  {
    |steps| > 0 ==>
      !(steps[0].Shrink? && ShrinkTest(c, s.adjuster)) &&
      NoShrinkRound(c, Apply(c, s, steps[0]), steps[1..])
  }

  /** If wait_exit_thr_num starts at most 0 and no shrink round runs, nobody retires; so until
      shutdown the run is tidy. */
  lemma NoShrinkRoundNoRetirement(c: Config, garbage: int, steps: seq<Step>)
    requires c.Ok() && garbage <= 0 && Legal(c, Init(c, garbage), steps)
    requires NoShrinkRound(c, Init(c, garbage), steps)
    ensures
      var s := Reached(c, garbage, steps);
      && (forall w :: 0 <= w < |s.workers| ==> !s.workers[w].Retired?)
      && s.hasty == 0
      && (!s.sh.shutdown ==> s.tidy)
  {
    NobodyAsked(c, Init(c, garbage), steps);
  }

  // Nobody has been asked to exit, and nobody has retired.
  predicate NeverAsked(s: State) {
    && s.sh.waitExit <= 0 && s.hasty == 0
    && (forall w :: 0 <= w < |s.workers| ==> !s.workers[w].Retired?)
    && (!s.sh.shutdown ==> s.tidy)
  }

  lemma {:induction false} NobodyAsked(c: Config, s: State, steps: seq<Step>)
    requires c.Ok() && NeverAsked(s) && Legal(c, s, steps) && NoShrinkRound(c, s, steps)
    ensures NeverAsked(Exec(c, s, steps))
    decreases |steps|
  {
    if |steps| > 0 {
      NotAskedStep(c, s, steps[0]);
      NobodyAsked(c, Apply(c, s, steps[0]), steps[1..]);
    }
  }

  lemma NotAskedStep(c: Config, s: State, step: Step)
    requires c.Ok() && NeverAsked(s) && Enabled(c, s, step)
    requires !(step.Shrink? && ShrinkTest(c, s.adjuster))
    ensures NeverAsked(Apply(c, s, step))
  {
    if step.Pass? {
      UnaskedPass(c, s, step.w);
    } else {
      UnaskedRest(c, s, step);
    }
  }

  lemma UnaskedPass(c: Config, s: State, w: nat)
    requires c.Ok() && NeverAsked(s) && Enabled(c, s, Pass(w))
    ensures NeverAsked(Apply(c, s, Pass(w)))
  {
  }

  lemma UnaskedRest(c: Config, s: State, step: Step)
    requires c.Ok() && Enabled(c, s, step) && !step.Pass?
    requires !(step.Shrink? && ShrinkTest(c, s.adjuster))
    ensures
      var s' := Apply(c, s, step);
      && s'.sh.waitExit == s.sh.waitExit && s'.hasty == s.hasty
      && (!s'.sh.shutdown ==> !s.sh.shutdown && s'.tidy == s.tidy)
      && forall w :: 0 <= w < |s'.workers| && s'.workers[w].Retired? ==> w < |s.workers| && s.workers[w].Retired?
  {
  }
}
