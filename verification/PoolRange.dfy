/**
 After shutdown: when the pool can grow no more, and between which bounds live_thr_num still moves.
 */
module PoolRange {
  import opened PoolModel
  import opened PoolMachine
  import opened PoolCounting
  import opened PoolInvariants
  import opened PoolShutdown

  /* ---------------------------------------------- where live_thr_num may still end up */

  // The adjuster may still ask ten workers to exit.
  predicate MayAsk(c: Config, a: Adjuster) {
    match a
    case Sleeping => true
    case SawQueue(_, liveThr) => liveThr > c.min
    case SawBusy(_, liveThr, busyThr) => busyThr * 2 < liveThr && liveThr > c.min
    case Grown(_, _) => ShrinkTest(c, a)
    case _ => false
  }

  // The most and the fewest exits that may still be asked for.
  function MostAsked(c: Config, s: State): int {
    Max(s.sh.waitExit, 0) + if MayAsk(c, s.adjuster) then DEFAULT_THREAD_VARY else 0
  }

  function FewestAsked(c: Config, s: State): int {
    if MayAsk(c, s.adjuster) then Min(Max(s.sh.waitExit, 0), DEFAULT_THREAD_VARY) else Max(s.sh.waitExit, 0)
  }

  function OthersDozing(s: State, w: nat): int
    requires w < |s.workers|
  {
    Count(Dozing, s.workers) - One(In(Dozing, s.workers[w]))
  }

  /** As low as live_thr_num can get while worker w stays. */
  function Lowest(c: Config, s: State, w: nat): int
    requires w < |s.workers|
  {
    Max(Max(s.sh.live - MostAsked(c, s), c.min), s.sh.live - OthersDozing(s, w))
  }

  /** As high as live_thr_num can still be when everybody has left. */
  function Highest(c: Config, s: State): int {
    Max(Max(s.sh.live - FewestAsked(c, s), c.min), s.sh.live - Count(Dozing, s.workers))
  }

  // After shutdown a worker with the lock leaves, by retiring if it was asked and may.
  lemma PassLeaves(c: Config, s: State, u: nat)
    requires c.Ok() && s.sh.shutdown && Enabled(c, s, Pass(u))
    ensures
      var s' := Apply(c, s, Pass(u));
      var asked := s.workers[u].Woken? && s.sh.waitExit > 0;
      var retires := asked && s.sh.live > c.min;
      && s'.workers == s.workers[u := if retires then Retired else Exited]
      && s'.sh.live == s.sh.live - One(retires)
      && s'.sh.waitExit == s.sh.waitExit - One(asked)
      && s'.adjuster == s.adjuster
      && Count(Dozing, s'.workers) == Count(Dozing, s.workers) - One(s.workers[u].Woken?)
  {
    CountUpdate(Dozing, s.workers, u, Apply(c, s, Pass(u)).workers[u]);
  }

  lemma DozingStays(c: Config, s: State, step: Step)
    requires c.Ok() && s.sh.shutdown && Enabled(c, s, step) && !step.Pass?
    requires step.Grow? ==> Apply(c, s, step).workers == s.workers
    ensures
      var s' := Apply(c, s, step);
      && |s'.workers| == |s.workers|
      && forall w :: 0 <= w < |s.workers| ==> In(Dozing, s'.workers[w]) == In(Dozing, s.workers[w])
  {
  }

  lemma AsksGetClearer(c: Config, s: State, step: Step)
    requires c.Ok() && s.sh.shutdown && Enabled(c, s, step) && !step.Pass?
    ensures
      var s' := Apply(c, s, step);
      FewestAsked(c, s) <= FewestAsked(c, s') <= MostAsked(c, s') <= MostAsked(c, s)
  {
  }

  /* ------------------------------------------------------------------- calm states */

  // Nobody can retire any more: nobody is or will be asked, or live_thr_num is at its minimum, or
  // nobody is dozing.
  predicate NobodyCanRetire(c: Config, s: State) {
    MostAsked(c, s) == 0 || s.sh.live <= c.min || Count(Dozing, s.workers) == 0
  }

  // The adjuster's snapshots, or the queue it will find when it wakes, call for a growth round.
  predicate GrowthAhead(c: Config, s: State) {
    match s.adjuster
    case Sleeping => |s.sh.queue| >= MIN_WAIT_TASK_NUM
    case SawQueue(queueSize, liveThr) => queueSize >= MIN_WAIT_TASK_NUM && liveThr < c.max
    case SawBusy(queueSize, liveThr, _) => queueSize >= MIN_WAIT_TASK_NUM && liveThr < c.max
    case _ => false
  }

  /** No growth round is to come, or the pool is full and stays so. */
  predicate Calm(c: Config, s: State) {
    !GrowthAhead(c, s) || FullForGood(c, s)
  }

  predicate FullForGood(c: Config, s: State) {
    s.sh.live >= c.max && NobodyCanRetire(c, s)
  }

  // Only while the adjuster sleeps could a late store still make the queue long enough.
  predicate Disturbs(s: State, step: Step) {
    s.adjuster.Sleeping? && step.LateAdd?
  }

  /** If the adjuster sleeps, nobody stores a task after shutdown; otherwise no condition at all. */
  predicate Undisturbed(s: State, steps: seq<Step>) {
    forall i :: 0 <= i < |steps| ==> !Disturbs(s, steps[i])
  }

  lemma FullStaysFull(c: Config, s: State, step: Step)
    requires c.Ok() && s.sh.shutdown && c.min <= s.sh.live && FullForGood(c, s)
    requires Enabled(c, s, step)
    ensures FullForGood(c, Apply(c, s, step))
    ensures step.Grow? ==> Apply(c, s, step).workers == s.workers
  {
    if step.Pass? {
      PassLeaves(c, s, step.w);
      if s.workers[step.w].Woken? {
        CountZero(Dozing, s.workers, step.w);
      }
    } else if step.Grow? {
      FullDoesNotGrow(c, s, step.dead);
    } else {
      OthersLeaveLive(c, s, step);
      CountAfter(c, s, step, Dozing);
      DozingStays(c, s, step);
      AsksGetClearer(c, s, step);
    }
  }

  lemma FullDoesNotGrow(c: Config, s: State, dead: set<nat>)
    requires c.Ok() && s.sh.live >= c.max && Enabled(c, s, Grow(dead))
    ensures
      var s' := Apply(c, s, Grow(dead));
      s'.workers == s.workers && s'.sh == s.sh && s'.home == s.home && MayAsk(c, s'.adjuster) == MayAsk(c, s.adjuster)
  {
    assert s.workers + Fresh(0) == s.workers;
    assert s.home + [] == s.home;
  }

  // In calm states the growth region, if it runs at all, does nothing.
  lemma CalmGrow(c: Config, s: State, dead: set<nat>)
    requires c.Ok() && Calm(c, s) && Enabled(c, s, Grow(dead))
    ensures
      var s' := Apply(c, s, Grow(dead));
      s'.workers == s.workers && s'.sh == s.sh && s'.home == s.home
  {
    if s.sh.live >= c.max {
      FullDoesNotGrow(c, s, dead);
    }
  }

  /** In calm states after shutdown no worker is created and no cell changes. */
  lemma CalmStep(c: Config, s: State, step: Step)
    requires c.Ok() && s.sh.shutdown && c.min <= s.sh.live && Calm(c, s)
    requires Enabled(c, s, step) && !Disturbs(s, step)
    ensures
      var s' := Apply(c, s, step);
      && s'.sh.shutdown && Calm(c, s') && (s'.adjuster.Sleeping? ==> s.adjuster.Sleeping?)
      && s'.sh.slots == s.sh.slots && s'.home == s.home && |s'.workers| == |s.workers|
      && (step.Grow? ==> s'.workers == s.workers && s'.sh == s.sh)
      && (forall w :: 0 <= w < |s.workers| && s.workers[w].Gone() ==> s'.workers[w] == s.workers[w])
  {
    if step.Grow? {
      CalmGrow(c, s, step.dead);
    } else {
      WorkersOnlyLeave(c, s, step);
    }
    if FullForGood(c, s) {
      FullStaysFull(c, s, step);
    }
    AdjusterAfterShutdown(c, s, step);
  }

  // The adjuster's round goes on with the snapshots it has.
  lemma AdjusterAfterShutdown(c: Config, s: State, step: Step)
    requires c.Ok() && s.sh.shutdown && Enabled(c, s, step) && !Disturbs(s, step)
    ensures
      var s' := Apply(c, s, step);
      && s'.sh.shutdown && (s'.adjuster.Sleeping? ==> s.adjuster.Sleeping?)
      && (Calm(c, s) && !FullForGood(c, s) ==> Calm(c, s'))
  {
  }

  // No other step changes live_thr_num or who is dozing; and what may be asked for gets clearer.
  lemma OthersLeaveTheRange(c: Config, s: State, step: Step)
    requires c.Ok() && s.sh.shutdown && c.min <= s.sh.live && Calm(c, s)
    requires Enabled(c, s, step) && !Disturbs(s, step) && !step.Pass?
    ensures
      var s' := Apply(c, s, step);
      && s'.sh.live == s.sh.live && |s'.workers| == |s.workers|
      && Count(Dozing, s'.workers) == Count(Dozing, s.workers)
      && (forall w :: 0 <= w < |s.workers| ==> In(Dozing, s'.workers[w]) == In(Dozing, s.workers[w]))
      && FewestAsked(c, s) <= FewestAsked(c, s') <= MostAsked(c, s') <= MostAsked(c, s)
  {
    CalmStep(c, s, step);
    CountAfter(c, s, step, Dozing);
    DozingStays(c, s, step);
    AsksGetClearer(c, s, step);
    if !step.Grow? {
      OthersLeaveLive(c, s, step);
    }
  }

  /** The range narrows: no step lets live_thr_num get lower, while w stays, than it could before. */
  lemma LowestRises(c: Config, s: State, step: Step, w: nat)
    requires c.Ok() && s.sh.shutdown && c.min <= s.sh.live && Calm(c, s)
    requires Enabled(c, s, step) && !Disturbs(s, step)
    requires w < |s.workers|
    ensures w < |Apply(c, s, step).workers|
    ensures !Apply(c, s, step).workers[w].Gone() ==> Lowest(c, s, w) <= Lowest(c, Apply(c, s, step), w)
  {
    if step.Pass? {
      PassLeaves(c, s, step.w);
    } else {
      OthersLeaveTheRange(c, s, step);
    }
  }

  lemma HighestFalls(c: Config, s: State, step: Step)
    requires c.Ok() && s.sh.shutdown && c.min <= s.sh.live && Calm(c, s)
    requires Enabled(c, s, step) && !Disturbs(s, step)
    ensures Highest(c, Apply(c, s, step)) <= Highest(c, s)
  {
    if step.Pass? {
      PassLeaves(c, s, step.w);
    } else {
      OthersLeaveTheRange(c, s, step);
    }
  }

  // Others dozing are counted, and the count is right about w.
  lemma OthersDozingNat(s: State, w: nat)
    requires w < |s.workers|
    ensures 0 <= OthersDozing(s, w) == Count(Dozing, s.workers[w := Ready])
  {
    CountUpdate(Dozing, s.workers, w, Ready);
  }

  // A state that destroy may find or bring about, before or after any step in what follows.
  ghost predicate Closing(c: Config, s: State) {
    Inv(c, s) && s.sh.shutdown && Calm(c, s)
  }

  lemma ClosingStep(c: Config, s: State, step: Step)
    requires Closing(c, s) && Enabled(c, s, step) && !Disturbs(s, step)
    ensures Closing(c, Apply(c, s, step))
    ensures Remaining(c, s) >= 0
    ensures Remaining(c, Apply(c, s, step)) <= Remaining(c, s) - One(OfPool(step) || step.SpuriousWorker?)
  {
    CalmStep(c, s, step);
    InvKept(c, s, step);
    RemainingPositive(c, s);
    TerminationStep(c, s, step);
  }

  lemma UndisturbedOn(c: Config, s: State, steps: seq<Step>)
    requires Closing(c, s) && Legal(c, s, steps) && Undisturbed(s, steps) && |steps| > 0
    ensures !Disturbs(s, steps[0]) && Undisturbed(Apply(c, s, steps[0]), steps[1..])
  {
    CalmStep(c, s, steps[0]);
    forall i | 0 <= i < |steps[1..]| ensures !Disturbs(Apply(c, s, steps[0]), steps[1..][i]) {
      assert !Disturbs(s, steps[i + 1]);
    }
  }

  /** However callers and spurious wake-ups interleave, the pool's own threads and destroy take at
      most `Remaining` steps. */
  lemma {:induction false} DestroyIsBounded(c: Config, s: State, steps: seq<Step>)
    requires Closing(c, s) && Legal(c, s, steps) && Undisturbed(s, steps)
    ensures PoolSteps(steps) <= Remaining(c, s)
    decreases |steps|
  {
    RemainingPositive(c, s);
    if |steps| > 0 {
      UndisturbedOn(c, s, steps);
      ClosingStep(c, s, steps[0]);
      DestroyIsBounded(c, Apply(c, s, steps[0]), steps[1..]);
    }
  }
}
