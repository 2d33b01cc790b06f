/** threadpool_destroy: what happens to the pool once `shutdown` is set. */
module PoolShutdown {
  import opened PoolModel
  import opened PoolMachine
  import opened PoolCounting
  import opened PoolInvariants

  /** After shutdown a step takes no task and puts nobody to sleep, and once the adjuster has
      been joined no worker is created. */
  lemma ShutdownStep(c: Config, s: State, step: Step)
    requires Inv(c, s) && s.sh.shutdown && Enabled(c, s, step)
    ensures
      var s' := Apply(c, s, step);
      && s'.sh.shutdown && s'.taken == s.taken && s'.added == s.added
      && |s.workers| <= |s'.workers|
      && (s.adjuster.Stopped? ==> s'.adjuster.Stopped? && |s'.workers| == |s.workers|)
      && (forall w :: 0 <= w < |s'.workers| && s'.workers[w].Waiting? ==> w < |s.workers| && s.workers[w].Waiting?)
      && (forall w :: 0 <= w < |s'.workers| && s'.workers[w].Took? ==> w < |s.workers| && s.workers[w].Took?)
  {
    if step.MovesOne() {
      MoveAfterShutdown(c, s, step);
    } else {
      RestAfterShutdown(c, s, step);
    }
  }

  lemma MoveAfterShutdown(c: Config, s: State, step: Step)
    requires c.Ok() && s.sh.shutdown && Enabled(c, s, step) && step.MovesOne()
    ensures
      var s' := Apply(c, s, step);
      && s'.sh.shutdown && s'.taken == s.taken && s'.added == s.added && s'.adjuster == s.adjuster
      && s'.workers == s.workers[step.w := s'.workers[step.w]]
      && !s'.workers[step.w].Waiting? && !s'.workers[step.w].Took?
  {
  }

  lemma RestAfterShutdown(c: Config, s: State, step: Step)
    requires c.Ok() && s.sh.shutdown && Enabled(c, s, step) && !step.MovesOne()
    ensures
      var s' := Apply(c, s, step);
      && s'.sh.shutdown && s'.taken == s.taken && s'.added == s.added
      && |s.workers| <= |s'.workers|
      && (s.adjuster.Stopped? ==> s'.adjuster.Stopped? && |s'.workers| == |s.workers|)
      && (forall w :: 0 <= w < |s.workers| ==>
            s'.workers[w] == s.workers[w] || (s.workers[w].Waiting? && s'.workers[w].Woken?))
      && (forall w :: |s.workers| <= w < |s'.workers| ==> s'.workers[w].Ready?)
  {
  }

  /** The same over any continuation of any run. */
  lemma {:induction false} AfterShutdown(c: Config, s: State, steps: seq<Step>)
    requires Inv(c, s) && s.sh.shutdown && Legal(c, s, steps)
    ensures
      var s' := Exec(c, s, steps);
      && s'.sh.shutdown && s'.taken == s.taken && s'.added == s.added
      && |s.workers| <= |s'.workers|
      && (s.adjuster.Stopped? ==> s'.adjuster.Stopped? && |s'.workers| == |s.workers|)
      && (forall w :: 0 <= w < |s'.workers| && s'.workers[w].Waiting? ==> w < |s.workers| && s.workers[w].Waiting?)
      && (forall w :: 0 <= w < |s'.workers| && s'.workers[w].Took? ==> w < |s.workers| && s.workers[w].Took?)
    decreases |steps|
  {
    if |steps| > 0 {
      ShutdownStep(c, s, steps[0]);
      InvKept(c, s, steps[0]);
      AfterShutdown(c, Apply(c, s, steps[0]), steps[1..]);
    }
  }

  /* --------------------------------------------------------------- worker progress */

  // How many steps of its own a worker still takes after shutdown.
  function Rank(worker: Worker): nat {
    match worker
    case Ready => 1
    case Waiting => 2
    case Woken => 1
    case Took(_, _) => 4
    case Running(_, _) => 3
    case Returned(_, _) => 2
    case Retired => 0
    case Exited => 0
  }

  function Ranks(workers: seq<Worker>): nat {
    if |workers| == 0 then 0 else Ranks(workers[..|workers| - 1]) + Rank(workers[|workers| - 1])
  }

  lemma {:induction false} RanksUpdate(workers: seq<Worker>, w: nat, v: Worker)
    requires w < |workers|
    ensures Ranks(workers[w := v]) == Ranks(workers) - Rank(workers[w]) + Rank(v)
  {
    var last := |workers| - 1;
    if w < last {
      RanksUpdate(workers[..last], w, v);
      assert workers[w := v][..last] == workers[..last][w := v];
    } else {
      assert workers[w := v][..last] == workers[..last];
    }
  }

  lemma {:induction false} RanksAllWoken(workers: seq<Worker>)
    ensures Ranks(AllWoken(workers)) <= Ranks(workers)
    ensures !AnyWaiting(workers) ==> AllWoken(workers) == workers
  {
    if |workers| > 0 {
      var last := |workers| - 1;
      assert AllWoken(workers)[..last] == AllWoken(workers[..last]);
      RanksAllWoken(workers[..last]);
    }
  }

  lemma {:induction false} RanksBound(workers: seq<Worker>)
    ensures Ranks(workers) <= 4 * |workers|
    ensures Ranks(workers) == 0 <==> forall w :: 0 <= w < |workers| ==> workers[w].Gone()
  {
    if |workers| > 0 {
      RanksBound(workers[..|workers| - 1]);
    }
  }

  // How a step after shutdown changes the workers' ranks.
  lemma RanksStep(c: Config, s: State, step: Step)
    requires c.Ok() && Phases(s) && s.sh.shutdown && Enabled(c, s, step)
    requires step.Grow? ==> Apply(c, s, step).workers == s.workers
    ensures
      var s' := Apply(c, s, step);
      && Ranks(s'.workers) <= Ranks(s.workers) - One(step.MovesOne())
      && (step.OfWorker() ==> Ranks(s'.workers) == Ranks(s.workers) - 1)
      && (PastBroadcast(s) && !step.OfWorker() ==> Ranks(s'.workers) == Ranks(s.workers))
  {
    if step.MovesOne() {
      RanksMove(c, s, step);
    } else {
      RanksOfRest(c, s, step);
    }
  }

  lemma RanksMove(c: Config, s: State, step: Step)
    requires c.Ok() && s.sh.shutdown && Enabled(c, s, step) && step.MovesOne()
    ensures Ranks(Apply(c, s, step).workers) == Ranks(s.workers) - 1
  {
    RanksUpdate(s.workers, step.w, Apply(c, s, step).workers[step.w]);
  }

  lemma RanksOfRest(c: Config, s: State, step: Step)
    requires c.Ok() && s.sh.shutdown && Enabled(c, s, step) && !step.MovesOne()
    requires step.Grow? ==> Apply(c, s, step).workers == s.workers
    ensures Ranks(Apply(c, s, step).workers) <= Ranks(s.workers)
    ensures !AnyWaiting(s.workers) ==> Apply(c, s, step).workers == s.workers
  {
    if step.MaySignal() {
      if step.wake < |s.workers| && s.workers[step.wake].Waiting? {
        RanksUpdate(s.workers, step.wake, Woken);
      }
    } else if step.Broadcast? {
      RanksAllWoken(s.workers);
    }
  }

  function WorkerSteps(steps: seq<Step>): nat {
    if |steps| == 0 then 0 else One(steps[0].OfWorker()) + WorkerSteps(steps[1..])
  }

  lemma StaysPastBroadcast(c: Config, s: State, step: Step)
    requires c.Ok() && PastBroadcast(s) && Enabled(c, s, step)
    ensures PastBroadcast(Apply(c, s, step))
  {
  }

  /** Past the first broadcast of destroy, each step of a worker brings the pool exactly one
      closer to the state in which every worker has left, and no other step takes it away. */
  lemma {:induction false} WorkersDrain(c: Config, s: State, steps: seq<Step>)
    requires Inv(c, s) && PastBroadcast(s) && Legal(c, s, steps)
    ensures
      var s' := Exec(c, s, steps);
      && PastBroadcast(s')
      && Ranks(s'.workers) + WorkerSteps(steps) == Ranks(s.workers) <= 4 * |s.workers|
    decreases |steps|
  {
    RanksBound(s.workers);
    if |steps| > 0 {
      var s1 := Apply(c, s, steps[0]);
      RanksStep(c, s, steps[0]);
      InvKept(c, s, steps[0]);
      StaysPastBroadcast(c, s, steps[0]);
      WorkersDrain(c, s1, steps[1..]);
    }
  }

  /** Past the broadcast a worker that has not left can take its next step; when none can, all
      have left. */
  lemma WorkersNeverStick(c: Config, s: State)
    requires Inv(c, s) && PastBroadcast(s)
    ensures (forall step: Step :: step.OfWorker() ==> !Enabled(c, s, step))
       <==> (forall w :: 0 <= w < |s.workers| ==> s.workers[w].Gone())
  {
    forall w | 0 <= w < |s.workers| && !s.workers[w].Gone()
      ensures exists step: Step :: step.OfWorker() && Enabled(c, s, step)
    {
      var step := NextOf(s, w);
      assert step.OfWorker() && Enabled(c, s, step);
    }
  }

  /* -------------------------------------------------------- termination of destroy */

  // The steps of the pool's own threads and of destroy, as opposed to callers and wake-ups.
  predicate OfPool(step: Step) {
    match step
    case Call(_) => false
    case Add(_, _) => false
    case LateAdd(_, _, _) => false
    case SpuriousCaller(_) => false
    case SpuriousWorker(_) => false
    case _ => true
  }

  function AdjusterRank(a: Adjuster): nat {
    match a
    case Stopped => 0
    case Testing => 1
    case Signalling(left) => left + 2
    case Grown(_, _) => DEFAULT_THREAD_VARY + 3
    case SawBusy(_, _, _) => DEFAULT_THREAD_VARY + 4
    case SawQueue(_, _) => DEFAULT_THREAD_VARY + 5
    case Sleeping => DEFAULT_THREAD_VARY + 6
  }

  function DestroyerRank(c: Config, d: Destroyer): int {
    match d
    case NotCalled => 2 * c.max + 5
    case Joining => 2 * c.max + 4
    case Broadcasting(i) => 2 * c.max + 3 - i
    case Reaping(i) => c.max + 1 - i
    case Freed => 0
  }

  function Remaining(c: Config, s: State): int {
    Ranks(s.workers) + AdjusterRank(s.adjuster) + DestroyerRank(c, s.destroyer)
  }

  /** A step of the pool, and a spurious wake-up of a worker, brings destroy closer to its end. */
  lemma TerminationStep(c: Config, s: State, step: Step)
    requires c.Ok() && Phases(s) && Loops(c, s) && s.sh.live <= c.max
    requires s.sh.shutdown && Enabled(c, s, step)
    requires step.Grow? ==> Apply(c, s, step).workers == s.workers
    ensures Remaining(c, Apply(c, s, step)) <= Remaining(c, s) - One(OfPool(step) || step.SpuriousWorker?)
  {
    RanksStep(c, s, step);
    LoopsAdvance(c, s, step);
  }

  lemma LoopsAdvance(c: Config, s: State, step: Step)
    requires c.Ok() && Loops(c, s) && s.sh.live <= c.max
    requires s.sh.shutdown && Phases(s) && Enabled(c, s, step)
    ensures
      var s' := Apply(c, s, step);
      AdjusterRank(s'.adjuster) + DestroyerRank(c, s'.destroyer)
        <= AdjusterRank(s.adjuster) + DestroyerRank(c, s.destroyer) - One(OfPool(step) && !step.OfWorker())
  {
    if step.MovesOne() {
      MoveAfterShutdown(c, s, step);
      MoveLeavesDestroy(c, s, step);
    }
  }

  lemma MoveLeavesDestroy(c: Config, s: State, step: Step)
    requires c.Ok() && Enabled(c, s, step) && step.MovesOne()
    ensures Apply(c, s, step).destroyer == s.destroyer
  {
  }

  function PoolSteps(steps: seq<Step>): nat {
    if |steps| == 0 then 0 else One(OfPool(steps[0])) + PoolSteps(steps[1..])
  }

  lemma RemainingPositive(c: Config, s: State)
    requires Loops(c, s)
    ensures Remaining(c, s) >= 0
  {
  }

  /** In a tidy state after shutdown the pool can always take a step of its own until destroy has
      freed it; and then every worker has left. */
  lemma DestroyNeverSticks(c: Config, s: State)
    requires Inv(c, s) && s.sh.shutdown && s.tidy
    ensures s.destroyer.Freed? ==> forall w :: 0 <= w < |s.workers| ==> s.workers[w].Exited?
    ensures !s.destroyer.Freed? ==> exists step :: OfPool(step) && Enabled(c, s, step)
  {
    if !s.adjuster.Stopped? {
      var step := AdjusterNext(s);
      assert OfPool(step) && Enabled(c, s, step);
    } else {
      match s.destroyer
      case Joining => assert Enabled(c, s, JoinAdjuster) && OfPool(JoinAdjuster);
      case Broadcasting(i) => assert Enabled(c, s, Broadcast) && OfPool(Broadcast);
      case Reaping(i) =>
        if i < s.sh.live && !s.workers[i].Gone() {
          var step := NextOf(s, i);
          assert OfPool(step) && Enabled(c, s, step);
        } else {
          assert Enabled(c, s, Reap) && OfPool(Reap);
        }
      case _ =>
    }
  }

  // The adjuster's next step; growth here finds nobody gone.
  ghost function AdjusterNext(s: State): (step: Step)
    requires !s.adjuster.Stopped?
    ensures OfPool(step) && !step.OfWorker()
  {
    match s.adjuster
    case Testing => TestShutdown
    case Sleeping => SnapQueue
    case SawQueue(_, _) => SnapBusy
    case SawBusy(_, _, _) => Grow({})
    case Grown(_, _) => Shrink
    case Signalling(_) =>
      Signal(if AnyWaiting(s.workers)
             then var w :| 0 <= w < |s.workers| && s.workers[w].Waiting?; w
             else 0)
  }

  /** Nothing but a spurious wake-up moves a caller that was blocked when shutdown was set: the
      pool never signals queue_not_full again. */
  lemma {:induction false} BlockedCallersStayBlocked(c: Config, s: State, steps: seq<Step>, p: nat)
    requires c.Ok() && s.sh.shutdown && Legal(c, s, steps)
    requires p < |s.callers| && s.callers[p].Blocked?
    requires forall i :: 0 <= i < |steps| ==> steps[i] != SpuriousCaller(p)
    ensures
      var s' := Exec(c, s, steps);
      p < |s'.callers| && s'.callers[p] == s.callers[p]
    decreases |steps|
  {
    if |steps| > 0 {
      BlockedCallerKept(c, s, steps[0], p);
      BlockedCallersStayBlocked(c, Apply(c, s, steps[0]), steps[1..], p);
    }
  }

  lemma BlockedCallerKept(c: Config, s: State, step: Step, p: nat)
    requires c.Ok() && s.sh.shutdown && Enabled(c, s, step) && step != SpuriousCaller(p)
    requires p < |s.callers| && s.callers[p].Blocked?
    ensures
      var s' := Apply(c, s, step);
      s'.sh.shutdown && p < |s'.callers| && s'.callers[p] == s.callers[p]
  {
  }
}
