/** threadpool_destroy as a whole, judged by the state in which it is called. */
module PoolDestroy {
  import opened PoolModel
  import opened PoolMachine
  import opened PoolCounting
  import opened PoolInvariants
  import opened PoolTheorems
  import opened PoolShutdown
  import opened PoolRange
  import opened PoolJoin

  /* --------------------------------------------------------------- the whole call */

  /** What threadpool_destroy is for, at the end of a run from the state s: not too many steps so
      far, and either it can go on, or it has returned and every worker has left. */
  ghost predicate InGoodOrder(c: Config, s: State, after: seq<Step>)
    requires c.Ok() && Legal(c, s, after)
  {
    && PoolSteps(after) <= Remaining(c, s)
    && !Stuck(c, Exec(c, s, after))
    && (Exec(c, s, after).destroyer.Freed? ==> AllGone(Exec(c, s, after)))
  }

  /** threadpool_destroy called in any state that a run from threadpool_create reaches, with no
      growth round due: it returns, after a bounded number of steps and with every worker gone,
      exactly if every worker is caught and no hole is in the way. */
  lemma DestroyReturnsIff(c: Config, garbage: int, before: seq<Step>)
    requires c.Ok() && Legal(c, Init(c, garbage), before)
    requires Reached(c, garbage, before).destroyer.NotCalled? && Calm(c, Reached(c, garbage, before))
    ensures
      var s := Reached(c, garbage, before);
      var called := Apply(c, s, Destroy);
      |s.home| == |s.workers| &&
      ((AllCaught(c, s) && !Hole(s.sh.slots, Highest(c, s))) <==>
       forall after :: Legal(c, called, after) && Undisturbed(called, after) ==> InGoodOrder(c, called, after))
  {
    ReachedInv(c, garbage, before);
    var s := Reached(c, garbage, before);
    var called := Apply(c, s, Destroy);
    InvKept(c, s, Destroy);
    FreesOnlyAfterAllIff(c, called);
    NeverSticksIff(c, called);
    forall after | Legal(c, called, after) && Undisturbed(called, after)
      ensures PoolSteps(after) <= Remaining(c, called)
    {
      DestroyIsBounded(c, called, after);
    }
    SameAtTheCall(c, s);
  }

  // Setting the flag changes nothing that the condition looks at.
  lemma SameAtTheCall(c: Config, s: State)
    requires c.Ok() && s.destroyer.NotCalled? && |s.home| == |s.workers|
    ensures
      var called := Apply(c, s, Destroy);
      && |called.home| == |called.workers|
      && (AllCaught(c, called) <==> AllCaught(c, s))
      && (Hole(called.sh.slots, Highest(c, called)) <==> Hole(s.sh.slots, Highest(c, s)))
  {
    var called := Apply(c, s, Destroy);
    forall w | 0 <= w < |s.workers| ensures Caught(c, called, w) <==> Caught(c, s, w) {
      assert Lowest(c, called, w) == Lowest(c, s, w);
      assert Hole(called.sh.slots, Lowest(c, s, w)) <==> Hole(s.sh.slots, Lowest(c, s, w));
    }
    assert Hole(called.sh.slots, Highest(c, s)) <==> Hole(s.sh.slots, Highest(c, s));
  }

  /* ------------------------------------------------------------------ special cases */

  /** With nobody able to retire, both bounds are live_thr_num itself, and the condition is that no cell of threads[0..live)
      is empty and every worker still there stands in one of them. */
  lemma WithoutRetirements(c: Config, s: State)
    requires Inv(c, s) && NobodyCanRetire(c, s)
    ensures AllCaught(c, s) <==>
              Hole(s.sh.slots, s.sh.live) ||
              forall w :: 0 <= w < |s.workers| && !s.workers[w].Gone() ==> s.home[w] < s.sh.live
    ensures AllCaught(c, s) && !Hole(s.sh.slots, Highest(c, s)) <==>
              !Hole(s.sh.slots, s.sh.live) &&
              forall w :: 0 <= w < |s.workers| && !s.workers[w].Gone() ==> s.home[w] < s.sh.live
  {
    forall w | 0 <= w < |s.workers| ensures Lowest(c, s, w) == s.sh.live {
      OthersDozingNat(s, w);
    }
    assert Highest(c, s) == s.sh.live;
    if Hole(s.sh.slots, s.sh.live) {
      forall w | 0 <= w < |s.workers| && !s.workers[w].Gone() ensures Caught(c, s, w) {
      }
    }
  }

  /** In a tidy pool there are no holes, and the condition is that no worker stands above what the
      retirements still possible leave of live_thr_num; without any it holds. */
  lemma TidyPools(c: Config, s: State)
    requires Inv(c, s) && s.tidy
    ensures !Hole(s.sh.slots, Highest(c, s))
    ensures AllCaught(c, s) <==> forall w :: 0 <= w < |s.workers| && !s.workers[w].Gone() ==> w < Lowest(c, s, w)
    ensures NobodyCanRetire(c, s) ==> AllCaught(c, s)
  {
    forall w | 0 <= w < |s.workers|
      ensures Lowest(c, s, w) <= s.sh.live && (NobodyCanRetire(c, s) ==> Lowest(c, s, w) == s.sh.live)
    {
      OthersDozingNat(s, w);
    }
    assert forall w :: 0 <= w < |s.workers| && !s.workers[w].Gone() ==> Owns(s, w);
  }

  /* --------------------------------------------------------- growth after shutdown */

  // A tidy pool with a worker and room for more, in which nobody can retire, about to grow.
  ghost predicate AboutToGrow(c: Config, s: State) {
    Inv(c, s) && GrowthIsNext(c, s)
  }

  predicate GrowthIsNext(c: Config, s: State) {
    && s.sh.shutdown && s.tidy
    && NobodyCanRetire(c, s) && 0 < s.sh.live < c.max && GrowthAhead(c, s)
  }

  // With cell 0 filled anew and the threads of the next cells still there, the loop fills the
  // cells from `first` on, one fewer than it counts.
  lemma {:induction false} ScanLeavesAHole(c: Config, slots: seq<Slot>, dead: set<nat>, next: nat, i: nat, first: nat, add: nat)
    requires |slots| == c.max && i <= first < c.max
    requires forall j :: i <= j < first ==> !Reusable(slots[j], dead)
    requires forall j :: first <= j < c.max ==> slots[j].Empty?
    ensures
      var g := Scan(c, slots, dead, first + 1, next, i, add);
      first + |g.filled| < c.max && g.slots[first + |g.filled|].Empty?
    decreases c.max - i
  {
    if i < c.max && add < DEFAULT_THREAD_VARY && first + 1 < c.max {
      if i < first {
        ScanLeavesAHole(c, slots, dead, next, i + 1, first, add);
      } else {
        ScanLeavesAHole(c, slots[i := Tid(next)], dead, next + 1, i + 1, first + 1, add + 1);
      }
    }
  }

  lemma GrowthLeavesAHole(c: Config, slots: seq<Slot>, n: nat)
    requires |slots| == c.max && 0 < n < c.max && FilledTo(slots, n)
    ensures
      var g := Scan(c, slots, {0}, n, n, 0, 0);
      Hole(g.slots, g.live)
  {
    var slots' := slots[0 := Tid(n)];
    var rest := Scan(c, slots', {0}, n + 1, n + 1, 1, 1);
    ScanLeavesAHole(c, slots', {0}, n + 1, 1, n, 1);
    assert Scan(c, slots, {0}, n, n, 0, 0).slots == rest.slots;
    assert rest.slots[n + |rest.filled|].Empty?;
  }

  lemma GrowOverTheFirst(c: Config, s: State)
    requires AboutToGrow(c, s) && s.adjuster.SawBusy? && AllGone(s)
    ensures Enabled(c, s, Grow({0}))
    ensures
      var s' := Apply(c, s, Grow({0}));
      Closing(c, s') && Hole(s'.sh.slots, Highest(c, s'))
  {
    assert Enabled(c, s, Grow({0}));
    InvKept(c, s, Grow({0}));
    LateGrowth(c, s);
  }

  lemma LateGrowth(c: Config, s: State)
    requires AboutToGrow(c, s) && s.adjuster.SawBusy? && AllGone(s) && Enabled(c, s, Grow({0}))
    ensures
      var s' := Apply(c, s, Grow({0}));
      s'.sh.shutdown && s'.adjuster.Grown? && Hole(s'.sh.slots, Highest(c, s'))
  {
    GrowthLeavesAHole(c, s.sh.slots, |s.workers|);
    NobodyDozes(s.workers);
    CountGrown(c, s, {0}, Dozing);
  }

  // A worker on its way out of such a pool does not retire.
  lemma LeaveTidily(c: Config, s: State, w: nat) returns (step: Step)
    requires AboutToGrow(c, s) && w < |s.workers| && !s.workers[w].Gone()
    ensures Enabled(c, s, step) && step.MovesOne() && AboutToGrow(c, Apply(c, s, step))
  {
    step := if s.workers[w].Waiting? then SpuriousWorker(w) else NextOf(s, w);
    InvKept(c, s, step);
    if step.Pass? {
      PassTidily(c, s, w);
    } else {
      MoveTidily(c, s, step);
    }
  }

  lemma PassTidily(c: Config, s: State, w: nat)
    requires c.Ok() && GrowthIsNext(c, s) && Enabled(c, s, Pass(w))
    ensures GrowthIsNext(c, Apply(c, s, Pass(w)))
  {
    PassLeaves(c, s, w);
    if s.workers[w].Woken? {
      CountZero(Dozing, s.workers, w);
    }
  }

  lemma MoveTidily(c: Config, s: State, step: Step)
    requires c.Ok() && GrowthIsNext(c, s) && Enabled(c, s, step) && step.MovesOne() && !step.Pass?
    ensures GrowthIsNext(c, Apply(c, s, step))
  {
    CountUpdate(Dozing, s.workers, step.w, Apply(c, s, step).workers[step.w]);
  }

  // The adjuster goes on to its growth test.
  lemma SnapTidily(c: Config, s: State) returns (step: Step)
    requires AboutToGrow(c, s) && AllGone(s) && !s.adjuster.SawBusy?
    ensures Enabled(c, s, step) && OfPool(step) && !step.Grow? && !step.LateAdd?
    ensures AboutToGrow(c, Apply(c, s, step))
  {
    step := if s.adjuster.Sleeping? then SnapQueue else SnapBusy;
    NobodyDozes(s.workers);
    InvKept(c, s, step);
  }

  lemma TowardsGrowth(c: Config, s: State) returns (step: Step)
    requires AboutToGrow(c, s) && !(s.adjuster.SawBusy? && AllGone(s))
    ensures Enabled(c, s, step) && !step.LateAdd? && AboutToGrow(c, Apply(c, s, step))
    ensures 0 <= Remaining(c, s) && Remaining(c, Apply(c, s, step)) < Remaining(c, s)
  {
    if AllGone(s) {
      step := SnapTidily(c, s);
    } else {
      var w :| 0 <= w < |s.workers| && !s.workers[w].Gone();
      step := LeaveTidily(c, s, w);
    }
    RemainingPositive(c, s);
    TerminationStep(c, s, step);
  }

  /** From there some run gets stuck: everybody leaves, and the growth round reuses cell 0. */
  lemma {:induction false} LateGrowthGetsStuck(c: Config, s: State) returns (steps: seq<Step>)
    requires AboutToGrow(c, s)
    ensures Legal(c, s, steps) && NoLateStore(steps) && Stuck(c, Exec(c, s, steps))
    decreases Remaining(c, s)
  {
    var step, rest;
    if s.adjuster.SawBusy? && AllGone(s) {
      step := Grow({0});
      GrowOverTheFirst(c, s);
      rest := GetStuck(c, Apply(c, s, step));
    } else {
      step := TowardsGrowth(c, s);
      rest := LateGrowthGetsStuck(c, Apply(c, s, step));
    }
    steps := [step] + rest;
    assert steps[1..] == rest;
  }

  /** threadpool_destroy called on a tidy pool with a worker in it, when nobody can retire: it
      returns in good order exactly if no growth round is to come. */
  lemma TidyDestroyReturnsIff(c: Config, garbage: int, before: seq<Step>)
    requires c.Ok() && Legal(c, Init(c, garbage), before)
    requires Reached(c, garbage, before).destroyer.NotCalled? && Reached(c, garbage, before).tidy
    requires NobodyCanRetire(c, Reached(c, garbage, before)) && Reached(c, garbage, before).sh.live > 0
    ensures
      var s := Reached(c, garbage, before);
      var called := Apply(c, s, Destroy);
      Calm(c, s) <==>
      forall after :: Legal(c, called, after) && Undisturbed(called, after) ==> InGoodOrder(c, called, after)
  {
    ReachedInv(c, garbage, before);
    var s := Reached(c, garbage, before);
    var called := Apply(c, s, Destroy);
    if Calm(c, s) {
      TidyPools(c, s);
      DestroyReturnsIff(c, garbage, before);
    } else {
      InvKept(c, s, Destroy);
      var after := LateGrowthGetsStuck(c, called);
      assert Undisturbed(called, after) && !InGoodOrder(c, called, after);
    }
  }
}
