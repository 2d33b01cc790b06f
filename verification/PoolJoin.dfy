/**
 The join loop of threadpool_destroy, judged by the state in which `shutdown` has been set: exactly
 when it frees the pool only after every worker has left, and exactly when it cannot get stuck.
 */
module PoolJoin {
  import opened PoolModel
  import opened PoolMachine
  import opened PoolCounting
  import opened PoolInvariants
  import opened PoolTheorems
  import opened PoolShutdown
  import opened PoolRange

  /* ------------------------------------------------------------ joining every worker */

  // Some cell below n never held a thread; pthread_join does not return from it.
  predicate Hole(slots: seq<Slot>, n: int) {
    exists i :: 0 <= i < n && i < |slots| && slots[i].Empty?
  }

  /** Destroy will not pass worker w by: it stands in a cell that is joined in any case, or a cell
      in which the loop gets stuck comes first. */
  predicate Caught(c: Config, s: State, w: nat)
    requires w < |s.workers| && w < |s.home|
  {
    s.home[w] < Lowest(c, s, w) || Hole(s.sh.slots, Lowest(c, s, w))
  }

  predicate AllCaught(c: Config, s: State)
    requires |s.home| == |s.workers|
  {
    forall w :: 0 <= w < |s.workers| && !s.workers[w].Gone() ==> Caught(c, s, w)
  }

  predicate AllGone(s: State) {
    forall w :: 0 <= w < |s.workers| ==> s.workers[w].Gone()
  }

  lemma CaughtStays(c: Config, s: State, step: Step)
    requires Closing(c, s) && AllCaught(c, s) && Enabled(c, s, step) && !Disturbs(s, step)
    ensures Closing(c, Apply(c, s, step)) && AllCaught(c, Apply(c, s, step))
  {
    var s' := Apply(c, s, step);
    ClosingStep(c, s, step);
    CalmStep(c, s, step);
    forall w | 0 <= w < |s'.workers| && !s'.workers[w].Gone() ensures Caught(c, s', w) {
      assert Caught(c, s, w);
      LowestRises(c, s, step, w);
    }
  }

  lemma {:induction false} CaughtRun(c: Config, s: State, steps: seq<Step>)
    requires Closing(c, s) && AllCaught(c, s) && Legal(c, s, steps) && Undisturbed(s, steps)
    ensures Closing(c, Exec(c, s, steps)) && AllCaught(c, Exec(c, s, steps))
    decreases |steps|
  {
    if |steps| > 0 {
      UndisturbedOn(c, s, steps);
      CaughtStays(c, s, steps[0]);
      CaughtRun(c, Apply(c, s, steps[0]), steps[1..]);
    }
  }

  lemma LowestIsLow(c: Config, s: State, w: nat)
    requires c.min <= s.sh.live && w < |s.workers|
    ensures Lowest(c, s, w) <= s.sh.live
  {
    OthersDozingNat(s, w);
  }

  lemma FreedMeansAllGone(c: Config, s: State)
    requires Closing(c, s) && AllCaught(c, s) && s.destroyer.Freed?
    ensures AllGone(s)
  {
    forall w | 0 <= w < |s.workers| ensures s.workers[w].Gone() {
      if !s.workers[w].Gone() {
        assert Caught(c, s, w) && Owns(s, w);
        LowestIsLow(c, s, w);
        assert false;
      }
    }
  }

  /* --------------------------------------------------------- passing a worker by */

  // Destroy may pass w by.
  ghost predicate Missed(c: Config, s: State, w: nat) {
    Closing(c, s) && w < |s.workers| && !s.workers[w].Gone() && !Caught(c, s, w)
  }

  // This step brings destroy closer to its end, leaves w where it is and the range below w open.
  ghost predicate Helps(c: Config, s: State, step: Step, w: nat)
    requires c.Ok() && w < |s.workers|
  {
    && Enabled(c, s, step) && !step.LateAdd? && (OfPool(step) || step.SpuriousWorker?)
    && var s' := Apply(c, s, step);
       w < |s'.workers| && !s'.workers[w].Gone() && Lowest(c, s', w) <= Lowest(c, s, w)
  }

  lemma StillMissed(c: Config, s: State, step: Step, w: nat)
    requires Missed(c, s, w) && Helps(c, s, step, w)
    ensures Missed(c, Apply(c, s, step), w)
    ensures 0 <= Remaining(c, s) && Remaining(c, Apply(c, s, step)) < Remaining(c, s)
  {
    ClosingStep(c, s, step);
    CalmStep(c, s, step);
  }

  // A worker's step other than with the lock, or a spurious wake-up, leaves the range as it is.
  lemma MoveChangesNothing(c: Config, s: State, step: Step, w: nat)
    requires c.Ok() && w < |s.workers| && Enabled(c, s, step) && step.MovesOne() && !step.Pass?
    ensures
      var s' := Apply(c, s, step);
      && w < |s'.workers| && Lowest(c, s', w) == Lowest(c, s, w) && Highest(c, s') == Highest(c, s)
      && s'.workers[w].Gone() == s.workers[w].Gone()
  {
    CountUpdate(Dozing, s.workers, step.w, Apply(c, s, step).workers[step.w]);
  }

  // Somebody else who is dozing and is asked to exit leaves the books.
  lemma OneMoreRetires(c: Config, s: State, w: nat) returns (step: Step)
    requires Missed(c, s, w)
    requires s.sh.waitExit > 0 && s.sh.live > c.min && OthersDozing(s, w) > 0
    ensures Helps(c, s, step, w)
  {
    OthersDozingNat(s, w);
    var u := CountGivesMember(Dozing, s.workers[w := Ready]);
    if s.workers[u].Woken? {
      step := Pass(u);
      PassLeaves(c, s, u);
    } else {
      step := SpuriousWorker(u);
      MoveChangesNothing(c, s, step, w);
    }
  }

  // Nobody but w can be made to retire now.
  predicate OthersMustStay(c: Config, s: State, w: nat)
    requires w < |s.workers|
  {
    s.sh.waitExit <= 0 || s.sh.live <= c.min || OthersDozing(s, w) <= 0
  }

  lemma AdjusterCanGoOn(c: Config, s: State)
    requires Closing(c, s) && !s.adjuster.Stopped?
    ensures Enabled(c, s, AdjusterNext(s))
  {
  }

  // The adjuster's next step forgoes no request to exit, if at its snapshot nobody is busy.
  lemma AskedStays(c: Config, s: State)
    requires Closing(c, s) && !s.adjuster.Stopped? && s.sh.live > c.min && s.sh.waitExit <= 0
    requires s.adjuster.SawQueue? && MayAsk(c, s.adjuster) ==> s.sh.busy <= 0
    requires Enabled(c, s, AdjusterNext(s))
    ensures MostAsked(c, Apply(c, s, AdjusterNext(s))) == MostAsked(c, s)
  {
  }

  lemma AdjusterOn(c: Config, s: State, w: nat) returns (step: Step)
    requires Missed(c, s, w) && OthersMustStay(c, s, w) && !s.adjuster.Stopped?
    ensures Helps(c, s, step, w)
  {
    if s.adjuster.SawQueue? && MayAsk(c, s.adjuster) && s.sh.busy > 0 {
      step := OneLessBusy(c, s, w);
    } else {
      step := AdjusterNext(s);
      AdjusterHelps(c, s, w);
    }
  }

  lemma OneLessBusy(c: Config, s: State, w: nat) returns (step: Step)
    requires Missed(c, s, w) && s.sh.busy > 0
    ensures Helps(c, s, step, w)
  {
    var u := CountGivesMember(InTask, s.workers);
    step := NextOf(s, u);
    MoveChangesNothing(c, s, step, w);
  }

  lemma AdjusterHelps(c: Config, s: State, w: nat)
    requires Missed(c, s, w) && OthersMustStay(c, s, w) && !s.adjuster.Stopped?
    requires s.adjuster.SawQueue? && MayAsk(c, s.adjuster) ==> s.sh.busy <= 0
    ensures Helps(c, s, AdjusterNext(s), w)
  {
    var step := AdjusterNext(s);
    AdjusterCanGoOn(c, s);
    RestAfterShutdown(c, s, step);
    OthersLeaveTheRange(c, s, step);
    ClosingStep(c, s, step);
    OthersDozingNat(s, w);
    LowestIsLow(c, Apply(c, s, step), w);
    if s.sh.live > c.min && s.sh.waitExit <= 0 {
      AskedStays(c, s);
    }
  }

  // With the adjuster gone, destroy goes on, or the worker it waits for does.
  lemma NextJoin(c: Config, s: State, w: nat) returns (step: Step)
    requires Missed(c, s, w) && s.sh.live <= Lowest(c, s, w) && s.adjuster.Stopped? && !s.destroyer.Freed?
    ensures Enabled(c, s, step) && OfPool(step) && !step.Grow? && (step.Pass? ==> step.w != w)
  {
    step := match s.destroyer
      case Joining => JoinAdjuster
      case Broadcasting(_) => Broadcast
      case _ => Reap;
    if s.destroyer.Reaping? && s.destroyer.i < s.sh.live {
      assert !s.sh.slots[s.destroyer.i].Empty?;
      var u := s.sh.slots[s.destroyer.i].id;
      if !s.workers[u].Gone() {
        step := NextOf(s, u);
      }
    }
  }

  lemma JoinOn(c: Config, s: State, w: nat) returns (step: Step)
    requires Missed(c, s, w) && OthersMustStay(c, s, w) && s.adjuster.Stopped? && !s.destroyer.Freed?
    ensures Helps(c, s, step, w)
  {
    OthersDozingNat(s, w);
    step := NextJoin(c, s, w);
    WIsLeft(c, s, step, w);
    ClosingStep(c, s, step);
    LowestIsLow(c, Apply(c, s, step), w);
    if step.Pass? {
      PassLeaves(c, s, step.w);
    } else {
      OthersLeaveTheRange(c, s, step);
    }
  }

  lemma WIsLeft(c: Config, s: State, step: Step, w: nat)
    requires c.Ok() && s.sh.shutdown && Enabled(c, s, step)
    requires w < |s.workers| && !s.workers[w].Gone() && !(step.Pass? && step.w == w)
    ensures w < |Apply(c, s, step).workers| && !Apply(c, s, step).workers[w].Gone()
  {
    if step.MovesOne() {
      MoveAfterShutdown(c, s, step);
    } else {
      RestAfterShutdown(c, s, step);
    }
  }

  lemma TowardsPassing(c: Config, s: State, w: nat) returns (step: Step)
    requires Missed(c, s, w) && !s.destroyer.Freed?
    ensures Helps(c, s, step, w)
  {
    if !OthersMustStay(c, s, w) {
      step := OneMoreRetires(c, s, w);
    } else if !s.adjuster.Stopped? {
      step := AdjusterOn(c, s, w);
    } else {
      step := JoinOn(c, s, w);
    }
  }

  predicate NoLateStore(steps: seq<Step>) {
    forall i :: 0 <= i < |steps| ==> !steps[i].LateAdd?
  }

  /** From there some run ends with the pool freed and w inside: first the others retire as far
      as possible, then the adjuster stops, then the loop joins the cells below w. */
  lemma {:induction false} PassBy(c: Config, s: State, w: nat) returns (steps: seq<Step>)
    requires Missed(c, s, w)
    ensures Legal(c, s, steps) && NoLateStore(steps) && Exec(c, s, steps).destroyer.Freed?
    ensures w < |Exec(c, s, steps).workers| && !Exec(c, s, steps).workers[w].Gone()
    decreases Remaining(c, s)
  {
    if s.destroyer.Freed? {
      return [];
    }
    var step := TowardsPassing(c, s, w);
    StillMissed(c, s, step, w);
    var rest := PassBy(c, Apply(c, s, step), w);
    steps := [step] + rest;
    assert steps[1..] == rest;
  }

  /** Exactly when the pool is freed only after everybody has left: each worker still there has to
      stand below everything live_thr_num can fall to while it stays, or behind a hole that
      stays below it. */
  lemma FreesOnlyAfterAllIff(c: Config, s: State)
    requires Closing(c, s)
    ensures AllCaught(c, s) <==>
              forall steps :: Legal(c, s, steps) && Undisturbed(s, steps) && Exec(c, s, steps).destroyer.Freed? ==>
                AllGone(Exec(c, s, steps))
  {
    if AllCaught(c, s) {
      forall steps | Legal(c, s, steps) && Undisturbed(s, steps) && Exec(c, s, steps).destroyer.Freed?
        ensures AllGone(Exec(c, s, steps))
      {
        CaughtRun(c, s, steps);
        FreedMeansAllGone(c, Exec(c, s, steps));
      }
    } else {
      var w :| 0 <= w < |s.workers| && !s.workers[w].Gone() && !Caught(c, s, w);
      var steps := PassBy(c, s, w);
      assert Undisturbed(s, steps) && !AllGone(Exec(c, s, steps));
    }
  }

  /* ------------------------------------------------------------------ getting stuck */

  /** Neither destroy nor any thread of the pool can go on, and the pool is not freed. */
  ghost predicate Stuck(c: Config, s: State)
    requires c.Ok()
  {
    !s.destroyer.Freed? && forall step :: OfPool(step) ==> !Enabled(c, s, step)
  }

  lemma {:induction false} NoHoleRun(c: Config, s: State, steps: seq<Step>)
    requires Closing(c, s) && !Hole(s.sh.slots, Highest(c, s)) && Legal(c, s, steps) && Undisturbed(s, steps)
    ensures Closing(c, Exec(c, s, steps)) && !Hole(Exec(c, s, steps).sh.slots, Highest(c, Exec(c, s, steps)))
    decreases |steps|
  {
    if |steps| > 0 {
      UndisturbedOn(c, s, steps);
      ClosingStep(c, s, steps[0]);
      CalmStep(c, s, steps[0]);
      HighestFalls(c, s, steps[0]);
      NoHoleRun(c, Apply(c, s, steps[0]), steps[1..]);
    }
  }

  // With everybody gone nobody dozes.
  lemma {:induction false} NobodyDozes(workers: seq<Worker>)
    requires forall w :: 0 <= w < |workers| ==> workers[w].Gone()
    ensures Count(Dozing, workers) == 0
  {
    if |workers| > 0 {
      NobodyDozes(workers[..|workers| - 1]);
    }
  }

  // The join loop is the only place to get stuck, at an empty cell, with everybody gone.
  lemma StuckAtAHole(c: Config, s: State)
    requires Closing(c, s) && Stuck(c, s)
    ensures Hole(s.sh.slots, Highest(c, s))
  {
    if !s.adjuster.Stopped? {
      AdjusterCanGoOn(c, s);
      assert false;
    }
    assert !Enabled(c, s, JoinAdjuster) && !Enabled(c, s, Broadcast) && !Enabled(c, s, Reap);
    forall w | 0 <= w < |s.workers| ensures s.workers[w].Gone() {
      assert !Enabled(c, s, NextOf(s, w));
    }
    NobodyDozes(s.workers);
    assert s.sh.slots[s.destroyer.i].Empty?;
  }

  // This step brings destroy closer to its end and takes nothing from what live_thr_num can be.
  ghost predicate KeepsHigh(c: Config, s: State, step: Step)
    requires c.Ok()
  {
    && Enabled(c, s, step) && !step.LateAdd? && (OfPool(step) || step.SpuriousWorker?)
    && Highest(c, s) <= Highest(c, Apply(c, s, step))
  }

  // A shrink round that is due cuts an overlong wait_exit_thr_num down to ten.
  lemma AskForFewer(c: Config, s: State) returns (step: Step)
    requires Closing(c, s) && MayAsk(c, s.adjuster) && s.sh.waitExit > DEFAULT_THREAD_VARY
    ensures KeepsHigh(c, s, step)
  {
    if s.adjuster.SawQueue? && s.sh.busy > 0 {
      var u := CountGivesMember(InTask, s.workers);
      step := NextOf(s, u);
      MoveChangesNothing(c, s, step, step.w);
    } else {
      step := AdjusterNext(s);
      AdjusterCanGoOn(c, s);
      OthersLeaveTheRange(c, s, step);
      if s.sh.live > c.min {
        FewestStays(c, s);
      }
    }
  }

  lemma FewestStays(c: Config, s: State)
    requires Closing(c, s) && MayAsk(c, s.adjuster) && s.sh.waitExit > DEFAULT_THREAD_VARY
    requires s.sh.live > c.min && (s.adjuster.SawQueue? ==> s.sh.busy <= 0)
    requires Enabled(c, s, AdjusterNext(s))
    ensures FewestAsked(c, Apply(c, s, AdjusterNext(s))) == FewestAsked(c, s)
  {
  }

  // A worker on its way out retires only if it has to.
  lemma LeaveKeepsHigh(c: Config, s: State, w: nat) returns (step: Step)
    requires Closing(c, s) && !(MayAsk(c, s.adjuster) && s.sh.waitExit > DEFAULT_THREAD_VARY)
    requires w < |s.workers| && !s.workers[w].Gone()
    ensures KeepsHigh(c, s, step)
  {
    if s.workers[w].Waiting? {
      step := SpuriousWorker(w);
      MoveChangesNothing(c, s, step, step.w);
    } else {
      step := NextOf(s, w);
      if step.Pass? {
        PassLeaves(c, s, w);
      } else {
        MoveChangesNothing(c, s, step, step.w);
      }
    }
  }

  lemma TowardsTheHole(c: Config, s: State) returns (step: Step)
    requires Closing(c, s) && Hole(s.sh.slots, Highest(c, s)) && !Stuck(c, s)
    ensures KeepsHigh(c, s, step)
  {
    if MayAsk(c, s.adjuster) && s.sh.waitExit > DEFAULT_THREAD_VARY {
      step := AskForFewer(c, s);
    } else if !AllGone(s) {
      var w :| 0 <= w < |s.workers| && !s.workers[w].Gone();
      step := LeaveKeepsHigh(c, s, w);
    } else {
      NotFreedOverAHole(c, s);
      step :| OfPool(step) && Enabled(c, s, step);
      NobodyDozes(s.workers);
      OthersLeaveTheRange(c, s, step);
    }
  }

  lemma NotFreedOverAHole(c: Config, s: State)
    requires Closing(c, s) && Hole(s.sh.slots, Highest(c, s))
    ensures !s.destroyer.Freed?
  {
  }

  lemma HoleStays(c: Config, s: State, step: Step)
    requires Closing(c, s) && Hole(s.sh.slots, Highest(c, s)) && KeepsHigh(c, s, step)
    ensures Closing(c, Apply(c, s, step)) && Hole(Apply(c, s, step).sh.slots, Highest(c, Apply(c, s, step)))
    ensures 0 <= Remaining(c, s) && Remaining(c, Apply(c, s, step)) < Remaining(c, s)
  {
    ClosingStep(c, s, step);
    CalmStep(c, s, step);
  }

  /** From there some run gets stuck: everybody leaves, no more of them retiring than must, and
      the loop comes to the empty cell. */
  lemma {:induction false} GetStuck(c: Config, s: State) returns (steps: seq<Step>)
    requires Closing(c, s) && Hole(s.sh.slots, Highest(c, s))
    ensures Legal(c, s, steps) && NoLateStore(steps) && Stuck(c, Exec(c, s, steps))
    decreases Remaining(c, s)
  {
    if Stuck(c, s) {
      return [];
    }
    var step := TowardsTheHole(c, s);
    HoleStays(c, s, step);
    var rest := GetStuck(c, Apply(c, s, step));
    steps := [step] + rest;
    assert steps[1..] == rest;
  }

  /** Exactly when destroy cannot get stuck: no empty cell below everything live_thr_num can still
      be when everybody has left. */
  lemma NeverSticksIff(c: Config, s: State)
    requires Closing(c, s)
    ensures !Hole(s.sh.slots, Highest(c, s)) <==>
              forall steps :: Legal(c, s, steps) && Undisturbed(s, steps) ==> !Stuck(c, Exec(c, s, steps))
  {
    if Hole(s.sh.slots, Highest(c, s)) {
      var steps := GetStuck(c, s);
      assert Undisturbed(s, steps);
    } else {
      forall steps | Legal(c, s, steps) && Undisturbed(s, steps) ensures !Stuck(c, Exec(c, s, steps)) {
        NoHoleRun(c, s, steps);
        if Stuck(c, Exec(c, s, steps)) {
          StuckAtAHole(c, Exec(c, s, steps));
          assert false;
        }
      }
    }
  }
}
