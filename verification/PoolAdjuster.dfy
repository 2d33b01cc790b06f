/** What the adjuster decides in a round, and what a shrink round of an idle pool achieves. */
module PoolAdjuster {
  import opened PoolModel
  import opened PoolMachine
  import opened PoolCounting
  import opened PoolInvariants
  import opened PoolTheorems

  /* ------------------------------------------------------------------ its decisions */

  predicate OfAdjuster(step: Step) {
    step.TestShutdown? || step.SnapQueue? || step.SnapBusy? || step.Grow? || step.Shrink? || step.Signal?
  }

  predicate NoneOfAdjuster(steps: seq<Step>) {
    forall k :: 0 <= k < |steps| ==> !OfAdjuster(steps[k])
  }

  // The others leave the adjuster's snapshots alone.
  lemma {:induction false} SnapshotsStay(c: Config, s: State, steps: seq<Step>)
    requires c.Ok() && Legal(c, s, steps) && NoneOfAdjuster(steps)
    ensures Exec(c, s, steps).adjuster == s.adjuster
    decreases |steps|
  {
    if |steps| > 0 {
      assert !OfAdjuster(steps[0]);
      OthersLeaveAdjuster(c, s, steps[0]);
      SnapshotsStay(c, Apply(c, s, steps[0]), steps[1..]);
    }
  }

  lemma OthersLeaveAdjuster(c: Config, s: State, step: Step)
    requires c.Ok() && Enabled(c, s, step) && !OfAdjuster(step)
    ensures Apply(c, s, step).adjuster == s.adjuster
  {
  }

  // The adjuster's next step, taken after whatever the others did meanwhile.
  predicate Then(c: Config, s: State, others: seq<Step>, step: Step)
    requires c.Ok()
  {
    Legal(c, s, others) && NoneOfAdjuster(others) && Enabled(c, Exec(c, s, others), step)
  }

  /** A round of the adjuster, with the others running between its steps: s is the state of its
      first snapshot. It may create threads exactly if ten tasks were queued in s and
      live_thr_num was below the maximum there; otherwise it leaves the pool as it is. */
  lemma GrowthDecision(c: Config, s: State, a: seq<Step>, b: seq<Step>, dead: set<nat>)
    requires c.Ok() && Enabled(c, s, SnapQueue)
    requires Then(c, Apply(c, s, SnapQueue), a, SnapBusy)
    requires Then(c, Apply(c, Exec(c, Apply(c, s, SnapQueue), a), SnapBusy), b, Grow(dead))
    ensures
      var s2 := Exec(c, Apply(c, Exec(c, Apply(c, s, SnapQueue), a), SnapBusy), b);
      var s3 := Apply(c, s2, Grow(dead));
      if |s.sh.queue| >= 10 && s.sh.live < c.max
      then (s3.sh, s3.home) == (GrowRegion(c, s2.sh, dead, |s2.workers|).0,
                                s2.home + GrowRegion(c, s2.sh, dead, |s2.workers|).1)
      else s3.sh == s2.sh && s3.workers == s2.workers
  {
    SnapshotsStay(c, Apply(c, s, SnapQueue), a);
    SnapshotsStay(c, Apply(c, Exec(c, Apply(c, s, SnapQueue), a), SnapBusy), b);
  }

  /** And it asks ten workers to exit exactly if, of the live_thr_num it read first, more than twice
      the busy ones it read next, and more than the minimum, whatever has changed since. */
  lemma ShrinkDecision(c: Config, s: State, a: seq<Step>, b: seq<Step>, dead: set<nat>, d: seq<Step>)
    requires c.Ok() && Enabled(c, s, SnapQueue)
    requires Then(c, Apply(c, s, SnapQueue), a, SnapBusy)
    requires Then(c, Apply(c, Exec(c, Apply(c, s, SnapQueue), a), SnapBusy), b, Grow(dead))
    requires Then(c, Apply(c, Exec(c, Apply(c, Exec(c, Apply(c, s, SnapQueue), a), SnapBusy), b), Grow(dead)), d, Shrink)
    ensures
      var s1 := Exec(c, Apply(c, s, SnapQueue), a);
      var s3 := Apply(c, Exec(c, Apply(c, s1, SnapBusy), b), Grow(dead));
      var s4 := Exec(c, s3, d);
      var s5 := Apply(c, s4, Shrink);
      if s.sh.live > 2 * s1.sh.busy && s.sh.live > c.min
      then s5.sh == s4.sh.(waitExit := 10) && s5.adjuster == Signalling(10)
      else s5.sh == s4.sh && s5.adjuster == Testing
  {
    var s1 := Exec(c, Apply(c, s, SnapQueue), a);
    SnapshotsStay(c, Apply(c, s, SnapQueue), a);
    SecondHalf(c, s1, b, dead, d);
  }

  lemma SecondHalf(c: Config, s1: State, b: seq<Step>, dead: set<nat>, d: seq<Step>)
    requires c.Ok() && Enabled(c, s1, SnapBusy)
    requires Then(c, Apply(c, s1, SnapBusy), b, Grow(dead))
    requires Then(c, Apply(c, Exec(c, Apply(c, s1, SnapBusy), b), Grow(dead)), d, Shrink)
    ensures
      var s4 := Exec(c, Apply(c, Exec(c, Apply(c, s1, SnapBusy), b), Grow(dead)), d);
      var s5 := Apply(c, s4, Shrink);
      if s1.adjuster.liveThr > 2 * s1.sh.busy && s1.adjuster.liveThr > c.min
      then s5.sh == s4.sh.(waitExit := 10) && s5.adjuster == Signalling(10)
      else s5.sh == s4.sh && s5.adjuster == Testing
  {
    var s2 := Exec(c, Apply(c, s1, SnapBusy), b);
    SnapshotsStay(c, Apply(c, s1, SnapBusy), b);
    SnapshotsStay(c, Apply(c, s2, Grow(dead)), d);
  }

  /* ---------------------------------------------------------- a shrink round when idle */

  // Nothing to do: every worker still there is inside pthread_cond_wait, woken or not.
  predicate Idle(s: State) {
    && !s.sh.shutdown && s.sh.queue == []
    && forall w :: 0 <= w < |s.workers| ==> s.workers[w].Waiting? || s.workers[w].Woken? || s.workers[w].Retired?
  }

  predicate NobodyWoken(s: State) {
    forall w :: 0 <= w < |s.workers| ==> !s.workers[w].Woken?
  }

  // The signals of the shrink round, and the passes of the workers they wake.
  predicate OfRound(steps: seq<Step>) {
    forall k :: 0 <= k < |steps| ==> steps[k].Signal? || steps[k].Pass?
  }

  function SignalsSent(a: Adjuster): int {
    if a.Signalling? then 10 - a.left else 10
  }

  // Woken workers that have had their pass since the request.
  function Passed(s: State): int {
    10 - s.sh.waitExit
  }

  /** During the round, n workers having been there at its start: each pass so far has been a
      retirement while live_thr_num was above the minimum, and as many workers have been woken as
      signals were sent, or enough to reach the minimum. */
  ghost predicate Shrinking(c: Config, s: State, n: int) {
    && c.Ok() && Idle(s) && c.min <= s.sh.live == Count(OnBooks, s.workers)
    && (s.adjuster.Testing? || (s.adjuster.Signalling? && 0 < s.adjuster.left <= 10))
    && 0 <= Passed(s) && Passed(s) + Count(Awake, s.workers) <= SignalsSent(s.adjuster)
    && Min(SignalsSent(s.adjuster), n - c.min) <= Passed(s) + Count(Awake, s.workers)
    && s.sh.live == n - Min(Passed(s), n - c.min)
  }

  // With nobody waiting everybody on the books is awake.
  lemma {:induction false} AllAwake(workers: seq<Worker>)
    requires forall w :: 0 <= w < |workers| ==> workers[w].Woken? || workers[w].Retired?
    ensures Count(Awake, workers) == Count(OnBooks, workers)
  {
    if |workers| > 0 {
      AllAwake(workers[..|workers| - 1]);
    }
  }

  lemma SignalShrinks(c: Config, s: State, wake: nat, n: int)
    requires Shrinking(c, s, n) && Enabled(c, s, Signal(wake))
    ensures Shrinking(c, Apply(c, s, Signal(wake)), n)
  {
    CountAfter(c, s, Signal(wake), Awake);
    CountAfter(c, s, Signal(wake), OnBooks);
    if AnyWaiting(s.workers) {
      assert Signalled(s.workers, wake)[wake] != s.workers[wake];
    } else {
      AllAwake(s.workers);
    }
  }

  lemma PassShrinks(c: Config, s: State, w: nat, n: int)
    requires Shrinking(c, s, n) && Enabled(c, s, Pass(w))
    ensures Shrinking(c, Apply(c, s, Pass(w)), n)
  {
    CountAfter(c, s, Pass(w), Awake);
    CountAfter(c, s, Pass(w), OnBooks);
    CountZero(Awake, s.workers, w);
  }

  lemma {:induction false} RoundShrinks(c: Config, s: State, steps: seq<Step>, n: int)
    requires Shrinking(c, s, n) && Legal(c, s, steps) && OfRound(steps)
    ensures Shrinking(c, Exec(c, s, steps), n) && |Exec(c, s, steps).workers| == |s.workers|
    decreases |steps|
  {
    if |steps| > 0 {
      if steps[0].Signal? {
        SignalShrinks(c, s, steps[0].wake, n);
      } else {
        assert steps[0].Pass?;
        PassShrinks(c, s, steps[0].w, n);
      }
      RoundShrinks(c, Apply(c, s, steps[0]), steps[1..], n);
    }
  }

  lemma {:induction false} NobodyAwake(workers: seq<Worker>)
    requires forall w :: 0 <= w < |workers| ==> !In(Awake, workers[w])
    ensures Count(Awake, workers) == 0
  {
    if |workers| > 0 {
      NobodyAwake(workers[..|workers| - 1]);
    }
  }

  /** What a shrink round is for. If it starts when all workers are waiting for tasks and none come,
      then, once its signals are sent and the workers they woke have had the lock, ten workers
      have retired, or as many as there were above the minimum. */
  lemma ShrinkRound(c: Config, s: State, steps: seq<Step>)
    requires Inv(c, s) && Idle(s) && NobodyWoken(s)
    requires s.adjuster.Grown? && ShrinkTest(c, s.adjuster)
    requires Legal(c, Apply(c, s, Shrink), steps) && OfRound(steps)
    ensures
      var s' := Exec(c, Apply(c, s, Shrink), steps);
      s'.adjuster.Testing? && NobodyWoken(s') ==>
        && s'.sh.live == Max(c.min, s.sh.live - Min(10, s.sh.live))
        && Count(Left, s'.workers) - Count(Left, s.workers) == s.sh.live - s'.sh.live
  {
    var s1 := Apply(c, s, Shrink);
    RoundStarts(c, s);
    RoundShrinks(c, s1, steps, s.sh.live);
    RoundEnds(c, Exec(c, s1, steps), s.sh.live);
    CountSplit(s.workers);
  }

  lemma RoundStarts(c: Config, s: State)
    requires Inv(c, s) && Idle(s) && NobodyWoken(s) && s.adjuster.Grown? && ShrinkTest(c, s.adjuster)
    ensures Shrinking(c, Apply(c, s, Shrink), s.sh.live)
  {
    NobodyAwake(s.workers);
  }

  lemma RoundEnds(c: Config, s: State, n: int)
    requires Shrinking(c, s, n)
    ensures Count(Left, s.workers) == |s.workers| - s.sh.live
    ensures s.adjuster.Testing? && NobodyWoken(s) ==> s.sh.live == Max(c.min, n - Min(10, n))
  {
    CountSplit(s.workers);
    if NobodyWoken(s) {
      NobodyAwake(s.workers);
    }
  }

  /** Until then it can always go on. */
  lemma ShrinkRoundGoesOn(c: Config, s: State, n: int)
    requires Shrinking(c, s, n)
    ensures (s.adjuster.Testing? && NobodyWoken(s))
       <==> forall step: Step :: step.Signal? || step.Pass? ==> !Enabled(c, s, step)
  {
    if s.adjuster.Signalling? {
      var wake: nat := if AnyWaiting(s.workers) then var w :| 0 <= w < |s.workers| && s.workers[w].Waiting?; w else 0;
      assert Enabled(c, s, Signal(wake));
    }
    if !NobodyWoken(s) {
      var w :| 0 <= w < |s.workers| && s.workers[w].Woken?;
      assert Enabled(c, s, Pass(w));
    }
  }
}
