/**
 Two runs in which the promises of a tidy run fail: after a shrink round, and after a growth
 round that comes too late. Both use a pool of one to two workers with ten queue cells.
 */
module PoolCounterexamples {
  import opened PoolModel
  import opened PoolMachine
  import opened PoolTheorems

  const SMALL := Config(1, 2, 10)
  const JOB := Task(0, 0)

  lemma {:induction false} LegalSnoc(c: Config, s: State, steps: seq<Step>, step: Step)
    requires c.Ok() && Legal(c, s, steps) && Enabled(c, Exec(c, s, steps), step)
    ensures Legal(c, s, steps + [step])
    ensures Exec(c, s, steps + [step]) == Apply(c, Exec(c, s, steps), step)
    decreases |steps|
  {
    var more := steps + [step];
    if |steps| == 0 {
      assert more[1..] == [];
      assert Legal(c, Apply(c, s, step), []);
    } else {
      assert more[1..] == steps[1..] + [step];
      LegalSnoc(c, Apply(c, s, steps[0]), steps[1..], step);
    }
  }

  // One more step of a run of the small pool.
  lemma Then(steps: seq<Step>, step: Step) returns (more: seq<Step>)
    requires Legal(SMALL, Init(SMALL, 0), steps) && Enabled(SMALL, Reached(SMALL, 0, steps), step)
    ensures Legal(SMALL, Init(SMALL, 0), more)
    ensures Reached(SMALL, 0, more) == Apply(SMALL, Reached(SMALL, 0, steps), step)
  {
    more := steps + [step];
    LegalSnoc(SMALL, Init(SMALL, 0), steps, step);
  }

  // What the runs below look at.
  ghost predicate At(s: State, workers: seq<Worker>, queued: nat, waitExit: int, slots: seq<Slot>, adjuster: Adjuster)
  {
    && !s.sh.shutdown && s.destroyer.NotCalled?
    && s.workers == workers && |s.sh.queue| == queued
    && s.sh.live == |workers| && s.sh.busy == 0 && s.sh.waitExit == waitExit
    && s.sh.slots == slots && s.adjuster == adjuster
  }

  // A caller adds a task while nobody waits for one.
  lemma AddOne(steps: seq<Step>, workers: seq<Worker>, queued: nat, waitExit: int, slots: seq<Slot>,
               adjuster: Adjuster, wake: nat)
    returns (more: seq<Step>)
    requires Legal(SMALL, Init(SMALL, 0), steps)
    requires At(Reached(SMALL, 0, steps), workers, queued, waitExit, slots, adjuster)
    requires queued < 10 && CanSignal(workers, wake)
    ensures Legal(SMALL, Init(SMALL, 0), more)
    ensures At(Reached(SMALL, 0, more), Signalled(workers, wake), queued + 1, waitExit, slots, adjuster)
  {
    var called := Then(steps, Call(JOB));
    more := Then(called, Add(|Reached(SMALL, 0, steps).callers|, wake));
  }

  lemma {:induction false} FillTo(n: nat) returns (steps: seq<Step>)
    requires n <= 10
    ensures Legal(SMALL, Init(SMALL, 0), steps)
    ensures At(Reached(SMALL, 0, steps), [Ready], n, 0, [Tid(0), Empty], Testing)
  {
    if n == 0 {
      steps := [];
      assert Fresh(1) == [Ready];
    } else {
      steps := FillTo(n - 1);
      steps := AddOne(steps, [Ready], n - 1, 0, [Tid(0), Empty], Testing, 0);
    }
  }

  // The adjuster reads its two snapshots.
  lemma Snapshots(steps: seq<Step>, workers: seq<Worker>, queued: nat, waitExit: int, slots: seq<Slot>)
    returns (more: seq<Step>)
    requires Legal(SMALL, Init(SMALL, 0), steps)
    requires At(Reached(SMALL, 0, steps), workers, queued, waitExit, slots, Testing)
    ensures Legal(SMALL, Init(SMALL, 0), more)
    ensures At(Reached(SMALL, 0, more), workers, queued, waitExit, slots, SawBusy(queued, |workers|, 0))
  {
    more := Then(steps, TestShutdown);
    more := Then(more, SnapQueue);
    more := Then(more, SnapBusy);
  }

  lemma GrowToTwo() returns (steps: seq<Step>)
    ensures Legal(SMALL, Init(SMALL, 0), steps)
    ensures At(Reached(SMALL, 0, steps), [Ready, Ready], 10, 0, [Tid(0), Tid(1)], Testing)
  {
    var full := FillTo(10);
    var seen := Snapshots(full, [Ready], 10, 0, [Tid(0), Empty]);
    var slots := [Tid(0), Empty];
    ghost var g := Scan(SMALL, slots, {}, 1, 1, 0, 0);
    assert g == Scan(SMALL, slots, {}, 1, 1, 1, 0);
    assert Scan(SMALL, slots[1 := Tid(1)], {}, 2, 2, 2, 1).filled == [];
    assert g.filled == [1] && g.slots == [Tid(0), Tid(1)];
    var grown := Then(seen, Grow({}));
    assert [Ready] + Fresh(1) == [Ready, Ready];
    steps := Then(grown, Shrink);
  }

  // Worker 0 takes a task, runs and finishes it.
  lemma OneTask(steps: seq<Step>, queued: nat) returns (more: seq<Step>)
    requires Legal(SMALL, Init(SMALL, 0), steps) && queued > 0
    requires At(Reached(SMALL, 0, steps), [Ready, Ready], queued, 0, [Tid(0), Tid(1)], Testing)
    ensures Legal(SMALL, Init(SMALL, 0), more)
    ensures At(Reached(SMALL, 0, more), [Ready, Ready], queued - 1, 0, [Tid(0), Tid(1)], Testing)
  {
    var took := Then(steps, Pass(0));
    var runs := Then(took, Start(0));
    var back := Then(runs, Return(0));
    more := Then(back, End(0));
    assert Reached(SMALL, 0, more).workers == [Ready, Ready];
  }

  // It does so until n tasks are left.
  lemma {:induction false} DrainTo(n: nat) returns (steps: seq<Step>)
    requires n <= 10
    ensures Legal(SMALL, Init(SMALL, 0), steps)
    ensures At(Reached(SMALL, 0, steps), [Ready, Ready], n, 0, [Tid(0), Tid(1)], Testing)
    decreases 10 - n
  {
    if n == 10 {
      steps := GrowToTwo();
    } else {
      steps := DrainTo(n + 1);
      steps := OneTask(steps, n + 1);
    }
  }

  // The shrink round finds nobody waiting, so its ten signals are lost.
  lemma {:induction false} SignalInVain(left: nat) returns (steps: seq<Step>)
    requires 0 < left <= 10
    ensures Legal(SMALL, Init(SMALL, 0), steps)
    ensures At(Reached(SMALL, 0, steps), [Ready, Ready], 0, 10, [Tid(0), Tid(1)], Signalling(left))
    decreases 10 - left
  {
    if left == 10 {
      var idle := DrainTo(0);
      var seen := Snapshots(idle, [Ready, Ready], 0, 0, [Tid(0), Tid(1)]);
      var past := Then(seen, Grow({}));
      steps := Then(past, Shrink);
    } else {
      var before := SignalInVain(left + 1);
      steps := Then(before, Signal(0));
    }
  }

  /** Before shutdown a task is queued, one worker is there, and it is asleep. */
  ghost predicate Stranded(s: State) {
    && !s.sh.shutdown && s.destroyer.NotCalled?
    && |s.sh.queue| == 1 && s.sh.live == 1 && s.sh.busy == 0
    && s.workers == [Retired, Waiting]
    && s.sh.slots == [Tid(0), Tid(1)]
    && match s.adjuster
       case Testing => true
       case Sleeping => true
       case SawQueue(q, l) => q == 1 && l == 1
       case SawBusy(q, l, b) => q == 1 && l == 1
       case Grown(l, b) => l == 1
       case _ => false
  }

  lemma BothAsleep() returns (steps: seq<Step>)
    ensures Legal(SMALL, Init(SMALL, 0), steps)
    ensures At(Reached(SMALL, 0, steps), [Waiting, Waiting], 0, 10, [Tid(0), Tid(1)], Testing)
  {
    var signalled := SignalInVain(1);
    var done := Then(signalled, Signal(0));
    var one := Then(done, Pass(0));
    assert Reached(SMALL, 0, one).workers == [Waiting, Ready];
    steps := Then(one, Pass(1));
    assert Reached(SMALL, 0, steps).workers == [Waiting, Waiting];
  }

  /** A wake-up is lost: the shrink round leaves wait_exit_thr_num at ten although nobody was
      there to take its signals, and the next task's signal makes its receiver retire. */
  lemma WakeUpLostAfterShrinking() returns (steps: seq<Step>)
    ensures Legal(SMALL, Init(SMALL, 0), steps)
    ensures Stranded(Reached(SMALL, 0, steps))
  {
    var two := BothAsleep();
    assert [Waiting, Waiting][0].Waiting?;
    var added := AddOne(two, [Waiting, Waiting], 0, 10, [Tid(0), Tid(1)], Testing, 0);
    assert Signalled([Waiting, Waiting], 0) == [Woken, Waiting];
    steps := Then(added, Pass(0));
    assert Reached(SMALL, 0, steps).workers == [Retired, Waiting];
  }

  lemma StrandedStep(s: State, step: Step)
    requires Stranded(s) && Enabled(SMALL, s, step)
    requires !step.Call? && !step.Add? && !step.SpuriousWorker? && !step.Destroy?
    ensures Stranded(Apply(SMALL, s, step))
  {
  }

  /** Nothing inside the pool undoes it: however long the pool runs, without a new caller, a
      spurious wake-up or destroy the task stays where it is. */
  lemma {:induction false} StrandedForGood(s: State, steps: seq<Step>)
    requires Stranded(s) && Legal(SMALL, s, steps)
    requires forall i :: 0 <= i < |steps| ==>
               !steps[i].Call? && !steps[i].Add? && !steps[i].SpuriousWorker? && !steps[i].Destroy?
    ensures Stranded(Exec(SMALL, s, steps))
    decreases |steps|
  {
    if |steps| > 0 {
      StrandedStep(s, steps[0]);
      StrandedForGood(Apply(SMALL, s, steps[0]), steps[1..]);
    }
  }

  /** Destroy joins threads[0..live). After a retirement that can miss a worker: the pool is
      freed while worker 1 has yet to leave it. */
  lemma FreedWithAWorkerInside() returns (steps: seq<Step>)
    ensures Legal(SMALL, Init(SMALL, 0), steps)
    ensures
      var s := Reached(SMALL, 0, steps);
      s.destroyer.Freed? && |s.workers| == 2 && s.workers[1] == Woken
  {
    var sent := WorkerStillInside();
    var first := Then(sent, Reap);
    steps := Then(first, Reap);
  }

  lemma WorkerStillInside() returns (steps: seq<Step>)
    ensures Legal(SMALL, Init(SMALL, 0), steps)
    ensures Closing(Reached(SMALL, 0, steps), [Retired, Woken], 1, [Tid(0), Tid(1)], Stopped, Reaping(0))
  {
    var down := DestroyWhileStranded();
    var joined := Then(down, JoinAdjuster);
    var once := Then(joined, Broadcast);
    assert AllWoken([Retired, Waiting]) == [Retired, Woken];
    steps := Then(once, Broadcast);
  }

  lemma DestroyWhileStranded() returns (steps: seq<Step>)
    ensures Legal(SMALL, Init(SMALL, 0), steps)
    ensures Closing(Reached(SMALL, 0, steps), [Retired, Waiting], 1, [Tid(0), Tid(1)], Stopped, Joining)
  {
    var lost := WakeUpLostAfterShrinking();
    var calm := ToTesting(lost);
    var down := Then(calm, Destroy);
    steps := Then(down, TestShutdown);
  }

  // The adjuster's round ends where it began.
  lemma ToTesting(before: seq<Step>) returns (steps: seq<Step>)
    requires Legal(SMALL, Init(SMALL, 0), before) && Stranded(Reached(SMALL, 0, before))
    ensures Legal(SMALL, Init(SMALL, 0), steps) && Stranded(Reached(SMALL, 0, steps))
    ensures Reached(SMALL, 0, steps).adjuster.Testing?
  {
    steps := before;
    if Reached(SMALL, 0, steps).adjuster.Sleeping? {
      steps := Then(steps, SnapQueue);
    }
    if Reached(SMALL, 0, steps).adjuster.SawQueue? {
      steps := Then(steps, SnapBusy);
    }
    if Reached(SMALL, 0, steps).adjuster.SawBusy? {
      steps := Then(steps, Grow({}));
    }
    if Reached(SMALL, 0, steps).adjuster.Grown? {
      steps := Then(steps, Shrink);
    }
  }

  // Destroy is at work; the adjuster was slow to notice.
  ghost predicate Closing(s: State, workers: seq<Worker>, live: nat, slots: seq<Slot>,
                          adjuster: Adjuster, destroyer: Destroyer)
  {
    && s.sh.shutdown && s.workers == workers && s.sh.live == live && s.sh.slots == slots
    && s.adjuster == adjuster && s.destroyer == destroyer
  }

  // Shutdown falls between the adjuster's snapshots and its growth.
  lemma LeavesEarly() returns (steps: seq<Step>)
    ensures Legal(SMALL, Init(SMALL, 0), steps)
    ensures Closing(Reached(SMALL, 0, steps), [Exited], 1, [Tid(0), Empty], SawBusy(10, 1, 0), Joining)
  {
    var full := FillTo(10);
    var seen := Snapshots(full, [Ready], 10, 0, [Tid(0), Empty]);
    var down := Then(seen, Destroy);
    steps := Then(down, Pass(0));
    assert Reached(SMALL, 0, steps).workers == [Exited];
  }

  lemma GrowsLate() returns (steps: seq<Step>)
    ensures Legal(SMALL, Init(SMALL, 0), steps)
    ensures Closing(Reached(SMALL, 0, steps), [Exited, Ready], 2, [Tid(1), Empty], Stopped, Joining)
  {
    var left := LeavesEarly();
    var slots := [Tid(0), Empty];
    assert Scan(SMALL, slots[0 := Tid(1)], {0}, 2, 2, 1, 1).filled == [];
    assert Scan(SMALL, slots, {0}, 1, 1, 0, 0).filled == [0];
    var grown := Then(left, Grow({0}));
    assert Reached(SMALL, 0, grown).workers == [Exited] + Fresh(1) == [Exited, Ready];
    var past := Then(grown, Shrink);
    steps := Then(past, TestShutdown);
  }

  lemma BroadcastsAll() returns (steps: seq<Step>)
    ensures Legal(SMALL, Init(SMALL, 0), steps)
    ensures Closing(Reached(SMALL, 0, steps), [Exited, Ready], 2, [Tid(1), Empty], Stopped, Reaping(0))
  {
    var grown := GrowsLate();
    assert AllWoken([Exited, Ready]) == [Exited, Ready];
    var joined := Then(grown, JoinAdjuster);
    var once := Then(joined, Broadcast);
    var twice := Then(once, Broadcast);
    steps := Then(twice, Broadcast);
  }

  /** No shrink round runs here, but the pool grows after shutdown: the new worker takes the cell
      of one that has left, live_thr_num counts both, and destroy comes to join a cell that
      never held a thread, with every worker gone. */
  lemma LateGrowthJoinsAnEmptyCell() returns (steps: seq<Step>)
    ensures Legal(SMALL, Init(SMALL, 0), steps)
    ensures
      var s := Reached(SMALL, 0, steps);
      && s.destroyer == Reaping(1) && s.sh.live == 2 && s.sh.slots == [Tid(1), Empty]
      && s.workers == [Exited, Exited]
  {
    var sent := BroadcastsAll();
    var left := Then(sent, Pass(1));
    assert Reached(SMALL, 0, left).workers == [Exited, Exited];
    steps := Then(left, Reap);
  }
}
