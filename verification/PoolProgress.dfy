/** What the pool achieves before shutdown: the tasks added to it get done. */
module PoolProgress {
  import opened PoolModel
  import opened PoolMachine
  import opened PoolCounting
  import opened PoolInvariants
  import opened PoolTheorems
  import opened PoolShutdown

  // How many steps of its own a worker takes before it waits again, if it finds no task.
  function Effort(worker: Worker): nat {
    if worker.Waiting? then 0 else Rank(worker)
  }

  function Efforts(workers: seq<Worker>): nat {
    if |workers| == 0 then 0 else Efforts(workers[..|workers| - 1]) + Effort(workers[|workers| - 1])
  }

  lemma {:induction false} EffortsUpdate(workers: seq<Worker>, w: nat, v: Worker)
    requires w < |workers|
    ensures Efforts(workers[w := v]) == Efforts(workers) - Effort(workers[w]) + Effort(v)
  {
    var last := |workers| - 1;
    if w < last {
      EffortsUpdate(workers[..last], w, v);
      assert workers[w := v][..last] == workers[..last][w := v];
    } else {
      assert workers[w := v][..last] == workers[..last];
    }
  }

  // The work in the pool: four steps for each queued task, and what the workers have under way.
  function Load(s: State): nat {
    4 * |s.sh.queue| + Efforts(s.workers)
  }

  predicate AllOfWorkers(steps: seq<Step>) {
    forall i :: 0 <= i < |steps| ==> steps[i].OfWorker()
  }

  /** Left to themselves, the workers do one unit of the load per step, so they come to rest. */
  lemma {:induction false} WorkersWorkOff(c: Config, s: State, steps: seq<Step>)
    requires c.Ok() && !s.sh.shutdown && Legal(c, s, steps) && AllOfWorkers(steps)
    ensures Load(Exec(c, s, steps)) + |steps| == Load(s)
    decreases |steps|
  {
    if |steps| > 0 {
      assert steps[0].OfWorker();
      WorkOffOne(c, s, steps[0]);
      WorkersWorkOff(c, Apply(c, s, steps[0]), steps[1..]);
    }
  }

  lemma WorkOffOne(c: Config, s: State, step: Step)
    requires c.Ok() && !s.sh.shutdown && Enabled(c, s, step) && step.OfWorker()
    ensures !Apply(c, s, step).sh.shutdown
    ensures Load(Apply(c, s, step)) + 1 == Load(s)
  {
    EffortsUpdate(s.workers, step.w, Apply(c, s, step).workers[step.w]);
  }

  ghost predicate WorkersAtRest(c: Config, s: State)
    requires c.Ok()
  {
    forall step: Step :: step.OfWorker() ==> !Enabled(c, s, step)
  }

  lemma {:induction false} CountNone(group: Group, workers: seq<Worker>)
    requires forall w :: 0 <= w < |workers| ==> !In(group, workers[w])
    ensures Count(group, workers) == 0
  {
    if |workers| > 0 {
      CountNone(group, workers[..|workers| - 1]);
    }
  }

  // The task of every call that has returned, once for each, has been finished exactly once, and
  // nobody waits to add another.
  ghost predicate AllFinished(s: State) {
    && s.sh.queue == [] && Stored(s.callers) == multiset(s.added)
    && (forall k: nat :: multiset(s.finished)[k] == if k < |s.added| then 1 else 0)
    && (forall p :: 0 <= p < |s.callers| ==> !s.callers[p].Blocked?)
  }

  /** When the workers have come to rest before shutdown, nobody counts as busy, and nothing is left
      to do exactly if no wake-up is missing; none is if nobody has retired with tasks queued. */
  lemma RestMeansFinished(c: Config, garbage: int, steps: seq<Step>)
    requires c.Ok() && Legal(c, Init(c, garbage), steps) && !Reached(c, garbage, steps).sh.shutdown
    requires Reached(c, garbage, steps).sh.live > 0 && WorkersAtRest(c, Reached(c, garbage, steps))
    ensures
      var s := Reached(c, garbage, steps);
      && s.sh.busy == 0
      && (AllFinished(s) <==> EnoughUp(s))
      && (s.hasty == 0 ==> EnoughUp(s))
  {
    var s := Reached(c, garbage, steps);
    ReachedInv(c, garbage, steps);
    forall w | 0 <= w < |s.workers| ensures s.workers[w].Waiting? || s.workers[w].Gone() {
      assert NextOf(s, w).OfWorker();
    }
    CountNone(InTask, s.workers);
    CountNone(Awake, s.workers);
    var w := CountGivesMember(OnBooks, s.workers);
    assert s.workers[w].Waiting?;
    forall k: nat ensures multiset(s.finished)[k] == if k < s.taken then 1 else 0 {
      CountNone(HolderOf(k), s.workers);
    }
  }
}
