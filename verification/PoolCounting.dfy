/**
 Counting the workers of a group, and collecting the tasks of the calls that have stored theirs;
 and how each change to the workers or to the calls changes that.
 */
module PoolCounting {
  import opened PoolModel
  import opened PoolMachine

  datatype Group = Awake | Dozing | OnBooks | InTask | Left | HolderOf(ticket: nat)

  // Awake workers hold no task and wait for nothing; Dozing ones are inside pthread_cond_wait,
  // woken or not; OnBooks ones count in live_thr_num and InTask ones in busy_thr_num.
  predicate In(group: Group, worker: Worker) {
    match group
    case Awake => worker.Ready? || worker.Woken?
    case Dozing => worker.Waiting? || worker.Woken?
    case OnBooks => !worker.Retired?
    case InTask => worker.Running? || worker.Returned?
    case Left => worker.Retired?
    case HolderOf(ticket) => worker.Holds() && worker.ticket == ticket
  }

  function One(b: bool): nat {
    if b then 1 else 0
  }

  function Count(group: Group, workers: seq<Worker>): nat {
    if |workers| == 0 then 0
    else Count(group, workers[..|workers| - 1]) + One(In(group, workers[|workers| - 1]))
  }

  lemma {:induction false} CountUpdate(group: Group, workers: seq<Worker>, w: nat, v: Worker)
    requires w < |workers|
    ensures Count(group, workers[w := v])
         == Count(group, workers) - One(In(group, workers[w])) + One(In(group, v))
  {
    var last := |workers| - 1;
    if w < last {
      CountUpdate(group, workers[..last], w, v);
      assert workers[w := v][..last] == workers[..last][w := v];
    } else {
      assert workers[w := v][..last] == workers[..last];
    }
  }

  lemma {:induction false} CountFresh(group: Group, workers: seq<Worker>, n: nat)
    ensures Count(group, workers + Fresh(n)) == Count(group, workers) + (if In(group, Ready) then n else 0)
    decreases n
  {
    var all := workers + Fresh(n);
    if n == 0 {
      assert all == workers;
    } else {
      assert all[..|all| - 1] == workers + Fresh(n - 1);
      CountFresh(group, workers, n - 1);
    }
  }

  lemma {:induction false} CountAllWoken(group: Group, workers: seq<Worker>)
    requires group != Awake
    ensures Count(group, AllWoken(workers)) == Count(group, workers)
  {
    if |workers| > 0 {
      var last := |workers| - 1;
      assert AllWoken(workers)[..last] == AllWoken(workers[..last]);
      CountAllWoken(group, workers[..last]);
    }
  }

  lemma {:induction false} CountSignalled(group: Group, workers: seq<Worker>, wake: nat)
    ensures Count(group, Signalled(workers, wake))
         == Count(group, workers) + One(group == Awake && Signalled(workers, wake) != workers)
  {
    if wake < |workers| && workers[wake].Waiting? {
      CountUpdate(group, workers, wake, Woken);
      assert Signalled(workers, wake)[wake] != workers[wake];
    }
  }

  // Busy workers are on the books, and retired ones are not.
  lemma {:induction false} CountSplit(workers: seq<Worker>)
    ensures Count(InTask, workers) <= Count(OnBooks, workers)
    ensures Count(OnBooks, workers) + Count(Left, workers) == |workers|
  {
    if |workers| > 0 {
      CountSplit(workers[..|workers| - 1]);
    }
  }

  lemma {:induction false} CountZero(group: Group, workers: seq<Worker>, w: nat)
    requires w < |workers| && In(group, workers[w])
    ensures Count(group, workers) > 0
  {
    var last := |workers| - 1;
    if w < last {
      CountZero(group, workers[..last], w);
    }
  }

  /** The tasks of the calls of threadpool_add that have stored theirs, one for each call. */
  function Stored(callers: seq<Caller>): multiset<Task> {
    if |callers| == 0 then multiset{}
    else Stored(callers[..|callers| - 1]) + StoredBy(callers[|callers| - 1])
  }

  function StoredBy(caller: Caller): multiset<Task> {
    if caller.Done? then multiset{caller.task} else multiset{}
  }

  lemma {:induction false} StoredUpdate(callers: seq<Caller>, p: nat, v: Caller)
    requires p < |callers| && !callers[p].Done?
    ensures Stored(callers[p := v]) == Stored(callers) + StoredBy(v)
  {
    var last := |callers| - 1;
    if p < last {
      StoredUpdate(callers[..last], p, v);
      assert callers[p := v][..last] == callers[..last][p := v];
    } else {
      assert callers[p := v][..last] == callers[..last];
    }
  }

  lemma {:induction false} StoredAllResumed(callers: seq<Caller>)
    ensures Stored(AllResumed(callers)) == Stored(callers)
  {
    if |callers| > 0 {
      var last := |callers| - 1;
      assert AllResumed(callers)[..last] == AllResumed(callers[..last]);
      StoredAllResumed(callers[..last]);
    }
  }

  lemma StoredCall(callers: seq<Caller>, task: Task)
    ensures Stored(callers + [Calling(task)]) == Stored(callers)
  {
    assert (callers + [Calling(task)])[..|callers|] == callers;
  }
}
