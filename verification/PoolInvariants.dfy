/** What every step of the pool keeps. */
module PoolInvariants {
  import opened PoolModel
  import opened PoolMachine
  import opened PoolCounting

  // The three counters of the pool against the workers they count.
  ghost predicate Counters(c: Config, s: State) {
    && c.min <= s.sh.live <= c.max
    && s.sh.live == Count(OnBooks, s.workers)
    && s.sh.busy == Count(InTask, s.workers)
  }

  // Worker w's id stands in the cell it was created into.
  predicate Owns(s: State, w: nat) {
    w < |s.home| && s.home[w] < |s.sh.slots| && s.sh.slots[s.home[w]] == Tid(w)
  }

  // Every worker still there has one cell of `threads`, and no id stands in two cells.
  ghost predicate Cells(c: Config, s: State) {
    && |s.sh.slots| == c.max
    && |s.home| == |s.workers|
    && (forall w :: 0 <= w < |s.workers| && !s.workers[w].Gone() ==> Owns(s, w))
    && (forall i :: 0 <= i < c.max && s.sh.slots[i].Tid? ==>
          s.sh.slots[i].id < |s.workers| && s.home[s.sh.slots[i].id] == i)
  }

  // Until shutdown the queue is the part of the added tasks that nobody has taken yet.
  ghost predicate Fifo(c: Config, s: State) {
    && s.taken <= |s.added|
    && (!s.sh.shutdown ==> s.sh.queue == s.added[s.taken..] && |s.sh.queue| <= c.cap)
  }

  // Worker w's task is the one its ticket stands for.
  predicate HoldsItsTask(workers: seq<Worker>, added: seq<Task>, w: nat)
    requires w < |workers|
  {
    workers[w].Holds() ==> workers[w].ticket < |added| && workers[w].task == added[workers[w].ticket]
  }

  // Every ticket handed out is held by one worker or finished once, never both.
  ghost predicate Tickets(s: State) {
    && (forall k: nat :: Count(HolderOf(k), s.workers) + multiset(s.finished)[k] == One(k < s.taken))
    && (forall w :: 0 <= w < |s.workers| ==> HoldsItsTask(s.workers, s.added, w))
  }

  // While a worker waits, the queue is no longer than the awake idle workers, and one more for
  // each worker that retired although tasks were queued.
  ghost predicate WakeUps(s: State) {
    && s.hasty <= Count(Left, s.workers)
    && (!s.sh.shutdown && AnyWaiting(s.workers) ==>
          |s.sh.queue| <= Count(Awake, s.workers) + s.hasty)
  }

  ghost predicate CallersWaitOnlyWhenFull(c: Config, s: State) {
    !s.sh.shutdown ==>
      forall p :: 0 <= p < |s.callers| && s.callers[p].Blocked? ==> |s.sh.queue| == c.cap
  }

  // Until shutdown the tasks added are those of the calls that have stored theirs, no others and
  // none twice; later calls are not in the history.
  ghost predicate Calls(s: State) {
    && multiset(s.added) <= Stored(s.callers)
    && (!s.sh.shutdown ==> Stored(s.callers) == multiset(s.added))
  }

  // How far destroy has come fixes what the adjuster and the workers can still be doing.
  ghost predicate Phases(s: State) {
    && (s.destroyer.NotCalled? <==> !s.sh.shutdown)
    && (s.adjuster.Stopped? ==> s.sh.shutdown)
    && (!s.sh.shutdown ==> forall w :: 0 <= w < |s.workers| ==> !s.workers[w].Exited?)
    && (s.destroyer.Broadcasting? || s.destroyer.Reaping? || s.destroyer.Freed? ==> s.adjuster.Stopped?)
    && (PastBroadcast(s) ==> !AnyWaiting(s.workers))
  }

  // The loop counters of the adjuster and of destroy.
  ghost predicate Loops(c: Config, s: State) {
    && (s.adjuster.Signalling? ==> s.adjuster.left > 0)
    && (s.destroyer.Broadcasting? ==> s.destroyer.i <= c.max)
    && (s.destroyer.Reaping? ==> s.destroyer.i <= c.max)
  }

  // The first broadcast is over, or there was nobody left to broadcast to.
  predicate PastBroadcast(s: State) {
    (s.destroyer.Broadcasting? && s.destroyer.i > 0) || s.destroyer.Reaping? || s.destroyer.Freed?
  }

  // The first n cells hold the first n threads, and no other cell was ever used.
  predicate FilledTo(slots: seq<Slot>, n: nat) {
    forall i :: 0 <= i < |slots| ==> slots[i] == if i < n then Tid(i) else Empty
  }

  // Nobody has retired: the workers stand in threads[0..live) in the order of their creation.
  ghost predicate InOrder(c: Config, s: State) {
    && |s.sh.slots| == c.max
    && (forall w :: 0 <= w < |s.workers| ==> !s.workers[w].Retired?)
    && s.sh.live == |s.workers| <= c.max
    && FilledTo(s.sh.slots, |s.workers|)
  }

  // The threads of the first n cells have been joined.
  predicate Joined(s: State, n: int) {
    && n <= |s.sh.slots|
    && forall i :: 0 <= i < n ==>
         s.sh.slots[i].Tid? && s.sh.slots[i].id < |s.workers| && s.workers[s.sh.slots[i].id].Gone()
  }

  // What the loop over pthread_join has done.
  predicate Reaped(s: State) {
    && (s.destroyer.Reaping? ==> Joined(s, s.destroyer.i))
    && (s.destroyer.Freed? ==> Joined(s, s.sh.live))
  }

  ghost predicate Inv(c: Config, s: State) {
    && c.Ok()
    && Counters(c, s)
    && Cells(c, s)
    && Fifo(c, s)
    && Tickets(s)
    && WakeUps(s)
    && CallersWaitOnlyWhenFull(c, s)
    && Calls(s)
    && Phases(s)
    && Loops(c, s)
    && Reaped(s)
    && (s.tidy ==> InOrder(c, s))
  }

  lemma CountInit(group: Group, n: nat)
    ensures Count(group, Fresh(n)) == if In(group, Ready) then n else 0
  {
    CountFresh(group, [], n);
    assert [] + Fresh(n) == Fresh(n);
  }

  lemma InvInit(c: Config, garbage: int)
    requires c.Ok()
    ensures Inv(c, Init(c, garbage))
  {
    var s := Init(c, garbage);
    CountInit(OnBooks, c.min);
    CountInit(InTask, c.min);
    forall k: nat ensures Count(HolderOf(k), s.workers) + multiset(s.finished)[k] == One(k < s.taken) {
      CountInit(HolderOf(k), c.min);
    }
    assert s.added[0..] == [];
  }

  /* ------------------------------------------------------------- one lemma per part */

  /** How a step changes the number of workers in a group. */
  lemma CountAfter(c: Config, s: State, step: Step, group: Group)
    requires c.Ok() && Enabled(c, s, step)
    ensures
      var ws, ws' := s.workers, Apply(c, s, step).workers;
      Count(group, ws') - Count(group, ws) ==
        if step.MovesOne() then One(In(group, ws'[step.w])) - One(In(group, ws[step.w]))
        else if step.MaySignal() then One(group == Awake && ws' != ws)
        else if step.Grow? && In(group, Ready) then |ws'| - |ws|
        else if step.Broadcast? && group == Awake then Count(group, ws') - Count(group, ws)
        else 0
  {
    var ws, ws' := s.workers, Apply(c, s, step).workers;
    if step.MovesOne() {
      CountUpdate(group, ws, step.w, ws'[step.w]);
    } else if step.MaySignal() {
      CountSignalled(group, ws, step.wake);
    } else if step.Grow? {
      CountGrown(c, s, step.dead, group);
    } else if step.Broadcast? && group != Awake {
      CountAllWoken(group, ws);
    }
  }

  lemma CountGrown(c: Config, s: State, dead: set<nat>, group: Group)
    requires c.Ok() && Enabled(c, s, Grow(dead))
    ensures
      var ws, ws' := s.workers, Apply(c, s, Grow(dead)).workers;
      Count(group, ws') - Count(group, ws) == if In(group, Ready) then |ws'| - |ws| else 0
  {
    if Apply(c, s, Grow(dead)).workers != s.workers {
      CountFresh(group, s.workers, |GrowRegion(c, s.sh, dead, |s.workers|).1|);
    }
  }

  lemma CountersKept(c: Config, s: State, step: Step)
    requires c.Ok() && Counters(c, s) && Enabled(c, s, step)
    ensures Counters(c, Apply(c, s, step))
  {
    LiveKept(c, s, step);
    BusyKept(c, s, step);
  }

  lemma LiveKept(c: Config, s: State, step: Step)
    requires c.Ok() && c.min <= s.sh.live <= c.max && Enabled(c, s, step)
    requires s.sh.live == Count(OnBooks, s.workers)
    ensures
      var s' := Apply(c, s, step);
      c.min <= s'.sh.live <= c.max && s'.sh.live == Count(OnBooks, s'.workers)
  {
    CountAfter(c, s, step, OnBooks);
    if step.Grow? {
      GrowCountsItsWorkers(c, s, step.dead);
    } else if step.Pass? {
      PassCountsLive(c, s, step.w);
    } else {
      OthersLeaveLive(c, s, step);
    }
  }

  lemma GrowCountsItsWorkers(c: Config, s: State, dead: set<nat>)
    requires c.Ok() && s.sh.live <= c.max && Enabled(c, s, Grow(dead))
    ensures
      var s' := Apply(c, s, Grow(dead));
      s'.sh.live <= c.max && s'.sh.live - s.sh.live == |s'.workers| - |s.workers| >= 0
  {
    ScanSpec(c, s.sh.slots, dead, s.sh.live, |s.workers|, 0, 0);
  }

  // Only a worker that retires leaves the books, and only above the minimum.
  lemma PassCountsLive(c: Config, s: State, w: nat)
    requires c.Ok() && c.min <= s.sh.live && Enabled(c, s, Pass(w))
    ensures
      var s' := Apply(c, s, Pass(w));
      && c.min <= s'.sh.live
      && s'.sh.live - s.sh.live == One(In(OnBooks, s'.workers[w])) - One(In(OnBooks, s.workers[w])) <= 0
  {
  }

  lemma OthersLeaveLive(c: Config, s: State, step: Step)
    requires c.Ok() && Enabled(c, s, step) && !step.Pass? && !step.Grow?
    ensures Apply(c, s, step).sh.live == s.sh.live
    ensures step.MovesOne() ==>
              In(OnBooks, Apply(c, s, step).workers[step.w]) && In(OnBooks, s.workers[step.w])
  {
  }

  lemma BusyKept(c: Config, s: State, step: Step)
    requires c.Ok() && Enabled(c, s, step)
    requires s.sh.busy == Count(InTask, s.workers)
    ensures Apply(c, s, step).sh.busy == Count(InTask, Apply(c, s, step).workers)
  {
    CountAfter(c, s, step, InTask);
    if step.MovesOne() {
      MoveCountsBusy(c, s, step);
    } else {
      OthersLeaveBusy(c, s, step);
    }
  }

  lemma MoveCountsBusy(c: Config, s: State, step: Step)
    requires c.Ok() && Enabled(c, s, step) && step.MovesOne()
    ensures
      var s' := Apply(c, s, step);
      s'.sh.busy - s.sh.busy == One(In(InTask, s'.workers[step.w])) - One(In(InTask, s.workers[step.w]))
  {
    if step.Pass? {
      PassLeavesBusy(c, s, step.w);
    }
  }

  lemma PassLeavesBusy(c: Config, s: State, w: nat)
    requires c.Ok() && Enabled(c, s, Pass(w))
    ensures
      var s' := Apply(c, s, Pass(w));
      s'.sh.busy == s.sh.busy && !In(InTask, s'.workers[w]) && !In(InTask, s.workers[w])
  {
  }

  lemma OthersLeaveBusy(c: Config, s: State, step: Step)
    requires c.Ok() && Enabled(c, s, step) && !step.MovesOne()
    ensures Apply(c, s, step).sh.busy == s.sh.busy
  {
  }

  // Growth apart, steps leave the cells alone and no worker comes back.
  lemma WorkersOnlyLeave(c: Config, s: State, step: Step)
    requires c.Ok() && Enabled(c, s, step) && !step.Grow?
    ensures
      var s' := Apply(c, s, step);
      && s'.sh.slots == s.sh.slots && s'.home == s.home && |s'.workers| == |s.workers|
      && forall w :: 0 <= w < |s.workers| && s.workers[w].Gone() ==> s'.workers[w] == s.workers[w]
  {
    if step.Pass? {
      PassOnlyLeaves(c, s, step.w);
    }
  }

  lemma PassOnlyLeaves(c: Config, s: State, w: nat)
    requires c.Ok() && Enabled(c, s, Pass(w))
    ensures
      var s' := Apply(c, s, Pass(w));
      && s'.sh.slots == s.sh.slots && s'.home == s.home && |s'.workers| == |s.workers|
      && forall v :: 0 <= v < |s.workers| && s.workers[v].Gone() ==> s'.workers[v] == s.workers[v]
  {
  }

  lemma CellsKept(c: Config, s: State, step: Step)
    requires c.Ok() && Counters(c, s) && Cells(c, s) && Enabled(c, s, step)
    ensures Cells(c, Apply(c, s, step))
  {
    if step.Grow? {
      CellsGrow(c, s, step.dead);
    } else {
      WorkersOnlyLeave(c, s, step);
    }
  }

  // Growth writes only cells that no worker still there occupies.
  lemma CellsGrow(c: Config, s: State, dead: set<nat>)
    requires c.Ok() && s.sh.live <= c.max && Cells(c, s) && Enabled(c, s, Grow(dead))
    ensures Cells(c, Apply(c, s, Grow(dead)))
    ensures forall w :: 0 <= w < |s.workers| && !s.workers[w].Gone() ==>
              Apply(c, s, Grow(dead)).sh.slots[s.home[w]] == Tid(w)
  {
    assert forall w :: 0 <= w < |s.workers| && !s.workers[w].Gone() ==> Owns(s, w);
    var g := Scan(c, s.sh.slots, dead, s.sh.live, |s.workers|, 0, 0);
    CellsScan(c, s.sh.slots, s.home, dead, s.sh.live);
    forall w | 0 <= w < |s.workers| && !s.workers[w].Gone()
      ensures g.slots[s.home[w]] == Tid(w)
    {
      assert w !in dead;
    }
  }

  lemma CellsScan(c: Config, slots: seq<Slot>, home: seq<nat>, dead: set<nat>, live: int)
    requires |slots| == c.max && live <= c.max
    requires forall i :: 0 <= i < c.max && slots[i].Tid? ==> slots[i].id < |home| && home[slots[i].id] == i
    ensures
      var g := Scan(c, slots, dead, live, |home|, 0, 0);
      var home' := home + g.filled;
      && (forall i :: 0 <= i < c.max && g.slots[i].Tid? ==>
            g.slots[i].id < |home'| && home'[g.slots[i].id] == i)
      && (forall i :: 0 <= i < c.max && slots[i].Tid? && slots[i].id !in dead ==> g.slots[i] == slots[i])
      && (forall w :: |home| <= w < |home'| ==> home'[w] < c.max && g.slots[home'[w]] == Tid(w))
  {
    var g := Scan(c, slots, dead, live, |home|, 0, 0);
    forall i | 0 <= i < c.max
      ensures g.slots[i].Tid? ==>
                g.slots[i].id < |home| + |g.filled| && (home + g.filled)[g.slots[i].id] == i
      ensures slots[i].Tid? && slots[i].id !in dead ==> g.slots[i] == slots[i]
    {
      ScanAt(c, slots, dead, live, |home|, i);
      if i in g.filled {
        var k :| 0 <= k < |g.filled| && g.filled[k] == i && g.slots[i] == Tid(|home| + k);
      }
    }
    forall w | |home| <= w < |home| + |g.filled|
      ensures (home + g.filled)[w] < c.max && g.slots[(home + g.filled)[w]] == Tid(w)
    {
      ScanSpec(c, slots, dead, live, |home|, 0, 0);
      assert (home + g.filled)[w] == g.filled[w - |home|];
    }
  }

  // Cell i after a growth round: a new worker in a reusable cell, or what it held before.
  lemma ScanAt(c: Config, slots: seq<Slot>, dead: set<nat>, live: int, next: nat, i: nat)
    requires |slots| == c.max && live <= c.max && i < c.max
    ensures
      var g := Scan(c, slots, dead, live, next, 0, 0);
      if i in g.filled
      then Reusable(slots[i], dead) &&
           exists k :: 0 <= k < |g.filled| && g.filled[k] == i && g.slots[i] == Tid(next + k)
      else g.slots[i] == slots[i]
  {
    ScanSpec(c, slots, dead, live, next, 0, 0);
    var g := Scan(c, slots, dead, live, next, 0, 0);
    if i in g.filled {
      var k :| 0 <= k < |g.filled| && g.filled[k] == i;
      assert g.slots[g.filled[k]] == Tid(next + k);
    }
  }

  lemma FifoKept(c: Config, s: State, step: Step)
    requires c.Ok() && Fifo(c, s) && Enabled(c, s, step)
    ensures Fifo(c, Apply(c, s, step))
  {
    if step.Pass? {
      FifoOfPass(c, s, step.w);
    } else if step.Add? {
      FifoOfAdd(c, s, step);
    } else {
      OthersLeaveFifo(c, s, step);
    }
  }

  lemma FifoOfPass(c: Config, s: State, w: nat)
    requires c.Ok() && Fifo(c, s) && Enabled(c, s, Pass(w))
    ensures Fifo(c, Apply(c, s, Pass(w)))
  {
  }

  lemma FifoOfAdd(c: Config, s: State, step: Step)
    requires c.Ok() && Fifo(c, s) && Enabled(c, s, step) && step.Add?
    ensures Fifo(c, Apply(c, s, step))
  {
  }

  lemma OthersLeaveFifo(c: Config, s: State, step: Step)
    requires c.Ok() && Enabled(c, s, step) && !step.Pass? && !step.Add?
    ensures
      var s' := Apply(c, s, step);
      && s'.taken == s.taken && s'.added == s.added
      && (s'.sh.shutdown || (!s.sh.shutdown && s'.sh.queue == s.sh.queue))
  {
  }

  lemma TicketsKept(c: Config, s: State, step: Step)
    requires c.Ok() && Tickets(s) && Fifo(c, s) && Phases(s) && Enabled(c, s, step)
    ensures Tickets(Apply(c, s, step))
  {
    var s' := Apply(c, s, step);
    forall k: nat ensures Count(HolderOf(k), s'.workers) + multiset(s'.finished)[k] == One(k < s'.taken) {
      TicketKept(c, s, step, k);
    }
    HeldTasksKept(c, s, step);
  }

  lemma TicketKept(c: Config, s: State, step: Step, k: nat)
    requires c.Ok() && Enabled(c, s, step)
    requires Count(HolderOf(k), s.workers) + multiset(s.finished)[k] == One(k < s.taken)
    ensures
      var s' := Apply(c, s, step);
      Count(HolderOf(k), s'.workers) + multiset(s'.finished)[k] == One(k < s'.taken)
  {
    CountAfter(c, s, step, HolderOf(k));
    if step.MovesOne() {
      HolderMoves(c, s, step, k);
    } else {
      assert Apply(c, s, step).finished == s.finished && Apply(c, s, step).taken == s.taken;
    }
  }

  // A worker's own step keeps its ticket, but for taking the next one and for finishing it.
  lemma HolderMoves(c: Config, s: State, step: Step, k: nat)
    requires c.Ok() && Enabled(c, s, step) && step.MovesOne()
    ensures
      var s' := Apply(c, s, step);
      && One(In(HolderOf(k), s'.workers[step.w])) + multiset(s'.finished)[k] + One(k < s.taken)
           == One(In(HolderOf(k), s.workers[step.w])) + multiset(s.finished)[k] + One(k < s'.taken)
  {
    if step.Pass? {
      HolderTakes(c, s, step.w, k);
    } else if step.End? {
      assert multiset(s.finished + [s.workers[step.w].ticket])[k]
          == multiset(s.finished)[k] + multiset([s.workers[step.w].ticket])[k];
    }
  }

  // Nobody at the lock holds a ticket; who takes a task gets the next one.
  lemma HolderTakes(c: Config, s: State, w: nat, k: nat)
    requires c.Ok() && Enabled(c, s, Pass(w))
    ensures
      var s' := Apply(c, s, Pass(w));
      && s'.finished == s.finished && !In(HolderOf(k), s.workers[w])
      && One(In(HolderOf(k), s'.workers[w])) == One(k < s'.taken) - One(k < s.taken)
  {
  }

  lemma HeldTasksKept(c: Config, s: State, step: Step)
    requires c.Ok() && Fifo(c, s) && Enabled(c, s, step)
    requires forall w :: 0 <= w < |s.workers| ==> HoldsItsTask(s.workers, s.added, w)
    ensures forall w :: 0 <= w < |Apply(c, s, step).workers| ==>
              HoldsItsTask(Apply(c, s, step).workers, Apply(c, s, step).added, w)
  {
    var s' := Apply(c, s, step);
    forall w | 0 <= w < |s'.workers| ensures HoldsItsTask(s'.workers, s'.added, w) {
      if step.MovesOne() {
        MoveHoldsItsTask(c, s, step, w);
      } else {
        OthersHoldTheirTasks(c, s, step, w);
      }
    }
  }

  lemma MoveHoldsItsTask(c: Config, s: State, step: Step, w: nat)
    requires c.Ok() && Fifo(c, s) && Enabled(c, s, step) && step.MovesOne()
    requires w < |s.workers| && HoldsItsTask(s.workers, s.added, w)
    ensures w < |Apply(c, s, step).workers|
    ensures HoldsItsTask(Apply(c, s, step).workers, Apply(c, s, step).added, w)
  {
    if step.Pass? && step.w == w {
      assert |s.sh.queue| > 0 && !s.sh.shutdown ==> s.sh.queue[0] == s.added[s.taken];
    }
  }

  lemma OthersHoldTheirTasks(c: Config, s: State, step: Step, w: nat)
    requires c.Ok() && Enabled(c, s, step) && !step.MovesOne() && w < |Apply(c, s, step).workers|
    requires w < |s.workers| ==> HoldsItsTask(s.workers, s.added, w)
    ensures HoldsItsTask(Apply(c, s, step).workers, Apply(c, s, step).added, w)
  {
  }

  lemma WakeUpsKept(c: Config, s: State, step: Step)
    requires c.Ok() && WakeUps(s) && Phases(s) && Enabled(c, s, step)
    ensures WakeUps(Apply(c, s, step))
  {
    if step.Pass? {
      WakeUpsOfPass(c, s, step.w);
    } else {
      WakeUpsOfOthers(c, s, step);
    }
  }

  lemma WakeUpsOfPass(c: Config, s: State, w: nat)
    requires c.Ok() && WakeUps(s) && Enabled(c, s, Pass(w))
    ensures WakeUps(Apply(c, s, Pass(w)))
  {
    var s' := Apply(c, s, Pass(w));
    CountUpdate(Awake, s.workers, w, s'.workers[w]);
    CountUpdate(Left, s.workers, w, s'.workers[w]);
    StillWaiting(s.workers, w, s'.workers[w]);
  }

  lemma WakeUpsOfOthers(c: Config, s: State, step: Step)
    requires c.Ok() && WakeUps(s) && Phases(s) && Enabled(c, s, step) && !step.Pass?
    ensures WakeUps(Apply(c, s, step))
  {
    CountAfter(c, s, step, Awake);
    CountAfter(c, s, step, Left);
    OthersAddLittle(c, s, step);
  }

  // Only an added task makes the queue longer, and it wakes somebody if anybody waits.
  lemma OthersAddLittle(c: Config, s: State, step: Step)
    requires c.Ok() && Phases(s) && Enabled(c, s, step) && !step.Pass?
    ensures
      var s' := Apply(c, s, step);
      && s'.hasty == s.hasty
      && (!s'.sh.shutdown ==> !s.sh.shutdown && !step.Broadcast?)
      && (!s'.sh.shutdown && AnyWaiting(s'.workers) ==>
            AnyWaiting(s.workers) && |s'.sh.queue| <= |s.sh.queue| + One(step.MaySignal() && s'.workers != s.workers))
      && (step.MovesOne() ==>
            One(In(Awake, s'.workers[step.w])) >= One(In(Awake, s.workers[step.w])) &&
            In(Left, s'.workers[step.w]) == In(Left, s.workers[step.w]))
  {
    if step.MovesOne() {
      StillWaiting(s.workers, step.w, Apply(c, s, step).workers[step.w]);
    } else if step.MaySignal() && CanSignal(s.workers, step.wake) {
      SignalledWaiting(s.workers, step.wake);
    }
  }

  lemma StillWaiting(workers: seq<Worker>, w: nat, v: Worker)
    requires w < |workers|
    ensures AnyWaiting(workers[w := v]) && !v.Waiting? ==> AnyWaiting(workers)
  {
  }

  lemma SignalledWaiting(workers: seq<Worker>, wake: nat)
    requires CanSignal(workers, wake)
    ensures AnyWaiting(Signalled(workers, wake)) ==> AnyWaiting(workers) && Signalled(workers, wake) != workers
  {
    if AnyWaiting(workers) {
      assert Signalled(workers, wake)[wake] != workers[wake];
    }
  }

  lemma CallersKept(c: Config, s: State, step: Step)
    requires c.Ok() && CallersWaitOnlyWhenFull(c, s) && Fifo(c, s) && Enabled(c, s, step)
    ensures CallersWaitOnlyWhenFull(c, Apply(c, s, step))
  {
  }

  lemma CallsKept(c: Config, s: State, step: Step)
    requires c.Ok() && Calls(s) && Enabled(c, s, step)
    ensures Calls(Apply(c, s, step))
  {
    var s' := Apply(c, s, step);
    if step.Call? {
      StoredCall(s.callers, step.task);
    } else if step.Add? || step.LateAdd? || step.SpuriousCaller? {
      StoredUpdate(s.callers, step.p, s'.callers[step.p]);
      AddHistory(c, s, step);
    } else {
      OthersStoreNothing(c, s, step);
      StoredAllResumed(s.callers);
    }
  }

  lemma AddHistory(c: Config, s: State, step: Step)
    requires c.Ok() && Enabled(c, s, step) && (step.Add? || step.LateAdd? || step.SpuriousCaller?)
    ensures
      var s' := Apply(c, s, step);
      && s'.callers == s.callers[step.p := s'.callers[step.p]]
      && (step.Add? ==> multiset(s'.added) == multiset(s.added) + StoredBy(s'.callers[step.p]))
      && (!step.Add? ==> s'.added == s.added)
      && (step.SpuriousCaller? ==> StoredBy(s'.callers[step.p]) == multiset{})
      && (s'.sh.shutdown <==> s.sh.shutdown) && (step.LateAdd? ==> s.sh.shutdown)
  {
  }

  lemma OthersStoreNothing(c: Config, s: State, step: Step)
    requires c.Ok() && Enabled(c, s, step)
    requires !step.Call? && !step.Add? && !step.LateAdd? && !step.SpuriousCaller?
    ensures
      var s' := Apply(c, s, step);
      && (s'.callers == s.callers || s'.callers == AllResumed(s.callers)) && s'.added == s.added
      && (s.sh.shutdown ==> s'.sh.shutdown)
  {
  }

  lemma PhasesKept(c: Config, s: State, step: Step)
    requires c.Ok() && Phases(s) && Counters(c, s) && Enabled(c, s, step)
    ensures Phases(Apply(c, s, step))
  {
    if step.MovesOne() {
      PhasesOfMove(c, s, step);
    } else if step.Broadcast? {
      PhasesOfBroadcast(c, s);
    } else {
      PhasesOfRest(c, s, step);
    }
  }

  lemma PhasesOfMove(c: Config, s: State, step: Step)
    requires c.Ok() && Phases(s) && Enabled(c, s, step) && step.MovesOne()
    ensures Phases(Apply(c, s, step))
  {
    StillWaiting(s.workers, step.w, Apply(c, s, step).workers[step.w]);
  }

  // If no broadcast is sent there is nobody to wake.
  lemma PhasesOfBroadcast(c: Config, s: State)
    requires c.Ok() && Phases(s) && Counters(c, s) && Enabled(c, s, Broadcast)
    ensures Phases(Apply(c, s, Broadcast))
  {
    if s.destroyer.i == 0 && s.sh.live == 0 && AnyWaiting(s.workers) {
      var w :| 0 <= w < |s.workers| && s.workers[w].Waiting?;
      CountZero(OnBooks, s.workers, w);
      assert false;
    }
  }

  lemma PhasesOfRest(c: Config, s: State, step: Step)
    requires c.Ok() && Phases(s) && Enabled(c, s, step) && !step.MovesOne() && !step.Broadcast?
    ensures Phases(Apply(c, s, step))
  {
  }

  lemma LoopsKept(c: Config, s: State, step: Step)
    requires c.Ok() && Loops(c, s) && s.sh.live <= c.max && Enabled(c, s, step)
    ensures Loops(c, Apply(c, s, step))
  {
  }

  lemma ReapedKept(c: Config, s: State, step: Step)
    requires c.Ok() && Reaped(s) && Phases(s) && Enabled(c, s, step)
    ensures Reaped(Apply(c, s, step))
  {
    if step.Reap? {
      ReapJoins(c, s);
    } else if (s.destroyer.Reaping? || s.destroyer.Freed?) && !step.Grow? {
      JoinedStays(c, s, step, if s.destroyer.Reaping? then s.destroyer.i else s.sh.live);
    }
  }

  lemma ReapJoins(c: Config, s: State)
    requires c.Ok() && Reaped(s) && Enabled(c, s, Reap)
    ensures Reaped(Apply(c, s, Reap))
  {
  }

  lemma JoinedStays(c: Config, s: State, step: Step, n: int)
    requires c.Ok() && Joined(s, n) && Enabled(c, s, step) && !step.Grow? && !step.Reap?
    requires s.destroyer.Reaping? || s.destroyer.Freed?
    ensures
      var s' := Apply(c, s, step);
      Joined(s', n) && s'.destroyer == s.destroyer && s'.sh.live <= s.sh.live
  {
    WorkersOnlyLeave(c, s, step);
  }

  lemma InOrderKept(c: Config, s: State, step: Step)
    requires c.Ok() && s.tidy && InOrder(c, s) && Phases(s) && Enabled(c, s, step)
    requires Apply(c, s, step).tidy
    ensures InOrder(c, Apply(c, s, step))
  {
    if step.Grow? {
      InOrderGrow(c, s, step.dead);
    } else {
      WorkersOnlyLeave(c, s, step);
      NobodyRetires(c, s, step);
    }
  }

  lemma NobodyRetires(c: Config, s: State, step: Step)
    requires c.Ok() && Enabled(c, s, step) && !step.Grow? && Apply(c, s, step).tidy
    ensures
      var s' := Apply(c, s, step);
      && s'.sh.live == s.sh.live && |s'.workers| == |s.workers|
      && forall w :: 0 <= w < |s.workers| && s'.workers[w].Retired? ==> s.workers[w].Retired?
  {
  }

  // With no gaps in `threads`, growth fills the cells right after the last worker.
  lemma InOrderGrow(c: Config, s: State, dead: set<nat>)
    requires c.Ok() && s.tidy && InOrder(c, s) && Phases(s) && Enabled(c, s, Grow(dead))
    requires Apply(c, s, Grow(dead)).tidy
    ensures InOrder(c, Apply(c, s, Grow(dead)))
  {
    if !s.sh.shutdown {
      assert dead == {};
      ScanFillsInOrder(c, s.sh.slots, |s.workers|, 0, 0);
    }
  }

  lemma {:induction false} ScanFillsInOrder(c: Config, slots: seq<Slot>, n: nat, i: nat, add: nat)
    requires |slots| == c.max && i <= n <= c.max && FilledTo(slots, n)
    ensures
      var g := Scan(c, slots, {}, n, n, i, add);
      n + |g.filled| <= c.max && FilledTo(g.slots, n + |g.filled|)
    decreases c.max - i
  {
    if i < c.max && add < DEFAULT_THREAD_VARY && n < c.max {
      assert Reusable(slots[i], {}) <==> i == n || slots[i].Empty?;
      if i < n {
        ScanFillsInOrder(c, slots, n, i + 1, add);
      } else {
        assert FilledTo(slots[i := Tid(n)], n + 1);
        ScanFillsInOrder(c, slots[i := Tid(n)], n + 1, i + 1, add + 1);
      }
    }
  }

  // The parts about counters, cells, tickets and wake-ups.
  lemma WorkersKept(c: Config, s: State, step: Step)
    requires Inv(c, s) && Enabled(c, s, step)
    ensures
      var s' := Apply(c, s, step);
      Counters(c, s') && Cells(c, s') && Fifo(c, s') && Tickets(s') && WakeUps(s')
  {
    CountersKept(c, s, step);
    CellsKept(c, s, step);
    FifoKept(c, s, step);
    TicketsKept(c, s, step);
    WakeUpsKept(c, s, step);
  }

  // Those about the calls, the phases of destroy, and tidy pools.
  lemma OrderKept(c: Config, s: State, step: Step)
    requires Inv(c, s) && Enabled(c, s, step)
    ensures
      var s' := Apply(c, s, step);
      && CallersWaitOnlyWhenFull(c, s') && Calls(s') && Phases(s') && Loops(c, s') && Reaped(s')
      && (s'.tidy ==> InOrder(c, s'))
  {
    CallersKept(c, s, step);
    CallsKept(c, s, step);
    PhasesKept(c, s, step);
    LoopsKept(c, s, step);
    ReapedKept(c, s, step);
    if Apply(c, s, step).tidy {
      TidyBefore(c, s, step);
      InOrderKept(c, s, step);
    }
  }

  lemma TidyBefore(c: Config, s: State, step: Step)
    requires c.Ok() && Enabled(c, s, step)
    ensures Apply(c, s, step).tidy ==> s.tidy
  {
  }

  /** Every step keeps every part. */
  lemma InvKept(c: Config, s: State, step: Step)
    requires Inv(c, s) && Enabled(c, s, step)
    ensures Inv(c, Apply(c, s, step))
  {
    WorkersKept(c, s, step);
    OrderKept(c, s, step);
  }

  lemma {:induction false} InvRun(c: Config, s: State, steps: seq<Step>)
    requires Inv(c, s) && Legal(c, s, steps)
    ensures Inv(c, Exec(c, s, steps))
    decreases |steps|
  {
    if |steps| > 0 {
      InvKept(c, s, steps[0]);
      InvRun(c, Apply(c, s, steps[0]), steps[1..]);
    }
  }
}
