/**
 The threaded server of tcp_code/server_thread.c: a fixed table of client slots shared, without a
 lock, between the accepting thread and one worker per client, and a counter of users that is
 raised after a client has been handed to its worker and lowered after its slot is free again.

 A step is one test or one write of that shared data. `user++` and `user--` are single steps.
 */
module SlotServer {

  // A slot holds -1 (no client) or the descriptor of its client.
  const NO_FD := -1

  datatype Worker =
    | Serving(slot: nat)     // reading and writing, or closing the descriptor
    | Leaving                // has put -1 into its slot, before user--
    | Gone

  datatype Acceptor =
    | Testing                // user == MAX_USER ?
    | Scanning(i: nat)       // user_sock[i].fd == -1 ?
    | Found(i: nat)          // the scan has ended with i; at accept
    | Starting(i: nat)       // accept has filled slot i; before pthread_create
    | Counting               // before ++user
    | Stopped                // accept failed

  /** `max` is MAX_USER. */
  datatype State = State(max: nat, slots: seq<int>, user: int, acceptor: Acceptor, workers: seq<Worker>)

  datatype Step =
    | Test
    | ScanOne
    | Accept(fd: int)
    | Create
    | CountUp
    | Clear(w: nat)
    | CountDown(w: nat)

  function Init(max: nat): State {
    State(max, seq(max, _ => NO_FD), 0, Testing, [])
  }

  predicate Enabled(s: State, step: Step) {
    match step
    case Test => s.acceptor.Testing?
    case ScanOne => s.acceptor.Scanning?
    case Accept(fd) => s.acceptor.Found? && fd >= NO_FD
    case Create => s.acceptor.Starting?
    case CountUp => s.acceptor.Counting?
    case Clear(w) => w < |s.workers| && s.workers[w].Serving?
    case CountDown(w) => w < |s.workers| && s.workers[w].Leaving?
  }

  // What one test of the scan loop does: it stops at the end of the table and at the first free slot.
  function ScanStep(s: State): Acceptor
    requires s.acceptor.Scanning?
  {
    var i := s.acceptor.i;
    if i >= s.max || (i < |s.slots| && s.slots[i] == NO_FD) then Found(i) else Scanning(i + 1)
  }

  function Put(slots: seq<int>, i: nat, v: int): seq<int> {
    if i < |slots| then slots[i := v] else slots
  }

  function Apply(s: State, step: Step): State
    requires Enabled(s, step)
  {
    match step
    case Test => if s.user == s.max then s else s.(acceptor := Scanning(0))
    case ScanOne => s.(acceptor := ScanStep(s))
    case Accept(fd) =>
      s.(slots := Put(s.slots, s.acceptor.i, fd),
         acceptor := if fd == NO_FD then Stopped else Starting(s.acceptor.i))
    case Create => s.(workers := s.workers + [Serving(s.acceptor.i)], acceptor := Counting)
    case CountUp => s.(user := s.user + 1, acceptor := Testing)
    case Clear(w) =>
      s.(slots := Put(s.slots, s.workers[w].slot, NO_FD), workers := s.workers[w := Leaving])
    case CountDown(w) => s.(user := s.user - 1, workers := s.workers[w := Gone])
  }

  predicate Legal(s: State, steps: seq<Step>)
    decreases |steps|
  {
    |steps| > 0 ==> Enabled(s, steps[0]) && Legal(Apply(s, steps[0]), steps[1..])
  }

  function Exec(s: State, steps: seq<Step>): State
    requires Legal(s, steps)
    decreases |steps|
  {
    if |steps| == 0 then s else Exec(Apply(s, steps[0]), steps[1..])
  }

  /* ---------------------------------------------------------------------- counting */

  function Occupied(slots: seq<int>): nat {
    if |slots| == 0 then 0
    else Occupied(slots[..|slots| - 1]) + if slots[|slots| - 1] == NO_FD then 0 else 1
  }

  lemma {:induction false} OccupiedPut(slots: seq<int>, i: nat, v: int)
    requires i < |slots|
    ensures Occupied(slots[i := v])
         == Occupied(slots) - (if slots[i] == NO_FD then 0 else 1) + (if v == NO_FD then 0 else 1)
  {
    var last := |slots| - 1;
    if i < last {
      OccupiedPut(slots[..last], i, v);
      assert slots[i := v][..last] == slots[..last][i := v];
    } else {
      assert slots[i := v][..last] == slots[..last];
    }
  }

  lemma {:induction false} FreeSlotExists(slots: seq<int>)
    ensures Occupied(slots) <= |slots|
    ensures Occupied(slots) < |slots| ==> exists i :: 0 <= i < |slots| && slots[i] == NO_FD
    ensures Occupied(slots) == 0 <== forall i :: 0 <= i < |slots| ==> slots[i] == NO_FD
  {
    if |slots| > 0 {
      var rest := slots[..|slots| - 1];
      FreeSlotExists(rest);
      if Occupied(rest) < |rest| {
        var i :| 0 <= i < |rest| && rest[i] == NO_FD;
        assert slots[i] == NO_FD;
      }
    }
  }

  function LeavingCount(workers: seq<Worker>): nat {
    if |workers| == 0 then 0
    else LeavingCount(workers[..|workers| - 1]) + if workers[|workers| - 1].Leaving? then 1 else 0
  }

  lemma {:induction false} LeavingPut(workers: seq<Worker>, w: nat, v: Worker)
    requires w < |workers|
    ensures LeavingCount(workers[w := v])
         == LeavingCount(workers) - (if workers[w].Leaving? then 1 else 0) + (if v.Leaving? then 1 else 0)
  {
    var last := |workers| - 1;
    if w < last {
      LeavingPut(workers[..last], w, v);
      assert workers[w := v][..last] == workers[..last][w := v];
    } else {
      assert workers[w := v][..last] == workers[..last];
    }
  }

  /* --------------------------------------------------------------------- invariant */

  // Main has filled a slot for which ++user has not run yet.
  function Uncounted(s: State): int {
    if s.acceptor.Starting? || s.acceptor.Counting? then 1 else 0
  }

  // The slot belongs to a worker, or main is about to start one on it.
  predicate Owned(s: State, i: nat) {
    (s.acceptor.Starting? && s.acceptor.i == i) ||
    exists w :: 0 <= w < |s.workers| && s.workers[w] == Serving(i)
  }

  ghost predicate Tables(s: State) {
    && |s.slots| == s.max
    // an occupied slot has a worker or is about to get one, a free one has none
    && (forall i :: 0 <= i < s.max ==> (s.slots[i] != NO_FD <==> Owned(s, i)))
    && (forall w :: 0 <= w < |s.workers| && s.workers[w].Serving? ==> s.workers[w].slot < s.max)
    // no slot has two workers
    && (forall w, v :: 0 <= w < v < |s.workers| && s.workers[w].Serving? && s.workers[v].Serving? ==>
          s.workers[w].slot != s.workers[v].slot)
    && (s.acceptor.Starting? ==>
          s.acceptor.i < s.max &&
          forall w :: 0 <= w < |s.workers| && s.workers[w].Serving? ==> s.workers[w].slot != s.acceptor.i)
  }

  ghost predicate Users(s: State) {
    && s.user == Occupied(s.slots) + LeavingCount(s.workers) - Uncounted(s)
    && Occupied(s.slots) + LeavingCount(s.workers) <= s.max
    && (s.acceptor.Scanning? || s.acceptor.Found? || s.acceptor.Stopped? ==>
          Occupied(s.slots) + LeavingCount(s.workers) < s.max)
  }

  // The scan has a free slot at or ahead of it, whatever the workers do meanwhile.
  ghost predicate ScanWillFind(s: State) {
    && (s.acceptor.Scanning? ==> exists j :: s.acceptor.i <= j < s.max && j < |s.slots| && s.slots[j] == NO_FD)
    && (s.acceptor.Found? ==> s.acceptor.i < s.max && s.acceptor.i < |s.slots| && s.slots[s.acceptor.i] == NO_FD)
  }

  ghost predicate Inv(s: State) {
    Tables(s) && Users(s) && ScanWillFind(s)
  }

  lemma {:induction false} NoneLeaving(workers: seq<Worker>)
    ensures LeavingCount(workers) == 0 <== forall w :: 0 <= w < |workers| ==> !workers[w].Leaving?
  {
    if |workers| > 0 {
      NoneLeaving(workers[..|workers| - 1]);
    }
  }

  lemma InvInit(max: nat)
    ensures Inv(Init(max))
  {
    FreeSlotExists(Init(max).slots);
  }

  lemma UsersKept(s: State, step: Step)
    requires Inv(s) && Enabled(s, step)
    ensures Users(Apply(s, step))
  {
    match step
    case Accept(fd) => OccupiedPut(s.slots, s.acceptor.i, fd);
    case Create => assert (s.workers + [Serving(s.acceptor.i)])[..|s.workers|] == s.workers;
    case Clear(w) =>
      assert Owned(s, s.workers[w].slot);
      OccupiedPut(s.slots, s.workers[w].slot, NO_FD);
      LeavingPut(s.workers, w, Leaving);
    case CountDown(w) => LeavingPut(s.workers, w, Gone);
    case _ =>
  }

  lemma ScanKept(s: State, step: Step)
    requires Inv(s) && Enabled(s, step)
    ensures ScanWillFind(Apply(s, step))
  {
    if step.Test? {
      FreeSlotExists(s.slots);
    } else if s.acceptor.Scanning? {
      var j :| s.acceptor.i <= j < s.max && j < |s.slots| && s.slots[j] == NO_FD;
      assert Apply(s, step).slots[j] == NO_FD;
    }
  }

  lemma TablesKept(s: State, step: Step)
    requires Inv(s) && Enabled(s, step)
    ensures Tables(Apply(s, step))
  {
    var s' := Apply(s, step);
    forall i | 0 <= i < s.max ensures s'.slots[i] != NO_FD <==> Owned(s', i) {
      OwnedKept(s, step, i);
    }
  }

  lemma OwnedKept(s: State, step: Step, i: nat)
    requires Inv(s) && Enabled(s, step) && i < s.max
    ensures |Apply(s, step).slots| == s.max
    ensures Apply(s, step).slots[i] != NO_FD <==> Owned(Apply(s, step), i)
  {
    var s' := Apply(s, step);
    assert s.slots[i] != NO_FD <==> Owned(s, i);
    if exists w :: 0 <= w < |s.workers| && s.workers[w] == Serving(i) {
      var w :| 0 <= w < |s.workers| && s.workers[w] == Serving(i);
      if step.Clear? && step.w == w {
        assert forall v :: 0 <= v < |s'.workers| ==> s'.workers[v] != Serving(i);
      } else {
        assert s'.workers[w] == Serving(i);
      }
    } else if step.Create? && s.acceptor.i == i {
      assert s'.workers[|s.workers|] == Serving(i);
    } else {
      assert forall v :: 0 <= v < |s'.workers| ==> s'.workers[v] != Serving(i);
    }
  }

  lemma InvKept(s: State, step: Step)
    requires Inv(s) && Enabled(s, step)
    ensures Inv(Apply(s, step)) && Apply(s, step).max == s.max
  {
    TablesKept(s, step);
    UsersKept(s, step);
    ScanKept(s, step);
  }

  lemma {:induction false} InvRun(s: State, steps: seq<Step>)
    requires Inv(s) && Legal(s, steps)
    ensures Inv(Exec(s, steps)) && Exec(s, steps).max == s.max
    decreases |steps|
  {
    if |steps| > 0 {
      InvKept(s, steps[0]);
      InvRun(Apply(s, steps[0]), steps[1..]);
    }
  }

  /** The counter lags behind the table by exactly the workers that have freed their slot but not
      yet counted down, and the client main has not yet counted; so it never exceeds MAX_USER. */
  lemma UserCounter(max: nat, steps: seq<Step>)
    requires Legal(Init(max), steps)
    ensures
      var s := Exec(Init(max), steps);
      && s.user == Occupied(s.slots) + LeavingCount(s.workers) - Uncounted(s)
      && -1 <= s.user <= max
  {
    InvInit(max);
    InvRun(Init(max), steps);
  }

  /** Whenever the scan ends it has found a free slot inside the table. */
  lemma ScanFindsASlot(max: nat, steps: seq<Step>)
    requires Legal(Init(max), steps) && Exec(Init(max), steps).acceptor.Found?
    ensures
      var s := Exec(Init(max), steps);
      s.acceptor.i < max == |s.slots| && s.slots[s.acceptor.i] == NO_FD
  {
    InvInit(max);
    InvRun(Init(max), steps);
  }

  /** One test of the scan: it ends here exactly if this slot is free, and else goes on to the next
      one; so it takes the first slot that it finds free. */
  lemma ScanTakesTheFirst(max: nat, steps: seq<Step>)
    requires Legal(Init(max), steps) && Exec(Init(max), steps).acceptor.Scanning?
    ensures
      var s := Exec(Init(max), steps);
      var i := s.acceptor.i;
      && i < |s.slots|
      && Apply(s, ScanOne) == s.(acceptor := if s.slots[i] == -1 then Found(i) else Scanning(i + 1))
  {
    InvInit(max);
    InvRun(Init(max), steps);
  }

  /** A slot holds a descriptor exactly while one worker serves it or is about to be started on
      it, and never two. */
  lemma OneWorkerPerSlot(max: nat, steps: seq<Step>, i: nat)
    requires Legal(Init(max), steps) && i < max
    ensures
      var s := Exec(Init(max), steps);
      && |s.slots| == max
      && (s.slots[i] != NO_FD <==> Owned(s, i))
      && (forall w, v ::
            0 <= w < v < |s.workers| && s.workers[w] == Serving(i) ==> s.workers[v] != Serving(i))
      && (s.acceptor == Starting(i) ==> forall w :: 0 <= w < |s.workers| ==> s.workers[w] != Serving(i))
  {
    InvInit(max);
    InvRun(Init(max), steps);
  }

  /* ------------------------------------------------------------------- a full table */

  lemma {:induction false} LegalSnoc(s: State, steps: seq<Step>, step: Step)
    requires Legal(s, steps) && Enabled(Exec(s, steps), step)
    ensures Legal(s, steps + [step])
    ensures Exec(s, steps + [step]) == Apply(Exec(s, steps), step)
    decreases |steps|
  {
    var more := steps + [step];
    if |steps| == 0 {
      assert more[1..] == [];
      assert Legal(Apply(s, step), []);
    } else {
      assert more[1..] == steps[1..] + [step];
      LegalSnoc(Apply(s, steps[0]), steps[1..], step);
    }
  }

  // One more step of a run.
  lemma Then(start: State, steps: seq<Step>, step: Step) returns (more: seq<Step>)
    requires Legal(start, steps) && Enabled(Exec(start, steps), step)
    ensures Legal(start, more) && Exec(start, more) == Apply(Exec(start, steps), step)
  {
    more := steps + [step];
    LegalSnoc(start, steps, step);
  }

  // Clients 0 to n - 1 are being served, each in the slot of its number.
  ghost predicate Serves(s: State, max: nat, n: nat, acceptor: Acceptor) {
    && s.max == max == |s.slots| && s.user == n == |s.workers| <= max && s.acceptor == acceptor
    && (forall i :: 0 <= i < max ==> s.slots[i] == if i < n then i else -1)
    && (forall w :: 0 <= w < n ==> s.workers[w] == Serving(w))
  }

  // The scan passes the occupied slots.
  lemma {:induction false} ScanTo(start: State, before: seq<Step>, max: nat, n: nat, i: nat) returns (steps: seq<Step>)
    requires Legal(start, before) && Serves(Exec(start, before), max, n, Testing) && i <= n < max
    ensures Legal(start, steps) && Serves(Exec(start, steps), max, n, Scanning(i))
    decreases i
  {
    if i == 0 {
      steps := Then(start, before, Test);
    } else {
      steps := ScanTo(start, before, max, n, i - 1);
      steps := Then(start, steps, ScanOne);
    }
  }

  lemma TakeClient(start: State, before: seq<Step>, max: nat, n: nat) returns (steps: seq<Step>)
    requires Legal(start, before) && Serves(Exec(start, before), max, n, Testing) && n < max
    ensures Legal(start, steps) && Serves(Exec(start, steps), max, n + 1, Testing)
  {
    steps := ScanTo(start, before, max, n, n);
    steps := Then(start, steps, ScanOne);
    steps := Then(start, steps, Accept(n));
    steps := Then(start, steps, Create);
    steps := Then(start, steps, CountUp);
  }

  /** The whole table can be in use: as many clients as there are slots are served at once, and only
      then does main stop taking more. */
  lemma {:induction false} FillsUp(max: nat, n: nat) returns (steps: seq<Step>)
    requires n <= max
    ensures Legal(Init(max), steps) && Serves(Exec(Init(max), steps), max, n, Testing)
    ensures
      var s := Exec(Init(max), steps);
      Apply(s, Test).acceptor.Scanning? <==> n < max
  {
    if n == 0 {
      steps := [];
    } else {
      steps := FillsUp(max, n - 1);
      steps := TakeClient(Init(max), steps, max, n - 1);
    }
  }

  /* ------------------------------------------------------------ descriptors and workers */

  // The descriptors that accept has returned in this run, in order.
  function Accepted(steps: seq<Step>): seq<int> {
    if |steps| == 0 then [] else AcceptedBy(steps[0]) + Accepted(steps[1..])
  }

  function AcceptedBy(step: Step): seq<int> {
    if step.Accept? && step.fd != -1 then [step.fd] else []
  }

  /** Every worker with a slot, and the one about to be started, finds there the descriptor that
      accept returned for its client: the k-th worker that of the k-th client. */
  ghost predicate OwnDescriptors(s: State, fds: seq<int>) {
    && |s.slots| == s.max
    && |fds| == |s.workers| + (if s.acceptor.Starting? then 1 else 0)
    && (forall w :: 0 <= w < |s.workers| && s.workers[w].Serving? ==>
          s.workers[w].slot < s.max && s.slots[s.workers[w].slot] == fds[w])
    && (s.acceptor.Starting? ==> s.acceptor.i < s.max && s.slots[s.acceptor.i] == fds[|s.workers|])
  }

  lemma DescriptorsKept(s: State, step: Step, fds: seq<int>)
    requires Inv(s) && OwnDescriptors(s, fds) && Enabled(s, step)
    ensures OwnDescriptors(Apply(s, step), fds + AcceptedBy(step))
  {
    var s' := Apply(s, step);
    var fds' := fds + AcceptedBy(step);
    forall w | 0 <= w < |s'.workers| && s'.workers[w].Serving?
      ensures s'.workers[w].slot < s'.max && s'.slots[s'.workers[w].slot] == fds'[w]
    {
      if w < |s.workers| {
        assert s'.workers[w] == s.workers[w] && fds'[w] == fds[w];
        assert Owned(s, s.workers[w].slot);
      }
    }
  }

  lemma AcceptedOn(before: seq<int>, steps: seq<Step>)
    requires |steps| > 0
    ensures before + Accepted(steps) == (before + AcceptedBy(steps[0])) + Accepted(steps[1..])
  {
  }

  lemma {:induction false} DescriptorsRun(s: State, steps: seq<Step>, before: seq<int>, all: seq<int>)
    requires Inv(s) && OwnDescriptors(s, before) && Legal(s, steps) && all == before + Accepted(steps)
    ensures OwnDescriptors(Exec(s, steps), all)
    decreases |steps|
  {
    if |steps| == 0 {
      assert all == before;
    } else {
      var now := before + AcceptedBy(steps[0]);
      DescriptorsKept(s, steps[0], before);
      InvKept(s, steps[0]);
      AcceptedOn(before, steps);
      DescriptorsRun(Apply(s, steps[0]), steps[1..], now, all);
    }
  }

  /** In every run, whatever main and the other workers do: as long as the k-th worker serves, its
      slot holds the k-th descriptor that accept returned, and so does the slot of the worker
      that main is about to start. */
  lemma WorkersKeepTheirDescriptors(max: nat, steps: seq<Step>)
    requires Legal(Init(max), steps)
    ensures
      var s, fds := Exec(Init(max), steps), Accepted(steps);
      && |fds| == |s.workers| + (if s.acceptor.Starting? then 1 else 0)
      && (forall w :: 0 <= w < |s.workers| && s.workers[w].Serving? ==>
            s.workers[w].slot < |s.slots| && s.slots[s.workers[w].slot] == fds[w] != -1)
      && (s.acceptor.Starting? ==>
            s.acceptor.i < |s.slots| && s.slots[s.acceptor.i] == fds[|s.workers|] != -1)
  {
    InvInit(max);
    InvRun(Init(max), steps);
    assert [] + Accepted(steps) == Accepted(steps);
    DescriptorsRun(Init(max), steps, [], Accepted(steps));
    NoneIsMinusOne(steps);
  }

  lemma {:induction false} NoneIsMinusOne(steps: seq<Step>)
    ensures forall k :: 0 <= k < |Accepted(steps)| ==> Accepted(steps)[k] != -1
  {
    if |steps| > 0 {
      NoneIsMinusOne(steps[1..]);
    }
  }

  /* -------------------------------------------------------- the scan over the array */

  /** What the other threads do between two tests of the scan: workers free slots. */
  method Workers(fds: array<int>, freed: set<nat>)
    modifies fds
    ensures forall j :: 0 <= j < fds.Length ==> fds[j] == if j in freed then NO_FD else old(fds[j])
  {
    for j := 0 to fds.Length
      invariant forall k :: 0 <= k < fds.Length ==>
                  fds[k] == if k < j && k in freed then NO_FD else old(fds[k])
    {
      if j in freed {
        fds[j] := NO_FD;
      }
    }
  }

  /** The scan loop of main. `freed[k]` are the slots that workers free just after its k-th test.
      With a free slot at the start it ends inside the table, at a slot that is free, and every
      slot it has passed was occupied when it started. */
  method FindFreeSlot(fds: array<int>, freed: seq<set<nat>>) returns (i: nat)
    requires exists j :: 0 <= j < fds.Length && fds[j] == NO_FD
    requires |freed| >= fds.Length
    modifies fds
    ensures i < fds.Length && fds[i] == NO_FD
    ensures forall j :: 0 <= j < i ==> old(fds[j]) != NO_FD
    ensures forall j :: 0 <= j < fds.Length ==> fds[j] == NO_FD || fds[j] == old(fds[j])
  {
    ghost var free :| 0 <= free < fds.Length && fds[free] == NO_FD;
    i := 0;
    while i < fds.Length && fds[i] != NO_FD
      invariant 0 <= i <= free && fds[free] == NO_FD
      invariant forall j :: 0 <= j < i ==> old(fds[j]) != NO_FD
      invariant forall j :: 0 <= j < fds.Length ==> fds[j] == NO_FD || fds[j] == old(fds[j])
    {
      Workers(fds, freed[i]);
      i := i + 1;
    }
  }
}
