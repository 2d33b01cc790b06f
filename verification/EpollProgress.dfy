/** How long the echo server goes on by itself: without news from its clients it falls quiet. */
module EpollProgress {
  import opened EchoBuffer
  import opened EpollServer

  function If(b: bool, n: int): int {
    if b then n else 0
  }

  /** What connection i can still cause: reading its bytes and answering them, being accepted and
      registered, reported, and closed. Level-triggered, an event of the batch has been paid for
      by the bytes or the close that it reports. */
  function Weight(s: State, i: nat): (w: nat)
    requires i < |s.conns|
  {
    var conn, listed := s.conns[i], Client(i) in Tail(s);
    6 * |conn.inbox| +
    if HasBeenClosed(s, i) then 0
    else if !conn.registered then 10
    else if s.mode.ET? then 4 + If(conn.ready, 6) + If(listed, 2)
    else 4 - If(listed, 3)
  }

  function Weights(s: State, n: nat): nat
    requires n <= |s.conns|
  {
    if n == 0 then 0 else Weights(s, n - 1) + Weight(s, n - 1)
  }

  // What the listening socket and the place in the code add.
  function PlaceWeight(s: State): nat {
    If(s.listenReady, 5) + If(Listener in Tail(s), 2) +
    match s.position
    case Idle => 0
    case Handling(_) => 2
    case Registering(_, _) => 3
    case Reading(_, _) => 3
    case Echoing(_, _, _) => 4
    case Failed => 0
  }

  function Potential(s: State): nat {
    Weights(s, |s.conns|) + PlaceWeight(s)
  }

  lemma {:induction false} WeightsFall(s: State, s': State, n: nat, i: nat, d: int)
    requires n <= |s.conns| == |s'.conns|
    requires forall j :: 0 <= j < n && j != i ==> Weight(s', j) <= Weight(s, j)
    requires i < n ==> Weight(s', i) + d <= Weight(s, i)
    ensures Weights(s', n) + If(i < n, d) <= Weights(s, n)
  {
    if n > 0 {
      WeightsFall(s, s', n - 1, i, d);
    }
  }

  // The connection that a call concerns.
  function Concerned(s: State, step: Step): nat
    requires step.Recv? || step.RecvNothing? ==> exists i: nat :: AtRecv(s, i)
  {
    match step
    case Register => if s.position.Registering? then s.position.i else 0
    case Accept => s.accepted
    case Open => if Tail(s) != [] && Tail(s)[0].Client? then Tail(s)[0].i else 0
    case Recv(_) => Current(s)
    case RecvNothing => Current(s)
    case Write => if s.position.Echoing? then s.position.i else 0
    case Drop(i) => i
    case _ => 0
  }

  // Calls concern one connection at most; Wait apart, the others weigh what they did.
  lemma OthersWeighTheSame(s: State, step: Step, j: nat)
    requires Inv(s) && Enabled(s, step) && (OfServer(step) || step.Drop?) && !step.Wait?
    requires j < |s.conns| && j != Concerned(s, step)
    ensures |Apply(s, step).conns| == |s.conns| && Weight(Apply(s, step), j) == Weight(s, j)
  {
    SameConn(s, step, j);
    SameStanding(s, step, j);
    SameListing(s, step, j);
  }

  lemma SameConn(s: State, step: Step, j: nat)
    requires Enabled(s, step) && (OfServer(step) || step.Drop?) && !step.Wait?
    requires j < |s.conns| && j != Concerned(s, step)
    ensures |Apply(s, step).conns| == |s.conns| && Apply(s, step).conns[j] == s.conns[j]
    ensures Apply(s, step).mode == s.mode
  {
  }

  lemma SameStanding(s: State, step: Step, j: nat)
    requires Backlog(s) && Enabled(s, step) && (OfServer(step) || step.Drop?) && !step.Wait?
    requires j < |s.conns| && j != Concerned(s, step)
    requires |Apply(s, step).conns| == |s.conns| && Apply(s, step).conns[j] == s.conns[j]
    ensures HasBeenClosed(Apply(s, step), j) == HasBeenClosed(s, j)
  {
  }

  lemma SameListing(s: State, step: Step, j: nat)
    requires Batch(s) && Enabled(s, step) && (OfServer(step) || step.Drop?) && !step.Wait?
    requires j < |s.conns| && j != Concerned(s, step)
    ensures Client(j) in Tail(Apply(s, step)) <==> Client(j) in Tail(s)
  {
    TailAfter(s, step);
    if TakesEvent(s, step) {
      assert Tail(s) == [Tail(s)[0]] + Tail(s)[1..];
      assert Tail(s)[0] != Client(j);
    }
  }

  // The call pays for itself with what it takes from the connection it concerns.
  ghost predicate Pays(s: State, step: Step, i: nat)
    requires Enabled(s, step)
  {
    var s' := Apply(s, step);
    && i < |s.conns| == |s'.conns|
    && Weight(s', i) + PlaceWeight(s') < Weight(s, i) + PlaceWeight(s)
  }

  lemma AcceptPays(s: State)
    requires Inv(s) && Enabled(s, Accept)
    ensures Pays(s, Accept, s.accepted)
  {
    TailAfter(s, Accept);
    assert Tail(s)[0] == Listener && Tail(s) == [Listener] + Tail(s)[1..];
    assert Listener !in Tail(s)[1..];
  }

  lemma RegisterPays(s: State)
    requires Inv(s) && Enabled(s, Register)
    ensures Pays(s, Register, s.position.i)
  {
    TailAfter(s, Register);
  }

  lemma OpenPays(s: State)
    requires Inv(s) && Enabled(s, Open)
    ensures Pays(s, Open, s.position.rest[0].i)
  {
    TailAfter(s, Open);
    HeadOnce(s);
    var i := s.position.rest[0].i;
    assert Tail(s)[0] == Client(i);
  }

  // The head of the batch does not stand in the rest of it.
  lemma HeadOnce(s: State)
    requires Batch(s) && Tail(s) != []
    ensures Tail(s)[0] in Tail(s) && Tail(s)[0] !in Tail(s)[1..]
    ensures Listener in Tail(s) <==> Tail(s)[0] == Listener || Listener in Tail(s)[1..]
  {
    assert Tail(s) == [Tail(s)[0]] + Tail(s)[1..];
  }

  lemma RecvPays(s: State, n: nat)
    requires Inv(s) && Enabled(s, Recv(n))
    ensures Pays(s, Recv(n), Current(s))
  {
    TailAfter(s, Recv(n));
    if s.mode.LT? {
      HeadOnce(s);
    }
  }

  lemma RecvNothingPays(s: State)
    requires Inv(s) && Enabled(s, RecvNothing)
    ensures Pays(s, RecvNothing, Current(s))
  {
    TailAfter(s, RecvNothing);
    if s.mode.LT? {
      HeadOnce(s);
      assert Client(Current(s)) in Tail(s);
    } else {
      assert Serving(s, Current(s));
    }
  }

  lemma WritePays(s: State)
    requires Inv(s) && Enabled(s, Write)
    ensures Pays(s, Write, s.position.i)
  {
    TailAfter(s, Write);
  }

  lemma CallPays(s: State, step: Step)
    requires Inv(s) && Enabled(s, step) && OfServer(step) && !step.Wait? && !step.NextBatch?
    ensures Pays(s, step, Concerned(s, step))
  {
    match step
    case Accept => AcceptPays(s);
    case Register => RegisterPays(s);
    case Open => OpenPays(s);
    case Recv(n) => RecvPays(s, n);
    case RecvNothing => RecvNothingPays(s);
    case Write => WritePays(s);
  }

  lemma CallLowers(s: State, step: Step)
    requires Inv(s) && Enabled(s, step) && OfServer(step) && !step.Wait? && !step.NextBatch?
    ensures Potential(Apply(s, step)) < Potential(s)
  {
    CallPays(s, step);
    var s', i := Apply(s, step), Concerned(s, step);
    forall j | 0 <= j < |s.conns| && j != i ensures Weight(s', j) <= Weight(s, j) {
      OthersWeighTheSame(s, step, j);
    }
    WeightsFall(s, s', |s.conns|, i, Weight(s, i) - Weight(s', i));
  }

  // What epoll_wait reports it takes from the ready list, or it is paid for by what is there to read.
  lemma WaitPays(s: State, batch: seq<Event>)
    requires Inv(s) && Enabled(s, Wait(batch))
    ensures Potential(Apply(s, Wait(batch))) < Potential(s)
  {
    var s' := Apply(s, Wait(batch));
    forall j | 0 <= j < |s.conns| ensures Weight(s', j) + If(Client(j) in batch, 3) <= Weight(s, j) {
      ReportedPays(s, batch, j);
    }
    ListenerPays(s, batch);
    if batch[0].Client? {
      assert MayReport(s, batch[0]);
      WeightsFall(s, s', |s.conns|, batch[0].i, 3);
    } else {
      WeightsFall(s, s', |s.conns|, |s.conns|, 0);
    }
  }

  lemma ReportedPays(s: State, batch: seq<Event>, j: nat)
    requires Inv(s) && Enabled(s, Wait(batch)) && j < |s.conns|
    ensures |Apply(s, Wait(batch)).conns| == |s.conns|
    ensures Weight(Apply(s, Wait(batch)), j) + If(Client(j) in batch, 3) <= Weight(s, j)
  {
    if Client(j) in batch {
      var k :| 0 <= k < |batch| && batch[k] == Client(j);
      assert MayReport(s, batch[k]);
    }
  }

  lemma ListenerPays(s: State, batch: seq<Event>)
    requires Inv(s) && Enabled(s, Wait(batch))
    ensures PlaceWeight(Apply(s, Wait(batch))) + If(Listener in batch, 3) <= PlaceWeight(s) + 2
  {
    if Listener in batch {
      var k :| 0 <= k < |batch| && batch[k] == Listener;
      assert MayReport(s, batch[k]);
    }
  }

  lemma NextBatchPays(s: State)
    requires Inv(s) && Enabled(s, NextBatch)
    ensures Potential(Apply(s, NextBatch)) < Potential(s)
  {
    var s' := Apply(s, NextBatch);
    assert forall j :: 0 <= j < |s.conns| ==> Weight(s', j) == Weight(s, j);
    WeightsFall(s, s', |s.conns|, |s.conns|, 0);
  }

  lemma DropPays(s: State, i: nat)
    requires Inv(s) && Enabled(s, Drop(i))
    ensures Potential(Apply(s, Drop(i))) <= Potential(s)
  {
    var s' := Apply(s, Drop(i));
    forall j | 0 <= j < |s.conns| ensures Weight(s', j) <= Weight(s, j) {
      DroppedWeighsLess(s, i, j);
    }
    WeightsFall(s, s', |s.conns|, |s.conns|, 0);
  }

  lemma DroppedWeighsLess(s: State, i: nat, j: nat)
    requires Enabled(s, Drop(i)) && j < |s.conns|
    ensures |Apply(s, Drop(i)).conns| == |s.conns| && Weight(Apply(s, Drop(i)), j) <= Weight(s, j)
  {
    assert Tail(Apply(s, Drop(i))) == Tail(s);
  }

  /** Every system call of the server lowers the potential, and the kernel's tidying of the ready
      list does not raise it. */
  lemma PotentialFalls(s: State, step: Step)
    requires Inv(s) && Enabled(s, step) && (OfServer(step) || step.Drop?)
    ensures Potential(Apply(s, step)) + If(OfServer(step), 1) <= Potential(s)
  {
    if step.Wait? {
      WaitPays(s, step.batch);
    } else if step.NextBatch? {
      NextBatchPays(s);
    } else if step.Drop? {
      DropPays(s, step.i);
    } else {
      CallLowers(s, step);
    }
  }

  // Nothing comes from the clients.
  predicate NoNews(steps: seq<Step>) {
    forall k :: 0 <= k < |steps| ==> OfServer(steps[k]) || steps[k].Drop?
  }

  function Calls(steps: seq<Step>): nat {
    if |steps| == 0 then 0 else If(OfServer(steps[0]), 1) + Calls(steps[1..])
  }

  lemma {:induction false} CallsAreBounded(s: State, steps: seq<Step>)
    requires Inv(s) && Legal(s, steps) && NoNews(steps)
    ensures Inv(Exec(s, steps)) && Potential(Exec(s, steps)) + Calls(steps) <= Potential(s)
    decreases |steps|
  {
    if |steps| > 0 {
      assert OfServer(steps[0]) || steps[0].Drop?;
      PotentialFalls(s, steps[0]);
      InvKept(s, steps[0]);
      CallsAreBounded(Apply(s, steps[0]), steps[1..]);
    }
  }

  /** Whatever has happened before: without news the server makes only so many calls, and until it
      is quiet it can make the next one. So it falls quiet. */
  lemma ServerFallsQuiet(mode: Mode, before: seq<Step>, after: seq<Step>)
    requires Legal(Init(mode), before) && Legal(Reached(mode, before), after) && NoNews(after)
    ensures
      var s := Reached(mode, before);
      var s' := Exec(s, after);
      && Calls(after) <= Potential(s)
      && (Quiet(s') || exists step :: OfServer(step) && Enabled(s', step))
  {
    InvRun(Init(mode), before);
    CallsAreBounded(Reached(mode, before), after);
    if !Quiet(Exec(Reached(mode, before), after)) {
      NextCallExists(Exec(Reached(mode, before), after));
    }
  }
}
