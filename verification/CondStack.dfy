/**
 The producer and the consumers of thread_code/cond_thread.c: a list pushed at its head under a
 mutex, a signal sent after the mutex is released, and consumers that wait on the condition
 variable while the list is empty and otherwise empty it in one lock-held region.

 A step is one lock-held region, the allocation of a node, the signal, or a spurious wake-up.
 */
module CondStack {

  const FIRST := 100

  datatype Producer = PMake | PPush(val: int) | PSignal

  datatype Consumer = Ready | Waiting | Woken

  /** `head` lists the values from the head of the list on. `batches` is history: the values
      printed by each draining region, in the order of the regions, over all consumers. */
  datatype State = State(
    head: seq<int>,
    beginnum: int,
    producer: Producer,
    consumers: seq<Consumer>,
    batches: seq<seq<int>>)

  datatype Step = Make | Push | Signal(wake: nat) | Enter(c: nat) | Spurious(c: nat)

  function Init(n: nat): State {
    State([], FIRST, PMake, seq(n, _ => Ready), [])
  }

  predicate AnyWaiting(consumers: seq<Consumer>) {
    exists c :: 0 <= c < |consumers| && consumers[c].Waiting?
  }

  predicate Enabled(s: State, step: Step) {
    match step
    case Make => s.producer.PMake?
    case Push => s.producer.PPush?
    case Signal(wake) =>
      s.producer.PSignal? &&
      (AnyWaiting(s.consumers) ==> wake < |s.consumers| && s.consumers[wake].Waiting?)
    case Enter(c) => c < |s.consumers| && !s.consumers[c].Waiting?
    case Spurious(c) => c < |s.consumers| && s.consumers[c].Waiting?
  }

  function Apply(s: State, step: Step): State
    requires Enabled(s, step)
  {
    match step
    case Make => s.(producer := PPush(s.beginnum), beginnum := s.beginnum + 1)
    case Push => s.(head := [s.producer.val] + s.head, producer := PSignal)
    case Signal(wake) =>
      s.(producer := PMake,
         consumers := if wake < |s.consumers| && s.consumers[wake].Waiting?
                      then s.consumers[wake := Woken] else s.consumers)
    case Enter(c) =>
      if s.head == [] then s.(consumers := s.consumers[c := Waiting])
      else s.(head := [], batches := s.batches + [s.head], consumers := s.consumers[c := Ready])
    case Spurious(c) => s.(consumers := s.consumers[c := Woken])
  }

  predicate Legal(s: State, steps: seq<Step>)
    decreases |steps|
  {
    |steps| > 0 ==> Enabled(s, steps[0]) && Legal(Apply(s, steps[0]), steps[1..])
  }

  function Exec(s: State, steps: seq<Step>): State
    requires Legal(s, steps)
    decreases |steps|
  {
    if |steps| == 0 then s else Exec(Apply(s, steps[0]), steps[1..])
  }

  function Reverse(s: seq<int>): seq<int> {
    if |s| == 0 then [] else Reverse(s[1..]) + [s[0]]
  }

  // The batches in order, each turned round.
  function Unstack(batches: seq<seq<int>>): seq<int> {
    if |batches| == 0 then []
    else Unstack(batches[..|batches| - 1]) + Reverse(batches[|batches| - 1])
  }

  function Numbers(n: nat): (r: seq<int>)
    ensures |r| == n && forall k :: 0 <= k < n ==> r[k] == FIRST + k
  {
    seq(n, k => FIRST + k)
  }

  // How many values have been pushed.
  function Pushed(s: State): int {
    s.beginnum - FIRST - if s.producer.PPush? then 1 else 0
  }

  ghost predicate Inv(s: State) {
    && Pushed(s) >= 0
    && (s.producer.PPush? ==> s.producer.val == FIRST + Pushed(s))
    && Unstack(s.batches) + Reverse(s.head) == Numbers(Pushed(s))
    && (forall b :: 0 <= b < |s.batches| ==> s.batches[b] != [])
    && (s.head != [] && |s.consumers| > 0 ==>
          s.producer.PSignal? || exists c :: 0 <= c < |s.consumers| && !s.consumers[c].Waiting?)
  }

  lemma InvKept(s: State, step: Step)
    requires Inv(s) && Enabled(s, step)
    ensures Inv(Apply(s, step))
  {
    match step
    case Make =>
    case Push => PushKeeps(s);
    case Signal(wake) => SignalKeeps(s, wake);
    case Enter(c) => EnterKeeps(s, c);
    case Spurious(c) => assert !Apply(s, step).consumers[c].Waiting?;
  }

  lemma PushKeeps(s: State)
    requires Inv(s) && Enabled(s, Push)
    ensures Inv(Apply(s, Push))
  {
    assert ([s.producer.val] + s.head)[1..] == s.head;
    assert Unstack(s.batches) + (Reverse(s.head) + [s.producer.val])
        == (Unstack(s.batches) + Reverse(s.head)) + [s.producer.val];
  }

  // After the signal somebody is up, if there is anybody at all.
  lemma SignalKeeps(s: State, wake: nat)
    requires Inv(s) && Enabled(s, Signal(wake))
    ensures Inv(Apply(s, Signal(wake)))
  {
    var consumers := Apply(s, Signal(wake)).consumers;
    if AnyWaiting(s.consumers) {
      assert !consumers[wake].Waiting?;
    } else if |s.consumers| > 0 {
      assert !consumers[0].Waiting?;
    }
  }

  lemma EnterKeeps(s: State, c: nat)
    requires Inv(s) && Enabled(s, Enter(c))
    ensures Inv(Apply(s, Enter(c)))
  {
    if s.head != [] {
      var batches := s.batches + [s.head];
      assert batches[..|s.batches|] == s.batches;
      assert Unstack(batches) + Reverse([]) == Unstack(s.batches) + Reverse(s.head);
    }
  }

  lemma {:induction false} InvRun(s: State, steps: seq<Step>)
    requires Inv(s) && Legal(s, steps)
    ensures Inv(Exec(s, steps)) && |Exec(s, steps).consumers| == |s.consumers|
    decreases |steps|
  {
    if |steps| > 0 {
      InvKept(s, steps[0]);
      InvRun(Apply(s, steps[0]), steps[1..]);
    }
  }

  /** A consumer with the mutex takes all there is, and waits exactly if there is nothing. */
  lemma EnterDrains(s: State, c: nat)
    requires Enabled(s, Enter(c))
    ensures
      var s' := Apply(s, Enter(c));
      && s'.head == [] && (s'.consumers[c].Waiting? <==> s.head == [])
      && s'.batches == if s.head == [] then s.batches else s.batches + [s.head]
  {
  }

  /** For any number of consumers and any interleaving, the batches, each turned round, and then
      the list turned round are exactly the pushed sequence 100, 101, 102, ... */
  lemma DrainsArePushes(n: nat, steps: seq<Step>)
    requires Legal(Init(n), steps)
    ensures
      var s := Exec(Init(n), steps);
      var drained := Unstack(s.batches) + Reverse(s.head);
      && |drained| == Pushes(steps)
      && (forall k :: 0 <= k < |drained| ==> drained[k] == 100 + k)
      && (forall b :: 0 <= b < |s.batches| ==> s.batches[b] != [])
  {
    InvRun(Init(n), steps);
    PushedCounts(Init(n), steps);
  }

  // How many values have been pushed, by the steps.
  function Pushes(steps: seq<Step>): nat {
    if |steps| == 0 then 0 else (if steps[0].Push? then 1 else 0) + Pushes(steps[1..])
  }

  lemma {:induction false} PushedCounts(s: State, steps: seq<Step>)
    requires Legal(s, steps)
    ensures Pushed(Exec(s, steps)) == Pushed(s) + Pushes(steps)
    decreases |steps|
  {
    if |steps| > 0 {
      PushedCounts(Apply(s, steps[0]), steps[1..]);
    }
  }

  /** A pushed node never sits there with every consumer asleep and no signal due. */
  lemma NoSleepOverANode(n: nat, steps: seq<Step>)
    requires n >= 1 && Legal(Init(n), steps)
    requires Exec(Init(n), steps).head != []
    ensures
      var s := Exec(Init(n), steps);
      s.producer.PSignal? || exists c :: 0 <= c < n && c < |s.consumers| && !s.consumers[c].Waiting?
  {
    InvRun(Init(n), steps);
  }

  /* ------------------------------------------------------------- the list in the heap */

  class Node {
    var val: int
    var next: Node?

    constructor (val: int, next: Node?)
      ensures this.val == val && this.next == next
    {
      this.val, this.next := val, next;
    }
  }

  lemma {:induction false} ReverseSnoc(s: seq<int>, x: int)
    ensures Reverse(s + [x]) == [x] + Reverse(s)
  {
    if |s| > 0 {
      assert (s + [x])[1..] == s[1..] + [x];
      ReverseSnoc(s[1..], x);
    } else {
      assert (s + [x])[1..] == [];
    }
  }

  // The node pushed just before position k.
  ghost function Below(nodes: seq<Node>, k: nat): Node?
    requires k <= |nodes|
  {
    if k == 0 then null else nodes[k - 1]
  }

  /** The global `head`. The ghost field lists its nodes, the one pushed first in front. */
  class List {
    var head: Node?
    ghost var nodes: seq<Node>

    ghost predicate Valid()
      reads this, nodes
    {
      && (head == Below(nodes, |nodes|))
      && forall k :: 0 <= k < |nodes| ==> nodes[k].next == Below(nodes, k)
    }

    // The values in the order in which they were pushed.
    ghost function Stacked(): (r: seq<int>)
      reads this, nodes
      ensures |r| == |nodes|
    {
      seq(|nodes|, k requires 0 <= k < |nodes| reads this, nodes => nodes[k].val)
    }

    // The values from the head of the list on.
    ghost function Values(): seq<int>
      reads this, nodes
    {
      Reverse(Stacked())
    }

    constructor ()
      ensures Valid() && Values() == []
    {
      head, nodes := null, [];
    }

    /** The lock-held region of the producer. */
    method Push(val: int)
      requires Valid()
      modifies this
      ensures Valid() && Values() == [val] + old(Values())
    {
      var temp := new Node(val, head);
      head := temp;
      ghost var was := nodes;
      nodes := nodes + [temp];
      assert forall k :: 0 <= k < |was| ==> nodes[k] == was[k] && Below(nodes, k) == Below(was, k);
      assert Stacked() == old(Stacked()) + [val];
      ReverseSnoc(old(Stacked()), val);
    }

    /** One round of the draining loop: print the head and unlink it. */
    method TakeHead() returns (val: int)
      requires Valid() && head != null
      modifies this
      ensures Valid() && |nodes| == old(|nodes|) - 1
      ensures old(Values()) == [val] + Values()
    {
      ghost var before, last := Stacked(), |nodes| - 1;
      val := head.val;
      head := head.next;
      ghost var was := nodes;
      nodes := nodes[..last];
      assert forall k :: 0 <= k < last ==> nodes[k] == was[k] && Below(nodes, k) == Below(was, k);
      assert before == Stacked() + [before[last]];
      ReverseSnoc(Stacked(), before[last]);
    }

    /** The draining loop of a consumer: it prints the list from the head on and leaves none. */
    method Drain() returns (printed: seq<int>)
      requires Valid()
      modifies this
      ensures Valid() && head == null && Values() == []
      ensures printed == old(Values())
    {
      printed := [];
      ghost var all := Values();
      while head != null
        invariant Valid()
        invariant printed + Values() == all
        decreases |nodes|
      {
        var val := TakeHead();
        printed := printed + [val];
      }
    }
  }
}
