/**
 The producer and the consumer of thread_code/sem_thread.c: a ring of `n` cells (six in the
 program) between two counting semaphores.

 A step is one semaphore operation or one access to the ring, so the two threads interleave in
 every possible way. `i` and `j` are the two threads' own counters.
 */
module SemRing {
  import opened Modular

  const FIRST := 100

  datatype Producer = PWait | PWrite | PPost      // sem_wait; value[i % n] = beginnum++; sem_post
  datatype Consumer = CWait | CRead | CPost       // sem_wait; read value[j % n]; sem_post

  datatype State = State(
    value: seq<int>,
    beginnum: int,
    sFull: nat,
    sEmpty: nat,
    producer: Producer,
    i: nat,
    consumer: Consumer,
    j: nat,
    output: seq<int>)

  datatype Step = PTakeEmpty | PStore | PGiveFull | CTakeFull | CPrint | CGiveEmpty

  function Init(n: nat): State {
    State(seq(n, _ => 0), FIRST, 0, n, PWait, 0, CWait, 0, [])
  }

  predicate Enabled(s: State, step: Step) {
    match step
    case PTakeEmpty => s.producer.PWait? && s.sEmpty > 0
    case PStore => s.producer.PWrite? && |s.value| > 0
    case PGiveFull => s.producer.PPost?
    case CTakeFull => s.consumer.CWait? && s.sFull > 0
    case CPrint => s.consumer.CRead? && |s.value| > 0
    case CGiveEmpty => s.consumer.CPost?
  }

  function NextOfProducer(producer: Producer): Step {
    match producer
    case PWait => PTakeEmpty
    case PWrite => PStore
    case PPost => PGiveFull
  }

  function NextOfConsumer(consumer: Consumer): Step {
    match consumer
    case CWait => CTakeFull
    case CRead => CPrint
    case CPost => CGiveEmpty
  }

  function Apply(s: State, step: Step): State
    requires Enabled(s, step)
  {
    match step
    case PTakeEmpty => s.(sEmpty := s.sEmpty - 1, producer := PWrite)
    case PStore =>
      s.(value := s.value[s.i % |s.value| := s.beginnum], beginnum := s.beginnum + 1,
         i := s.i + 1, producer := PPost)
    case PGiveFull => s.(sFull := s.sFull + 1, producer := PWait)
    case CTakeFull => s.(sFull := s.sFull - 1, consumer := CRead)
    case CPrint =>
      s.(output := s.output + [s.value[s.j % |s.value|]], j := s.j + 1, consumer := CPost)
    case CGiveEmpty => s.(sEmpty := s.sEmpty + 1, consumer := CWait)
  }

  predicate Legal(s: State, steps: seq<Step>)
    decreases |steps|
  {
    |steps| > 0 ==> Enabled(s, steps[0]) && Legal(Apply(s, steps[0]), steps[1..])
  }

  function Exec(s: State, steps: seq<Step>): State
    requires Legal(s, steps)
    decreases |steps|
  {
    if |steps| == 0 then s else Exec(Apply(s, steps[0]), steps[1..])
  }

  // One for a thread that is between its sem_wait and its sem_post.
  function Inside(s: State): nat {
    (if s.producer.PWait? then 0 else 1) + (if s.consumer.CWait? then 0 else 1)
  }

  ghost predicate Inv(n: nat, s: State) {
    && |s.value| == n >= 1
    && s.beginnum == FIRST + s.i
    && s.sFull + s.sEmpty + Inside(s) == n
    // the cells written and not yet read are those posted, and those in the threads' hands
    && s.i - s.j == s.sFull + (if s.producer.PPost? then 1 else 0) + (if s.consumer.CRead? then 1 else 0)
    && (forall k :: s.j <= k < s.i ==> s.value[k % n] == FIRST + k)
    && |s.output| == s.j
    && (forall k :: 0 <= k < s.j ==> s.output[k] == FIRST + k)
  }

  // The next cell to write holds nothing unread.
  lemma NextCellIsFree(n: nat, s: State, k: nat)
    requires Inv(n, s) && s.producer.PWrite? && s.j <= k < s.i
    ensures k % n != s.i % n
  {
    DistinctCells(k, s.i, n);
  }

  lemma InvKept(n: nat, s: State, step: Step)
    requires Inv(n, s) && Enabled(s, step)
    ensures Inv(n, Apply(s, step))
  {
    if step.PStore? {
      var s' := Apply(s, step);
      forall k | s'.j <= k < s'.i ensures s'.value[k % n] == FIRST + k {
        if k < s.i {
          NextCellIsFree(n, s, k);
        }
      }
    }
  }

  lemma {:induction false} InvRun(n: nat, s: State, steps: seq<Step>)
    requires Inv(n, s) && Legal(s, steps)
    ensures Inv(n, Exec(s, steps))
    decreases |steps|
  {
    if |steps| > 0 {
      InvKept(n, s, steps[0]);
      InvRun(n, Apply(s, steps[0]), steps[1..]);
    }
  }

  /** Under every interleaving and for every capacity, the k-th value read is 100 + k. */
  lemma OutputIsConsecutive(n: nat, steps: seq<Step>)
    requires n >= 1 && Legal(Init(n), steps)
    ensures
      var s := Exec(Init(n), steps);
      |s.output| == s.j && forall k :: 0 <= k < |s.output| ==> s.output[k] == 100 + k
  {
    InvRun(n, Init(n), steps);
  }

  /** The producer never stores into a cell that is still to be read, the one being read
      included, and is never more than n ahead. */
  lemma NoOverwrite(n: nat, steps: seq<Step>, k: nat)
    requires n >= 1 && Legal(Init(n), steps) && Enabled(Exec(Init(n), steps), PStore)
    requires Exec(Init(n), steps).j <= k < Exec(Init(n), steps).i
    ensures
      var s := Exec(Init(n), steps);
      && s.i - s.j < n
      && |s.value| == |Apply(s, PStore).value| == n && 0 <= k % n < n
      && Apply(s, PStore).value[k % n] == s.value[k % n] == 100 + k
  {
    InvRun(n, Init(n), steps);
    NextCellIsFree(n, Exec(Init(n), steps), k);
  }

  /** The semaphores and the threads inside account for all cells, and the threads are never both
      blocked: some step is always possible. */
  lemma NeverBothBlocked(n: nat, steps: seq<Step>)
    requires n >= 1 && Legal(Init(n), steps)
    ensures
      var s := Exec(Init(n), steps);
      && s.sFull + s.sEmpty + Inside(s) == n
      && !(s.producer.PWait? && s.sEmpty == 0 && s.consumer.CWait? && s.sFull == 0)
      && exists step :: Enabled(s, step)
  {
    InvRun(n, Init(n), steps);
    var s := Exec(Init(n), steps);
    assert Enabled(s, NextOfProducer(s.producer)) || Enabled(s, NextOfConsumer(s.consumer));
  }

  /** The turns of a schedule: true lets the producer run, false the consumer. A thread blocked in
      sem_wait does nothing with its turn. */
  function Play(s: State, schedule: seq<bool>): State {
    if |schedule| == 0 then s
    else
      var before := Play(s, schedule[..|schedule| - 1]);
      Turn(before, schedule[|schedule| - 1])
  }

  function Turn(s: State, producerRuns: bool): State {
    var step := if producerRuns then NextOfProducer(s.producer) else NextOfConsumer(s.consumer);
    if Enabled(s, step) then Apply(s, step) else s
  }

  lemma {:induction false} PlayInv(n: nat, schedule: seq<bool>)
    requires n >= 1
    ensures Inv(n, Play(Init(n), schedule))
  {
    if |schedule| > 0 {
      var earlier := schedule[..|schedule| - 1];
      PlayInv(n, earlier);
      var before := Play(Init(n), earlier);
      var step := if schedule[|schedule| - 1] then NextOfProducer(before.producer) else NextOfConsumer(before.consumer);
      if Enabled(before, step) {
        InvKept(n, before, step);
      }
    }
  }

  /** The shared data and the two threads' variables, updated in place: one method per step. */
  class Program {
    const value: array<int>
    var beginnum: int
    var sFull: nat
    var sEmpty: nat
    var producer: Producer
    var i: nat
    var consumer: Consumer
    var j: nat
    var output: seq<int>

    ghost function View(): State
      reads this, value
    {
      State(value[..], beginnum, sFull, sEmpty, producer, i, consumer, j, output)
    }

    constructor (n: nat)
      ensures View() == Init(n) && fresh(value)
    {
      value := new int[n](_ => 0);
      beginnum, sFull, sEmpty := FIRST, 0, n;
      producer, i, consumer, j, output := PWait, 0, CWait, 0, [];
    }

    method ProducerStep()
      requires Enabled(View(), NextOfProducer(producer))
      modifies this`beginnum, this`sFull, this`sEmpty, this`producer, this`i, value
      ensures View() == old(Apply(View(), NextOfProducer(producer)))
    {
      match producer
      case PWait =>
        sEmpty := sEmpty - 1;
        producer := PWrite;
      case PWrite =>
        value[i % value.Length] := beginnum;
        beginnum := beginnum + 1;
        i := i + 1;
        producer := PPost;
      case PPost =>
        sFull := sFull + 1;
        producer := PWait;
    }

    method ConsumerStep()
      requires Enabled(View(), NextOfConsumer(consumer))
      modifies this`sFull, this`sEmpty, this`consumer, this`j, this`output
      ensures View() == old(Apply(View(), NextOfConsumer(consumer)))
    {
      match consumer
      case CWait =>
        sFull := sFull - 1;
        consumer := CRead;
      case CRead =>
        output := output + [value[j % value.Length]];
        j := j + 1;
        consumer := CPost;
      case CPost =>
        sEmpty := sEmpty + 1;
        consumer := CWait;
    }
  }

  /** Both threads under any schedule: the run is the one the steps describe, and what the
      consumer prints is 100, 101, 102, and so on. */
  method Run(n: nat, schedule: seq<bool>) returns (output: seq<int>)
    requires n >= 1
    ensures output == Play(Init(n), schedule).output
    ensures forall k :: 0 <= k < |output| ==> output[k] == 100 + k
  {
    var program := new Program(n);
    for turn := 0 to |schedule|
      invariant fresh(program) && fresh(program.value)
      invariant program.View() == Play(Init(n), schedule[..turn])
    {
      PlayInv(n, schedule[..turn]);
      assert schedule[..turn + 1][..turn] == schedule[..turn];
      if schedule[turn] {
        if !(program.producer.PWait? && program.sEmpty == 0) {
          program.ProducerStep();
        }
      } else if !(program.consumer.CWait? && program.sFull == 0) {
        program.ConsumerStep();
      }
    }
    PlayInv(n, schedule);
    assert schedule[..|schedule|] == schedule;
    output := program.output;
  }
}
