/** Runs of the echo server, built step by step: what it can come to. */
module EpollRuns {
  import opened Bytes
  import opened EchoBuffer
  import opened EpollServer

  lemma {:induction false} LegalSnoc(s: State, steps: seq<Step>, step: Step)
    requires Legal(s, steps) && Enabled(Exec(s, steps), step)
    ensures Legal(s, steps + [step])
    ensures Exec(s, steps + [step]) == Apply(Exec(s, steps), step)
    decreases |steps|
  {
    var more := steps + [step];
    if |steps| == 0 {
      assert more[1..] == [];
      assert Legal(Apply(s, step), []);
    } else {
      assert more[1..] == steps[1..] + [step];
      LegalSnoc(Apply(s, steps[0]), steps[1..], step);
    }
  }

  // One more step of a run.
  lemma Then(start: State, steps: seq<Step>, step: Step) returns (more: seq<Step>)
    requires Legal(start, steps) && Enabled(Exec(start, steps), step)
    ensures Legal(start, more) && Exec(start, more) == Apply(Exec(start, steps), step)
  {
    more := steps + [step];
    LegalSnoc(start, steps, step);
  }

  // A batch of one event.
  lemma WaitFor(start: State, steps: seq<Step>, e: Event) returns (more: seq<Step>)
    requires Legal(start, steps) && Exec(start, steps).position.Idle? && MayReport(Exec(start, steps), e)
    ensures Legal(start, more)
    ensures
      var s := Exec(start, steps);
      Exec(start, more) == s.(conns := Reported(s, [e]), listenReady := s.listenReady && !e.Listener?,
                              position := Handling([e]))
  {
    assert [e][0] == e;
    more := Then(start, steps, Wait([e]));
  }

  // A connection is reported, accepted and registered.
  lemma TakeIn(start: State, steps: seq<Step>) returns (more: seq<Step>)
    requires Legal(start, steps) && Exec(start, steps).position.Idle? && Exec(start, steps).listenReady
    requires Exec(start, steps).accepted < |Exec(start, steps).conns|
    ensures Legal(start, more)
    ensures
      var s := Exec(start, steps);
      var i := s.accepted;
      Exec(start, more) == s.(
        conns := s.conns[i := s.conns[i].(registered := true, ready := Readable(s.conns[i]))],
        accepted := i + 1, listenReady := false)
  {
    var s := Exec(start, steps);
    assert Reported(s, [Listener]) == s.conns;
    more := WaitFor(start, steps, Listener);
    more := Then(start, more, Accept);
    more := Then(start, more, Register);
    more := Then(start, more, NextBatch);
  }

  /** Two connections before one report: the second is never accepted while nobody else comes. */
  lemma SecondConnectionStranded(mode: Mode) returns (steps: seq<Step>)
    ensures Legal(Init(mode), steps) && Quiet(Reached(mode, steps))
    ensures Reached(mode, steps).accepted == 1 && |Reached(mode, steps).conns| == 2
  {
    steps := Then(Init(mode), [], Connect);
    steps := Then(Init(mode), steps, Connect);
    steps := TakeIn(Init(mode), steps);
  }

  lemma RecvStep(s: State, i: nat, n: nat)
    requires AtRecv(s, i) && i < |s.conns| && |s.buff| == BUFF_SIZE
    requires 0 < n < BUFF_SIZE && n <= |s.conns[i].inbox|
    ensures Enabled(s, Recv(n))
    ensures
      var conn := s.conns[i];
      Apply(s, Recv(n)) == s.(
        conns := s.conns[i := conn.(inbox := conn.inbox[n..])],
        buff := conn.inbox[..n] + s.buff[n..],
        position := Echoing(i, n, RestAfterRecv(s)))
  {
  }

  lemma WriteStep(s: State, chunk: seq<byte>, tail: seq<byte>)
    requires s.position.Echoing? && s.position.i < |s.conns| && s.position.n == |chunk| && s.buff == chunk + tail
    ensures Enabled(s, Write)
    ensures
      var i, rest := s.position.i, s.position.rest;
      Apply(s, Write) == s.(
        conns := s.conns[i := s.conns[i].(sent := s.conns[i].sent + UpperToNul(chunk))],
        buff := UpperToNul(s.buff),
        position := if s.mode.ET? then Reading(i, rest) else Handling(rest))
  {
    TailDoesNotMatter(chunk, tail);
  }

  // One recv that brings n bytes, and their echo.
  lemma RecvAndWrite(start: State, steps: seq<Step>, i: nat, n: nat) returns (more: seq<Step>)
    requires Legal(start, steps) && AtRecv(Exec(start, steps), i) && i < |Exec(start, steps).conns|
    requires |Exec(start, steps).buff| == BUFF_SIZE
    requires 0 < n < BUFF_SIZE && n <= |Exec(start, steps).conns[i].inbox|
    ensures Legal(start, more)
    ensures
      var s := Exec(start, steps);
      var conn, rest := s.conns[i], RestAfterRecv(s);
      var chunk := conn.inbox[..n];
      Exec(start, more) == s.(
        conns := s.conns[i := conn.(inbox := conn.inbox[n..], sent := conn.sent + UpperToNul(chunk))],
        buff := UpperToNul(chunk + s.buff[n..]),
        position := if s.mode.ET? then Reading(i, rest) else Handling(rest))
  {
    var s := Exec(start, steps);
    RecvStep(s, i, n);
    more := Then(start, steps, Recv(n));
    WriteStep(Exec(start, more), s.conns[i].inbox[..n], s.buff[n..]);
    more := Then(start, more, Write);
  }

  /* --------------------------------------------------- one client, its stream cut at will */

  // One client is open; level-triggered the server is idle, edge-triggered it is reading from it.
  ghost predicate ServingOne(s: State, mode: Mode, inbox: seq<byte>, sent: seq<byte>, arrived: seq<byte>) {
    && s.mode == mode && |s.conns| == 1 && s.accepted == 1 && !s.listenReady && |s.buff| == BUFF_SIZE
    && s.conns[0] == Conn(inbox, false, s.conns[0].ready, true, sent, arrived)
    && (mode.ET? ==> !s.conns[0].ready)
    && s.position == if mode.LT? then Idle else Reading(0, [])
  }

  lemma OneClient(mode: Mode) returns (steps: seq<Step>)
    ensures Legal(Init(mode), steps)
    ensures
      var s := Reached(mode, steps);
      && s.mode == mode && s.position.Idle? && s.accepted == 1 && !s.listenReady && |s.buff| == BUFF_SIZE
      && s.conns == [Conn([], false, false, true, [], [])]
  {
    steps := Then(Init(mode), [], Connect);
    steps := TakeIn(Init(mode), steps);
  }

  lemma StartServing(mode: Mode, bytes: seq<byte>) returns (steps: seq<Step>)
    requires bytes != []
    ensures Legal(Init(mode), steps) && ServingOne(Reached(mode, steps), mode, bytes, [], bytes)
  {
    steps := OneClient(mode);
    steps := Then(Init(mode), steps, Arrive(0, bytes));
    if mode.ET? {
      steps := WaitFor(Init(mode), steps, Client(0));
      steps := Then(Init(mode), steps, Open);
    }
  }

  lemma ServeChunk(mode: Mode, before: seq<Step>, n: nat, inbox: seq<byte>, sent: seq<byte>, arrived: seq<byte>)
    returns (steps: seq<Step>)
    requires Legal(Init(mode), before) && ServingOne(Reached(mode, before), mode, inbox, sent, arrived)
    requires 0 < n < BUFF_SIZE && n <= |inbox|
    ensures Legal(Init(mode), steps)
    ensures ServingOne(Reached(mode, steps), mode, inbox[n..], sent + UpperToNul(inbox[..n]), arrived)
  {
    steps := before;
    if mode.LT? {
      steps := WaitFor(Init(mode), steps, Client(0));
    }
    steps := RecvAndWrite(Init(mode), steps, 0, n);
    if mode.LT? {
      steps := Then(Init(mode), steps, NextBatch);
    }
  }

  lemma FinishServing(mode: Mode, before: seq<Step>, sent: seq<byte>, arrived: seq<byte>) returns (steps: seq<Step>)
    requires Legal(Init(mode), before) && ServingOne(Reached(mode, before), mode, [], sent, arrived)
    ensures Legal(Init(mode), steps) && Quiet(Reached(mode, steps))
    ensures
      var s := Reached(mode, steps);
      s.accepted == |s.conns| == 1 && s.conns[0].sent == sent && s.conns[0].arrived == arrived
  {
    steps := before;
    if mode.ET? {
      assert AtRecv(Reached(mode, steps), 0);
      steps := Then(Init(mode), steps, RecvNothing);
      steps := Then(Init(mode), steps, NextBatch);
    }
  }

  // The server reads the first k parts.
  lemma {:induction false} ServeParts(mode: Mode, bytes: seq<byte>, parts: seq<seq<byte>>, k: nat, left: seq<byte>)
    returns (steps: seq<Step>)
    requires bytes != [] && k <= |parts| && Concat(parts[..k]) + left == bytes
    requires forall m :: 0 <= m < |parts| ==> 0 < |parts[m]| < BUFF_SIZE
    ensures Legal(Init(mode), steps)
    ensures ServingOne(Reached(mode, steps), mode, left, Answers(parts[..k]), bytes)
    decreases k
  {
    if k == 0 {
      assert left == bytes;
      steps := StartServing(mode, bytes);
    } else {
      var part := parts[k - 1];
      assert parts[..k][..k - 1] == parts[..k - 1];
      Associative(Concat(parts[..k - 1]), part, left);
      steps := ServeParts(mode, bytes, parts, k - 1, part + left);
      assert (part + left)[..|part|] == part && (part + left)[|part|..] == left;
      steps := ServeChunk(mode, steps, |part|, part + left, Answers(parts[..k - 1]), bytes);
    }
  }

  /** In either mode, a client that has sent these bytes is answered in upper case whenever the
      server falls quiet, exactly if no lower-case letter stands within four places behind a NUL. */
  lemma AnsweredInUpperCaseIff(mode: Mode, bytes: seq<byte>)
    ensures NoLowerNearNul(bytes) <==>
              forall steps, i: nat ::
                Legal(Init(mode), steps) && Quiet(Reached(mode, steps)) &&
                i < Reached(mode, steps).accepted <= |Reached(mode, steps).conns| &&
                Reached(mode, steps).conns[i].arrived == bytes ==>
                  InCapitals(bytes, Reached(mode, steps).conns[i].sent)
  {
    if NoLowerNearNul(bytes) {
      forall steps, i: nat |
        Legal(Init(mode), steps) && Quiet(Reached(mode, steps)) &&
        i < Reached(mode, steps).accepted <= |Reached(mode, steps).conns| &&
        Reached(mode, steps).conns[i].arrived == bytes
        ensures InCapitals(bytes, Reached(mode, steps).conns[i].sent)
      {
        QuietMeansAnswered(mode, steps, i);
      }
    } else {
      var parts := BadCutting(bytes);
      assert parts[..|parts|] == parts && bytes + [] == bytes;
      var steps := ServeParts(mode, bytes, parts, |parts|, []);
      steps := FinishServing(mode, steps, Answers(parts), bytes);
      assert Reached(mode, steps).conns[0].arrived == bytes;
      UpperIsCapitals(bytes, Answers(parts));
    }
  }
}
