/**
 The echo server of select_poll_epoll/epoll_server2.c with the kernel around it. Its clients are
 watched level-triggered or edge-triggered; its listening socket is always edge-triggered.

 A step is one system call of the server, or one thing that happens in the kernel meanwhile:
 a peer connects, sends, or closes. Sockets do not fail, writes are complete, and recv is not
 interrupted by signals. Connections are numbered in the order in which they arrive.
 */
module EpollServer {
  import opened Bytes
  import opened EchoBuffer

  datatype Mode = LT | ET

  datatype Conn = Conn(
    inbox: seq<byte>,      // received by the kernel, not yet read
    closed: bool,          // the peer has sent its last byte
    ready: bool,           // edge-triggered: on the kernel's ready list
    registered: bool,      // in the epoll set
    sent: seq<byte>,       // written back
    arrived: seq<byte>)    // history: everything the peer has sent

  datatype Event = Listener | Client(i: nat)

  /** Where the server is. `rest` is the part of the current batch still to be handled. */
  datatype Position =
    | Idle                                        // at epoll_wait
    | Handling(rest: seq<Event>)                  // at the head of the loop over events
    | Registering(i: nat, rest: seq<Event>)       // between accept and epoll_ctl
    | Reading(i: nat, rest: seq<Event>)           // at the recv of et_work's inner loop
    | Echoing(i: nat, n: nat, rest: seq<Event>)   // recv has returned n > 0
    | Failed                                      // lt_work has seen an error and exits

  /** `accepted` connections have been accepted, the first ones; the others are pending.
      `coalesced` counts the connections that arrived while an earlier one was still waiting
      to be reported. */
  datatype State = State(
    mode: Mode,
    conns: seq<Conn>,
    accepted: nat,
    listenReady: bool,
    position: Position,
    buff: seq<byte>,
    coalesced: nat)

  datatype Step =
    | Connect
    | Arrive(i: nat, bytes: seq<byte>)
    | PeerClose(i: nat)
    | Drop(i: nat)                 // the kernel finds a ready-list entry with nothing to report
    | Wait(batch: seq<Event>)
    | NextBatch
    | Accept
    | Register
    | Open                         // et_work enters its inner loop
    | Recv(n: nat)
    | RecvNothing
    | Write

  const MAX_EVENT_NUM := 21

  function Init(mode: Mode): State {
    State(mode, [], 0, false, Idle, seq(BUFF_SIZE, _ => 0), 0)
  }

  // There is something for recv to return.
  predicate Readable(conn: Conn) {
    conn.inbox != [] || conn.closed
  }

  // epoll_wait may report this connection.
  predicate Reportable(mode: Mode, conn: Conn) {
    conn.registered && if mode.ET? then conn.ready else Readable(conn)
  }

  predicate MayReport(s: State, e: Event) {
    match e
    case Listener => s.listenReady
    case Client(i) => i < |s.conns| && Reportable(s.mode, s.conns[i])
  }

  // The connection that the recv of this position reads, if it is one.
  predicate AtRecv(s: State, i: nat) {
    if s.mode.ET? then s.position.Reading? && s.position.i == i
    else s.position.Handling? && |s.position.rest| > 0 && s.position.rest[0] == Client(i)
  }

  // Where that recv leaves the rest of the batch.
  function RestAfterRecv(s: State): seq<Event>
    requires s.position.Reading? || (s.position.Handling? && |s.position.rest| > 0)
  {
    if s.position.Reading? then s.position.rest else s.position.rest[1..]
  }

  ghost predicate Enabled(s: State, step: Step) {
    match step
    case Connect => true
    case Arrive(i, bytes) => i < |s.conns| && bytes != [] && !s.conns[i].closed
    case PeerClose(i) => i < |s.conns| && !s.conns[i].closed
    case Drop(i) => s.mode.ET? && i < |s.conns| && s.conns[i].ready && !Readable(s.conns[i])
    case Wait(batch) =>
      && s.position.Idle? && 0 < |batch| <= MAX_EVENT_NUM
      && (forall k :: 0 <= k < |batch| ==> MayReport(s, batch[k]))
      && (forall k, m :: 0 <= k < m < |batch| ==> batch[k] != batch[m])
    case NextBatch => s.position.Handling? && s.position.rest == []
    case Accept => s.position.Handling? && |s.position.rest| > 0 && s.position.rest[0].Listener?
    case Register => s.position.Registering? && s.position.i < |s.conns|
    case Open => s.mode.ET? && s.position.Handling? && |s.position.rest| > 0 && s.position.rest[0].Client?
    case Recv(n) =>
      && |s.buff| == BUFF_SIZE && 0 < n < BUFF_SIZE
      && exists i: nat :: AtRecv(s, i) && i < |s.conns| && n <= |s.conns[i].inbox|
    case RecvNothing => exists i: nat :: AtRecv(s, i) && i < |s.conns| && s.conns[i].inbox == []
    case Write => s.position.Echoing? && s.position.i < |s.conns| && s.position.n <= |s.buff|
  }

  function Current(s: State): nat
    requires exists i: nat :: AtRecv(s, i)
  {
    if s.mode.ET? then s.position.i else s.position.rest[0].i
  }

  // epoll_wait takes the edge-triggered entries it reports off the ready list.
  function Reported(s: State, batch: seq<Event>): (r: seq<Conn>)
    ensures |r| == |s.conns|
    ensures forall i :: 0 <= i < |r| ==> r[i] == s.conns[i].(ready := s.conns[i].ready && Client(i) !in batch)
  {
    seq(|s.conns|, i requires 0 <= i < |s.conns| =>
      s.conns[i].(ready := s.conns[i].ready && Client(i) !in batch))
  }

  ghost function Apply(s: State, step: Step): State
    requires Enabled(s, step)
  {
    match step
    case Connect =>
      s.(conns := s.conns + [Conn([], false, false, false, [], [])],
         listenReady := true,
         coalesced := s.coalesced + if s.listenReady then 1 else 0)
    case Arrive(i, bytes) =>
      var conn := s.conns[i];
      s.(conns := s.conns[i := conn.(inbox := conn.inbox + bytes, arrived := conn.arrived + bytes,
                                     ready := conn.registered)])
    case PeerClose(i) =>
      s.(conns := s.conns[i := s.conns[i].(closed := true, ready := s.conns[i].registered)])
    case Drop(i) => s.(conns := s.conns[i := s.conns[i].(ready := false)])
    case Wait(batch) =>
      s.(conns := Reported(s, batch), listenReady := s.listenReady && Listener !in batch,
         position := Handling(batch))
    case NextBatch => s.(position := Idle)
    case Accept => s.(accepted := s.accepted + 1, position := Registering(s.accepted, s.position.rest[1..]))
    case Register =>
      var i := s.position.i;
      // EPOLL_CTL_ADD puts a descriptor that is already readable on the ready list
      s.(conns := s.conns[i := s.conns[i].(registered := true, ready := Readable(s.conns[i]))],
         position := Handling(s.position.rest))
    case Open => s.(position := Reading(s.position.rest[0].i, s.position.rest[1..]))
    case Recv(n) =>
      var i := Current(s);
      s.(conns := s.conns[i := s.conns[i].(inbox := s.conns[i].inbox[n..])],
         buff := s.conns[i].inbox[..n] + s.buff[n..],
         position := Echoing(i, n, RestAfterRecv(s)))
    case RecvNothing =>
      var i := Current(s);
      if s.conns[i].closed then
        s.(conns := s.conns[i := s.conns[i].(registered := false)], position := Handling(RestAfterRecv(s)))
      else if s.mode.ET? then s.(position := Handling(RestAfterRecv(s)))
      else s.(position := Failed)
    case Write =>
      var i, n := s.position.i, s.position.n;
      var buff := UpperToNul(s.buff);
      s.(conns := s.conns[i := s.conns[i].(sent := s.conns[i].sent + buff[..n])], buff := buff,
         position := if s.mode.ET? then Reading(i, s.position.rest) else Handling(s.position.rest))
  }

  ghost predicate Legal(s: State, steps: seq<Step>)
    decreases |steps|
  {
    |steps| > 0 ==> Enabled(s, steps[0]) && Legal(Apply(s, steps[0]), steps[1..])
  }

  ghost function Exec(s: State, steps: seq<Step>): State
    requires Legal(s, steps)
    decreases |steps|
  {
    if |steps| == 0 then s else Exec(Apply(s, steps[0]), steps[1..])
  }

  /* ---------------------------------------------------------------------- invariant */

  // The events of the current batch that have not been handled yet.
  function Tail(s: State): seq<Event> {
    match s.position
    case Idle => []
    case Failed => []
    case Handling(rest) => rest
    case Registering(_, rest) => rest
    case Reading(_, rest) => rest
    case Echoing(_, _, rest) => rest
  }

  // The connection the server is in the middle of.
  predicate Serving(s: State, i: nat) {
    (s.position.Reading? || s.position.Echoing?) && s.position.i == i
  }

  // How many bytes of connection i have been read but not yet written back.
  function InFlight(s: State, i: nat): nat {
    if s.position.Echoing? && s.position.i == i then s.position.n else 0
  }

  // No event is listed twice; every listed connection is open and not the one being served.
  ghost predicate Batch(s: State) {
    && (forall k, m :: 0 <= k < m < |Tail(s)| ==> Tail(s)[k] != Tail(s)[m])
    && (forall i: nat :: Client(i) in Tail(s) ==>
          i < |s.conns| && s.conns[i].registered && !Serving(s, i))
    && (forall i: nat :: Serving(s, i) ==> i < |s.conns| && s.conns[i].registered)
    && (s.mode.LT? ==> !s.position.Reading?)
    && (s.mode.LT? ==> forall i: nat :: Client(i) in Tail(s) ==> Readable(s.conns[i]))
    && !s.position.Failed?
  }

  // Every connection that arrived is accepted, about to be reported, or was coalesced away.
  ghost predicate Backlog(s: State) {
    && s.accepted <= |s.conns|
    && |s.conns| - s.accepted
         == (if s.listenReady then 1 else 0) + (if Listener in Tail(s) then 1 else 0) + s.coalesced
    && (s.position.Registering? ==> s.position.i == s.accepted - 1 && !s.conns[s.position.i].registered)
    && (forall i :: s.accepted <= i < |s.conns| ==>
          !s.conns[i].registered && s.conns[i].sent == [] && s.conns[i].inbox == s.conns[i].arrived)
  }

  /** Edge-triggered: an open client with something to read is on the ready list, in the rest
      of the batch, or being drained. */
  ghost predicate Watched(s: State) {
    s.mode.ET? ==>
      forall i: nat :: i < |s.conns| && s.conns[i].registered && Readable(s.conns[i]) ==>
        s.conns[i].ready || Client(i) in Tail(s) || Serving(s, i)
  }

  /** The bytes written back are those read, less the last `n`, which are in flight, in upper
      case. */
  ghost predicate EchoOf(arrived: seq<byte>, inbox: seq<byte>, sent: seq<byte>, n: nat) {
    var done := |arrived| - |inbox| - n;
    && done >= 0
    && inbox == arrived[done + n..]
    && |sent| == done
    && (NoLowerNearNul(arrived) ==> sent == Upper(arrived[..done]))
  }

  ghost predicate Echoed(conn: Conn, n: nat) {
    EchoOf(conn.arrived, conn.inbox, conn.sent, n)
  }

  // The front of the buffer is the last n bytes read from this connection.
  ghost predicate InBuffer(arrived: seq<byte>, inbox: seq<byte>, n: nat, buff: seq<byte>) {
    var done := |arrived| - |inbox|;
    && 0 < n < BUFF_SIZE && n <= done && n <= |buff|
    && buff[..n] == arrived[done - n..done]
  }

  ghost predicate Buffered(conn: Conn, n: nat, buff: seq<byte>) {
    InBuffer(conn.arrived, conn.inbox, n, buff)
  }

  ghost predicate Echoes(s: State) {
    && |s.buff| == BUFF_SIZE && s.buff[BUFF_SIZE - 1] == 0
    && (s.position.Echoing? ==>
          s.position.i < |s.conns| && Buffered(s.conns[s.position.i], s.position.n, s.buff))
    && (forall i: nat :: i < |s.conns| ==> Echoed(s.conns[i], InFlight(s, i)))
  }

  // A client the server has closed had been read to the end.
  ghost predicate ClosedAreDone(s: State) {
    forall i: nat :: i < |s.conns| && HasBeenClosed(s, i) ==> s.conns[i].closed && s.conns[i].inbox == []
  }

  predicate HasBeenClosed(s: State, i: nat)
    requires i < |s.conns|
  {
    i < s.accepted && !s.conns[i].registered && !(s.position.Registering? && s.position.i == i)
  }

  ghost predicate Inv(s: State) {
    Batch(s) && Backlog(s) && Watched(s) && Echoes(s) && ClosedAreDone(s)
  }

  lemma InvInit(mode: Mode)
    ensures Inv(Init(mode))
  {
  }

  // A step that consumes the head of the batch.
  predicate TakesEvent(s: State, step: Step) {
    step.Accept? || step.Open? || (s.mode.LT? && (step.Recv? || step.RecvNothing?))
  }

  lemma TailAfter(s: State, step: Step)
    requires Batch(s) && Enabled(s, step)
    ensures TakesEvent(s, step) ==> |Tail(s)| > 0
    ensures Tail(Apply(s, step)) ==
              if step.Wait? then step.batch else if TakesEvent(s, step) then Tail(s)[1..] else Tail(s)
    ensures !Apply(s, step).position.Failed?
    ensures Apply(s, step).mode == s.mode
  {
    if s.mode.LT? && step.RecvNothing? {
      assert s.position.rest[0] in Tail(s);
    }
  }

  // Connections only come to be; only their own recv closes one, and only Register opens one.
  lemma ConnsAfter(s: State, step: Step, i: nat)
    requires Enabled(s, step) && i < |s.conns|
    ensures
      var s' := Apply(s, step);
      && i < |s'.conns|
      && (s.conns[i].registered && !s'.conns[i].registered ==> step.RecvNothing? && AtRecv(s, i))
      && (!s.conns[i].registered && s'.conns[i].registered ==> step.Register? && s.position.i == i)
      && (Readable(s.conns[i]) && !Readable(s'.conns[i]) ==> step.Recv? && AtRecv(s, i))
  {
  }

  lemma BatchKept(s: State, step: Step)
    requires Batch(s) && Enabled(s, step)
    ensures Batch(Apply(s, step))
  {
    var s' := Apply(s, step);
    TailAfter(s, step);
    forall k, m | 0 <= k < m < |Tail(s')| ensures Tail(s')[k] != Tail(s')[m] {
      if TakesEvent(s, step) {
        assert Tail(s')[k] == Tail(s)[k + 1] && Tail(s')[m] == Tail(s)[m + 1];
      }
    }
    forall i: nat | Client(i) in Tail(s')
      ensures i < |s'.conns| && s'.conns[i].registered && !Serving(s', i)
      ensures s.mode.LT? ==> Readable(s'.conns[i])
    {
      ListedKept(s, step, i);
    }
    forall i: nat | Serving(s', i) ensures i < |s'.conns| && s'.conns[i].registered {
      ServedKept(s, step, i);
    }
  }

  lemma ListedKept(s: State, step: Step, i: nat)
    requires Batch(s) && Enabled(s, step) && Client(i) in Tail(Apply(s, step))
    ensures
      var s' := Apply(s, step);
      && i < |s'.conns| && s'.conns[i].registered && !Serving(s', i)
      && (s.mode.LT? ==> Readable(s'.conns[i]))
  {
    if step.Wait? {
      var k :| 0 <= k < |step.batch| && step.batch[k] == Client(i);
      assert MayReport(s, step.batch[k]);
    } else {
      StillListed(s, step, i);
      ConnsAfter(s, step, i);
      NotServedYet(s, step, i);
    }
  }

  // Events join the batch in epoll_wait only, and what the server takes up leaves it.
  lemma StillListed(s: State, step: Step, i: nat)
    requires Batch(s) && Enabled(s, step) && !step.Wait? && Client(i) in Tail(Apply(s, step))
    ensures Client(i) in Tail(s) && (TakesEvent(s, step) ==> Tail(s)[0] != Client(i))
  {
    TailAfter(s, step);
    if TakesEvent(s, step) {
      var k :| 0 <= k < |Tail(s)[1..]| && Tail(s)[1..][k] == Client(i);
      assert Tail(s)[k + 1] == Client(i) && Tail(s)[0] != Tail(s)[k + 1];
    }
  }

  lemma NotServedYet(s: State, step: Step, i: nat)
    requires Batch(s) && Enabled(s, step) && !step.Wait?
    requires Client(i) in Tail(s) && (TakesEvent(s, step) ==> Tail(s) != [] && Tail(s)[0] != Client(i))
    ensures !Serving(Apply(s, step), i) && (step.Recv? || step.RecvNothing? ==> !AtRecv(s, i))
  {
  }

  lemma ServedKept(s: State, step: Step, i: nat)
    requires Batch(s) && Enabled(s, step) && Serving(Apply(s, step), i)
    ensures i < |Apply(s, step).conns| && Apply(s, step).conns[i].registered
  {
    if TakesEvent(s, step) {
      assert Tail(s)[0] == Client(i);
      assert Client(i) in Tail(s);
    } else {
      assert Serving(s, i);
    }
    ConnsAfter(s, step, i);
  }

  lemma BacklogKept(s: State, step: Step)
    requires Batch(s) && Backlog(s) && Enabled(s, step)
    ensures Backlog(Apply(s, step))
  {
    match step
    case Connect => BacklogOfConnect(s);
    case Wait(batch) => BacklogOfWait(s, batch);
    case Accept => BacklogOfAccept(s);
    case _ =>
      TailAfter(s, step);
      PendingStay(s, step);
  }

  lemma BacklogOfConnect(s: State)
    requires Backlog(s)
    ensures Backlog(Apply(s, Connect))
  {
  }

  lemma BacklogOfWait(s: State, batch: seq<Event>)
    requires Backlog(s) && Enabled(s, Wait(batch))
    ensures Backlog(Apply(s, Wait(batch)))
  {
    if Listener in batch {
      var k :| 0 <= k < |batch| && batch[k] == Listener;
      assert MayReport(s, batch[k]);
    }
  }

  lemma BacklogOfAccept(s: State)
    requires Batch(s) && Backlog(s) && Enabled(s, Accept)
    ensures Backlog(Apply(s, Accept))
  {
    assert Tail(s)[0] == Listener;
    assert Listener !in Tail(s)[1..];
  }

  // The rest of the steps concern accepted connections only, or what the kernel holds of others.
  lemma PendingStay(s: State, step: Step)
    requires Batch(s) && Backlog(s) && Enabled(s, step)
    requires !step.Connect? && !step.Wait? && !step.Accept?
    ensures
      var s' := Apply(s, step);
      && s'.accepted == s.accepted && |s'.conns| == |s.conns| && s'.listenReady == s.listenReady
      && s'.coalesced == s.coalesced
      && (Listener in Tail(s') <==> Listener in Tail(s))
      && (s'.position.Registering? ==>
            s.position.Registering? && s'.position.i == s.position.i && !s'.conns[s'.position.i].registered)
      && (forall i :: s.accepted <= i < |s.conns| ==>
            !s'.conns[i].registered && s'.conns[i].sent == [] && s'.conns[i].inbox == s'.conns[i].arrived)
  {
    ListenerStays(s, step);
    BacklogStays(s, step);
    forall i | s.accepted <= i < |s.conns|
      ensures !Apply(s, step).conns[i].registered && Apply(s, step).conns[i].sent == []
      ensures Apply(s, step).conns[i].inbox == Apply(s, step).conns[i].arrived
    {
      PendingStays(s, step, i);
    }
  }

  lemma BacklogStays(s: State, step: Step)
    requires Backlog(s) && Enabled(s, step) && !step.Connect? && !step.Wait? && !step.Accept?
    ensures
      var s' := Apply(s, step);
      && s'.accepted == s.accepted && |s'.conns| == |s.conns| && s'.listenReady == s.listenReady
      && s'.coalesced == s.coalesced
      && (s'.position.Registering? ==>
            s.position.Registering? && s'.position.i == s.position.i && !s'.conns[s'.position.i].registered)
  {
  }

  lemma ListenerStays(s: State, step: Step)
    requires Batch(s) && Enabled(s, step) && !step.Wait? && !step.Accept?
    ensures Listener in Tail(Apply(s, step)) <==> Listener in Tail(s)
  {
    TailAfter(s, step);
    if TakesEvent(s, step) {
      assert Tail(s)[0].Client? && Tail(s) == [Tail(s)[0]] + Tail(s)[1..];
    }
  }

  lemma PendingStays(s: State, step: Step, i: nat)
    requires Batch(s) && Backlog(s) && Enabled(s, step) && s.accepted <= i < |s.conns|
    requires !step.Connect? && !step.Wait? && !step.Accept?
    ensures
      var conn := Apply(s, step).conns[i];
      !conn.registered && conn.sent == [] && conn.inbox == conn.arrived
  {
    assert !Serving(s, i) && Client(i) !in Tail(s);
    assert Tail(s) != [] ==> Tail(s)[0] in Tail(s);
  }

  lemma WatchedKept(s: State, step: Step)
    requires Batch(s) && Watched(s) && Enabled(s, step)
    ensures Watched(Apply(s, step))
  {
  }

  lemma ClosedAreDoneKept(s: State, step: Step)
    requires Batch(s) && Backlog(s) && ClosedAreDone(s) && Enabled(s, step)
    ensures ClosedAreDone(Apply(s, step))
  {
    var s' := Apply(s, step);
    forall i: nat | i < |s'.conns| && HasBeenClosed(s', i)
      ensures s'.conns[i].closed && s'.conns[i].inbox == []
    {
      ClosedStays(s, step, i);
    }
  }

  lemma ClosedStays(s: State, step: Step, i: nat)
    requires Batch(s) && Backlog(s) && Enabled(s, step)
    requires i < |s.conns| && HasBeenClosed(s, i) ==> s.conns[i].closed && s.conns[i].inbox == []
    requires i < |Apply(s, step).conns| && HasBeenClosed(Apply(s, step), i)
    ensures Apply(s, step).conns[i].closed && Apply(s, step).conns[i].inbox == []
  {
    if step.Accept? {
      assert Listener in Tail(s);
    }
  }

  lemma EchoesKept(s: State, step: Step)
    requires Echoes(s) && Enabled(s, step)
    ensures Echoes(Apply(s, step))
  {
    var s' := Apply(s, step);
    BufferKept(s, step);
    forall i: nat | i < |s'.conns| ensures Echoed(s'.conns[i], InFlight(s', i)) {
      EchoOfKept(s, step, i);
    }
  }

  // Only arrivals, recv and write touch what an echo is about.
  lemma NoEcho(s: State, step: Step, i: nat)
    requires Enabled(s, step) && i < |s.conns|
    requires !(step.Arrive? && step.i == i)
    requires !(step.Recv? && Current(s) == i)
    requires !(step.Write? && s.position.i == i)
    ensures
      var s' := Apply(s, step);
      && i < |s'.conns| && InFlight(s', i) == InFlight(s, i)
      && s'.conns[i].inbox == s.conns[i].inbox
      && s'.conns[i].arrived == s.conns[i].arrived
      && s'.conns[i].sent == s.conns[i].sent
  {
  }

  lemma BufferKept(s: State, step: Step)
    requires Echoes(s) && Enabled(s, step)
    ensures
      var s' := Apply(s, step);
      && |s'.buff| == BUFF_SIZE && s'.buff[BUFF_SIZE - 1] == 0
      && (s'.position.Echoing? ==>
            s'.position.i < |s'.conns| && Buffered(s'.conns[s'.position.i], s'.position.n, s'.buff))
  {
    if step.Recv? {
      var conn := s.conns[Current(s)];
      assert Echoed(conn, InFlight(s, Current(s)));
      RecvEcho(conn.arrived, conn.inbox, conn.sent, step.n, s.buff);
    } else if s.position.Echoing? && !step.Write? {
      var i := s.position.i;
      if step.Arrive? && step.i == i {
        var conn := s.conns[i];
        assert Echoed(conn, InFlight(s, i));
        ArriveEcho(conn.arrived, conn.inbox, conn.sent, s.position.n, step.bytes, s.buff);
      } else {
        NoEcho(s, step, i);
      }
    }
  }

  lemma EchoOfKept(s: State, step: Step, i: nat)
    requires Echoes(s) && Enabled(s, step) && i < |Apply(s, step).conns|
    ensures Echoed(Apply(s, step).conns[i], InFlight(Apply(s, step), i))
  {
    if i < |s.conns| {
      assert Echoed(s.conns[i], InFlight(s, i));
      if (step.Arrive? && step.i == i) || (step.Recv? && Current(s) == i) || (step.Write? && s.position.i == i) {
        EchoMoves(s, step, i);
      } else {
        NoEcho(s, step, i);
      }
    }
  }

  lemma EchoMoves(s: State, step: Step, i: nat)
    requires |s.buff| == BUFF_SIZE && Enabled(s, step) && i < |s.conns|
    requires Echoed(s.conns[i], InFlight(s, i))
    requires s.position.Echoing? && s.position.i == i ==> Buffered(s.conns[i], s.position.n, s.buff)
    requires (step.Arrive? && step.i == i) || (step.Recv? && Current(s) == i) || (step.Write? && s.position.i == i)
    ensures i < |Apply(s, step).conns|
    ensures Echoed(Apply(s, step).conns[i], InFlight(Apply(s, step), i))
  {
    var conn, n := s.conns[i], InFlight(s, i);
    if step.Arrive? {
      ArriveEcho(conn.arrived, conn.inbox, conn.sent, n, step.bytes, s.buff);
    } else if step.Recv? {
      RecvEcho(conn.arrived, conn.inbox, conn.sent, step.n, s.buff);
    } else {
      WriteEcho(conn.arrived, conn.inbox, conn.sent, n, s.buff);
    }
  }

  lemma ArriveEcho(arrived: seq<byte>, inbox: seq<byte>, sent: seq<byte>, n: nat, bytes: seq<byte>, buff: seq<byte>)
    requires EchoOf(arrived, inbox, sent, n)
    ensures EchoOf(arrived + bytes, inbox + bytes, sent, n)
    ensures InBuffer(arrived, inbox, n, buff) ==> InBuffer(arrived + bytes, inbox + bytes, n, buff)
  {
    var done := |arrived| - |inbox| - n;
    if NoLowerNearNul(arrived + bytes) {
      NearNulParts(arrived, bytes);
    }
    assert (arrived + bytes)[..done] == arrived[..done];
    assert (arrived + bytes)[done..done + n] == arrived[done..done + n];
  }

  lemma RecvEcho(arrived: seq<byte>, inbox: seq<byte>, sent: seq<byte>, n: nat, buff: seq<byte>)
    requires EchoOf(arrived, inbox, sent, 0)
    requires |buff| == BUFF_SIZE && 0 < n < BUFF_SIZE && n <= |inbox|
    ensures EchoOf(arrived, inbox[n..], sent, n)
    ensures InBuffer(arrived, inbox[n..], n, inbox[..n] + buff[n..])
  {
    var done := |arrived| - |inbox|;
    assert inbox[n..] == arrived[done + n..];
    assert inbox[..n] == arrived[done..done + n];
    assert (inbox[..n] + buff[n..])[..n] == inbox[..n];
  }

  // Writing back the chunk in flight brings the echo up to what has been read.
  lemma WriteEcho(arrived: seq<byte>, inbox: seq<byte>, sent: seq<byte>, n: nat, buff: seq<byte>)
    requires EchoOf(arrived, inbox, sent, n) && InBuffer(arrived, inbox, n, buff)
    ensures EchoOf(arrived, inbox, sent + UpperToNul(buff)[..n], 0)
  {
    var done := |arrived| - |inbox|;
    var before, chunk := arrived[..done - n], buff[..n];
    assert buff == chunk + buff[n..];
    TailDoesNotMatter(chunk, buff[n..]);
    assert UpperToNul(buff)[..n] == UpperToNul(chunk);
    assert arrived[..done] == before + chunk;
    if NoLowerNearNul(arrived) {
      assert arrived[..done] + arrived[done..] == arrived;
      NearNulParts(arrived[..done], arrived[done..]);
      EchoGrows(before, chunk);
    }
  }

  lemma InvKept(s: State, step: Step)
    requires Inv(s) && Enabled(s, step)
    ensures Inv(Apply(s, step))
  {
    BatchKept(s, step);
    BacklogKept(s, step);
    WatchedKept(s, step);
    EchoesKept(s, step);
    ClosedAreDoneKept(s, step);
  }

  lemma {:induction false} InvRun(s: State, steps: seq<Step>)
    requires Inv(s) && Legal(s, steps)
    ensures Inv(Exec(s, steps)) && Exec(s, steps).mode == s.mode
    decreases |steps|
  {
    if |steps| > 0 {
      InvKept(s, steps[0]);
      TailAfter(s, steps[0]);
      InvRun(Apply(s, steps[0]), steps[1..]);
    }
  }

  /* ----------------------------------------------------------------------- theorems */

  ghost function Reached(mode: Mode, steps: seq<Step>): State
    requires Legal(Init(mode), steps)
  {
    Exec(Init(mode), steps)
  }

  /** In both modes and at any time, what a client has been sent is the upper case of what has
      been read from it, the chunk in flight apart, if it sends no lower-case letter within four
      places behind a NUL. In any case as many bytes have been sent as read. */
  lemma EchoIsUpperOfRead(mode: Mode, steps: seq<Step>, i: nat)
    requires Legal(Init(mode), steps) && i < |Reached(mode, steps).conns|
    ensures
      var s := Reached(mode, steps);
      var conn := s.conns[i];
      var done := |conn.arrived| - |conn.inbox| - InFlight(s, i);
      && 0 <= done && conn.inbox == conn.arrived[done + InFlight(s, i)..]
      && |conn.sent| == done
      && (NoLowerNearNul(conn.arrived) ==> InCapitals(conn.arrived[..done], conn.sent))
  {
    InvRun(Init(mode), steps);
    var conn := Reached(mode, steps).conns[i];
    assert Echoed(conn, InFlight(Reached(mode, steps), i));
    UpperIsCapitals(conn.arrived[..|conn.arrived| - |conn.inbox| - InFlight(Reached(mode, steps), i)], conn.sent);
  }

  /** Edge-triggered, a client with bytes to read or a close to notice is never forgotten, even
      if the bytes come between any two system calls of the server. */
  lemma NoClientIsForgotten(steps: seq<Step>, i: nat)
    requires Legal(Init(ET), steps) && i < |Reached(ET, steps).conns|
    requires Reached(ET, steps).conns[i].registered && Readable(Reached(ET, steps).conns[i])
    ensures
      var s := Reached(ET, steps);
      s.conns[i].ready || Client(i) in Tail(s) || Serving(s, i)
  {
    InvRun(Init(ET), steps);
  }

  // The server is blocked in epoll_wait and the kernel has nothing to report.
  ghost predicate Quiet(s: State) {
    s.position.Idle? && forall e :: !MayReport(s, e)
  }

  // The system calls of the server.
  predicate OfServer(step: Step) {
    match step
    case Connect => false
    case Arrive(_, _) => false
    case PeerClose(_) => false
    case Drop(_) => false
    case _ => true
  }

  /** Until it is quiet the server can always make its next call. */
  lemma NeverStuck(mode: Mode, steps: seq<Step>)
    requires Legal(Init(mode), steps) && !Quiet(Reached(mode, steps))
    ensures exists step :: OfServer(step) && Enabled(Reached(mode, steps), step)
  {
    InvRun(Init(mode), steps);
    NextCallExists(Reached(mode, steps));
  }

  lemma NextCallExists(s: State)
    requires Inv(s) && !Quiet(s)
    ensures exists step :: OfServer(step) && Enabled(s, step)
  {
    if s.position.Idle? {
      var e :| MayReport(s, e);
      assert [e][0] == e && OfServer(Wait([e])) && Enabled(s, Wait([e]));
    } else {
      var step := NextCall(s);
      assert OfServer(step) && Enabled(s, step);
    }
  }

  ghost function NextCall(s: State): (step: Step)
    requires Inv(s) && !s.position.Idle?
    ensures OfServer(step) && Enabled(s, step)
  {
    match s.position
    case Handling(rest) =>
      if rest == [] then NextBatch
      else if rest[0].Listener? then Accept
      else if s.mode.ET? then Open
      else
        assert Client(rest[0].i) in Tail(s) && AtRecv(s, rest[0].i);
        if s.conns[rest[0].i].inbox == [] then RecvNothing else Recv(1)
    case Registering(_, _) => Register
    case Reading(i, _) =>
      assert Serving(s, i) && AtRecv(s, i);
      if s.conns[i].inbox == [] then RecvNothing else Recv(1)
    case Echoing(_, _, _) => Write
  }

  /** When the server falls quiet, in either mode, every accepted client has been read to the
      end and answered in full, and the clients that closed have been closed. */
  lemma QuietMeansAnswered(mode: Mode, steps: seq<Step>, i: nat)
    requires Legal(Init(mode), steps) && Quiet(Reached(mode, steps))
    requires i < Reached(mode, steps).accepted
    ensures
      var s := Reached(mode, steps);
      && i < |s.conns|
      && s.conns[i].inbox == []
      && s.conns[i].registered == !s.conns[i].closed
      && |s.conns[i].sent| == |s.conns[i].arrived|
      && (NoLowerNearNul(s.conns[i].arrived) ==> InCapitals(s.conns[i].arrived, s.conns[i].sent))
  {
    InvRun(Init(mode), steps);
    var s := Reached(mode, steps);
    var conn := s.conns[i];
    assert !MayReport(s, Client(i));
    assert Echoed(conn, InFlight(s, i));
    assert conn.arrived[..|conn.arrived|] == conn.arrived;
    UpperIsCapitals(conn.arrived, conn.sent);
  }

  /** The two modes agree: clients that sent the same bytes to a quiet level-triggered and a
      quiet edge-triggered server have been sent the same bytes, however the reads were cut. */
  lemma ModesAgree(lt: seq<Step>, et: seq<Step>, i: nat, j: nat)
    requires Legal(Init(LT), lt) && Quiet(Reached(LT, lt)) && i < Reached(LT, lt).accepted
    requires Legal(Init(ET), et) && Quiet(Reached(ET, et)) && j < Reached(ET, et).accepted
    requires i < |Reached(LT, lt).conns| && j < |Reached(ET, et).conns|
    requires Reached(LT, lt).conns[i].arrived == Reached(ET, et).conns[j].arrived
    requires NoLowerNearNul(Reached(LT, lt).conns[i].arrived)
    ensures Reached(LT, lt).conns[i].sent == Reached(ET, et).conns[j].sent
  {
    QuietMeansAnswered(LT, lt, i);
    QuietMeansAnswered(ET, et, j);
    UpperIsCapitals(Reached(LT, lt).conns[i].arrived, Reached(LT, lt).conns[i].sent);
    UpperIsCapitals(Reached(ET, et).conns[j].arrived, Reached(ET, et).conns[j].sent);
  }

  /** The read of lt_work never sees an error, accept never comes up empty, and no event of a
      batch concerns a connection that has been closed. */
  lemma CallsSucceed(mode: Mode, steps: seq<Step>)
    requires Legal(Init(mode), steps)
    ensures
      var s := Reached(mode, steps);
      && !s.position.Failed?
      && (Enabled(s, Accept) ==> s.accepted < |s.conns|)
      && (forall i: nat :: Client(i) in Tail(s) ==> i < |s.conns| && s.conns[i].registered)
  {
    InvRun(Init(mode), steps);
    var s := Reached(mode, steps);
    if Enabled(s, Accept) {
      assert Listener in Tail(s);
    }
  }

  /** The events of a batch fit into the array of 21 that epoll_wait fills. */
  lemma {:induction false} EventsFit(s: State, steps: seq<Step>)
    requires Batch(s) && |Tail(s)| <= 21 && Legal(s, steps)
    ensures Batch(Exec(s, steps)) && |Tail(Exec(s, steps))| <= 21
    decreases |steps|
  {
    if |steps| > 0 {
      TailAfter(s, steps[0]);
      BatchKept(s, steps[0]);
      EventsFit(Apply(s, steps[0]), steps[1..]);
    }
  }

  /** And up to 21 of them are reported at once. */
  lemma FullBatch(s: State, batch: seq<Event>)
    requires s.position.Idle? && 0 < |batch| <= 21
    requires forall k :: 0 <= k < |batch| ==> MayReport(s, batch[k])
    requires forall k, m :: 0 <= k < m < |batch| ==> batch[k] != batch[m]
    ensures Enabled(s, Wait(batch)) && Tail(Apply(s, Wait(batch))) == batch
  {
  }

  /** One accept per event: a quiet server has accepted everyone exactly when no connection
      arrived while an earlier one was still waiting to be reported. */
  lemma AllAcceptedIffNoneCoalesced(mode: Mode, steps: seq<Step>)
    requires Legal(Init(mode), steps) && Quiet(Reached(mode, steps))
    ensures
      var s := Reached(mode, steps);
      && |s.conns| - s.accepted == s.coalesced
      && (s.accepted == |s.conns| <==> s.coalesced == 0)
  {
    InvRun(Init(mode), steps);
    assert !MayReport(Reached(mode, steps), Listener);
  }
}
