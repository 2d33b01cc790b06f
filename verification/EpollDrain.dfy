/**
 The inner loop of et_work as code: one client's connection, the reused buffer, and a peer that
 sends and closes between any two calls of recv. What it does is a run of the server's steps.
 */
module EpollDrain {
  import opened Bytes
  import opened EchoBuffer
  import opened EpollServer
  import opened EpollRuns

  // What the peer does just before one of the recv calls: it sends, and then it may close.
  datatype Deed = Deed(bytes: seq<byte>, close: bool)

  /** What n deeds bring, and whether the peer has closed after them. Once it has, it does nothing. */
  function Sends(deeds: seq<Deed>, n: nat, closed: bool): (seq<byte>, bool)
    requires n <= |deeds|
  {
    if n == 0 then ([], closed)
    else
      var (bytes, shut) := Sends(deeds, n - 1, closed);
      if shut then (bytes, true) else (bytes + deeds[n - 1].bytes, deeds[n - 1].close)
  }

  // How many bytes the deeds from n on hold.
  function SizeFrom(deeds: seq<Deed>, n: nat): nat
    requires n <= |deeds|
    decreases |deeds| - n
  {
    if n == |deeds| then 0 else |deeds[n].bytes| + SizeFrom(deeds, n + 1)
  }

  function Least(a: nat, b: nat): nat {
    if a <= b then a else b
  }

  // The connection as the server's state has it.
  ghost function Kept(conn: Connection): Conn
    reads conn
  {
    Conn(conn.inbox, conn.closed, conn.ready, conn.registered, conn.sent, conn.arrived)
  }

  // This run has brought connection i, the buffer and the position to these.
  ghost predicate LeadsTo(start: State, run: seq<Step>, i: nat, conn: Conn, buff: seq<byte>, position: Position) {
    && i < |start.conns| && Legal(start, run)
    && Exec(start, run) == start.(conns := start.conns[i := conn], buff := buff, position := position)
  }

  // The connection after a deed of its peer.
  function After(conn: Conn, deed: Deed): Conn {
    if conn.closed then conn
    else conn.(inbox := conn.inbox + deed.bytes, arrived := conn.arrived + deed.bytes,
               ready := conn.ready || deed.bytes != [] || deed.close, closed := deed.close)
  }

  lemma DeedIsARun(start: State, run: seq<Step>, i: nat, conn: Conn, buff: seq<byte>, position: Position, deed: Deed)
    returns (more: seq<Step>)
    requires LeadsTo(start, run, i, conn, buff, position) && conn.registered
    ensures LeadsTo(start, more, i, After(conn, deed), buff, position)
  {
    more := run;
    if !conn.closed {
      var sent := After(conn, deed.(close := false));
      if deed.bytes != [] {
        more := Then(start, more, Arrive(i, deed.bytes));
      } else {
        assert conn.inbox + [] == conn.inbox && conn.arrived + [] == conn.arrived;
      }
      assert start.conns[i := conn][i := sent] == start.conns[i := sent];
      if deed.close {
        more := Then(start, more, PeerClose(i));
        assert start.conns[i := sent][i := After(conn, deed)] == start.conns[i := After(conn, deed)];
      }
    }
  }

  method PeerActs(conn: Connection, deed: Deed, ghost start: State, ghost run: seq<Step>, ghost i: nat,
                  ghost buff: seq<byte>, ghost position: Position)
    returns (ghost more: seq<Step>)
    requires conn.registered && LeadsTo(start, run, i, Kept(conn), buff, position)
    modifies conn`inbox, conn`closed, conn`ready, conn`arrived
    ensures Kept(conn) == After(old(Kept(conn)), deed)
    ensures LeadsTo(start, more, i, Kept(conn), buff, position)
  {
    more := DeedIsARun(start, run, i, Kept(conn), buff, position, deed);
    if !conn.closed {
      conn.inbox := conn.inbox + deed.bytes;
      conn.arrived := conn.arrived + deed.bytes;
      conn.ready := conn.ready || deed.bytes != [] || deed.close;
      conn.closed := deed.close;
    }
  }

  // The connection after `len` bytes have been read from it and answered.
  function AfterRead(conn: Conn, len: nat): Conn
    requires len <= |conn.inbox|
  {
    conn.(inbox := conn.inbox[len..], sent := conn.sent + UpperToNul(conn.inbox[..len]))
  }

  lemma RecvAndWriteOn(start: State, run: seq<Step>, i: nat, conn: Conn, buff: seq<byte>, rest: seq<Event>, n: nat)
    returns (more: seq<Step>)
    requires LeadsTo(start, run, i, conn, buff, Reading(i, rest)) && start.mode.ET?
    requires |buff| == BUFF_SIZE && 0 < n < BUFF_SIZE && n <= |conn.inbox|
    ensures LeadsTo(start, more, i, AfterRead(conn, n), UpperToNul(conn.inbox[..n] + buff[n..]), Reading(i, rest))
  {
    more := RecvAndWrite(start, run, i, n);
    assert start.conns[i := conn][i := AfterRead(conn, n)] == start.conns[i := AfterRead(conn, n)];
  }

  lemma RecvNothingOn(start: State, run: seq<Step>, i: nat, conn: Conn, buff: seq<byte>, rest: seq<Event>)
    returns (more: seq<Step>)
    requires LeadsTo(start, run, i, conn, buff, Reading(i, rest)) && start.mode.ET?
    requires conn.inbox == [] && conn.registered
    ensures LeadsTo(start, more, i, conn.(registered := !conn.closed), buff, Handling(rest))
  {
    assert AtRecv(Exec(start, run), i);
    more := Then(start, run, RecvNothing);
    var now := conn.(registered := !conn.closed);
    assert start.conns[i := conn][i := now] == start.conns[i := now];
  }

  lemma OpenOn(start: State, i: nat, rest: seq<Event>) returns (run: seq<Step>)
    requires i < |start.conns| && start.mode.ET? && start.position == Handling([Client(i)] + rest)
    ensures LeadsTo(start, run, i, start.conns[i], start.buff, Reading(i, rest))
  {
    run := Then(start, [], Open);
    assert ([Client(i)] + rest)[1..] == rest;
    assert start.conns[i := start.conns[i]] == start.conns;
  }

  // What has been read so far, and the answer to it.
  ghost predicate Answered(before: seq<byte>, sent: seq<byte>, read: seq<byte>) {
    && |sent| == |before| + |read| && before <= sent
    && (NoLowerNearNul(read) ==> InCapitals(read, sent[|before|..]))
  }

  lemma AnswerOn(before: seq<byte>, sent: seq<byte>, read: seq<byte>, chunk: seq<byte>)
    requires Answered(before, sent, read) && |chunk| < BUFF_SIZE
    ensures Answered(before, sent + UpperToNul(chunk), read + chunk)
  {
    var out := UpperToNul(chunk);
    assert (sent + out)[|before|..] == sent[|before|..] + out;
    if NoLowerNearNul(read + chunk) {
      NearNulParts(read, chunk);
      UpperIsCapitals(read, sent[|before|..]);
      EchoGrows(read, chunk);
      UpperIsCapitals(read + chunk, sent[|before|..] + out);
    }
  }

  // From `first` on n deeds have happened, `read` has been read and answered, the rest is unread.
  ghost predicate Drained(first: Conn, conn: Conn, deeds: seq<Deed>, n: nat, read: seq<byte>) {
    && n <= |deeds| && conn.registered
    && var (came, shut) := Sends(deeds, n, first.closed);
       && conn.closed == shut && conn.arrived == first.arrived + came
       && first.inbox + came == read + conn.inbox
       && Answered(first.sent, conn.sent, read)
  }

  lemma DrainedStart(conn: Conn, deeds: seq<Deed>)
    requires conn.registered
    ensures Drained(conn, conn, deeds, 0, [])
  {
    assert conn.inbox + [] == [] + conn.inbox;
  }

  lemma DrainedDeed(first: Conn, conn: Conn, deeds: seq<Deed>, n: nat, read: seq<byte>)
    requires Drained(first, conn, deeds, n, read) && n < |deeds|
    ensures Drained(first, After(conn, deeds[n]), deeds, n + 1, read)
  {
    var came := Sends(deeds, n, first.closed).0;
    Associative(first.arrived, came, deeds[n].bytes);
    Associative(first.inbox, came, deeds[n].bytes);
    Associative(read, conn.inbox, deeds[n].bytes);
  }

  lemma DrainedChunk(first: Conn, conn: Conn, deeds: seq<Deed>, n: nat, read: seq<byte>, len: nat)
    requires Drained(first, conn, deeds, n, read) && len < BUFF_SIZE && len <= |conn.inbox|
    ensures Drained(first, AfterRead(conn, len), deeds, n, read + conn.inbox[..len])
  {
    AnswerOn(first.sent, conn.sent, read, conn.inbox[..len]);
    Associative(read, conn.inbox[..len], conn.inbox[len..]);
    assert conn.inbox[..len] + conn.inbox[len..] == conn.inbox;
  }

  // One recv and its echo, as part of the run.
  method RecvOnce(conn: Connection, buff: array<byte>, ghost start: State, ghost run: seq<Step>, ghost i: nat,
                  ghost rest: seq<Event>)
    returns (len: nat, ghost more: seq<Step>)
    requires buff.Length == BUFF_SIZE && buff[BUFF_SIZE - 1] == 0 && start.mode.ET?
    requires LeadsTo(start, run, i, Kept(conn), buff[..], Reading(i, rest))
    modifies conn`inbox, conn`sent, buff
    ensures LeadsTo(start, more, i, Kept(conn), buff[..], Reading(i, rest))
    ensures buff[BUFF_SIZE - 1] == 0
    ensures len < BUFF_SIZE && len <= |old(conn.inbox)| && (len == 0 <==> old(conn.inbox) == [])
    ensures Kept(conn) == AfterRead(old(Kept(conn)), len)
  {
    ghost var kept, stale := Kept(conn), buff[..];
    len := RecvAndEcho(conn, buff);
    if len > 0 {
      more := RecvAndWriteOn(start, run, i, kept, stale, rest, len);
    } else {
      more := run;
    }
  }

  // What is still to be read, with the deeds to come.
  function Ahead(inbox: seq<byte>, deeds: seq<Deed>, rounds: nat): nat {
    |inbox| + SizeFrom(deeds, Least(rounds, |deeds|))
  }

  /** The condition of the loop, with what the peer does before it, and the body of the loop. */
  method Round(conn: Connection, buff: array<byte>, deeds: seq<Deed>, rounds: nat, ghost first: Conn,
               ghost read: seq<byte>, ghost start: State, ghost run: seq<Step>, ghost i: nat, ghost rest: seq<Event>)
    returns (len: nat, ghost now: seq<byte>, ghost more: seq<Step>)
    requires buff.Length == BUFF_SIZE && buff[BUFF_SIZE - 1] == 0 && start.mode.ET?
    requires LeadsTo(start, run, i, Kept(conn), buff[..], Reading(i, rest))
    requires Drained(first, Kept(conn), deeds, Least(rounds, |deeds|), read)
    modifies conn`inbox, conn`closed, conn`ready, conn`arrived, conn`sent, buff
    ensures buff[BUFF_SIZE - 1] == 0
    ensures LeadsTo(start, more, i, Kept(conn), buff[..], Reading(i, rest))
    ensures Drained(first, Kept(conn), deeds, Least(rounds + 1, |deeds|), now)
    ensures Ahead(conn.inbox, deeds, rounds + 1) + len <= Ahead(old(conn.inbox), deeds, rounds)
    ensures len == 0 ==> conn.inbox == []
  {
    more := run;
    if rounds < |deeds| {
      DrainedDeed(first, Kept(conn), deeds, rounds, read);
      more := PeerActs(conn, deeds[rounds], start, more, i, buff[..], Reading(i, rest));
    }
    ghost var kept := Kept(conn);
    len, more := RecvOnce(conn, buff, start, more, i, rest);
    DrainedChunk(first, kept, deeds, Least(rounds + 1, |deeds|), read, len);
    now := read + kept.inbox[..len];
  }

  lemma DrainedEnd(first: Conn, conn: Conn, deeds: seq<Deed>, n: nat, read: seq<byte>)
    requires Drained(first, conn, deeds, n, read) && conn.inbox == []
    ensures
      var (came, shut) := Sends(deeds, n, first.closed);
      && conn.closed == shut && conn.arrived == first.arrived + came
      && Answered(first.sent, conn.sent, first.inbox + came)
  {
    assert read + [] == read;
  }

  /** The server is about to handle client i's event. `deeds[k]` is what the peer does just before
      the k-th recv, and `rounds` says how many recv calls there were. Everything that came before
      the last of them has been read and answered, the connection is dropped exactly if the peer
      had closed by then, and all of it is a run of the server's steps. */
  method EtDrain(conn: Connection, buff: array<byte>, deeds: seq<Deed>,
                 ghost start: State, ghost i: nat, ghost rest: seq<Event>)
    returns (rounds: nat, ghost run: seq<Step>)
    requires buff.Length == BUFF_SIZE && buff[BUFF_SIZE - 1] == 0
    requires start.mode.ET? && start.position == Handling([Client(i)] + rest)
    requires i < |start.conns| && start.conns[i] == Kept(conn) && start.buff == buff[..] && conn.registered
    modifies conn, buff
    ensures LeadsTo(start, run, i, Kept(conn), buff[..], Handling(rest))
    ensures buff[BUFF_SIZE - 1] == 0 && rounds >= 1 && conn.inbox == []
    ensures
      var (came, shut) := Sends(deeds, Least(rounds, |deeds|), old(conn.closed));
      && conn.closed == shut && conn.registered == !shut
      && conn.arrived == old(conn.arrived) + came
      && Answered(old(conn.sent), conn.sent, old(conn.inbox) + came)
  {
    ghost var first := Kept(conn);
    rounds := 0;
    run := OpenOn(start, i, rest);
    ghost var read: seq<byte> := [];
    DrainedStart(first, deeds);
    var len: nat := 1;
    while len > 0
      invariant buff[BUFF_SIZE - 1] == 0
      invariant LeadsTo(start, run, i, Kept(conn), buff[..], Reading(i, rest))
      invariant Drained(first, Kept(conn), deeds, Least(rounds, |deeds|), read)
      invariant len == 0 ==> conn.inbox == [] && rounds >= 1
      decreases Ahead(conn.inbox, deeds, rounds), len
    {
      len, read, run := Round(conn, buff, deeds, rounds, first, read, start, run, i, rest);
      rounds := rounds + 1;
    }
    DrainedEnd(first, Kept(conn), deeds, Least(rounds, |deeds|), read);
    run := RecvNothingOn(start, run, i, Kept(conn), buff[..], rest);
    if conn.closed {
      conn.registered := false;
    }
  }
}
