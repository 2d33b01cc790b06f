/**
 get_line and do_read of http_code/epoll/http_epoll.c: the available bytes of a socket cut into
 lines. A carriage return, with or without a line feed after it, ends a line as a line feed
 does; section 2.2 of RFC 9112 has CRLF and a bare LF, a bare CR is the program's own rule.
 */
module GetLine {
  import opened Bytes

  const CR: byte := 13
  const LF: byte := 10

  /** The stream with every CRLF and every other CR turned into LF. */
  function Normalise(s: seq<byte>): (r: seq<byte>)
    ensures |r| <= |s|
    ensures |r| == 0 <==> |s| == 0
  {
    if |s| == 0 then []
    else if s[0] != CR then [s[0]] + Normalise(s[1..])
    else if |s| > 1 && s[1] == LF then [LF] + Normalise(s[2..])
    else [LF] + Normalise(s[1..])
  }

  /** Where a line of at most `limit` bytes ends. */
  function LineLength(s: seq<byte>, limit: nat): (n: nat)
    ensures n <= |s| && n <= limit
  {
    if |s| == 0 || limit == 0 then 0
    else if s[0] == LF then 1
    else 1 + LineLength(s[1..], limit - 1)
  }

  /** That is after its first LF, at the limit, or at the end of the bytes, whichever is first. */
  lemma {:induction false} LineEnds(s: seq<byte>, limit: nat)
    ensures
      var n := LineLength(s, limit);
      && (n == 0 <==> |s| == 0 || limit == 0)
      && (forall k :: 0 <= k < n - 1 ==> s[k] != LF)
      && (n == |s| || n == limit || (n > 0 && s[n - 1] == LF))
  {
    if |s| > 0 && limit > 0 && s[0] != LF {
      LineEnds(s[1..], limit - 1);
    }
  }

  predicate EndsInCR(s: seq<byte>) {
    |s| > 0 && s[|s| - 1] == CR
  }

  // The second part begins with the LF that belongs to the CR at the end of the first.
  predicate CutsCRLF(a: seq<byte>, b: seq<byte>) {
    EndsInCR(a) && |b| > 0 && b[0] == LF
  }

  lemma {:induction false} NormaliseJoins(a: seq<byte>, b: seq<byte>)
    requires !CutsCRLF(a, b)
    ensures Normalise(a + b) == Normalise(a) + Normalise(b)
  {
    if |a| == 0 {
      assert a + b == b;
    } else {
      var k := if a[0] == CR && |a| > 1 && a[1] == LF then 2 else 1;
      assert (a + b)[k..] == a[k..] + b;
      NormaliseJoins(a[k..], b);
      Associative([if a[0] == CR then LF else a[0]], Normalise(a[k..]), Normalise(b));
    }
  }

  lemma {:induction false} NormaliseLosesOne(a: seq<byte>, b: seq<byte>)
    requires CutsCRLF(a, b)
    ensures |Normalise(a + b)| == |Normalise(a)| + |Normalise(b)| - 1
  {
    if |a| == 1 {
      assert (a + b)[2..] == b[1..];
    } else {
      var k := if a[0] == CR && a[1] == LF then 2 else 1;
      assert (a + b)[k..] == a[k..] + b;
      NormaliseLosesOne(a[k..], b);
    }
  }

  /** Normalising a stream in two parts, as happens when the second part arrives later, gives the
      same as normalising it whole exactly unless the parts fall between a CR and its LF; then
      one line feed too many comes out. */
  lemma NormaliseSplit(a: seq<byte>, b: seq<byte>)
    ensures Normalise(a + b) == Normalise(a) + Normalise(b) <==> !CutsCRLF(a, b)
    ensures CutsCRLF(a, b) ==> |Normalise(a + b)| == |Normalise(a)| + |Normalise(b)| - 1
  {
    if CutsCRLF(a, b) {
      NormaliseLosesOne(a, b);
    } else {
      NormaliseJoins(a, b);
    }
  }

  /** The normalised stream holds no CR, and a stream without CR is left alone. */
  lemma {:induction false} NoCRIsLeft(s: seq<byte>)
    ensures 13 !in Normalise(s)
    ensures 13 !in s ==> Normalise(s) == s
  {
    if |s| > 0 {
      NoCRIsLeft(s[1..]);
      if |s| > 1 {
        NoCRIsLeft(s[2..]);
      }
      assert s == [s[0]] + s[1..];
    }
  }

  /** A line ends in one LF in the normalised stream, whether it was sent with CRLF, LF or CR. */
  lemma LineNormalised(line: seq<byte>, rest: seq<byte>)
    requires 13 !in line
    ensures Normalise(line + [13, 10] + rest) == line + [10] + Normalise(rest)
    ensures Normalise(line + [10] + rest) == line + [10] + Normalise(rest)
    ensures !(|rest| > 0 && rest[0] == 10) ==> Normalise(line + [13] + rest) == line + [10] + Normalise(rest)
  {
    NoCRIsLeft(line);
    var crlf, lf, cr := [13, 10] + rest, [10] + rest, [13] + rest;
    NormaliseJoins(line, crlf);
    NormaliseJoins(line, lf);
    NormaliseJoins(line, cr);
    assert crlf[2..] == lf[1..] == cr[1..] == rest;
    Associative(line, [13, 10], rest);
    Associative(line, [10], rest);
    Associative(line, [13], rest);
    Associative(line, [10], Normalise(rest));
  }

  /* ------------------------------------------------------------ the lines of a stream */

  // The stream cut into lines of at most `limit` bytes, and an empty one at its end.
  function Lines(s: seq<byte>, limit: nat): (r: seq<seq<byte>>)
    requires limit > 0
    ensures |r| > 0
    decreases |s|
  {
    if |s| == 0 then [[]]
    else
      var n := LineLength(s, limit);
      [s[..n]] + Lines(s[n..], limit)
  }

  function Concat(parts: seq<seq<byte>>): seq<byte> {
    if |parts| == 0 then [] else parts[0] + Concat(parts[1..])
  }

  /** These lines make up the stream, and the empty line comes last and only there. */
  lemma {:induction false} LinesMakeTheStream(s: seq<byte>, limit: nat)
    requires limit > 0
    ensures
      var r := Lines(s, limit);
      && Concat(r) == s && |r[0]| == LineLength(s, limit)
      && (|r| == 1 <==> s == [])
      && forall k :: 0 <= k < |r| ==> |r[k]| <= limit && (r[k] == [] <==> k == |r| - 1)
    decreases |s|
  {
    if |s| > 0 {
      var n := LineLength(s, limit);
      LinesMakeTheStream(s[n..], limit);
      assert s == s[..n] + s[n..];
    }
  }

  // These lines, each with CRLF.
  function Request(lines: seq<seq<byte>>): seq<byte> {
    if |lines| == 0 then [] else lines[0] + [13, 10] + Request(lines[1..])
  }

  // These lines, each with LF, and an empty one.
  function Delivered(lines: seq<seq<byte>>): seq<seq<byte>> {
    if |lines| == 0 then [[]] else [lines[0] + [10]] + Delivered(lines[1..])
  }

  predicate PlainLines(lines: seq<seq<byte>>, limit: nat) {
    forall k :: 0 <= k < |lines| ==> 13 !in lines[k] && 10 !in lines[k] && |lines[k]| < limit
  }

  // A line with its LF, if it fits, is what comes first.
  lemma {:induction false} FirstLine(line: seq<byte>, rest: seq<byte>, limit: nat)
    requires 10 !in line && |line| < limit
    ensures LineLength(line + [10] + rest, limit) == |line| + 1
  {
    var s := line + [10] + rest;
    if |line| == 0 {
      assert s[0] == LF;
    } else {
      assert s[1..] == line[1..] + [10] + rest;
      assert s[0] == line[0];
      FirstLine(line[1..], rest, limit - 1);
    }
  }

  /** A request of lines that fit comes out line by line. */
  lemma {:induction false} RequestInLines(lines: seq<seq<byte>>, limit: nat)
    requires PlainLines(lines, limit) && limit > 0
    ensures Lines(Normalise(Request(lines)), limit) == Delivered(lines)
  {
    if |lines| > 0 {
      var line, rest := lines[0], Normalise(Request(lines[1..]));
      LineNormalised(line, Request(lines[1..]));
      FirstLine(line, rest, limit);
      var s := line + [10] + rest;
      assert s[..|line| + 1] == line + [10] && s[|line| + 1..] == rest;
      RequestInLines(lines[1..], limit);
    }
  }

  /** What is available to be read without blocking. recv on an empty stream fails or returns 0,
      and does not change it. */
  class Socket {
    var stream: seq<byte>

    constructor (bytes: seq<byte>)
      ensures stream == bytes
    {
      stream := bytes;
    }

    // recv(sock, &c, 1, 0) and, with `peek`, recv(sock, &c, 1, MSG_PEEK)
    method Recv(c0: byte, peek: bool) returns (n: int, c: byte)
      modifies this
      ensures old(stream) == [] ==> n <= 0 && c == c0 && stream == []
      ensures old(stream) != [] ==>
                n == 1 && c == old(stream)[0] && stream == if peek then old(stream) else old(stream)[1..]
    {
      if |stream| == 0 {
        return -1, c0;
      }
      n, c := 1, stream[0];
      if !peek {
        stream := stream[1..];
      }
    }
  }

  /** One round of get_line's loop: a byte, where a CR and what may follow it read as LF. With
      nothing to read c is LF as well, which ends the loop. */
  method NextByte(sock: Socket, c0: byte) returns (n: int, c: byte)
    modifies sock
    ensures old(sock.stream) == [] ==> n <= 0 && c == LF && sock.stream == []
    ensures old(sock.stream) != [] ==>
              && n > 0
              && Normalise(old(sock.stream)) == [c] + Normalise(sock.stream)
  {
    n, c := sock.Recv(c0, false);
    if n > 0 {
      if c == CR {
        var m;
        m, c := sock.Recv(c, true);
        if m > 0 && c == LF {
          m, c := sock.Recv(c, false);
        } else {
          c := LF;
        }
      }
    } else {
      c := LF;
    }
  }

  function StillComing(rest: seq<byte>, room: nat, c: byte): nat {
    if c == LF then 0 else LineLength(rest, room)
  }

  // Part of a line has been taken off the front; c is its last byte, or LF if it is complete.
  ghost predicate Progress(all: seq<byte>, got: seq<byte>, rest: seq<byte>, limit: nat, c: byte) {
    && got + rest == all && |got| <= limit
    && LineLength(all, limit) == |got| + StillComing(rest, limit - |got|, c)
  }

  lemma Advance(all: seq<byte>, got: seq<byte>, rest: seq<byte>, limit: nat, c0: byte, c: byte)
    requires Progress(all, got, [c] + rest, limit, c0) && c0 != LF && |got| < limit
    ensures Progress(all, got + [c], rest, limit, c)
  {
    Associative(got, [c], rest);
    assert ([c] + rest)[1..] == rest;
  }

  lemma Start(all: seq<byte>, got: seq<byte>, limit: nat)
    requires got == []
    ensures Progress(all, got, all, limit, 0)
  {
    assert got + all == all;
  }

  lemma Complete(all: seq<byte>, got: seq<byte>, rest: seq<byte>, limit: nat, c: byte)
    requires Progress(all, got, rest, limit, c) && (rest == [] || c == LF || |got| == limit)
    ensures Progress(all, got, rest, limit, LF) && LineLength(all, limit) == |got|
  {
  }

  /** The body of get_line's loop: a byte read and stored, or the end noticed. */
  method Round(sock: Socket, buf: array<byte>, i: nat, c0: byte, ghost all: seq<byte>, ghost limit: nat)
    returns (i': nat, c: byte)
    requires i < limit < buf.Length && c0 != LF
    requires Progress(all, buf[..i], Normalise(sock.stream), limit, c0)
    modifies sock, buf
    ensures i <= i' <= limit && (i' == i ==> c == LF)
    ensures Progress(all, buf[..i'], Normalise(sock.stream), limit, c)
  {
    ghost var got, rest := buf[..i], Normalise(sock.stream);
    var n;
    n, c := NextByte(sock, c0);
    i' := i;
    if n > 0 {
      Advance(all, got, Normalise(sock.stream), limit, c0, c);
      buf[i] := c;
      i' := i + 1;
      assert buf[..i'] == got + [c];
    } else {
      Complete(all, got, rest, limit, c0);
    }
  }

  // The bytes a buffer of this size has room for besides the NUL.
  function Room(size: int): nat {
    if size >= 1 then size - 1 else 0
  }

  /** Fills buf with the next line of the normalised stream, or with as much of it as `size`
      leaves room for, and a NUL; the rest of the normalised stream is what stays in the socket. */
  method GetLine(sock: Socket, buf: array<byte>, size: int) returns (i: nat)
    requires 1 <= buf.Length && size <= buf.Length
    modifies sock, buf
    ensures i == LineLength(Normalise(old(sock.stream)), Room(size))
    ensures buf[..i] + Normalise(sock.stream) == Normalise(old(sock.stream))
    ensures i < buf.Length && buf[i] == 0
  {
    ghost var all := Normalise(sock.stream);
    i := 0;
    var c: byte := 0;
    Start(all, buf[..0], Room(size));
    while i < size - 1 && c != LF
      invariant 0 <= i <= Room(size)
      invariant Progress(all, buf[..i], Normalise(sock.stream), Room(size), c)
      decreases size - 1 - i, c != LF
    {
      i, c := Round(sock, buf, i, c, all, Room(size));
    }
    Complete(all, buf[..i], Normalise(sock.stream), Room(size), c);
    ghost var got := buf[..i];
    buf[i] := 0;
    assert buf[..i] == got;
  }

  // What has been read, and the lines still to be read.
  ghost predicate Reading(read: seq<seq<byte>>, len: nat, rest: seq<byte>, all: seq<byte>, limit: nat)
    requires limit > 0
  {
    read + (if len == 0 then [] else Lines(rest, limit)) == Lines(all, limit)
  }

  lemma ReadingStarts(all: seq<byte>, limit: nat)
    requires limit > 0
    ensures Reading([], 1, all, all, limit)
  {
  }

  lemma ReadingOn(read: seq<seq<byte>>, len: nat, s: seq<byte>, line: seq<byte>, rest: seq<byte>, all: seq<byte>, limit: nat)
    requires limit > 0 && len > 0 && Reading(read, len, s, all, limit)
    requires s == line + rest && |line| == LineLength(s, limit)
    ensures Reading(read + [line], |line|, rest, all, limit)
  {
    if |s| == 0 {
      assert (read + [line]) + [] == read + [[]];
    } else {
      assert s[..|line|] == line && s[|line|..] == rest;
      assert (read + [line]) + Lines(rest, limit) == read + ([line] + Lines(rest, limit));
    }
  }

  /** The loop of do_read over a buffer of any size from two bytes on: lines are read until one is
      empty. It ends, with nothing left to read; it has read the lines of the normalised stream,
      and they together are that stream, wherever the size cut them. */
  method ReadLines(sock: Socket, size: int) returns (line: seq<byte>, lines: seq<seq<byte>>)
    requires size >= 2
    modifies sock
    ensures sock.stream == []
    ensures [line] + lines == Lines(Normalise(old(sock.stream)), size - 1)
    ensures line + Concat(lines) == Normalise(old(sock.stream))
    ensures |line| == LineLength(Normalise(old(sock.stream)), size - 1)
    ensures |lines| == 0 <==> old(sock.stream) == []
    ensures forall k :: 0 <= k < |lines| ==> |lines[k]| < size && (lines[k] == [] <==> k == |lines| - 1)
  {
    ghost var all := Normalise(sock.stream);
    var len;
    ReadingStarts(all, size - 1);
    len, line := NextLine(sock, size, [], 1, all);
    ghost var read := [] + [line];
    lines := [];
    while len != 0
      invariant read == [line] + lines && Reading(read, len, Normalise(sock.stream), all, size - 1)
      invariant len == 0 ==> sock.stream == []
      decreases |Normalise(sock.stream)|, len
    {
      var buff;
      len, buff := NextLine(sock, size, read, len, all);
      read := read + [buff];
      lines := lines + [buff];
    }
    LinesEnd(line, lines, all, size - 1);
  }

  lemma LinesEnd(line: seq<byte>, lines: seq<seq<byte>>, all: seq<byte>, limit: nat)
    requires limit > 0 && Reading([line] + lines, 0, [], all, limit)
    ensures [line] + lines == Lines(all, limit)
    ensures line + Concat(lines) == all && |line| == LineLength(all, limit)
    ensures |lines| == 0 <==> all == []
    ensures forall k :: 0 <= k < |lines| ==> |lines[k]| <= limit && (lines[k] == [] <==> k == |lines| - 1)
  {
    var r := [line] + lines;
    assert r + [] == r && r[0] == line && r[1..] == lines;
    LinesMakeTheStream(all, limit);
    forall k | 0 <= k < |lines| ensures |lines[k]| <= limit && (lines[k] == [] <==> k == |lines| - 1) {
      assert r[k + 1] == lines[k];
    }
  }

  // Another call, after some that have not come to the end.
  method NextLine(sock: Socket, size: int, ghost read: seq<seq<byte>>, ghost before: nat, ghost all: seq<byte>)
    returns (len: nat, line: seq<byte>)
    requires size >= 2 && before > 0 && Reading(read, before, Normalise(sock.stream), all, size - 1)
    modifies sock
    ensures Reading(read + [line], len, Normalise(sock.stream), all, size - 1)
    ensures |Normalise(sock.stream)| + len == |Normalise(old(sock.stream))|
    ensures len == 0 ==> sock.stream == []
  {
    len, line := OneLine(sock, size);
    ReadingOn(read, before, Normalise(old(sock.stream)), line, Normalise(sock.stream), all, size - 1);
  }

  // One call of get_line with a buffer of this size.
  method OneLine(sock: Socket, size: int) returns (len: nat, line: seq<byte>)
    requires size >= 2
    modifies sock
    ensures |line| == len == LineLength(Normalise(old(sock.stream)), size - 1)
    ensures line + Normalise(sock.stream) == Normalise(old(sock.stream))
    ensures len == 0 <==> old(sock.stream) == []
    ensures len == 0 ==> sock.stream == []
  {
    var buff := new byte[size](_ => 0);
    len := GetLine(sock, buff, size);
    line := buff[..len];
  }

  const MAX_BUFF_SIZE := 1024

  /** do_read itself. A request of lines of at most 1022 bytes, each sent with CRLF, comes out as
      those lines, each with LF, and an empty one. */
  method DoRead(sock: Socket, ghost request: seq<seq<byte>>) returns (line: seq<byte>, lines: seq<seq<byte>>)
    modifies sock
    ensures sock.stream == []
    ensures [line] + lines == Lines(Normalise(old(sock.stream)), 1023)
    ensures line + Concat(lines) == Normalise(old(sock.stream))
    ensures |line| == LineLength(Normalise(old(sock.stream)), 1023)
    ensures |lines| == 0 <==> old(sock.stream) == []
    ensures forall k :: 0 <= k < |lines| ==> |lines[k]| < 1024 && (lines[k] == [] <==> k == |lines| - 1)
    ensures old(sock.stream) == Request(request) && PlainLines(request, 1023) ==>
              [line] + lines == Delivered(request)
  {
    line, lines := ReadLines(sock, MAX_BUFF_SIZE);
    if old(sock.stream) == Request(request) && PlainLines(request, 1023) {
      RequestInLines(request, 1023);
    }
  }

  /** A result of 0 tells do_read's loop that the stream has ended exactly if the buffer has at
      least two bytes; with less get_line returns 0 whatever is there. */
  lemma ZeroMeansEmptyIffRoom(size: int)
    ensures size >= 2 <==> forall s :: LineLength(Normalise(s), Room(size)) == 0 ==> s == []
  {
    if size < 2 {
      assert LineLength(Normalise([LF]), 0) == 0;
    }
  }
}
