/**
 The receive buffer of select_poll_epoll/epoll_server2.c: six bytes, reused from one recv to the
 next without being cleared, turned to upper case up to the first NUL, and sent back in part.
 */
module EchoBuffer {
  import opened Bytes

  const BUFF_SIZE := 6

  predicate IsLower(b: byte) {
    97 <= b <= 122
  }

  // toupper in the C locale.
  function ToUpper(b: byte): byte {
    if IsLower(b) then b - 32 else b
  }

  // Every byte in upper case.
  function Upper(s: seq<byte>): (r: seq<byte>)
    ensures |r| == |s| && forall i :: 0 <= i < |s| ==> r[i] == ToUpper(s[i])
  {
    seq(|s|, i requires 0 <= i < |s| => ToUpper(s[i]))
  }

  /** The answer in capitals, by the numbers of the ASCII table: the 26 small letters from 97 on
      become the capitals from 65 on, and every other byte stays. */
  predicate InCapitals(s: seq<byte>, answer: seq<byte>) {
    && |answer| == |s|
    && forall i :: 0 <= i < |s| ==> Capital(s[i], answer[i])
  }

  predicate Capital(b: byte, r: byte) {
    if 97 <= b < 97 + 26 then r - 65 == b - 97 else r == b
  }

  /** That, and nothing else, is what Upper makes of the bytes. */
  lemma UpperIsCapitals(s: seq<byte>, answer: seq<byte>)
    ensures answer == Upper(s) <==> InCapitals(s, answer)
  {
    if InCapitals(s, answer) {
      forall i | 0 <= i < |s| ensures answer[i] == Upper(s)[i] {
        assert Capital(s[i], answer[i]);
      }
    }
  }

  /** The letters of the alphabet become their capitals. */
  lemma Letters(k: nat)
    requires k < 26
    ensures "abcdefghijklmnopqrstuvwxyz"[k] as int == 97 + k
    ensures Upper([97 + k]) == ["ABCDEFGHIJKLMNOPQRSTUVWXYZ"[k] as int]
  {
    CapitalLetter(k);
    assert Upper([97 + k])[0] == 65 + k;
  }

  lemma CapitalLetter(k: nat)
    requires k < 26
    ensures "abcdefghijklmnopqrstuvwxyz"[k] as int == 97 + k
    ensures "ABCDEFGHIJKLMNOPQRSTUVWXYZ"[k] as int == 65 + k
  {
  }

  // Where the first NUL stands, or the length.
  function FirstNul(s: seq<byte>): (k: nat)
    ensures k <= |s|
    ensures k < |s| ==> s[k] == 0
    ensures forall i :: 0 <= i < k ==> s[i] != 0
  {
    if |s| == 0 || s[0] == 0 then 0 else 1 + FirstNul(s[1..])
  }

  // What the loop over *ptr leaves: it stops at the first NUL.
  function UpperToNul(s: seq<byte>): (r: seq<byte>)
    ensures |r| == |s|
  {
    seq(|s|, i requires 0 <= i < |s| => if i < FirstNul(s) then ToUpper(s[i]) else s[i])
  }

  // A NUL stands at position i or before it.
  predicate NulUpTo(s: seq<byte>, i: nat) {
    exists k :: 0 <= k <= i && k < |s| && s[k] == 0
  }

  /** Byte by byte: capitals up to the first NUL, and everything as it was from there on. */
  predicate InCapitalsToNul(s: seq<byte>, answer: seq<byte>) {
    && |answer| == |s|
    && forall i :: 0 <= i < |s| ==>
         if NulUpTo(s, i) then answer[i] == s[i] else Capital(s[i], answer[i])
  }

  lemma UpperToNulIsCapitals(s: seq<byte>, answer: seq<byte>)
    ensures answer == UpperToNul(s) <==> InCapitalsToNul(s, answer)
  {
    forall i | 0 <= i < |s| ensures i < FirstNul(s) <==> !NulUpTo(s, i) {
      if FirstNul(s) <= i {
        assert s[FirstNul(s)] == 0;
      }
    }
    if InCapitalsToNul(s, answer) {
      forall i | 0 <= i < |s| ensures answer[i] == UpperToNul(s)[i] {
        assert i < FirstNul(s) ==> Capital(s[i], answer[i]);
      }
    }
  }

  /** The bytes that follow in the buffer, old or new, do not change what happens to the first
      ones: a stale tail never reaches the peer. */
  lemma TailDoesNotMatter(s: seq<byte>, tail: seq<byte>)
    ensures UpperToNul(s + tail)[..|s|] == UpperToNul(s)
  {
    var k, k' := FirstNul(s), FirstNul(s + tail);
    if k < |s| {
      assert (s + tail)[k] == 0;
    }
    if k' < |s| {
      assert s[k'] == 0;
    }
  }

  // No lower-case letter stands after a NUL.
  predicate NoLowerAfterNul(s: seq<byte>) {
    forall i, j :: 0 <= i < j < |s| && s[i] == 0 ==> !IsLower(s[j])
  }

  /** One chunk comes back in upper case exactly when no lower-case letter follows a NUL in it. */
  lemma UpperToNulIsUpper(s: seq<byte>)
    ensures UpperToNul(s) == Upper(s) <==> NoLowerAfterNul(s)
    ensures InCapitals(s, UpperToNul(s)) <==> NoLowerAfterNul(s)
  {
    UpperIsCapitals(s, UpperToNul(s));
    if !NoLowerAfterNul(s) {
      var i, j :| 0 <= i < j < |s| && s[i] == 0 && IsLower(s[j]);
      assert UpperToNul(s)[j] != Upper(s)[j];
    }
  }

  lemma UpperConcat(a: seq<byte>, b: seq<byte>)
    ensures Upper(a + b) == Upper(a) + Upper(b)
  {
  }

  /* ------------------------------------------------------------- streams cut into chunks */

  /** No lower-case letter stands so close behind a NUL that one recv could bring both. */
  predicate NoLowerNearNul(s: seq<byte>) {
    forall i, j :: 0 <= i < j < |s| && j - i <= 4 && s[i] == 0 ==> !IsLower(s[j])
  }

  lemma NearNulParts(a: seq<byte>, b: seq<byte>)
    requires NoLowerNearNul(a + b)
    ensures NoLowerNearNul(a) && NoLowerNearNul(b)
    ensures |b| < BUFF_SIZE ==> NoLowerAfterNul(b)
  {
    assert forall i :: 0 <= i < |a| ==> (a + b)[i] == a[i];
    assert forall i :: 0 <= i < |b| ==> (a + b)[|a| + i] == b[i];
  }

  // One more chunk keeps the answer in upper case.
  lemma EchoGrows(before: seq<byte>, chunk: seq<byte>)
    requires |chunk| < BUFF_SIZE && NoLowerNearNul(before + chunk)
    ensures Upper(before) + UpperToNul(chunk) == Upper(before + chunk)
  {
    NearNulParts(before, chunk);
    UpperToNulIsUpper(chunk);
    UpperConcat(before, chunk);
  }

  function Concat(parts: seq<seq<byte>>): seq<byte> {
    if |parts| == 0 then [] else Concat(parts[..|parts| - 1]) + parts[|parts| - 1]
  }

  // What is sent back for these chunks.
  function Answers(parts: seq<seq<byte>>): (r: seq<byte>)
    ensures |r| == |Concat(parts)|
  {
    if |parts| == 0 then [] else Answers(parts[..|parts| - 1]) + UpperToNul(parts[|parts| - 1])
  }

  // The stream cut as recv may cut it.
  predicate Cuts(parts: seq<seq<byte>>, s: seq<byte>) {
    Concat(parts) == s && forall k :: 0 <= k < |parts| ==> 0 < |parts[k]| < BUFF_SIZE
  }

  lemma {:induction false} CuttingIsUpper(parts: seq<seq<byte>>, s: seq<byte>)
    requires Cuts(parts, s) && NoLowerNearNul(s)
    ensures Answers(parts) == Upper(s)
  {
    if |parts| > 0 {
      var before, chunk := Concat(parts[..|parts| - 1]), parts[|parts| - 1];
      NearNulParts(before, chunk);
      CuttingIsUpper(parts[..|parts| - 1], before);
      EchoGrows(before, chunk);
    }
  }

  lemma OneMoreChunk(parts: seq<seq<byte>>, chunk: seq<byte>)
    ensures Concat(parts + [chunk]) == Concat(parts) + chunk
    ensures Answers(parts + [chunk]) == Answers(parts) + UpperToNul(chunk)
    ensures Cuts(parts, Concat(parts)) && 0 < |chunk| < BUFF_SIZE ==>
              Cuts(parts + [chunk], Concat(parts) + chunk)
  {
    assert (parts + [chunk])[..|parts|] == parts;
  }

  // The chunks so far, and then byte by byte.
  lemma {:induction false} ThenSingly(parts: seq<seq<byte>>, s: seq<byte>) returns (more: seq<seq<byte>>)
    requires Cuts(parts, Concat(parts))
    ensures Cuts(more, Concat(parts) + s) && Answers(more) == Answers(parts) + Upper(s)
    decreases |s|
  {
    if |s| == 0 {
      more := parts;
      assert Concat(parts) + s == Concat(parts) && Answers(parts) + Upper(s) == Answers(parts);
    } else {
      var last := |s| - 1;
      var fewer := ThenSingly(parts, s[..last]);
      more := fewer + [[s[last]]];
      OneMoreChunk(fewer, [s[last]]);
      assert s == s[..last] + [s[last]];
      Associative(Concat(parts), s[..last], [s[last]]);
      Associative(Answers(parts), Upper(s[..last]), [ToUpper(s[last])]);
      UpperConcat(s[..last], [s[last]]);
      assert UpperToNul([s[last]]) == [ToUpper(s[last])];
    }
  }

  // s[i..j + 1] in one chunk, and the bytes around it one by one.
  lemma CutAround(s: seq<byte>, i: nat, j: nat) returns (parts: seq<seq<byte>>)
    requires i <= j < |s| && j - i < BUFF_SIZE - 1
    ensures Cuts(parts, s)
    ensures Answers(parts) == Upper(s[..i]) + UpperToNul(s[i..j + 1]) + Upper(s[j + 1..])
  {
    var chunk := s[i..j + 1];
    var singly := ThenSingly([], s[..i]);
    assert [] + s[..i] == s[..i] && [] + Upper(s[..i]) == Upper(s[..i]);
    OneMoreChunk(singly, chunk);
    parts := ThenSingly(singly + [chunk], s[j + 1..]);
    assert s[..i] + chunk + s[j + 1..] == s;
  }

  /** A lower-case letter close behind a NUL comes back as it was if both are in one chunk. */
  lemma BadCutting(s: seq<byte>) returns (parts: seq<seq<byte>>)
    requires !NoLowerNearNul(s)
    ensures Cuts(parts, s) && Answers(parts) != Upper(s)
  {
    var i, j :| 0 <= i < j < |s| && j - i <= 4 && s[i] == 0 && IsLower(s[j]);
    parts := CutAround(s, i, j);
    var chunk := s[i..j + 1];
    assert chunk[0] == 0;
    assert Answers(parts)[j] == UpperToNul(chunk)[j - i] == chunk[j - i] == s[j];
  }

  /** However a stream is cut, the answer is the stream in capitals, exactly if no lower-case letter stands
      within four places behind a NUL. */
  lemma AnyCuttingIff(s: seq<byte>)
    ensures NoLowerNearNul(s) <==> forall parts :: Cuts(parts, s) ==> InCapitals(s, Answers(parts))
  {
    if NoLowerNearNul(s) {
      forall parts | Cuts(parts, s) ensures InCapitals(s, Answers(parts)) {
        CuttingIsUpper(parts, s);
        UpperIsCapitals(s, Answers(parts));
      }
    } else {
      var parts := BadCutting(s);
      UpperIsCapitals(s, Answers(parts));
    }
  }

  /* ------------------------------------------------------------------------- the code */

  /** The loop that moves a pointer through the buffer and turns each byte to upper case until it
      points at a NUL. It stays inside the buffer because the last byte is NUL. */
  method UpperInPlace(buff: array<byte>)
    requires buff.Length > 0 && buff[buff.Length - 1] == 0
    modifies buff
    ensures buff[..] == UpperToNul(old(buff[..]))
    ensures InCapitalsToNul(old(buff[..]), buff[..])
    ensures buff[buff.Length - 1] == 0
  {
    ghost var was := buff[..];
    var ptr := 0;
    while buff[ptr] != 0
      invariant 0 <= ptr < buff.Length
      invariant forall i :: 0 <= i < ptr ==> was[i] != 0 && buff[i] == ToUpper(was[i])
      invariant forall i :: ptr <= i < buff.Length ==> buff[i] == was[i]
      decreases buff.Length - ptr
    {
      buff[ptr] := ToUpper(buff[ptr]);
      ptr := ptr + 1;
    }
    assert FirstNul(was) == ptr;
    assert buff[..] == UpperToNul(was);
    UpperToNulIsCapitals(was, buff[..]);
  }

  /** One client connection as the kernel keeps it. */
  class Connection {
    var inbox: seq<byte>            // received, not yet read
    var closed: bool                // the peer has sent its last byte
    var ready: bool                 // on the kernel's ready list
    var registered: bool            // in the epoll set, open
    var sent: seq<byte>             // written back
    ghost var arrived: seq<byte>    // everything the peer has sent

    constructor ()
      ensures inbox == [] && !closed && !ready && registered && sent == [] && arrived == []
    {
      inbox, closed, ready, registered, sent, arrived := [], false, false, true, [], [];
    }

    /** recv of up to BUFF_SIZE - 1 bytes into the front of the buffer. */
    method Recv(buff: array<byte>) returns (len: nat)
      requires buff.Length == BUFF_SIZE
      modifies this`inbox, buff
      ensures len <= BUFF_SIZE - 1 && len <= |old(inbox)| && (len == 0 <==> |old(inbox)| == 0)
      ensures inbox == old(inbox)[len..]
      ensures buff[..] == old(inbox)[..len] + old(buff[len..])
    {
      len := if |inbox| < BUFF_SIZE - 1 then |inbox| else BUFF_SIZE - 1;
      forall i | 0 <= i < len {
        buff[i] := inbox[i];
      }
      inbox := inbox[len..];
    }
  }

  /** One recv and, if it brought anything, its echo: all that lt_work does per event, and one
      round of et_work. */
  method RecvAndEcho(conn: Connection, buff: array<byte>) returns (len: nat)
    requires buff.Length == BUFF_SIZE && buff[BUFF_SIZE - 1] == 0
    modifies conn`inbox, conn`sent, buff
    ensures buff[BUFF_SIZE - 1] == 0
    ensures len <= BUFF_SIZE - 1 && len <= |old(conn.inbox)| && (len == 0 <==> old(conn.inbox) == [])
    ensures conn.inbox == old(conn.inbox)[len..]
    ensures conn.sent == old(conn.sent) + UpperToNul(old(conn.inbox)[..len])
    ensures InCapitalsToNul(old(conn.inbox)[..len], conn.sent[|old(conn.sent)|..])
    ensures len > 0 ==> buff[..] == UpperToNul(old(conn.inbox)[..len] + old(buff[len..]))
    ensures len == 0 ==> buff[..] == old(buff[..]) && conn.sent == old(conn.sent) && conn.inbox == []
  {
    len := conn.Recv(buff);
    UpperToNulIsCapitals(old(conn.inbox)[..len], UpperToNul(old(conn.inbox)[..len]));
    assert (conn.sent + UpperToNul(old(conn.inbox)[..len]))[|conn.sent|..] == UpperToNul(old(conn.inbox)[..len]);
    if len > 0 {
      var out := EchoBack(buff, len, old(conn.inbox)[..len]);
      conn.sent := conn.sent + out;
    } else {
      assert buff[..] == [] + old(buff[0..]) == old(buff[..]);
    }
  }

  /** The first `len` bytes of the buffer, after the loop over *ptr. */
  method EchoBack(buff: array<byte>, len: nat, ghost incoming: seq<byte>) returns (out: seq<byte>)
    requires buff.Length == BUFF_SIZE && buff[BUFF_SIZE - 1] == 0 && len < BUFF_SIZE
    requires buff[..len] == incoming
    modifies buff
    ensures buff[BUFF_SIZE - 1] == 0
    ensures out == UpperToNul(incoming)
    ensures buff[..] == UpperToNul(old(buff[..])) && old(buff[..]) == incoming + old(buff[len..])
  {
    ghost var stale := buff[len..];
    assert buff[..] == incoming + stale;
    TailDoesNotMatter(incoming, stale);
    UpperInPlace(buff);
    out := buff[..len];
  }
}
