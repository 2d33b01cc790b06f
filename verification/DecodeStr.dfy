/**
 hexit and decode_str of http_code/libevent/libevent_http.c: percent decoding as in section 2.1
 of RFC 3986, from one NUL-terminated string into another, which may be the same one.
 */
module DecodeStr {
  import opened Bytes

  const PERCENT: byte := 37

  // isxdigit
  predicate IsHex(c: byte) {
    48 <= c <= 57 || 97 <= c <= 102 || 65 <= c <= 70
  }

  function Hexit(c: byte): (d: byte)
    ensures d < 16
  {
    if 48 <= c <= 57 then c - 48
    else if 97 <= c <= 102 then c - 97 + 10
    else if 65 <= c <= 70 then c - 65 + 10
    else 0
  }

  // A percent sign with two hexadecimal digits starts here.
  predicate Escape(s: seq<byte>) {
    |s| >= 3 && s[0] == PERCENT && IsHex(s[1]) && IsHex(s[2])
  }

  function Decode(s: seq<byte>): (r: seq<byte>)
    ensures |r| <= |s|
  {
    if |s| == 0 then []
    else if Escape(s) then [(Hexit(s[1]) * 16 + Hexit(s[2])) as byte] + Decode(s[3..])
    else [s[0]] + Decode(s[1..])
  }

  /* ---------------------------------------------------------------------- encoding */

  // How a byte is written: as it is, or escaped, each digit in either case.
  datatype Choice = Plain | Escaped(upper1: bool, upper2: bool)

  function Digit(d: nat, upper: bool): (c: byte)
    requires d < 16
    ensures IsHex(c) && Hexit(c) == d
  {
    if d < 10 then 48 + d else if upper then 55 + d else 87 + d
  }

  /** The notation of RFC 3986: a percent sign, and digits of base 16 in either case. */
  lemma Notation(d: nat)
    requires d < 16
    ensures PERCENT == '%' as int
    ensures Digit(d, false) == "0123456789abcdef"[d] as int
    ensures Digit(d, true) == "0123456789ABCDEF"[d] as int
  {
  }

  /** Nothing else is taken for a digit. */
  lemma OnlyDigits(c: byte)
    ensures IsHex(c) <==> exists d: nat, upper :: d < 16 && c == Digit(d, upper)
  {
    if IsHex(c) {
      assert c == Digit(Hexit(c), c < 97);
    }
  }

  function EncodeByte(b: byte, choice: Choice): seq<byte> {
    match choice
    case Plain => [b]
    case Escaped(u1, u2) => [PERCENT, Digit(b / 16, u1), Digit(b % 16, u2)]
  }

  function Encode(s: seq<byte>, choices: seq<Choice>): seq<byte>
    requires |choices| == |s|
  {
    if |s| == 0 then [] else EncodeByte(s[0], choices[0]) + Encode(s[1..], choices[1..])
  }

  // The percent sign and NUL are never left as they are.
  predicate MustEscape(s: seq<byte>, choices: seq<Choice>)
    requires |choices| == |s|
  {
    forall i :: 0 <= i < |s| && (s[i] == PERCENT || s[i] == 0) ==> choices[i].Escaped?
  }

  /** Decoding inverts every such encoding, whichever other bytes are escaped and in whichever
      case the digits are written; and the encoding is a C string. */
  lemma {:induction false} DecodeInvertsEncode(s: seq<byte>, choices: seq<Choice>)
    requires |choices| == |s| && MustEscape(s, choices)
    ensures Decode(Encode(s, choices)) == s
    ensures 0 !in Encode(s, choices)
  {
    if |s| > 0 {
      var rest := Encode(s[1..], choices[1..]);
      var e := EncodeByte(s[0], choices[0]) + rest;
      DecodeInvertsEncode(s[1..], choices[1..]);
      match choices[0]
      case Plain =>
        assert e[1..] == rest;
      case Escaped(_, _) =>
        assert e[3..] == rest;
        assert (s[0] / 16) * 16 + s[0] % 16 == s[0];
    }
  }

  // No escape starts anywhere.
  predicate NoEscapes(s: seq<byte>) {
    |s| > 0 ==> !Escape(s) && NoEscapes(s[1..])
  }

  /** Decoding leaves a string alone exactly when no percent sign in it is followed by two
      hexadecimal digits; a lone percent sign stays. */
  lemma {:induction false} DecodeIsIdentityIffNoEscapes(s: seq<byte>)
    ensures Decode(s) == s <==> NoEscapes(s)
    ensures |Decode(s)| == |s| <==> NoEscapes(s)
  {
    if |s| > 0 && !Escape(s) {
      DecodeIsIdentityIffNoEscapes(s[1..]);
      assert s == [s[0]] + s[1..];
    }
  }

  // An escape of the joined string begins in the first part and ends in the second.
  predicate SplitsEscape(a: seq<byte>, b: seq<byte>) {
    || (|a| >= 1 && Escape(a[|a| - 1..] + b))
    || (|a| >= 2 && |b| >= 1 && Escape(a[|a| - 2..] + b))
  }

  // A string of one or two bytes that an escape goes beyond.
  lemma EscapeBeyond(a: seq<byte>, b: seq<byte>)
    requires 1 <= |a| <= 2 && Escape(a + b)
    ensures SplitsEscape(a, b)
    ensures |Decode(a + b)| == |Decode(a)| + |Decode(b)| - 2
  {
    TooShort(a);
    DigitsOfB(a, b);
    PlainFront(b, 3 - |a|);
    FrontDecoded(a + b);
  }

  lemma DigitsOfB(a: seq<byte>, b: seq<byte>)
    requires 1 <= |a| <= 2 && Escape(a + b)
    ensures SplitsEscape(a, b)
    ensures 3 - |a| <= |b| && (a + b)[3..] == b[3 - |a|..]
    ensures forall k :: 0 <= k < 3 - |a| ==> b[k] != PERCENT
  {
    assert a[0..] == a;
    forall k | 0 <= k < 3 - |a| ensures b[k] != PERCENT {
      assert (a + b)[|a| + k] == b[k];
    }
  }

  lemma TooShort(a: seq<byte>)
    requires |a| <= 2
    ensures Decode(a) == a
  {
    if |a| == 2 {
      assert a[1..][1..] == [];
    }
  }

  // Bytes other than percent signs decode to as many.
  lemma {:induction false} PlainFront(s: seq<byte>, n: nat)
    requires n <= |s| && forall k :: 0 <= k < n ==> s[k] != PERCENT
    ensures |Decode(s)| == n + |Decode(s[n..])|
    decreases n
  {
    if n == 0 {
      assert s[0..] == s;
    } else {
      PlainFront(s[1..], n - 1);
      assert s[1..][n - 1..] == s[n..];
    }
  }

  // One byte is decoded from the front of a string, and the rest goes on.
  function Front(s: seq<byte>): nat {
    if Escape(s) then 3 else 1
  }

  function First(s: seq<byte>): byte
    requires |s| > 0
  {
    if Escape(s) then Hexit(s[1]) * 16 + Hexit(s[2]) else s[0]
  }

  lemma FrontDecoded(s: seq<byte>)
    requires |s| > 0
    ensures Front(s) <= |s| && Decode(s) == [First(s)] + Decode(s[Front(s)..])
  {
  }

  lemma SameFront(a: seq<byte>, b: seq<byte>)
    requires |a| > 0 && (|a| <= 2 ==> !Escape(a + b))
    ensures Front(a + b) == Front(a) <= |a| && First(a + b) == First(a)
    ensures (a + b)[Front(a)..] == a[Front(a)..] + b
  {
  }

  lemma {:induction false} DecodeJoins(a: seq<byte>, b: seq<byte>)
    requires !SplitsEscape(a, b)
    ensures Decode(a + b) == Decode(a) + Decode(b)
    decreases |a|
  {
    if |a| == 0 {
      assert a + b == b;
    } else {
      NotBeyond(a, b);
      SameFront(a, b);
      SameEnd(a, b, Front(a));
      DecodeJoins(a[Front(a)..], b);
      FrontDecoded(a);
      FrontDecoded(a + b);
      Associative([First(a)], Decode(a[Front(a)..]), Decode(b));
    }
  }

  lemma NotBeyond(a: seq<byte>, b: seq<byte>)
    requires |a| > 0 && !SplitsEscape(a, b)
    ensures |a| <= 2 ==> !Escape(a + b)
  {
    if |a| <= 2 && Escape(a + b) {
      EscapeBeyond(a, b);
      assert false;
    }
  }

  lemma {:induction false} DecodeLosesTwo(a: seq<byte>, b: seq<byte>)
    requires SplitsEscape(a, b)
    ensures |Decode(a + b)| == |Decode(a)| + |Decode(b)| - 2
    decreases |a|
  {
    if |a| <= 2 && Escape(a + b) {
      EscapeBeyond(a, b);
    } else {
      SameFront(a, b);
      SameEnd(a, b, Front(a));
      DecodeLosesTwo(a[Front(a)..], b);
      FrontDecoded(a);
      FrontDecoded(a + b);
    }
  }

  /** Decoding in two parts is decoding the whole exactly unless the cut splits an escape; then the
      escape is left as it is, two bytes longer than what it stands for. */
  lemma DecodeSplit(a: seq<byte>, b: seq<byte>)
    ensures Decode(a + b) == Decode(a) + Decode(b) <==> !SplitsEscape(a, b)
    ensures SplitsEscape(a, b) ==> |Decode(a + b)| == |Decode(a)| + |Decode(b)| - 2
  {
    if SplitsEscape(a, b) {
      DecodeLosesTwo(a, b);
    } else {
      DecodeJoins(a, b);
    }
  }

  // Whether the cut splits an escape does not depend on what has been decoded before it.
  lemma SameEnd(a: seq<byte>, b: seq<byte>, k: nat)
    requires 1 <= k <= |a| && (k == 1 || (k == 3 && Escape(a)))
    requires |a| <= 2 ==> !Escape(a + b)
    ensures SplitsEscape(a[k..], b) <==> SplitsEscape(a, b)
  {
    if |a| > k {
      assert a[k..][|a| - k - 1..] == a[|a| - 1..];
    }
    if |a| > k + 1 {
      assert a[k..][|a| - k - 2..] == a[|a| - 2..];
    }
    if |a| == 2 {
      assert a[0..] == a;
    }
    if |a| == 1 {
      assert a[0..] == a;
    }
  }

  /* ------------------------------------------------------------------- the two cursors */

  // The C string at the start of the array: n bytes and a NUL.
  predicate IsCString(a: seq<byte>, n: nat) {
    n < |a| && a[n] == 0 && forall i :: 0 <= i < n ==> a[i] != 0
  }

  // What one round of the loop makes of the source from position f on.
  lemma DecodeRound(s: seq<byte>, f: nat, done: seq<byte>, r: seq<byte>)
    requires f < |s| && r == done + Decode(s[f..])
    ensures Escape(s[f..]) ==> f + 3 <= |s|
    ensures Escape(s[f..]) ==>
              r == (done + [(Hexit(s[f + 1]) * 16 + Hexit(s[f + 2])) as byte]) + Decode(s[f + 3..])
    ensures !Escape(s[f..]) ==> r == (done + [s[f]]) + Decode(s[f + 1..])
    ensures |done| < |r|
  {
    if Escape(s[f..]) {
      assert s[f..][3..] == s[f + 3..];
    } else {
      assert s[f..][1..] == s[f + 1..];
    }
  }

  /** The two cursors: to[..t] is what from[..f] decodes to, and the rest of the source s is
      still in place behind the read cursor. */
  ghost predicate Cursors(to: array<byte>, from: array<byte>, s: seq<byte>, t: nat, f: nat)
    reads to, from
  {
    var r := Decode(s);
    && t <= f <= |s| < from.Length && t <= |r| < to.Length
    && r == to[..t] + Decode(s[f..])
    && (forall k :: f <= k < |s| ==> from[k] == s[k]) && from[|s|] == 0
  }

  // The test of the loop sees an escape exactly where one is; the NUL keeps it from going too far.
  lemma EscapeHere(from: seq<byte>, s: seq<byte>, f: nat)
    requires f < |s| < |from| && from[|s|] == 0 && forall k :: f <= k < |s| ==> from[k] == s[k]
    ensures from[f] == PERCENT && IsHex(from[f + 1]) ==> f + 2 <= |s|
    ensures Escape(s[f..]) <==> from[f] == PERCENT && IsHex(from[f + 1]) && IsHex(from[f + 2])
  {
  }

  /** One round of the loop, its increments included. */
  method Round(to: array<byte>, from: array<byte>, t: nat, f: nat, ghost s: seq<byte>) returns (f': nat)
    requires Cursors(to, from, s, t, f) && f < |s| && 0 !in s
    modifies to
    ensures f < f' && Cursors(to, from, s, t + 1, f')
    ensures to[|Decode(s)| + 1..] == old(to[|Decode(s)| + 1..])
  {
    ghost var done := to[..t];
    DecodeRound(s, f, done, Decode(s));
    EscapeHere(from[..], s, f);
    f' := f;
    if from[f'] == PERCENT && IsHex(from[f' + 1]) && IsHex(from[f' + 2]) {
      to[t] := Hexit(from[f' + 1]) * 16 + Hexit(from[f' + 2]);
      f' := f' + 2;
    } else {
      to[t] := from[f'];
    }
    f' := f' + 1;
    assert to[..t + 1] == done + [to[t]];
  }

  /** decode_str. `n` is the length of the source string. Nothing behind its NUL is read and
      nothing behind the decoded string's NUL is written; the arrays may be one and the same,
      since the write cursor is never ahead of the read cursor. */
  method Run(to: array<byte>, from: array<byte>, ghost n: nat)
    requires IsCString(from[..], n)
    requires |Decode(from[..n])| < to.Length
    modifies to
    ensures var r := Decode(old(from[..n]));
            && to[..|r|] == r && to[|r|] == 0
            && to[|r| + 1..] == old(to[|r| + 1..])
  {
    ghost var s := from[..n];
    var t, f := 0, 0;
    assert s[0..] == s && to[..0] == [];
    while from[f] != 0
      invariant Cursors(to, from, s, t, f)
      invariant to[|Decode(s)| + 1..] == old(to[|Decode(s)| + 1..])
      decreases n - f
    {
      f := Round(to, from, t, f, s);
      t := t + 1;
    }
    assert s[n..] == [];
    ghost var done := to[..t];
    to[t] := 0;
    assert to[..t] == done;
  }
}
