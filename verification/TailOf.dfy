/**
 Cutting a check's output to its last `limit` bytes without splitting a character. Output is UTF-8 (RFC 3629,
 section 3), as octets; a text is its sequence of scalar values.
 */
module TailOf {
  type Byte = x: int | 0 <= x < 256
  type Scalar = x: int | 0 <= x < 0xD800 || 0xE000 <= x < 0x110000
  type Text = seq<Scalar>

  function EncodeScalar(c: Scalar): (b: seq<Byte>)
    ensures 1 <= |b| <= 4 && !IsContinuation(b[0])
    ensures forall k :: 1 <= k < |b| ==> IsContinuation(b[k])
  {
    if c < 0x80 then [c]
    else if c < 0x800 then [0xC0 + c / 0x40, 0x80 + c % 0x40]
    else if c < 0x10000 then [0xE0 + c / 0x1000, 0x80 + c / 0x40 % 0x40, 0x80 + c % 0x40]
    else [0xF0 + c / 0x40000, 0x80 + c / 0x1000 % 0x40, 0x80 + c / 0x40 % 0x40, 0x80 + c % 0x40]
  }

  function Utf8(t: Text): seq<Byte> {
    if t == [] then [] else EncodeScalar(t[0]) + Utf8(t[1..])
  }

  /** The payload of an octet whose leading bits, a multiple of `unit`, mark its place. */
  function Payload(b: int, unit: int): int
    requires 0 < unit
  {
    b % unit
  }

  /** Reading one character back, as section 3 of RFC 3629 lays out its bits. */
  function ScalarOf(b: seq<Byte>): int
    requires 1 <= |b| <= 4
  {
    if |b| == 1 then b[0] as int
    else if |b| == 2 then 0x40 * Payload(b[0], 0x20) + Payload(b[1], 0x40)
    else if |b| == 3 then 0x1000 * Payload(b[0], 0x10) + 0x40 * Payload(b[1], 0x40) + Payload(b[2], 0x40)
    else
      0x40000 * Payload(b[0], 0x08) + 0x1000 * Payload(b[1], 0x40) + 0x40 * Payload(b[2], 0x40) + Payload(b[3], 0x40)
  }

  /** How many octets the first one announces. */
  function Announced(first: Byte): nat {
    if first < 0x80 then 1 else if first < 0xE0 then 2 else if first < 0xF0 then 3 else 4
  }

  lemma PayloadOf(mark: int, unit: int, x: int)
    requires 0 <= x < unit && unit in {0x40, 0x20, 0x10, 0x08} && mark in {0x80, 0xC0, 0xE0, 0xF0} && mark % unit == 0
    ensures Payload(mark + x, unit) == x
  {
  }

  lemma SixBits(c: int)
    requires 0 <= c
    ensures c == 0x40 * (c / 0x40) + c % 0x40
    ensures c / 0x40 == 0x40 * (c / 0x1000) + c / 0x40 % 0x40
    ensures c / 0x1000 == 0x40 * (c / 0x40000) + c / 0x1000 % 0x40
  {
  }

  lemma LongScalarRoundTrip(c: Scalar)
    requires 0x800 <= c
    ensures ScalarOf(EncodeScalar(c)) == c
  {
    SixBits(c);
    PayloadOf(0x80, 0x40, c % 0x40);
    PayloadOf(0x80, 0x40, c / 0x40 % 0x40);
    if c < 0x10000 {
      PayloadOf(0xE0, 0x10, c / 0x1000);
    } else {
      PayloadOf(0x80, 0x40, c / 0x1000 % 0x40);
      PayloadOf(0xF0, 0x08, c / 0x40000);
    }
  }

  lemma AnnouncedLength(c: Scalar)
    ensures Announced(EncodeScalar(c)[0]) == |EncodeScalar(c)|
  {
  }

  /** Every character reads back from the shortest encoding that has room for it. */
  lemma ScalarRoundTrip(c: Scalar)
    ensures |EncodeScalar(c)| == if c <= 0x7F then 1 else if c <= 0x7FF then 2 else if c <= 0xFFFF then 3 else 4
    ensures ScalarOf(EncodeScalar(c)) == c && Announced(EncodeScalar(c)[0]) == |EncodeScalar(c)|
  {
    AnnouncedLength(c);
    if c >= 0x800 {
      LongScalarRoundTrip(c);
    } else if c >= 0x80 {
      SixBits(c);
      PayloadOf(0xC0, 0x20, c / 0x40);
      PayloadOf(0x80, 0x40, c % 0x40);
    }
  }

  /** Different texts have different encodings, so what is kept of an output determines the characters kept. */
  lemma {:induction false} Utf8IsInjective(s: Text, t: Text)
    requires Utf8(s) == Utf8(t)
    ensures s == t
  {
    if s != [] && t != [] {
      var b, c := EncodeScalar(s[0]), EncodeScalar(t[0]);
      assert Utf8(s) == b + Utf8(s[1..]) && Utf8(t) == c + Utf8(t[1..]);
      assert b[0] == Utf8(s)[0] == c[0];
      ScalarRoundTrip(s[0]);
      ScalarRoundTrip(t[0]);
      assert b == Utf8(s)[..|b|] && c == Utf8(t)[..|b|];
      assert Utf8(s[1..]) == Utf8(s)[|b|..] && Utf8(t[1..]) == Utf8(t)[|b|..];
      Utf8IsInjective(s[1..], t[1..]);
      assert s == [s[0]] + s[1..] && t == [t[0]] + t[1..];
    }
  }

  predicate IsContinuation(b: int) {
    0x80 <= b < 0xC0
  }

  /** str::is_char_boundary. */
  predicate IsBoundary(b: seq<Byte>, k: nat) {
    k == 0 || k == |b| || (k < |b| && !IsContinuation(b[k]))
  }

  /** "…[truncated]\n". */
  const MARKER: Text := [0x2026, 0x5B, 0x74, 0x72, 0x75, 0x6E, 0x63, 0x61, 0x74, 0x65, 0x64, 0x5D, 0x0A]

  lemma MarkerSpells()
    ensures |MARKER| == 13 && MARKER[0] == 0x2026
    ensures forall k :: 1 <= k < 13 ==> MARKER[k] == "?[truncated]\n"[k] as int
  {
  }

  /** The first boundary at or after k. */
  function FirstBoundary(b: seq<Byte>, k: nat): (start: nat)
    requires k <= |b|
    ensures k <= start <= |b| && IsBoundary(b, start)
    ensures forall j :: k <= j < start ==> !IsBoundary(b, j)
    decreases |b| - k
  {
    if k < |b| && !IsBoundary(b, k) then FirstBoundary(b, k + 1) else k
  }

  /** What is kept of the output. */
  function Kept(b: seq<Byte>, limit: nat): seq<Byte> {
    if |b| <= limit then b else b[FirstBoundary(b, |b| - limit)..]
  }

  method Tail(output: seq<Byte>, limit: nat) returns (tail: seq<Byte>)
    ensures tail == (if |output| <= limit then [] else Utf8(MARKER)) + Kept(output, limit)
  {
    if |output| <= limit {
      return output;
    }
    var start := |output| - limit;
    while start < |output| && !IsBoundary(output, start)
      invariant |output| - limit <= start <= |output|
      invariant FirstBoundary(output, start) == FirstBoundary(output, |output| - limit)
    {
      start := start + 1;
    }
    return Utf8(MARKER) + output[start..];
  }

  lemma {:induction false} Utf8OfConcat(s: Text, t: Text)
    ensures Utf8(s + t) == Utf8(s) + Utf8(t)
  {
    if s == [] {
      assert s + t == t;
    } else {
      assert (s + t)[1..] == s[1..] + t;
      Utf8OfConcat(s[1..], t);
    }
  }

  /** In valid UTF-8 the boundaries are exactly the ends of characters, and the next one is at most three octets on. */
  lemma {:induction false} NextBoundaryIsNear(t: Text, pos: nat) returns (k: nat)
    requires pos <= |Utf8(t)|
    ensures k <= |t| && |Utf8(t[..k])| == FirstBoundary(Utf8(t), pos) <= pos + 3
    decreases |t|
  {
    var b := Utf8(t);
    if pos == 0 {
      k := 0;
    } else {
      var first := EncodeScalar(t[0]);
      var rest := t[1..];
      if pos < |first| {
        k := 1;
        assert t[..1] == [t[0]] && Utf8([t[0]]) == first + Utf8([]);
        InsideFirst(t, pos);
      } else {
        var j := NextBoundaryIsNear(rest, pos - |first|);
        k := j + 1;
        assert t[..k] == [t[0]] + rest[..j];
        Utf8OfConcat([t[0]], rest[..j]);
        assert Utf8([t[0]]) == first + Utf8([]);
        ShiftedBoundary(first, Utf8(rest), pos - |first|, t);
      }
    }
  }

  lemma InsideFirst(t: Text, pos: nat)
    requires t != [] && 0 < pos < |EncodeScalar(t[0])|
    ensures FirstBoundary(Utf8(t), pos) == |EncodeScalar(t[0])|
  {
    var first, rest := EncodeScalar(t[0]), t[1..];
    var b := Utf8(t);
    assert b == first + Utf8(rest);
    assert forall j :: pos <= j < |first| ==> b[j] == first[j];
    if rest != [] {
      assert Utf8(rest) == EncodeScalar(rest[0]) + Utf8(rest[1..]);
      assert b[|first|] == Utf8(rest)[0] == EncodeScalar(rest[0])[0];
    }
    assert IsBoundary(b, |first|);
  }

  /** Boundaries of a text's remainder are boundaries of the text, moved by the first character. */
  lemma {:induction false} ShiftedBoundary(first: seq<Byte>, rest: seq<Byte>, k: nat, t: Text)
    requires t != [] && first == EncodeScalar(t[0]) && rest == Utf8(t[1..]) && k <= |rest|
    ensures FirstBoundary(first + rest, |first| + k) == |first| + FirstBoundary(rest, k)
    decreases |rest| - k
  {
    var b := first + rest;
    if k < |rest| {
      assert b[|first| + k] == rest[k];
      if k == 0 {
        assert rest[0] == EncodeScalar(t[1..][0])[0];
      }
      if !IsBoundary(rest, k) {
        ShiftedBoundary(first, rest, k + 1, t);
      }
    }
  }

  /**
   On every text: what fits is kept whole; otherwise what is kept is the encoding of the text's last characters, at
   most `limit` octets of it and at most three short of `limit`.
   */
  lemma KeptIsWholeCharacters(t: Text, limit: nat) returns (k: nat)
    ensures k <= |t| && Kept(Utf8(t), limit) == Utf8(t[k..])
    ensures |Utf8(t)| <= limit ==> k == 0
    ensures limit < |Utf8(t)| ==> limit - 3 <= |Kept(Utf8(t), limit)| <= limit
  {
    var b := Utf8(t);
    if |b| <= limit {
      k := 0;
      assert t[0..] == t;
    } else {
      k := NextBoundaryIsNear(t, |b| - limit);
      assert t == t[..k] + t[k..];
      Utf8OfConcat(t[..k], t[k..]);
    }
  }
}
