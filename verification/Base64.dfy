/**
 Base64 as used for every stored key (RFC 4648, section 4). The encoder pads with '='. The decoder is the
 lenient one of the JavaScript runtime: it also reads the URL-safe digits and skips every other character.
 */
module Base64 {
  import opened Wrappers

  type Byte = x: int | 0 <= x < 256
  type Bytes = seq<Byte>
  type Sextet = x: int | 0 <= x < 64

  function DigitChar(d: Sextet): char {
    if d < 26 then ('A' as int + d) as char
    else if d < 52 then ('a' as int + d - 26) as char
    else if d < 62 then ('0' as int + d - 52) as char
    else if d == 62 then '+'
    else '/'
  }

  function DigitValue(c: char): Option<Sextet> {
    if 'A' <= c <= 'Z' then Some(c as int - 'A' as int)
    else if 'a' <= c <= 'z' then Some(c as int - 'a' as int + 26)
    else if '0' <= c <= '9' then Some(c as int - '0' as int + 52)
    else if c == '+' || c == '-' then Some(62)
    else if c == '/' || c == '_' then Some(63)
    else None
  }

  function Encode(b: Bytes): string {
    if |b| == 0 then ""
    else if |b| == 1 then
      [DigitChar(b[0] / 4), DigitChar(b[0] % 4 * 16), '=', '=']
    else if |b| == 2 then
      [DigitChar(b[0] / 4), DigitChar(b[0] % 4 * 16 + b[1] / 16), DigitChar(b[1] % 16 * 4), '=']
    else
      [DigitChar(b[0] / 4), DigitChar(b[0] % 4 * 16 + b[1] / 16),
       DigitChar(b[1] % 16 * 4 + b[2] / 64), DigitChar(b[2] % 64)] + Encode(b[3..])
  }

  /** The digits of s, everything else skipped. */
  function Digits(s: string): seq<Sextet> {
    if s == "" then []
    else match DigitValue(s[0])
      case Some(d) => [d] + Digits(s[1..])
      case None => Digits(s[1..])
  }

  /** Reassembles octets from sextets; a lone trailing sextet carries no octet. */
  function Regroup(d: seq<Sextet>): Bytes {
    if |d| < 2 then []
    else if |d| == 2 then [First(d[0], d[1])]
    else if |d| == 3 then [First(d[0], d[1]), Second(d[1], d[2])]
    else [First(d[0], d[1]), Second(d[1], d[2]), Third(d[2], d[3])] + Regroup(d[4..])
  }

  function First(p: int, q: int): (b: Byte)
    requires 0 <= p < 64 && 0 <= q < 64
  {
    p * 4 + q / 16
  }

  function Second(p: int, q: int): (b: Byte)
    requires 0 <= p < 64 && 0 <= q < 64
  {
    p % 16 * 16 + q / 4
  }

  function Third(p: int, q: int): (b: Byte)
    requires 0 <= p < 64 && 0 <= q < 64
  {
    p % 4 * 64 + q
  }

  function Decode(s: string): Bytes {
    Regroup(Digits(s))
  }

  lemma {:induction false} DigitsOfConcat(s: string, t: string)
    ensures Digits(s + t) == Digits(s) + Digits(t)
  {
    if s == "" {
      assert s + t == t;
    } else {
      assert (s + t)[1..] == s[1..] + t;
      DigitsOfConcat(s[1..], t);
    }
  }

  function Digit(c: char): seq<Sextet> {
    match DigitValue(c) case Some(d) => [d] case None => []
  }

  lemma DigitsOfOne(c: char)
    ensures Digits([c]) == Digit(c)
  {
    assert [c][1..] == "";
  }

  lemma DigitsOfFour(a: char, b: char, c: char, d: char)
    ensures Digits([a, b, c, d]) == Digit(a) + Digit(b) + Digit(c) + Digit(d)
  {
    assert [a, b, c, d] == [a] + [b] + [c] + [d];
    DigitsOfConcat([a] + [b] + [c], [d]);
    DigitsOfConcat([a] + [b], [c]);
    DigitsOfConcat([a], [b]);
    DigitsOfOne(a);
    DigitsOfOne(b);
    DigitsOfOne(c);
    DigitsOfOne(d);
  }

  /** The three octets of a group survive being cut into sextets. */
  lemma OctetsOfSextets(b0: int, b1: int, b2: int)
    requires 0 <= b0 < 256 && 0 <= b1 < 256 && 0 <= b2 < 256
    ensures First(b0 / 4, b0 % 4 * 16 + b1 / 16) == b0
    ensures Second(b0 % 4 * 16 + b1 / 16, b1 % 16 * 4 + b2 / 64) == b1
    ensures Third(b1 % 16 * 4 + b2 / 64, b2 % 64) == b2
  {
  }

  lemma DigitsOfGroup(d: seq<Sextet>, tail: string)
    requires |d| == 4
    ensures Digits([DigitChar(d[0]), DigitChar(d[1]), DigitChar(d[2]), DigitChar(d[3])] + tail) == d + Digits(tail)
  {
    var e := [DigitChar(d[0]), DigitChar(d[1]), DigitChar(d[2]), DigitChar(d[3])];
    DigitsOfConcat(e, tail);
    DigitsOfFour(e[0], e[1], e[2], e[3]);
  }

  /** Decoding inverts encoding, for every octet string. */
  lemma {:induction false} DecodeInvertsEncode(b: Bytes)
    ensures Decode(Encode(b)) == b
  {
    if |b| == 0 {
    } else if |b| == 1 {
      assert b == [b[0]];
      DecodeOne(b[0]);
    } else if |b| == 2 {
      assert b == [b[0], b[1]];
      DecodeTwo(b[0], b[1]);
    } else {
      DecodeInvertsEncode(b[3..]);
      DecodeGroup(b[0], b[1], b[2], b[3..]);
      assert b == [b[0], b[1], b[2]] + b[3..];
    }
  }

  /** A full group decodes to its three octets, ahead of whatever the rest decodes to. */
  lemma DecodeGroup(b0: Byte, b1: Byte, b2: Byte, rest: Bytes)
    ensures Decode(Encode([b0, b1, b2] + rest)) == [b0, b1, b2] + Decode(Encode(rest))
  {
    var b := [b0, b1, b2] + rest;
    assert b[3..] == rest;
    var p: Sextet, q: Sextet := b0 / 4, b0 % 4 * 16 + b1 / 16;
    var r: Sextet, s: Sextet := b1 % 16 * 4 + b2 / 64, b2 % 64;
    var d := [p, q, r, s];
    assert Encode(b) == [DigitChar(p), DigitChar(q), DigitChar(r), DigitChar(s)] + Encode(rest);
    DigitsOfGroup(d, Encode(rest));
    RegroupGroup(d, Digits(Encode(rest)));
    assert Decode(Encode(b)) == [First(p, q), Second(q, r), Third(r, s)] + Decode(Encode(rest));
    OctetsOfSextets(b0, b1, b2);
  }

  lemma RegroupGroup(d: seq<Sextet>, rest: seq<Sextet>)
    requires |d| == 4
    ensures Regroup(d + rest) == [First(d[0], d[1]), Second(d[1], d[2]), Third(d[2], d[3])] + Regroup(rest)
  {
    assert (d + rest)[4..] == rest;
  }

  lemma DigitsOfPadded(d0: Sextet, d1: Sextet, d2: Sextet)
    ensures Digits([DigitChar(d0), DigitChar(d1), '=', '=']) == [d0, d1]
    ensures Digits([DigitChar(d0), DigitChar(d1), DigitChar(d2), '=']) == [d0, d1, d2]
  {
    DigitsOfFour(DigitChar(d0), DigitChar(d1), '=', '=');
    DigitsOfFour(DigitChar(d0), DigitChar(d1), DigitChar(d2), '=');
  }

  lemma DecodeOne(b0: Byte)
    ensures Decode(Encode([b0])) == [b0]
  {
    var p: Sextet, q: Sextet := b0 / 4, b0 % 4 * 16;
    assert Encode([b0]) == [DigitChar(p), DigitChar(q), '=', '='];
    DigitsOfPadded(p, q, 0);
    assert Decode(Encode([b0])) == [First(p, q)];
    OctetsOfSextets(b0, 0, 0);
  }

  lemma DecodeTwo(b0: Byte, b1: Byte)
    ensures Decode(Encode([b0, b1])) == [b0, b1]
  {
    var p: Sextet, q: Sextet, r: Sextet := b0 / 4, b0 % 4 * 16 + b1 / 16, b1 % 16 * 4;
    assert Encode([b0, b1]) == [DigitChar(p), DigitChar(q), DigitChar(r), '='];
    DigitsOfPadded(p, q, r);
    assert Decode(Encode([b0, b1])) == [First(p, q), Second(q, r)];
    OctetsOfSextets(b0, b1, 0);
  }

  /** The URL-safe spelling of a text: '-' for '+' and '_' for '/'. */
  function UrlSafe(s: string): string {
    if s == "" then "" else [if s[0] == '+' then '-' else if s[0] == '/' then '_' else s[0]] + UrlSafe(s[1..])
  }

  /** Either spelling decodes to the same octets. */
  lemma {:induction false} DigitsOfUrlSafe(s: string)
    ensures Digits(UrlSafe(s)) == Digits(s)
  {
    if s != "" {
      DigitsOfUrlSafe(s[1..]);
      assert UrlSafe(s)[1..] == UrlSafe(s[1..]);
    }
  }

  lemma UrlSafeDecodes(b: Bytes)
    ensures Decode(UrlSafe(Encode(b))) == b
  {
    DigitsOfUrlSafe(Encode(b));
    DecodeInvertsEncode(b);
  }

  predicate IsStandardDigit(c: char) {
    'A' <= c <= 'Z' || 'a' <= c <= 'z' || '0' <= c <= '9' || c == '+' || c == '/'
  }

  lemma DigitIsStandard(d: Sextet)
    ensures IsStandardDigit(DigitChar(d))
  {
  }

  /** What is missing from n octets to whole groups of three. */
  function Padding(n: nat): nat {
    if n == 0 then 0 else if n == 1 then 2 else if n == 2 then 1 else Padding(n - 3)
  }

  lemma {:induction false} EncodedLength(b: Bytes)
    ensures 3 * |Encode(b)| == 4 * (|b| + Padding(|b|))
  {
    if |b| >= 3 {
      EncodedLength(b[3..]);
      var four := GroupIsStandard(b);
    }
  }

  /** All but the last `padding` characters are digits, and those are '='. */
  predicate IsPadded(s: string, padding: nat) {
    && padding <= |s|
    && (forall k :: 0 <= k < |s| - padding ==> IsStandardDigit(s[k]))
    && (forall k :: |s| - padding <= k < |s| ==> s[k] == '=')
  }

  lemma OneOctetIsPadded(b0: Byte)
    ensures IsPadded(Encode([b0]), 2)
  {
    var p: Sextet, q: Sextet := b0 / 4, b0 % 4 * 16;
    assert Encode([b0]) == [DigitChar(p), DigitChar(q), '=', '='];
    DigitIsStandard(p);
    DigitIsStandard(q);
  }

  lemma TwoOctetsArePadded(b0: Byte, b1: Byte)
    ensures IsPadded(Encode([b0, b1]), 1)
  {
    var p: Sextet, q: Sextet, r: Sextet := b0 / 4, b0 % 4 * 16 + b1 / 16, b1 % 16 * 4;
    assert Encode([b0, b1]) == [DigitChar(p), DigitChar(q), DigitChar(r), '='];
    DigitIsStandard(p);
    DigitIsStandard(q);
    DigitIsStandard(r);
  }

  lemma GroupBeforePadded(four: string, s: string, padding: nat)
    requires |four| == 4 && (forall k :: 0 <= k < 4 ==> IsStandardDigit(four[k])) && IsPadded(s, padding)
    ensures IsPadded(four + s, padding)
  {
  }

  /** Four digits for every three octets begun, from the standard alphabet, with the last group filled up by '='. */
  lemma {:induction false} EncodeIsStandard(b: Bytes)
    ensures 3 * |Encode(b)| == 4 * (|b| + Padding(|b|))
    ensures IsPadded(Encode(b), Padding(|b|))
  {
    EncodedLength(b);
    assert IsPadded(Encode(b), Padding(|b|)) by { EncodeIsPadded(b); }
  }

  lemma {:induction false} EncodeIsPadded(b: Bytes)
    ensures IsPadded(Encode(b), Padding(|b|))
  {
    if |b| >= 3 {
      var four := GroupIsStandard(b);
      EncodeIsPadded(b[3..]);
      GroupBeforePadded(four, Encode(b[3..]), Padding(|b|));
    } else if |b| == 1 {
      assert b == [b[0]];
      OneOctetIsPadded(b[0]);
    } else if |b| == 2 {
      assert b == [b[0], b[1]];
      TwoOctetsArePadded(b[0], b[1]);
    }
  }

  lemma GroupIsStandard(b: Bytes) returns (four: string)
    requires |b| >= 3
    ensures |four| == 4 && Encode(b) == four + Encode(b[3..]) && forall k :: 0 <= k < 4 ==> IsStandardDigit(four[k])
  {
    var p: Sextet, q: Sextet := b[0] / 4, b[0] % 4 * 16 + b[1] / 16;
    var r: Sextet, s: Sextet := b[1] % 16 * 4 + b[2] / 64, b[2] % 64;
    four := [DigitChar(p), DigitChar(q), DigitChar(r), DigitChar(s)];
    DigitIsStandard(p);
    DigitIsStandard(q);
    DigitIsStandard(r);
    DigitIsStandard(s);
  }

  /** Test vectors of section 10 of RFC 4648: "fo", "foob" and "fooba", and the two last digits of the alphabet. */
  lemma EncodeVectors()
    ensures Encode([0x66, 0x6F]) == "Zm8="
    ensures Encode([0x66, 0x6F, 0x6F, 0x62]) == "Zm9vYg=="
    ensures Encode([0x66, 0x6F, 0x6F, 0x62, 0x61]) == "Zm9vYmE="
    ensures Encode([0xFB, 0xFF, 0x00]) == "+/8A"
  {
    assert [0x66, 0x6F, 0x6F, 0x62][3..] == [0x62];
    assert [0x66, 0x6F, 0x6F, 0x62, 0x61][3..] == [0x62, 0x61];
    assert [0xFB, 0xFF, 0x00][3..] == [];
  }

  /** No encoding contains a colon, so none can be mistaken for a versioned value. */
  lemma {:induction false} EncodeHasNoColon(b: Bytes)
    ensures ':' !in Encode(b)
  {
    if |b| >= 3 {
      EncodeHasNoColon(b[3..]);
    }
  }
}
