/**
 * UTF-8 as Python uses it: `str.encode('utf-8')` and
 * `bytes.decode('utf-8', errors='ignore')`.
 *
 * A Dafny `char` is a Unicode scalar value (surrogates excluded), which is
 * exactly the set of code points a Python string built by decoding can hold,
 * so encoding never fails. The decoder accepts the well-formed byte sequences
 * of Table 3-7 of the Unicode Standard (the table CPython's decoder follows)
 * and, in `ignore` mode, drops every byte that does not start a well-formed
 * sequence. CPython drops each maximal ill-formed subpart at once; every byte
 * after the first of such a subpart is a continuation byte, which on its own
 * is dropped too, so dropping one byte at a time gives the same string.
 */
module Utf8 {
  import opened Common

  predicate IsCont(b: int) { 0x80 <= b <= 0xBF }

  /** The byte at `i` as an integer, or 0 past the end. */
  function Byte(s: seq<byte>, i: nat): int { if i < |s| then s[i] as int else 0 }

  /** The bytes of one scalar value. */
  function EncodeChar(c: char): (r: seq<byte>)
    ensures 1 <= |r| <= 4
    ensures (c as int < 0x80) <==> |r| == 1
  {
    var n := c as int;
    if n < 0x80 then [n]
    else if n < 0x800 then [0xC0 + n / 64, 0x80 + n % 64]
    else if n < 0x10000 then [0xE0 + n / 4096, 0x80 + (n / 64) % 64, 0x80 + n % 64]
    else [0xF0 + n / 262144, 0x80 + (n / 4096) % 64, 0x80 + (n / 64) % 64, 0x80 + n % 64]
  }

  /** Python's `s.encode('utf-8')`. */
  function Encode(s: string): (r: seq<byte>)
    ensures |r| >= |s|
  {
    if s == [] then [] else EncodeChar(s[0]) + Encode(s[1..])
  }

  /**
   * One decoding step on a non-empty input: the scalar value that the
   * leading well-formed sequence encodes and its length, or `None` and 1
   * when the first byte starts no well-formed sequence.
   */
  function Step(s: seq<byte>): (r: (Option<char>, nat))
    requires |s| > 0
    ensures 1 <= r.1 <= |s|
  {
    var b0, b1, b2, b3 := s[0] as int, Byte(s, 1), Byte(s, 2), Byte(s, 3);
    if b0 < 0x80 then (Some(b0 as char), 1)
    else if 0xC2 <= b0 <= 0xDF && |s| >= 2 && IsCont(b1) then
      (Some(((b0 - 0xC0) * 64 + (b1 - 0x80)) as char), 2)
    else if 0xE0 <= b0 <= 0xEF && |s| >= 3 && IsCont(b1) && IsCont(b2)
      && (b0 != 0xE0 || b1 >= 0xA0) && (b0 != 0xED || b1 <= 0x9F) then
      var n := (b0 - 0xE0) * 4096 + (b1 - 0x80) * 64 + (b2 - 0x80);
      assert 0x800 <= n < 0x10000 && (n < 0xD800 || n >= 0xE000) by { Step3Range(b0, b1, b2); }
      (Some(n as char), 3)
    else if 0xF0 <= b0 <= 0xF4 && |s| >= 4 && IsCont(b1) && IsCont(b2) && IsCont(b3)
      && (b0 != 0xF0 || b1 >= 0x90) && (b0 != 0xF4 || b1 <= 0x8F) then
      var n := (b0 - 0xF0) * 262144 + (b1 - 0x80) * 4096 + (b2 - 0x80) * 64 + (b3 - 0x80);
      (Some(n as char), 4)
    else (None, 1)
  }

  lemma Step3Range(b0: int, b1: int, b2: int)
    requires 0xE0 <= b0 <= 0xEF && IsCont(b1) && IsCont(b2)
    requires b0 != 0xE0 || b1 >= 0xA0
    requires b0 != 0xED || b1 <= 0x9F
    ensures var n := (b0 - 0xE0) * 4096 + (b1 - 0x80) * 64 + (b2 - 0x80);
      0x800 <= n < 0x10000 && (n < 0xD800 || n >= 0xE000)
  {
  }

  /** Python's `b.decode('utf-8', errors='ignore')`. */
  function DecodeIgnore(s: seq<byte>): (r: string)
    ensures |r| <= |s|
    decreases |s|
  {
    if s == [] then []
    else
      var (c, k) := Step(s);
      match c
      case None => DecodeIgnore(s[k..])
      case Some(ch) => [ch] + DecodeIgnore(s[k..])
  }

  lemma StepEncodeChar(c: char, rest: seq<byte>)
    ensures Step(EncodeChar(c) + rest) == (Some(c), |EncodeChar(c)|)
  {
    var n := c as int;
    if n < 0x80 {
      assert (EncodeChar(c) + rest)[0] as int == n;
    } else if n < 0x800 {
      StepTwo(c, rest);
    } else if n < 0x10000 {
      StepThree(c, rest);
    } else {
      StepFour(c, rest);
    }
  }

  lemma StepTwo(c: char, rest: seq<byte>)
    requires 0x80 <= c as int < 0x800
    ensures Step(EncodeChar(c) + rest) == (Some(c), 2)
  {
    var n := c as int;
    var s := EncodeChar(c) + rest;
    assert s[0] == 0xC0 + n / 64 && s[1] == 0x80 + n % 64;
    assert 2 <= n / 64 <= 31;
    assert (s[0] as int - 0xC0) * 64 + (s[1] as int - 0x80) == n;
  }

  lemma StepThree(c: char, rest: seq<byte>)
    requires 0x800 <= c as int < 0x10000
    ensures Step(EncodeChar(c) + rest) == (Some(c), 3)
  {
    var n := c as int;
    var s := EncodeChar(c) + rest;
    var q := n / 64;
    assert s[0] == 0xE0 + n / 4096 && s[1] == 0x80 + q % 64 && s[2] == 0x80 + n % 64;
    assert n / 4096 == q / 64;
    assert n / 4096 == 0 ==> q % 64 >= 0x20;
    assert n / 4096 == 13 ==> q % 64 < 0x20;
    assert (s[0] as int - 0xE0) * 4096 + (s[1] as int - 0x80) * 64 == q * 64;
  }

  lemma StepFour(c: char, rest: seq<byte>)
    requires 0x10000 <= c as int
    ensures Step(EncodeChar(c) + rest) == (Some(c), 4)
  {
    var n := c as int;
    var s := EncodeChar(c) + rest;
    var q := n / 64;
    var p := q / 64;
    assert n / 4096 == p && n / 262144 == p / 64;
    assert s[0] == 0xF0 + p / 64 && s[1] == 0x80 + p % 64 && s[2] == 0x80 + q % 64 && s[3] == 0x80 + n % 64;
    assert p / 64 <= 4;
    assert p / 64 == 0 ==> p % 64 >= 0x10;
    assert p / 64 == 4 ==> p % 64 < 0x10;
    assert (s[0] as int - 0xF0) * 262144 + (s[1] as int - 0x80) * 4096 == p * 4096;
    assert p * 4096 + (s[2] as int - 0x80) * 64 == q * 64;
  }

  lemma EncodeAppend(a: string, b: string)
    ensures Encode(a + b) == Encode(a) + Encode(b)
  {
    if a == [] {
      assert a + b == b;
    } else {
      assert (a + b)[1..] == a[1..] + b;
      EncodeAppend(a[1..], b);
    }
  }

  /** Decoding stops at nothing: the decoded prefix is kept and decoding resumes after it. */
  lemma {:induction false} DecodeEncodePrefix(s: string, rest: seq<byte>)
    ensures DecodeIgnore(Encode(s) + rest) == s + DecodeIgnore(rest)
    decreases |s|
  {
    hide DecodeIgnore, Step, EncodeChar;
    if s == [] {
      assert Encode(s) + rest == rest;
    } else {
      var tail := Encode(s[1..]) + rest;
      assert Encode(s) + rest == EncodeChar(s[0]) + tail;
      DecodeCons(s[0], tail);
      DecodeEncodePrefix(s[1..], rest);
      assert s == [s[0]] + s[1..];
    }
  }

  /** An encoded character in front decodes to that character in front. */
  lemma DecodeCons(c: char, tail: seq<byte>)
    ensures DecodeIgnore(EncodeChar(c) + tail) == [c] + DecodeIgnore(tail)
  {
    StepEncodeChar(c, tail);
    assert (EncodeChar(c) + tail)[|EncodeChar(c)|..] == tail;
  }

  /** Encoding then decoding is the identity on strings. */
  lemma DecodeEncode(s: string)
    ensures DecodeIgnore(Encode(s)) == s
  {
    DecodeEncodePrefix(s, []);
    assert Encode(s) + [] == Encode(s);
  }

  /** A byte string made of ASCII bytes only. */
  predicate IsAscii(b: seq<byte>) { forall i :: 0 <= i < |b| ==> b[i] < 0x80 }

  /** ASCII bytes decode one character per byte. */
  lemma {:induction false} DecodeAscii(b: seq<byte>)
    requires IsAscii(b)
    ensures |DecodeIgnore(b)| == |b|
    ensures forall i :: 0 <= i < |b| ==> DecodeIgnore(b)[i] as int == b[i]
    ensures Encode(DecodeIgnore(b)) == b
    decreases |b|
  {
    if b != [] {
      DecodeAscii(b[1..]);
      assert Encode(DecodeIgnore(b)) == EncodeChar(b[0] as char) + Encode(DecodeIgnore(b[1..]));
    }
  }

  /** A byte that starts no well-formed sequence (a stray continuation byte,
      an overlong lead C0/C1, or F5..FF). */
  predicate NeverLead(b: byte) { (0x80 <= b <= 0xC1) || b >= 0xF5 }

  /** Such a byte is silently lost by `decode('utf-8', errors='ignore')`. */
  lemma DecodeDropsInvalid(b: byte, rest: seq<byte>)
    requires NeverLead(b)
    ensures DecodeIgnore([b] + rest) == DecodeIgnore(rest)
  {
    assert ([b] + rest)[1..] == rest;
  }
}
