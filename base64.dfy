/**
 * Base64 as Python's `base64` module provides it: the standard alphabet of
 * section 4 of RFC 4648, the URL- and filename-safe alphabet of section 5,
 * and the lenient decoder behind `b64decode` (CPython's
 * `binascii.a2b_base64` outside strict mode), which skips bytes outside the
 * alphabet and stops at the first complete run of padding.
 */
module Base64 {
  import opened Common

  const PAD: byte := 61      // '='
  const NEWLINE: byte := 10  // '\n'

  /** The byte of the digit `v`; `url` selects the alphabet of RFC 4648 section 5. */
  function Digit(v: nat, url: bool): (b: byte)
    requires v < 64
  {
    if v < 26 then 65 + v                // 'A'..'Z'
    else if v < 52 then 97 + (v - 26)    // 'a'..'z'
    else if v < 62 then 48 + (v - 52)    // '0'..'9'
    else if v == 62 then (if url then 45 else 43)  // '-' or '+'
    else (if url then 95 else 47)                  // '_' or '/'
  }

  /** The value of a byte of the standard alphabet, if it is one. */
  function Value(b: byte): (r: Option<nat>)
    ensures r.Some? ==> r.value < 64 && Digit(r.value, false) == b
  {
    if 65 <= b <= 90 then Some(b - 65)
    else if 97 <= b <= 122 then Some(b - 97 + 26)
    else if 48 <= b <= 57 then Some(b - 48 + 52)
    else if b == 43 then Some(62)
    else if b == 47 then Some(63)
    else None
  }

  lemma ValueDigit(v: nat)
    requires v < 64
    ensures Value(Digit(v, false)) == Some(v)
  {
  }

  /** `b64encode` (`url` false) and `urlsafe_b64encode` (`url` true). */
  function Encode(data: seq<byte>, url: bool): (r: seq<byte>)
    ensures |r| == 4 * ((|data| + 2) / 3)
    decreases |data|
  {
    if |data| == 0 then []
    else if |data| == 1 then
      [Digit(data[0] / 4, url), Digit((data[0] % 4) * 16, url), PAD, PAD]
    else if |data| == 2 then
      [Digit(data[0] / 4, url), Digit((data[0] % 4) * 16 + data[1] / 16, url),
       Digit((data[1] % 16) * 4, url), PAD]
    else
      [Digit(data[0] / 4, url), Digit((data[0] % 4) * 16 + data[1] / 16, url),
       Digit((data[1] % 16) * 4 + data[2] / 64, url), Digit(data[2] % 64, url)]
      + Encode(data[3..], url)
  }

  /** Every byte of an encoding is a digit of its alphabet or the pad. */
  lemma {:induction false} EncodeBytes(data: seq<byte>, url: bool)
    ensures forall i :: 0 <= i < |Encode(data, url)| ==>
      Encode(data, url)[i] == PAD || exists v :: 0 <= v < 64 && Encode(data, url)[i] == Digit(v, url)
    decreases |data|
  {
    if |data| >= 3 {
      EncodeBytes(data[3..], url);
      var e := Encode(data, url);
      forall i | 0 <= i < |e|
        ensures e[i] == PAD || exists v :: 0 <= v < 64 && e[i] == Digit(v, url)
      {
        if i >= 4 { assert e[i] == Encode(data[3..], url)[i - 4]; }
      }
    }
  }

  /** No base64 encoding contains a newline. */
  lemma EncodeNoNewline(data: seq<byte>, url: bool)
    ensures NEWLINE !in Encode(data, url)
  {
    EncodeBytes(data, url);
  }

  datatype DecodeError = ExcessDataCharacter | IncorrectPadding

  /**
   * The decoder's loop: `quad` is the position inside the current group of
   * four digits, `left` the bits not yet emitted, `pads` the `=` seen since
   * the last digit.
   */
  function Run(s: seq<byte>, quad: nat, left: nat, pads: nat, out: seq<byte>)
    : (r: Result<seq<byte>, DecodeError>)
    requires quad < 4
    requires quad == 0 ==> left == 0
    requires quad == 1 ==> left < 64
    requires quad == 2 ==> left < 16
    requires quad == 3 ==> left < 4
    ensures r.Ok? ==> StartsWith(r.value, out)
    ensures r.Ok? ==> 4 * (|r.value| - |out|) <= 3 * |s| + (if quad == 0 then 0 else 4 - quad)
    decreases |s|
  {
    if s == [] then
      if quad == 0 then Ok(out)
      else if quad == 1 then Err(ExcessDataCharacter)
      else Err(IncorrectPadding)
    else if s[0] == PAD then
      // `quad_pos >= 2 && quad_pos + ++pads >= 4`: the count only moves
      // once two digits of the group have been seen
      if quad >= 2 && quad + pads + 1 >= 4 then Ok(out)
      else Run(s[1..], quad, left, if quad >= 2 then pads + 1 else pads, out)
    else
      match Value(s[0])
      case None => Run(s[1..], quad, left, pads, out)
      case Some(v) =>
        if quad == 0 then Run(s[1..], 1, v, 0, out)
        else if quad == 1 then Run(s[1..], 2, v % 16, 0, out + [left * 4 + v / 16])
        else if quad == 2 then Run(s[1..], 3, v % 4, 0, out + [left * 16 + v / 4])
        else Run(s[1..], 0, 0, 0, out + [left * 64 + v])
  }

  /** `base64.b64decode(s)`: lenient decoding with the standard alphabet. */
  function Decode(s: seq<byte>): (r: Result<seq<byte>, DecodeError>)
    ensures r.Ok? ==> 4 * |r.value| <= 3 * |s|
  {
    Run(s, 0, 0, 0, [])
  }

  /** The translation `urlsafe_b64decode` applies before decoding: '-' to '+', '_' to '/'. */
  function UrlToStandard(s: seq<byte>): (r: seq<byte>)
    ensures |r| == |s|
    ensures forall i :: 0 <= i < |s| ==>
      r[i] == (if s[i] == 45 then 43 else if s[i] == 95 then 47 else s[i])
  {
    if s == [] then [] else
      [if s[0] == 45 then 43 else if s[0] == 95 then 47 else s[0]] + UrlToStandard(s[1..])
  }

  /** `base64.urlsafe_b64decode(s)`. */
  function UrlSafeDecode(s: seq<byte>): Result<seq<byte>, DecodeError>
  {
    Decode(UrlToStandard(s))
  }

  lemma {:induction false} RunEncode(data: seq<byte>, out: seq<byte>)
    ensures Run(Encode(data, false), 0, 0, 0, out) == Ok(out + data)
    decreases |data|
  {
    if |data| == 0 {
      assert out + data == out;
    } else if |data| == 1 {
      RunLastOne(data, out);
    } else if |data| == 2 {
      RunLastTwo(data, out);
    } else {
      RunGroup(data, out);
      RunEncode(data[3..], out + data[..3]);
      assert out + data[..3] + data[3..] == out + data;
    }
  }

  /** A digit `x` read at each position inside a group; `b` is the byte it completes, if any. */
  lemma StepDigit(x: byte, rest: seq<byte>, quad: nat, left: nat, v: nat, out: seq<byte>, b: byte)
    requires v < 64 && x == Digit(v, false) && quad < 4
    requires quad == 0 ==> left == 0
    requires quad == 1 ==> left < 64 && b == left * 4 + v / 16
    requires quad == 2 ==> left < 16 && b == left * 16 + v / 4
    requires quad == 3 ==> left < 4 && b == left * 64 + v
    ensures quad == 0 ==> Run([x] + rest, quad, left, 0, out) == Run(rest, 1, v, 0, out)
    ensures quad == 1 ==> Run([x] + rest, quad, left, 0, out) == Run(rest, 2, v % 16, 0, out + [b])
    ensures quad == 2 ==> Run([x] + rest, quad, left, 0, out) == Run(rest, 3, v % 4, 0, out + [b])
    ensures quad == 3 ==> Run([x] + rest, quad, left, 0, out) == Run(rest, 0, 0, 0, out + [b])
  {
    ValueDigit(v);
    assert Value(PAD).None?;
    hide Digit, Value;
    assert ([x] + rest)[1..] == rest;
  }

  /** A final group of one byte, "xx==". */
  lemma RunLastOne(data: seq<byte>, out: seq<byte>)
    requires |data| == 1
    ensures Run(Encode(data, false), 0, 0, 0, out) == Ok(out + data)
  {
    var d0 := data[0];
    var v1 := (d0 % 4) * 16;
    var x0, x1 := Digit(d0 / 4, false), Digit(v1, false);
    assert (d0 / 4) * 4 + v1 / 16 == d0;
    assert Encode(data, false) == [x0] + ([x1] + [PAD, PAD]);
    hide Encode, Digit, Value;
    StepDigit(x0, [x1] + [PAD, PAD], 0, 0, d0 / 4, out, 0);
    StepDigit(x1, [PAD, PAD], 1, d0 / 4, v1, out, d0);
    assert [PAD, PAD][1..] == [PAD];
    assert out + [d0] == out + data;
  }

  /** A final group of two bytes, "xxx=". */
  lemma RunLastTwo(data: seq<byte>, out: seq<byte>)
    requires |data| == 2
    ensures Run(Encode(data, false), 0, 0, 0, out) == Ok(out + data)
  {
    var d0, d1 := data[0], data[1];
    var v1 := (d0 % 4) * 16 + d1 / 16;
    var v2 := (d1 % 16) * 4;
    assert v1 / 16 == d0 % 4 && v1 % 16 == d1 / 16 && v2 / 4 == d1 % 16;
    assert (d0 / 4) * 4 + v1 / 16 == d0 && (v1 % 16) * 16 + v2 / 4 == d1;
    var x0, x1, x2 := Digit(d0 / 4, false), Digit(v1, false), Digit(v2, false);
    assert Encode(data, false) == [x0] + ([x1] + ([x2] + [PAD]));
    hide Encode, Digit, Value;
    StepDigit(x0, [x1] + ([x2] + [PAD]), 0, 0, d0 / 4, out, 0);
    StepDigit(x1, [x2] + [PAD], 1, d0 / 4, v1, out, d0);
    StepDigit(x2, [PAD], 2, v1 % 16, v2, out + [d0], d1);
    assert out + [d0] + [d1] == out + data;
  }

  /** A full group of three bytes, "xxxx", returns the loop to the start of a group. */
  lemma RunGroup(data: seq<byte>, out: seq<byte>)
    requires |data| >= 3
    ensures Run(Encode(data, false), 0, 0, 0, out)
      == Run(Encode(data[3..], false), 0, 0, 0, out + data[..3])
  {
    var d0, d1, d2 := data[0], data[1], data[2];
    var v1 := (d0 % 4) * 16 + d1 / 16;
    var v2 := (d1 % 16) * 4 + d2 / 64;
    GroupDigits(d0, d1, d2);
    var x0, x1, x2, x3 := Digit(d0 / 4, false), Digit(v1, false), Digit(v2, false), Digit(d2 % 64, false);
    var rest := Encode(data[3..], false);
    assert Encode(data, false) == [x0] + ([x1] + ([x2] + ([x3] + rest)));
    hide Encode, Digit, Value;
    StepDigit(x0, [x1] + ([x2] + ([x3] + rest)), 0, 0, d0 / 4, out, 0);
    StepDigit(x1, [x2] + ([x3] + rest), 1, d0 / 4, v1, out, d0);
    StepDigit(x2, [x3] + rest, 2, v1 % 16, v2, out + [d0], d1);
    StepDigit(x3, rest, 3, v2 % 4, d2 % 64, out + [d0] + [d1], d2);
    PrefixThree(data, out);
  }

  lemma PrefixThree(data: seq<byte>, out: seq<byte>)
    requires |data| >= 3
    ensures out + [data[0]] + [data[1]] + [data[2]] == out + data[..3]
  {
    assert data[..3] == [data[0], data[1], data[2]];
  }

  /** The six-bit digits of a group of three bytes, and how the decoder puts the bytes back together. */
  lemma GroupDigits(d0: byte, d1: byte, d2: byte)
    ensures var v1 := (d0 % 4) * 16 + d1 / 16;
      var v2 := (d1 % 16) * 4 + d2 / 64;
      && d0 / 4 < 64 && v1 < 64 && v2 < 64
      && (d0 / 4) * 4 + v1 / 16 == d0
      && (v1 % 16) * 16 + v2 / 4 == d1
      && (v2 % 4) * 64 + d2 % 64 == d2
  {
    var v1 := (d0 % 4) * 16 + d1 / 16;
    var v2 := (d1 % 16) * 4 + d2 / 64;
    assert v1 / 16 == d0 % 4 && v1 % 16 == d1 / 16;
    assert v2 / 4 == d1 % 16 && v2 % 4 == d2 / 64;
  }

  /** RFC 4648 section 4 round trip: `b64decode(b64encode(x)) == x`. */
  lemma DecodeEncode(data: seq<byte>)
    ensures Decode(Encode(data, false)) == Ok(data)
  {
    RunEncode(data, []);
    assert [] + data == data;
  }

  /** The RFC 4648 section 5 encoding, translated back, is the RFC 4648 section 4 encoding. */
  lemma {:induction false} UrlToStandardEncode(data: seq<byte>)
    ensures UrlToStandard(Encode(data, true)) == Encode(data, false)
  {
    var u, s := Encode(data, true), Encode(data, false);
    var t := UrlToStandard(u);
    EncodeBytes(data, true);
    UrlEncodeShape(data);
    assert |t| == |s|;
    forall i | 0 <= i < |s| ensures t[i] == s[i] {
      if u[i] != PAD {
        var v :| 0 <= v < 64 && u[i] == Digit(v, true);
        UrlEncodeAt(data, i, v);
      }
    }
  }

  /** The two encodings agree wherever the pad sits. */
  lemma {:induction false} UrlEncodeShape(data: seq<byte>)
    ensures |Encode(data, true)| == |Encode(data, false)|
    ensures forall i :: 0 <= i < |Encode(data, true)| ==>
      (Encode(data, true)[i] == PAD <==> Encode(data, false)[i] == PAD)
    decreases |data|
  {
    if |data| >= 3 {
      UrlEncodeShape(data[3..]);
      var u, s := Encode(data, true), Encode(data, false);
      forall i | 4 <= i < |u| ensures (u[i] == PAD <==> s[i] == PAD) {
        assert u[i] == Encode(data[3..], true)[i - 4];
        assert s[i] == Encode(data[3..], false)[i - 4];
      }
    }
  }

  /** Position by position, the RFC 4648 section 5 digit `v` stands where RFC 4648 section 4 has digit `v`. */
  lemma {:induction false} UrlEncodeAt(data: seq<byte>, i: nat, v: nat)
    requires i < |Encode(data, true)| && v < 64 && Encode(data, true)[i] == Digit(v, true)
    ensures i < |Encode(data, false)| && Encode(data, false)[i] == Digit(v, false)
    decreases |data|
  {
    if |data| >= 3 && i >= 4 {
      assert Encode(data, true)[i] == Encode(data[3..], true)[i - 4];
      assert Encode(data, false)[i] == Encode(data[3..], false)[i - 4];
      UrlEncodeAt(data[3..], i - 4, v);
    } else {
      DigitInjective(data, i, v);
    }
  }

  /** Digits of the RFC 4648 section 5 alphabet name their values uniquely. */
  lemma DigitInjective(data: seq<byte>, i: nat, v: nat)
    requires i < |Encode(data, true)| && v < 64 && Encode(data, true)[i] == Digit(v, true)
    requires |data| < 3 || i < 4
    ensures i < |Encode(data, false)| && Encode(data, false)[i] == Digit(v, false)
  {
    forall w | 0 <= w < 64 && Digit(w, true) == Digit(v, true) ensures w == v { }
  }

  /** RFC 4648 section 5 round trip: `urlsafe_b64decode(urlsafe_b64encode(x)) == x`. */
  lemma UrlSafeDecodeEncode(data: seq<byte>)
    ensures UrlSafeDecode(Encode(data, true)) == Ok(data)
  {
    UrlToStandardEncode(data);
    DecodeEncode(data);
  }

  /** `urlsafe_b64decode` also accepts the RFC 4648 section 4 alphabet. */
  lemma UrlSafeDecodeStandard(data: seq<byte>)
    ensures UrlSafeDecode(Encode(data, false)) == Ok(data)
  {
    EncodeBytes(data, false);
    var e := Encode(data, false);
    forall i | 0 <= i < |e| ensures e[i] != 45 && e[i] != 95 { }
    assert UrlToStandard(e) == e;
    DecodeEncode(data);
  }

  // ---------------------------------------------------------------------
  // The multiline layout: 64-character lines joined by '\n'

  /** `[s[i:i+n] for i in range(0, len(s), n)]`. */
  function Chunks(s: seq<byte>, n: nat): (r: seq<seq<byte>>)
    requires n > 0
    ensures Flatten(r) == s
    ensures forall k :: 0 <= k < |r| ==> 0 < |r[k]| <= n
    decreases |s|
  {
    if s == [] then []
    else if |s| <= n then
      assert Flatten([s]) == Flatten([]) + s;
      [s]
    else
      var rest := Chunks(s[n..], n);
      FlattenCons(s[..n], rest);
      assert s == s[..n] + s[n..];
      [s[..n]] + rest
  }

  lemma {:induction false} FlattenCons(p: seq<byte>, rest: seq<seq<byte>>)
    ensures Flatten([p] + rest) == p + Flatten(rest)
    decreases |rest|
  {
    if rest == [] {
      assert [p] + rest == [p];
      assert Flatten([p]) == Flatten([]) + p;
    } else {
      var all := [p] + rest;
      var init := rest[..|rest| - 1];
      var last := rest[|rest| - 1];
      assert all[..|all| - 1] == [p] + init;
      assert Flatten(all) == Flatten([p] + init) + last;
      assert Flatten(rest) == Flatten(init) + last;
      hide Flatten;
      FlattenCons(p, init);
    }
  }

  /** The BASE64_MULTILINE layout of an encoding. */
  function Wrap(e: seq<byte>): seq<byte>
  {
    Join(Chunks(e, 64), [NEWLINE])
  }

  /** Removing the separators of a join leaves the concatenation of the parts. */
  lemma {:induction false} RemoveJoin(parts: seq<seq<byte>>, x: byte)
    requires forall k :: 0 <= k < |parts| ==> x !in parts[k]
    ensures RemoveAll(Join(parts, [x]), x) == Flatten(parts)
    decreases |parts|
  {
    if |parts| == 1 {
      RemoveAllAbsent(parts[0], x);
      assert Flatten(parts) == Flatten([]) + parts[0];
    } else if |parts| > 1 {
      var init := parts[..|parts| - 1];
      var last := parts[|parts| - 1];
      RemoveJoin(init, x);
      RemoveAllAppend(Join(init, [x]) + [x], last, x);
      RemoveAllAppend(Join(init, [x]), [x], x);
      RemoveAllAbsent(last, x);
      assert RemoveAll([x], x) == [];
    }
  }

  /** Stripping every '\n' from the multiline layout gives back the single-line encoding. */
  lemma WrapUnwrap(e: seq<byte>)
    requires NEWLINE !in e
    ensures RemoveAll(Wrap(e), NEWLINE) == e
  {
    var cs := Chunks(e, 64);
    forall k | 0 <= k < |cs| ensures NEWLINE !in cs[k] {
      ChunkIn(e, 64, k);
    }
    RemoveJoin(cs, NEWLINE);
  }

  /** Every chunk is a piece of the input. */
  lemma {:induction false} ChunkIn(s: seq<byte>, n: nat, k: nat)
    requires n > 0 && k < |Chunks(s, n)|
    ensures forall b :: b in Chunks(s, n)[k] ==> b in s
    decreases |s|
  {
    if |s| > n && k > 0 {
      ChunkIn(s[n..], n, k - 1);
    }
  }

  /** Every line of the multiline layout holds between 1 and 64 characters. */
  lemma WrapLines(e: seq<byte>)
    requires NEWLINE !in e && e != []
    ensures forall k :: 0 <= k < |Split(Wrap(e), NEWLINE)| ==> 0 < |Split(Wrap(e), NEWLINE)[k]| <= 64
  {
    var cs := Chunks(e, 64);
    forall k | 0 <= k < |cs| ensures NEWLINE !in cs[k] {
      ChunkIn(e, 64, k);
    }
    SplitJoin(cs, NEWLINE);
  }
}
