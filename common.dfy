/**
 * Shared vocabulary of the model: bytes, optional values and the handful of
 * Python string and dictionary operations the chaff generator relies on
 * (`in`, `endswith`, `replace`, `split`, `join`, `strip`, ordered dicts).
 */
module Common {

  /** One byte of a Python `bytes` object. */
  type byte = x: int | 0 <= x < 256

  datatype Option<+T> = None | Some(value: T)

  datatype Result<+T, +E> = Ok(value: T) | Err(error: E)

  function Min(a: int, b: int): int { if a <= b then a else b }
  function Max(a: int, b: int): int { if a >= b then a else b }

  /** Python's `a // b`, which rounds toward negative infinity. */
  function FloorDiv(a: int, b: int): (q: int)
    requires b != 0
    ensures b > 0 ==> q * b <= a < q * b + b
    ensures b < 0 ==> q * b >= a > q * b + b
  {
    if b > 0 then a / b else (-a) / (-b)
  }

  // ---------------------------------------------------------------------
  // Sequences

  predicate StartsWith<T(==)>(s: seq<T>, p: seq<T>) { |p| <= |s| && s[..|p|] == p }

  predicate EndsWith<T(==)>(s: seq<T>, p: seq<T>) { |p| <= |s| && s[|s| - |p|..] == p }

  /** `p` occurs in `s` at position `i`. */
  predicate OccursAt<T(==)>(s: seq<T>, p: seq<T>, i: int)
  {
    0 <= i && i + |p| <= |s| && s[i..i + |p|] == p
  }

  /** Python's `s.find(p)`: the first position where `p` occurs, if any. */
  function IndexOf<T(==)>(s: seq<T>, p: seq<T>): (r: Option<nat>)
    ensures r.Some? ==> OccursAt(s, p, r.value)
    ensures r.Some? ==> forall j :: 0 <= j < r.value ==> !OccursAt(s, p, j)
    ensures r.None? ==> forall j :: !OccursAt(s, p, j)
    decreases |s|
  {
    if |s| < |p| then None
    else if s[..|p|] == p then Some(0)
    else
      match IndexOf(s[1..], p)
      case None =>
        assert forall j :: 1 <= j ==> (OccursAt(s, p, j) <==> OccursAt(s[1..], p, j - 1));
        None
      case Some(k) =>
        assert forall j :: 1 <= j ==> (OccursAt(s, p, j) <==> OccursAt(s[1..], p, j - 1));
        Some(k + 1)
  }

  /** Python's `p in s` for strings and bytes. */
  ghost predicate Contains<T>(s: seq<T>, p: seq<T>) { exists i :: OccursAt(s, p, i) }

  /** The three parts of a concatenation, cut back out of it. */
  lemma ThreeParts<T>(a: seq<T>, b: seq<T>, c: seq<T>)
    ensures var s := a + b + c;
      |s| == |a| + |b| + |c| && s[..|a|] == a && s[|a|..|a| + |b|] == b && s[|a| + |b|..] == c
  {
    var s := a + b + c;
    assert s[..|a|] == a;
    assert s[|a|..|a| + |b|] == b;
    assert s[|a| + |b|..] == c;
  }

  lemma ContainsMiddle<T>(a: seq<T>, p: seq<T>, b: seq<T>)
    ensures Contains(a + p + b, p)
  {
    var s := a + p + b;
    assert s[|a|..|a| + |p|] == p;
    assert OccursAt(s, p, |a|);
  }

  lemma ContainsExtend<T>(a: seq<T>, s: seq<T>, b: seq<T>, p: seq<T>)
    requires Contains(s, p)
    ensures Contains(a + s + b, p)
  {
    var i :| OccursAt(s, p, i);
    var t := a + s + b;
    assert t[|a| + i..|a| + i + |p|] == s[i..i + |p|];
    assert OccursAt(t, p, |a| + i);
  }

  /** Python's `s.replace(p, r, 1)`. */
  function ReplaceFirst<T(==)>(s: seq<T>, p: seq<T>, r: seq<T>): seq<T>
  {
    match IndexOf(s, p)
    case None => s
    case Some(i) => s[..i] + r + s[i + |p|..]
  }

  /** Python's `s.replace(p, r)` for a non-empty pattern. */
  function ReplaceAll<T(==)>(s: seq<T>, p: seq<T>, r: seq<T>): seq<T>
    requires |p| > 0
    decreases |s|
  {
    match IndexOf(s, p)
    case None => s
    case Some(i) => s[..i] + r + ReplaceAll(s[i + |p|..], p, r)
  }

  /** Python's `s * n`. */
  function Repeat<T>(s: seq<T>, n: nat): (r: seq<T>)
    ensures |r| == n * |s|
  {
    if n == 0 then [] else s + Repeat(s, n - 1)
  }

  /** Python's `s[:n]`, where a negative `n` counts from the end. */
  function SliceTo<T>(s: seq<T>, n: int): seq<T>
  {
    if n >= 0 then s[..Min(n, |s|)] else s[..Max(0, |s| + n)]
  }

  /** A sequence that starts with `s` and then repeats itself every `|s|` positions. */
  ghost predicate Cycles<T>(r: seq<T>, s: seq<T>)
  {
    (forall i :: 0 <= i < |r| && i < |s| ==> r[i] == s[i])
    && (forall i :: |s| <= i < |r| ==> r[i] == r[i - |s|])
  }

  lemma {:induction false} RepeatCycles<T>(s: seq<T>, n: nat)
    ensures Cycles(Repeat(s, n), s)
    decreases n
  {
    if n > 0 {
      RepeatCycles(s, n - 1);
      var r, r' := Repeat(s, n), Repeat(s, n - 1);
      assert r == s + r';
      forall i | |s| <= i < |r| ensures r[i] == r[i - |s|] {
        if i - |s| >= |s| {
          assert r'[i - |s|] == r'[i - 2 * |s|];
        }
      }
    }
  }

  /** A prefix of a cycling sequence cycles too. */
  lemma CyclesPrefix<T>(r: seq<T>, s: seq<T>, k: nat)
    requires Cycles(r, s) && k <= |r|
    ensures Cycles(r[..k], s)
  {
  }

  /**
   * `(s * (size // len(s) + 1))[:size]`: the repetition is long enough to
   * cut, and the cut starts with `s` and repeats it.
   */
  lemma RepeatCut<T>(s: seq<T>, size: nat)
    requires |s| > 0
    ensures size < |Repeat(s, size / |s| + 1)|
    ensures Cycles(Repeat(s, size / |s| + 1)[..size], s)
  {
    var n := size / |s| + 1;
    assert size < n * |s| by {
      assert size == (size / |s|) * |s| + size % |s|;
    }
    RepeatCycles(s, n);
    CyclesPrefix(Repeat(s, n), s, size);
  }

  /** An element other than the last one is in the prefix before it. */
  lemma InPrefix<T>(s: seq<T>, x: T)
    requires x in s && x != s[|s| - 1]
    ensures x in s[..|s| - 1]
  {
    var k :| 0 <= k < |s| && s[k] == x;
    assert s[..|s| - 1][k] == x;
  }

  /** Every element of `s` except those equal to `x` (Python `s.replace(x, b'')` for one byte). */
  function RemoveAll<T(==)>(s: seq<T>, x: T): (r: seq<T>)
    ensures x !in r
    ensures |r| <= |s|
  {
    if s == [] then [] else (if s[0] == x then [] else [s[0]]) + RemoveAll(s[1..], x)
  }

  lemma RemoveAllAppend<T>(a: seq<T>, b: seq<T>, x: T)
    ensures RemoveAll(a + b, x) == RemoveAll(a, x) + RemoveAll(b, x)
  {
    if a == [] {
      assert a + b == b;
    } else {
      assert (a + b)[0] == a[0];
      assert (a + b)[1..] == a[1..] + b;
      RemoveAllAppend(a[1..], b, x);
    }
  }

  lemma RemoveAllAbsent<T>(s: seq<T>, x: T)
    requires x !in s
    ensures RemoveAll(s, x) == s
  {
    if s != [] { RemoveAllAbsent(s[1..], x); }
  }

  /** The concatenation of a sequence of sequences. */
  function Flatten<T>(ss: seq<seq<T>>): seq<T>
  {
    if ss == [] then [] else Flatten(ss[..|ss| - 1]) + ss[|ss| - 1]
  }

  /** Python's `sep.join(parts)`. */
  function Join<T>(parts: seq<seq<T>>, sep: seq<T>): seq<T>
  {
    if parts == [] then []
    else if |parts| == 1 then parts[0]
    else Join(parts[..|parts| - 1], sep) + sep + parts[|parts| - 1]
  }

  /** Python's `s.split(c)` for a one-element separator. */
  function Split<T(==)>(s: seq<T>, c: T): (r: seq<seq<T>>)
    ensures |r| >= 1
    ensures |r| == 1 <==> c !in s
    ensures forall k :: 0 <= k < |r| ==> c !in r[k]
    decreases |s|
  {
    if c !in s then [s]
    else
      var i := FirstIndex(s, c);
      [s[..i]] + Split(s[i + 1..], c)
  }

  function FirstIndex<T(==)>(s: seq<T>, c: T): (i: nat)
    requires c in s
    ensures i < |s| && s[i] == c && c !in s[..i]
  {
    if s[0] == c then 0 else 1 + FirstIndex(s[1..], c)
  }

  lemma JoinCons<T>(p: seq<T>, rest: seq<seq<T>>, sep: seq<T>)
    requires rest != []
    ensures Join([p] + rest, sep) == p + sep + Join(rest, sep)
    decreases |rest|
  {
    if |rest| == 1 {
      assert [p] + rest == [p, rest[0]];
      assert ([p] + rest)[..1] == [p];
    } else {
      var all := [p] + rest;
      var init := rest[..|rest| - 1];
      var last := rest[|rest| - 1];
      assert all[..|all| - 1] == [p] + init;
      assert Join(all, sep) == Join([p] + init, sep) + sep + last;
      assert Join(rest, sep) == Join(init, sep) + sep + last;
      hide Join;
      JoinCons(p, init, sep);
    }
  }

  /** Joining two non-empty lists is joining their joins. */
  lemma {:induction false} JoinAppend<T>(a: seq<seq<T>>, b: seq<seq<T>>, sep: seq<T>)
    requires a != [] && b != []
    ensures Join(a + b, sep) == Join(a, sep) + sep + Join(b, sep)
    decreases |b|
  {
    var n := |b|;
    assert (a + b)[..|a + b| - 1] == a + b[..n - 1];
    if n > 1 {
      JoinAppend(a, b[..n - 1], sep);
    } else {
      assert a + b[..n - 1] == a;
    }
  }

  /** Whatever a piece contains, the joined sequence contains. */
  lemma {:induction false} JoinContains<T>(parts: seq<seq<T>>, sep: seq<T>, part: seq<T>, p: seq<T>)
    requires part in parts && Contains(part, p)
    ensures Contains(Join(parts, sep), p)
    decreases |parts|
  {
    var n := |parts|;
    if n == 1 {
    } else if parts[n - 1] == part {
      ContainsExtend(Join(parts[..n - 1], sep) + sep, part, [], p);
      assert Join(parts[..n - 1], sep) + sep + part + [] == Join(parts, sep);
    } else {
      InPrefix(parts, part);
      JoinContains(parts[..n - 1], sep, part, p);
      ContainsExtend([], Join(parts[..n - 1], sep), sep + parts[n - 1], p);
      assert [] + Join(parts[..n - 1], sep) + (sep + parts[n - 1]) == Join(parts, sep);
    }
  }

  /** A sequence contains each of its prefixes. */
  lemma ContainsPrefix<T>(s: seq<T>, p: seq<T>)
    requires StartsWith(s, p)
    ensures Contains(s, p)
  {
    assert OccursAt(s, p, 0);
  }

  /** `[x for x in s if P(x)]`. */
  function Filter<T>(s: seq<T>, P: T -> bool): (r: seq<T>)
    ensures |r| <= |s|
    ensures forall i :: 0 <= i < |r| ==> r[i] in s && P(r[i])
    ensures forall i :: 0 <= i < |s| && P(s[i]) ==> s[i] in r
  {
    if s == [] then []
    else
      var rest := Filter(s[..|s| - 1], P);
      var last := s[|s| - 1];
      assert s == s[..|s| - 1] + [last];
      if P(last) then rest + [last] else rest
  }

  /** Joining the pieces of a split gives back the original sequence. */
  lemma {:induction false} JoinSplit<T>(s: seq<T>, c: T)
    ensures Join(Split(s, c), [c]) == s
    decreases |s|
  {
    if c in s {
      var i := FirstIndex(s, c);
      var rest := Split(s[i + 1..], c);
      assert Split(s, c) == [s[..i]] + rest;
      hide Split, FirstIndex, Join;
      JoinSplit(s[i + 1..], c);
      JoinAround(s, i, rest);
    } else {
      assert Split(s, c) == [s];
    }
  }

  /** The piece before position `i`, the separator there, and a join giving the rest. */
  lemma JoinAround<T>(s: seq<T>, i: nat, rest: seq<seq<T>>)
    requires i < |s| && rest != [] && Join(rest, [s[i]]) == s[i + 1..]
    ensures Join([s[..i]] + rest, [s[i]]) == s
  {
    JoinCons(s[..i], rest, [s[i]]);
    assert s == s[..i] + [s[i]] + s[i + 1..];
  }

  /** Splitting a join of separator-free pieces gives back the pieces. */
  lemma {:induction false} SplitJoin<T>(parts: seq<seq<T>>, c: T)
    requires parts != []
    requires forall k :: 0 <= k < |parts| ==> c !in parts[k]
    ensures Split(Join(parts, [c]), c) == parts
    decreases |parts|
  {
    if |parts| > 1 {
      var rest := parts[1..];
      assert parts == [parts[0]] + rest;
      JoinCons(parts[0], rest, [c]);
      var s := Join(parts, [c]);
      assert s == parts[0] + [c] + Join(rest, [c]);
      assert s[|parts[0]|] == c;
      assert s[..|parts[0]|] == parts[0];
      assert c in s;
      FirstIndexAt(s, c, |parts[0]|);
      assert s[|parts[0]| + 1..] == Join(rest, [c]);
      SplitJoin(rest, c);
    }
  }

  lemma FirstIndexAt<T>(s: seq<T>, c: T, i: nat)
    requires i < |s| && s[i] == c && c !in s[..i]
    ensures FirstIndex(s, c) == i
  {
    if i > 0 {
      assert s[0] in s[..i];
      assert s[1..][..i - 1] == s[..i][1..];
      FirstIndexAt(s[1..], c, i - 1);
    }
  }

  // ---------------------------------------------------------------------
  // Characters and strings

  /** Python's `str.isspace()` for one character. */
  predicate IsSpace(c: char)
  {
    var n := c as int;
    (9 <= n <= 13) || (28 <= n <= 32) || n == 0x85 || n == 0xA0 || n == 0x1680
    || (0x2000 <= n <= 0x200A) || n == 0x2028 || n == 0x2029 || n == 0x202F
    || n == 0x205F || n == 0x3000
  }

  function TrimLeft(s: string): (r: string)
    ensures |r| <= |s| && EndsWith(s, r)
    ensures r != [] ==> !IsSpace(r[0])
    ensures forall k :: 0 <= k < |s| - |r| ==> IsSpace(s[k])
  {
    if s != [] && IsSpace(s[0]) then TrimLeft(s[1..]) else s
  }

  function TrimRight(s: string): (r: string)
    ensures |r| <= |s| && StartsWith(s, r)
    ensures r != [] ==> !IsSpace(r[|r| - 1])
    ensures forall k :: |r| <= k < |s| ==> IsSpace(s[k])
  {
    if s != [] && IsSpace(s[|s| - 1]) then TrimRight(s[..|s| - 1]) else s
  }

  /** Python's `str.strip()`. */
  function Strip(s: string): (r: string)
    ensures |r| <= |s|
    ensures r != [] ==> !IsSpace(r[0]) && !IsSpace(r[|r| - 1])
  {
    TrimRight(TrimLeft(s))
  }

  /** Every character of a stripped string was in the string. */
  lemma StripWithin(s: string)
    ensures forall c :: c in Strip(s) ==> c in s
  {
    var l := TrimLeft(s);
    assert forall c :: c in l ==> c in s by {
      assert l == s[|s| - |l|..];
    }
    var r := TrimRight(l);
    assert forall c :: c in r ==> c in l by {
      assert r == l[..|r|];
    }
  }

  function LowerChar(c: char): char
  {
    if 'A' <= c <= 'Z' then (c as int + 32) as char else c
  }

  function UpperChar(c: char): char
  {
    if 'a' <= c <= 'z' then (c as int - 32) as char else c
  }

  /** Python's `str.lower()` on the ASCII letters; other characters that Python folds are left as they are. */
  function Lower(s: string): (r: string)
    ensures |r| == |s|
    ensures forall k :: 0 <= k < |s| ==> r[k] == LowerChar(s[k])
  {
    if s == [] then [] else [LowerChar(s[0])] + Lower(s[1..])
  }

  /** Lower-casing twice is lower-casing once. */
  lemma LowerIdempotent(s: string)
    ensures Lower(Lower(s)) == Lower(s)
  {
    var l := Lower(s);
    assert forall k :: 0 <= k < |l| ==> Lower(l)[k] == LowerChar(LowerChar(s[k])) == l[k];
  }

  /** Python's `str.upper()` on the ASCII letters; other characters that Python folds are left as they are. */
  function Upper(s: string): (r: string)
    ensures |r| == |s|
    ensures forall k :: 0 <= k < |s| ==> r[k] == UpperChar(s[k])
  {
    if s == [] then [] else [UpperChar(s[0])] + Upper(s[1..])
  }

  predicate IsDigit(c: char) { '0' <= c <= '9' }

  function DigitChar(d: nat): (c: char)
    requires d < 10
    ensures IsDigit(c)
  {
    ('0' as int + d) as char
  }

  /** Python's `str(n)` for a natural number. */
  function NatToString(n: nat): (r: string)
    ensures |r| >= 1
    ensures forall k :: 0 <= k < |r| ==> IsDigit(r[k])
  {
    if n < 10 then [DigitChar(n)] else NatToString(n / 10) + [DigitChar(n % 10)]
  }

  /** Python's `str(n)` for any integer. */
  function IntToString(n: int): string
  {
    if n < 0 then "-" + NatToString(-n) else NatToString(n)
  }

  function DigitsValue(s: string): nat
    requires forall k :: 0 <= k < |s| ==> IsDigit(s[k])
  {
    if s == [] then 0
    else
      assert IsDigit(s[|s| - 1]);
      10 * DigitsValue(s[..|s| - 1]) + (s[|s| - 1] as int - '0' as int)
  }

  lemma {:induction false} NatToStringValue(n: nat)
    ensures DigitsValue(NatToString(n)) == n
  {
    if n >= 10 {
      var s := NatToString(n);
      assert s[..|s| - 1] == NatToString(n / 10);
      NatToStringValue(n / 10);
    }
  }

  /** Distinct numbers print differently. */
  lemma NatToStringInjective(a: nat, b: nat)
    requires NatToString(a) == NatToString(b)
    ensures a == b
  {
    NatToStringValue(a);
    NatToStringValue(b);
  }

  // ---------------------------------------------------------------------
  // Python dictionaries: insertion-ordered association lists

  /** A Python dict: keys in insertion order, each key once. */
  type Dict<K, V> = seq<(K, V)>

  predicate KeysDistinct<K(==), V>(d: Dict<K, V>)
  {
    forall i, j :: 0 <= i < j < |d| ==> d[i].0 != d[j].0
  }

  function Keys<K, V>(d: Dict<K, V>): (r: seq<K>)
    ensures |r| == |d|
    ensures forall i :: 0 <= i < |d| ==> r[i] == d[i].0
  {
    if d == [] then [] else [d[0].0] + Keys(d[1..])
  }

  function DictFind<K(==), V>(d: Dict<K, V>, k: K): (r: Option<nat>)
    ensures r.Some? ==> r.value < |d| && d[r.value].0 == k
    ensures r.None? ==> forall i :: 0 <= i < |d| ==> d[i].0 != k
  {
    if d == [] then None
    else if d[|d| - 1].0 == k then Some(|d| - 1)
    else DictFind(d[..|d| - 1], k)
  }

  /** Python's `d.get(k, default)`. */
  function DictGet<K(==), V>(d: Dict<K, V>, k: K, default: V): V
  {
    match DictFind(d, k)
    case None => default
    case Some(i) => d[i].1
  }

  /** Python's `d[k] = v`: an existing key keeps its position, a new key goes last. */
  function DictPut<K(==), V>(d: Dict<K, V>, k: K, v: V): (r: Dict<K, V>)
    ensures KeysDistinct(d) ==> KeysDistinct(r)
    ensures DictFind(d, k).None? ==> r == d + [(k, v)]
    ensures DictFind(d, k).Some? ==> |r| == |d| && Keys(r) == Keys(d)
  {
    match DictFind(d, k)
    case None => d + [(k, v)]
    case Some(i) =>
      var r := d[i := (k, v)];
      assert Keys(r) == Keys(d);
      r
  }

  /** `d.get(k, default)` is the default or one of the values. */
  lemma DictGetIn<K, V>(d: Dict<K, V>, k: K, default: V)
    ensures DictGet(d, k, default) == default || exists i :: 0 <= i < |d| && DictGet(d, k, default) == d[i].1
  {
    match DictFind(d, k)
    case None =>
    case Some(i) => assert DictGet(d, k, default) == d[i].1;
  }

  lemma DictGetAt<K, V>(d: Dict<K, V>, i: nat, k: K, default: V)
    requires KeysDistinct(d) && i < |d| && d[i].0 == k
    ensures DictGet(d, k, default) == d[i].1
  {
  }

  lemma DictGetMissing<K, V>(d: Dict<K, V>, k: K, default: V)
    requires forall i :: 0 <= i < |d| ==> d[i].0 != k
    ensures DictGet(d, k, default) == default
  {
  }

  /** Reading a key back after `d[k] = v`. */
  lemma DictGetPut<K, V>(d: Dict<K, V>, k: K, v: V, k': K, default: V)
    requires KeysDistinct(d)
    ensures DictGet(DictPut(d, k, v), k', default) == if k' == k then v else DictGet(d, k', default)
  {
    var r := DictPut(d, k, v);
    var pos := match DictFind(d, k) case None => |d| case Some(i) => i;
    assert pos < |r| && r[pos] == (k, v);
    assert forall j :: 0 <= j < |r| && j != pos ==> j < |d| && r[j] == d[j];
    if k' == k {
      DictGetAt(r, pos, k, default);
    } else {
      match DictFind(d, k')
      case None =>
        DictGetMissing(r, k', default);
      case Some(i) =>
        DictGetAt(r, i, k', default);
    }
  }

  /** How many times `x` occurs in `s`. */
  function Occurrences<T(==)>(s: seq<T>, x: T): (n: nat)
    ensures n <= |s|
  {
    if s == [] then 0 else Occurrences(s[..|s| - 1], x) + (if s[|s| - 1] == x then 1 else 0)
  }

  /** The sum of a dict's counts. */
  function SumValues<K>(d: Dict<K, nat>): nat
  {
    if d == [] then 0 else SumValues(d[..|d| - 1]) + d[|d| - 1].1
  }

  /** The counting idiom `d[k] = d.get(k, 0) + 1`. */
  function Bump<K(==)>(d: Dict<K, nat>, k: K): Dict<K, nat>
  {
    DictPut(d, k, DictGet(d, k, 0) + 1)
  }

  /** Counting each key in turn, starting from an empty dict. */
  function Tally<K(==)>(keys: seq<K>): Dict<K, nat>
  {
    if keys == [] then [] else Bump(Tally(keys[..|keys| - 1]), keys[|keys| - 1])
  }

  lemma TallySnoc<K>(keys: seq<K>, k: K)
    ensures Tally(keys + [k]) == Bump(Tally(keys), k)
  {
    assert (keys + [k])[..|keys|] == keys;
  }

  lemma {:induction false} SumValuesUpdate<K>(d: Dict<K, nat>, i: nat, kv: (K, nat))
    requires i < |d|
    ensures SumValues(d[i := kv]) + d[i].1 == SumValues(d) + kv.1
    decreases |d|
  {
    var d' := d[i := kv];
    if i < |d| - 1 {
      assert d'[..|d'| - 1] == d[..|d| - 1][i := kv];
      SumValuesUpdate(d[..|d| - 1], i, kv);
    } else {
      assert d'[..|d'| - 1] == d[..|d| - 1];
    }
  }

  /** An increment adds one to its own key's count and leaves the others. */
  lemma BumpGet<K>(d: Dict<K, nat>, k: K, x: K)
    requires KeysDistinct(d)
    ensures DictGet(Bump(d, k), x, 0) == DictGet(d, x, 0) + (if x == k then 1 else 0)
  {
    DictGetPut(d, k, DictGet(d, k, 0) + 1, x, 0);
  }

  /** One increment raises the sum of the counts by one. */
  lemma Increment<K>(d: Dict<K, nat>, k: K)
    ensures SumValues(Bump(d, k)) == SumValues(d) + 1
  {
    match DictFind(d, k)
    case None =>
      var d' := d + [(k, 1)];
      assert d'[..|d'| - 1] == d;
    case Some(i) =>
      SumValuesUpdate(d, i, (k, d[i].1 + 1));
  }

  /** A tally holds each key once, counts every occurrence, and its counts add up to the number of keys. */
  lemma TallyCounts<K>(keys: seq<K>)
    ensures KeysDistinct(Tally(keys))
    ensures forall x :: DictGet(Tally(keys), x, 0) == Occurrences(keys, x)
    ensures SumValues(Tally(keys)) == |keys|
  {
    TallyDistinct(keys);
    forall x ensures DictGet(Tally(keys), x, 0) == Occurrences(keys, x) {
      TallyGet(keys, x);
    }
    TallySum(keys);
  }

  lemma {:induction false} TallyDistinct<K>(keys: seq<K>)
    ensures KeysDistinct(Tally(keys))
    decreases |keys|
  {
    if keys != [] {
      TallyDistinct(keys[..|keys| - 1]);
    }
  }

  lemma {:induction false} TallyGet<K>(keys: seq<K>, x: K)
    ensures DictGet(Tally(keys), x, 0) == Occurrences(keys, x)
    decreases |keys|
  {
    if keys != [] {
      var init := keys[..|keys| - 1];
      var d := Tally(init);
      var k := keys[|keys| - 1];
      assert Tally(keys) == Bump(d, k);
      assert Occurrences(keys, x) == Occurrences(init, x) + (if k == x then 1 else 0);
      hide Tally, Occurrences, Bump;
      TallyDistinct(init);
      TallyGet(init, x);
      BumpGet(d, k, x);
    }
  }

  lemma {:induction false} TallySum<K>(keys: seq<K>)
    ensures SumValues(Tally(keys)) == |keys|
    decreases |keys|
  {
    if keys != [] {
      var init := keys[..|keys| - 1];
      var d := Tally(init);
      var k := keys[|keys| - 1];
      assert Tally(keys) == Bump(d, k);
      hide Tally, Bump;
      TallySum(init);
      Increment(d, k);
    }
  }

}
