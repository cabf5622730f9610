/**
 * Python's `random` module as the chaff generator uses it, driven by an
 * explicit tape of draws instead of a Mersenne Twister. Each primitive
 * consumes draws from the front of the tape exactly where CPython calls
 * `_randbelow` or `random()`; an exhausted tape keeps answering 0.
 * `sample` follows CPython's choice between its pool and set methods.
 *
 * `random() < p` for a probability `p` given in hundredths is modelled as
 * a draw below 100 compared with `p`, which is the same test on
 * `floor(100 * random())`.
 */
module Oracle {
  import opened Common

  type Tape = seq<nat>

  /** The tape after one draw. */
  function Rest(t: Tape): Tape { if t == [] then [] else t[1..] }

  /** `_randbelow(n)`. */
  function DrawBelow(t: Tape, n: nat): (r: (nat, Tape))
    requires n > 0
    ensures r.0 < n && r.1 == Rest(t)
  {
    if t == [] then (0, []) else (t[0] % n, t[1..])
  }

  /** `randint(lo, hi)`, which raises ValueError on an empty range; callers decide that case. */
  function DrawInt(t: Tape, lo: int, hi: int): (r: (int, Tape))
    requires lo <= hi
    ensures lo <= r.0 <= hi && r.1 == Rest(t)
  {
    var (v, t1) := DrawBelow(t, hi - lo + 1);
    (lo + v, t1)
  }

  /** `random() < percent / 100`. */
  function DrawChance(t: Tape, percent: nat): (r: (bool, Tape))
    ensures r.1 == Rest(t)
    ensures percent >= 100 ==> r.0
    ensures percent == 0 ==> !r.0
  {
    var (v, t1) := DrawBelow(t, 100);
    (v < percent, t1)
  }

  function Sum(w: seq<nat>): nat
  {
    if w == [] then 0 else w[0] + Sum(w[1..])
  }

  /**
   * `random.choices(population, weights)[0]` for a draw `u` below the total:
   * the first position whose cumulative weight exceeds `u` (the search
   * `bisect_right` does), never past the last position.
   */
  function Pick(w: seq<nat>, u: nat): (r: nat)
    requires w != []
    ensures r < |w|
    ensures u < Sum(w) ==> w[r] > 0
  {
    assert Sum(w) == w[0] + Sum(w[1..]);
    if |w| == 1 || u < w[0] then 0 else 1 + Pick(w[1..], u - w[0])
  }

  /** The total weight before position `m`. */
  function Before(w: seq<nat>, m: nat): nat
    requires m <= |w|
  {
    if m == 0 then 0 else w[0] + Before(w[1..], m - 1)
  }

  lemma {:induction false} PickBefore(w: seq<nat>, m: nat)
    requires m < |w| && w[m] > 0
    ensures Pick(w, Before(w, m)) == m
    decreases m
  {
    if m > 0 {
      PickBefore(w[1..], m - 1);
    }
  }

  lemma {:induction false} BeforeBelowSum(w: seq<nat>, m: nat)
    requires m < |w| && w[m] > 0
    ensures Before(w, m) < Sum(w)
    decreases m
  {
    if m > 0 {
      BeforeBelowSum(w[1..], m - 1);
    }
  }

  /**
   * `random.choices(population, weights)[0]` as a position, with the
   * weights given in hundredths: one draw below 100. The float arithmetic
   * of the cumulative sums is not modelled.
   */
  function DrawWeighted(t: Tape, w: seq<nat>): (r: (nat, Tape))
    requires w != [] && Sum(w) == 100
    ensures r.0 < |w| && w[r.0] > 0 && r.1 == Rest(t)
  {
    var (u, t1) := DrawBelow(t, 100);
    (Pick(w, u), t1)
  }

  /** A draw equal to the weight before a positive position picks that position. */
  lemma DrawWeightedBefore(w: seq<nat>, m: nat)
    requires Sum(w) == 100 && m < |w| && w[m] > 0
    ensures DrawWeighted([Before(w, m)], w).0 == m
  {
    PickBefore(w, m);
    BeforeBelowSum(w, m);
    var u := Before(w, m);
    assert u % 100 == u by { ModBelow(u, 100); }
    assert DrawBelow([u], 100) == (u, []);
  }

  lemma ModBelow(u: nat, n: nat)
    requires u < n
    ensures u % n == u
  {
  }

  predicate Distinct<T(==)>(s: seq<T>)
  {
    forall i, j :: 0 <= i < j < |s| ==> s[i] != s[j]
  }

  /**
   * CPython's pool method for `sample`: draw a position of the pool, take
   * its element and move the pool's last element into its place.
   */
  function SamplePool(t: Tape, pool: seq<nat>, k: nat): (r: (seq<nat>, Tape))
    requires k <= |pool|
    requires Distinct(pool)
    ensures |r.0| == k && Distinct(r.0)
    ensures forall x :: x in r.0 ==> x in pool
    decreases k
  {
    if k == 0 then ([], t)
    else
      var (j, t1) := DrawBelow(t, |pool|);
      var last := |pool| - 1;
      var pool' := pool[j := pool[last]][..last];
      PoolRemove(pool, j);
      var (rest, t2) := SamplePool(t1, pool', k - 1);
      ([pool[j]] + rest, t2)
  }

  lemma PoolRemove(pool: seq<nat>, j: nat)
    requires j < |pool| && Distinct(pool)
    ensures var p := pool[j := pool[|pool| - 1]][..|pool| - 1];
      Distinct(p) && pool[j] !in p && forall x :: x in p ==> x in pool
  {
    var last := |pool| - 1;
    var p := pool[j := pool[last]][..last];
    forall a | 0 <= a < |p| ensures p[a] != pool[j] && p[a] in pool {
      assert p[a] == (if a == j then pool[last] else pool[a]);
    }
  }

  function Range(n: nat): (r: seq<nat>)
    ensures |r| == n && forall i :: 0 <= i < n ==> r[i] == i
  {
    if n == 0 then [] else Range(n - 1) + [n - 1]
  }

  /** A sequence without its `i`-th element. */
  function Drop(s: seq<nat>, i: nat): (r: seq<nat>)
    requires i < |s|
    ensures |r| == |s| - 1
  {
    s[..i] + s[i + 1..]
  }

  lemma DropDistinct(s: seq<nat>, i: nat)
    requires i < |s| && Distinct(s)
    ensures Distinct(Drop(s, i))
    ensures forall x :: x in Drop(s, i) ==> x in s && x != s[i]
  {
    var r := Drop(s, i);
    assert forall a :: 0 <= a < |r| ==> r[a] == (if a < i then s[a] else s[a + 1]);
  }

  /** Pigeonhole: fewer than `n` distinct positions below `n` leave one free. */
  lemma {:induction false} FreePosition(n: nat, s: seq<nat>)
    requires Distinct(s) && |s| < n && forall x :: x in s ==> x < n
    ensures exists x :: 0 <= x < n && x !in s
  {
    if n - 1 in s {
      var i :| 0 <= i < |s| && s[i] == n - 1;
      DropDistinct(s, i);
      FreePosition(n - 1, Drop(s, i));
      var x :| 0 <= x < n - 1 && x !in Drop(s, i);
      assert x !in s;
    }
  }

  /** The least position from `i` on that is not among `chosen`. */
  function LeastFree(n: nat, chosen: seq<nat>, i: nat): (r: nat)
    requires exists x :: i <= x < n && x !in chosen
    ensures i <= r < n && r !in chosen
    ensures forall y :: i <= y < r ==> y in chosen
    decreases n - i
  {
    if i !in chosen then i
    else
      assert exists x :: i + 1 <= x < n && x !in chosen by {
        var x :| i <= x < n && x !in chosen;
        assert x != i;
      }
      LeastFree(n, chosen, i + 1)
  }

  /**
   * The inner loop of CPython's set method: `_randbelow(n)`, drawn again
   * while it falls on an earlier pick. The loop would never end on an
   * exhausted tape once 0 is taken; there the least free position is taken.
   */
  function Redraw(t: Tape, n: nat, chosen: seq<nat>): (r: (nat, Tape))
    requires Distinct(chosen) && |chosen| < n && forall x :: x in chosen ==> x < n
    ensures r.0 < n && r.0 !in chosen
    decreases |t|
  {
    var (j, t1) := DrawBelow(t, n);
    if j !in chosen then (j, t1)
    else if t == [] then FreePosition(n, chosen); (LeastFree(n, chosen, 0), [])
    else Redraw(t1, n, chosen)
  }

  /**
   * CPython's set method for `sample`: `k` more picks below `n`, each drawn
   * by `Redraw` against the picks made so far.
   */
  function SampleSet(t: Tape, n: nat, k: nat, chosen: seq<nat>): (r: (seq<nat>, Tape))
    requires Distinct(chosen) && |chosen| + k <= n && forall x :: x in chosen ==> x < n
    ensures |r.0| == k && Distinct(chosen + r.0)
    ensures forall x :: x in r.0 ==> x < n
    decreases k
  {
    if k == 0 then ([], t)
    else
      var (j, t1) := Redraw(t, n, chosen);
      assert Distinct(chosen + [j]);
      var (rest, t2) := SampleSet(t1, n, k - 1, chosen + [j]);
      assert chosen + ([j] + rest) == chosen + [j] + rest;
      ([j] + rest, t2)
  }

  /** A tape whose next `k` values are distinct positions below `n` is read one value per pick. */
  lemma {:induction false} SampleSetExact(t: Tape, n: nat, k: nat, chosen: seq<nat>)
    requires Distinct(chosen) && |chosen| + k <= n && forall x :: x in chosen ==> x < n
    requires k <= |t| && Distinct(chosen + t[..k]) && forall i :: 0 <= i < k ==> t[i] < n
    ensures SampleSet(t, n, k, chosen) == (t[..k], t[k..])
    decreases k
  {
    if k > 0 {
      assert t[0] % n == t[0] by { ModBelow(t[0], n); }
      var u := chosen + t[..k];
      assert u[|chosen|] == t[0];
      forall i | 0 <= i < |chosen| ensures chosen[i] != t[0] {
        assert u[i] == chosen[i];
      }
      var c := chosen + [t[0]];
      assert chosen + t[..k] == c + t[1..][..k - 1];
      SampleSetExact(t[1..], n, k - 1, c);
      assert [t[0]] + t[1..][..k - 1] == t[..k];
    }
  }

  function Pow4(e: nat): (r: nat)
    ensures r >= 1
  {
    if e == 0 then 1 else 4 * Pow4(e - 1)
  }

  /** `ceil(log(m, 4))`: the least exponent whose power of four reaches `m`. */
  function Log4Ceil(m: nat): (e: nat)
    ensures Pow4(e) >= m
    ensures e > 0 ==> Pow4(e - 1) < m
    decreases m
  {
    if m <= 1 then 0 else 1 + Log4Ceil((m + 3) / 4)
  }

  /**
   * CPython's `setsize`: 21, plus `4 ** ceil(log(3 * k, 4))` when `k > 5`.
   * `3 * k` is never a power of four, so the float logarithm's ceiling is
   * the exact one modelled here.
   */
  function SetSize(k: nat): nat
  {
    21 + if k > 5 then Pow4(Log4Ceil(3 * k)) else 0
  }

  /**
   * `sample(population, k)` as positions in a population of `n`; `k <= n`
   * is checked by every caller. The pool method serves populations up to
   * `SetSize(k)` and the set method larger ones.
   */
  function DrawSample(t: Tape, n: nat, k: nat): (r: (seq<nat>, Tape))
    requires k <= n
    ensures |r.0| == k && Distinct(r.0)
    ensures forall x :: x in r.0 ==> x < n
  {
    if n <= SetSize(k) then SamplePool(t, Range(n), k)
    else
      var r := SampleSet(t, n, k, []);
      assert [] + r.0 == r.0;
      r
  }

  /** Above `setsize`, distinct draws below `n` are the sample itself, one draw per pick. */
  lemma DrawSampleLarge(t: Tape, n: nat, k: nat)
    requires k <= n && SetSize(k) < n
    requires k <= |t| && Distinct(t[..k]) && forall i :: 0 <= i < k ==> t[i] < n
    ensures DrawSample(t, n, k) == (t[..k], t[k..])
  {
    assert [] + t[..k] == t[..k];
    SampleSetExact(t, n, k, []);
  }

  /** A repeated draw is drawn again: the second pick skips the value already taken. */
  lemma DrawSampleRedraws(n: nat, a: nat, b: nat)
    requires SetSize(2) < n && a < n && b < n && a != b
    ensures DrawSample([a, a, b], n, 2) == ([a, b], [])
  {
    assert a % n == a && b % n == b by { ModBelow(a, n); ModBelow(b, n); }
    assert Redraw([a, a, b], n, []) == (a, [a, b]);
    assert Redraw([b], n, [a]) == (b, []);
    assert Redraw([a, b], n, [a]) == (b, []);
    assert [a] + [b] == [a, b] && [b] + [] == [b] && [] + [a] == [a];
    assert SampleSet([], n, 0, [a, b]) == ([], []);
    assert SampleSet([a, b], n, 1, [a]) == ([b], []);
    assert SampleSet([a, a, b], n, 2, []) == ([a, b], []);
  }

  /** Up to `setsize` the pool method is used: the first pick is the first draw's position. */
  lemma DrawSampleSmall(t: Tape, n: nat, k: nat)
    requires 0 < k <= n <= SetSize(k) && t != []
    ensures DrawSample(t, n, k).0[0] == t[0] % n
  {
  }

  function Swap<T>(s: seq<T>, i: nat, j: nat): (r: seq<T>)
    requires i < |s| && j < |s|
    ensures |r| == |s| && multiset(r) == multiset(s)
  {
    var r := s[i := s[j]][j := s[i]];
    if i == j then s
    else
      assert multiset(s[i := s[j]]) == multiset(s) - multiset{s[i]} + multiset{s[j]};
      r
  }

  /** `shuffle(x)`: for `i` from `len(x) - 1` down to 1, swap `x[i]` with `x[_randbelow(i + 1)]`. */
  function DrawShuffle<T>(t: Tape, s: seq<T>): (r: (seq<T>, Tape))
    ensures |r.0| == |s| && multiset(r.0) == multiset(s)
  {
    ShuffleDown(t, s, |s|)
  }

  function ShuffleDown<T>(t: Tape, s: seq<T>, i: nat): (r: (seq<T>, Tape))
    requires i <= |s|
    ensures |r.0| == |s| && multiset(r.0) == multiset(s)
    decreases i
  {
    if i <= 1 then (s, t)
    else
      var (j, t1) := DrawBelow(t, i);
      ShuffleDown(t1, Swap(s, i - 1, j), i - 1)
  }

  /** The source of draws, as the mutable state of Python's `random` module. */
  class Random {
    var tape: Tape

    constructor (t: Tape)
      ensures tape == t
    {
      tape := t;
    }

    method RandBelow(n: nat) returns (v: nat)
      requires n > 0
      modifies this
      ensures (v, tape) == DrawBelow(old(tape), n)
    {
      var r := DrawBelow(tape, n);
      v, tape := r.0, r.1;
    }

    method RandInt(lo: int, hi: int) returns (v: int)
      requires lo <= hi
      modifies this
      ensures (v, tape) == DrawInt(old(tape), lo, hi)
    {
      var r := DrawInt(tape, lo, hi);
      v, tape := r.0, r.1;
    }

    method Chance(percent: nat) returns (b: bool)
      modifies this
      ensures (b, tape) == DrawChance(old(tape), percent)
    {
      var r := DrawChance(tape, percent);
      b, tape := r.0, r.1;
    }

    method Sample(n: nat, k: nat) returns (idx: seq<nat>)
      requires k <= n
      modifies this
      ensures (idx, tape) == DrawSample(old(tape), n, k)
    {
      var r := DrawSample(tape, n, k);
      idx, tape := r.0, r.1;
    }

    /** `shuffle(x)` on a copy: the Fisher-Yates swaps from the last position down. */
    method Shuffle<T>(s: seq<T>) returns (r: seq<T>)
      modifies this
      ensures (r, tape) == DrawShuffle(old(tape), s)
    {
      r := s;
      var i := |s|;
      while i > 1
        invariant 0 <= i <= |r| == |s|
        invariant ShuffleDown(tape, r, i) == DrawShuffle(old(tape), s)
      {
        var j := RandBelow(i);
        r := Swap(r, i - 1, j);
        i := i - 1;
      }
    }
  }
}
