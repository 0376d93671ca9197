/**
 * An abstract time line. Instants are integers (epoch milliseconds). A calendar
 * "plus one unit" is any function that moves strictly forward, and a "start of
 * day/week" is any function that never moves forward. Calendar arithmetic
 * itself stays uninterpreted.
 *
 * The module holds the two ways the library walks such a step from a seed:
 * `Enumerate` keeps instants while they are `<=` an end instant, and
 * `EnumerateBefore` keeps them while they are `<` an end instant.
 */
module Timeline {

  /** Every application moves strictly forward. */
  ghost predicate Advancing(step: int -> int) {
    forall x :: step(x) > x
  }

  /** Every application moves back, or stays. */
  ghost predicate Normalizing(norm: int -> int) {
    forall x :: norm(x) <= x
  }

  /** The fixed lengths on the instant line, in milliseconds. */
  const MillisPerSecond: int := 1000
  const MillisPerMinute: int := 60 * MillisPerSecond
  const MillisPerHour: int := 60 * MillisPerMinute

  /** Adding a fixed number `u` of milliseconds: a second, a minute, an hour. */
  function Plus(u: int): int -> int {
    x => x + u
  }

  /** `step` applied `k` times to `x`. */
  function Iterate(step: int -> int, x: int, k: nat): int
    decreases k
  {
    if k == 0 then x else Iterate(step, step(x), k - 1)
  }

  /**
   * `r` is what `generateSequence(seed) { step(it) }.takeWhile { it <= end }`
   * produces: it starts at `seed`, each element is `step` of the one before,
   * every element is `<= end`, and it stops at the first stepped value past `end`.
   */
  ghost predicate IsRun(r: seq<int>, seed: int, end: int, step: int -> int) {
    && (r == [] <==> seed > end)
    && (r != [] ==> r[0] == seed && step(r[|r| - 1]) > end)
    && (forall i, j :: 0 <= i && j == i + 1 < |r| ==> r[j] == step(r[i]))
    && (forall i :: 0 <= i < |r| ==> r[i] <= end)
  }

  /** The instants `seed, step(seed), step(step(seed)), ...` that are `<= end`. */
  function Enumerate(seed: int, end: int, step: int -> int): (r: seq<int>)
    requires Advancing(step)
    ensures IsRun(r, seed, end, step)
    decreases end - seed
  {
    if seed > end then [] else [seed] + Enumerate(step(seed), end, step)
  }

  /** The instants `seed, step(seed), step(step(seed)), ...` that are `< end`. */
  function EnumerateBefore(seed: int, end: int, step: int -> int): (r: seq<int>)
    requires Advancing(step)
    ensures r == [] <==> seed >= end
    ensures r != [] ==> r[0] == seed
    ensures forall i :: 0 <= i < |r| ==> seed <= r[i] < end
    decreases end - seed
  {
    if seed >= end then [] else [seed] + EnumerateBefore(step(seed), end, step)
  }

  /** On integer instants, stopping before `end` is stopping at or before `end - 1`. */
  lemma {:induction false} EnumerateBeforeIsEnumerate(seed: int, end: int, step: int -> int)
    requires Advancing(step)
    ensures EnumerateBefore(seed, end, step) == Enumerate(seed, end - 1, step)
    decreases end - seed
  {
    if seed < end {
      EnumerateBeforeIsEnumerate(step(seed), end, step);
    }
  }

  lemma {:induction false} IterateAtLeast(step: int -> int, x: int, k: nat)
    requires Advancing(step)
    ensures Iterate(step, x, k) >= x + k
    decreases k
  {
    if k > 0 {
      IterateAtLeast(step, step(x), k - 1);
    }
  }

  lemma {:induction false} IterateSucc(step: int -> int, x: int, k: nat)
    ensures Iterate(step, x, k + 1) == step(Iterate(step, x, k))
    decreases k
  {
    if k > 0 {
      IterateSucc(step, step(x), k - 1);
    }
  }

  /** More steps lead strictly further. */
  lemma {:induction false} IterateIncreasing(step: int -> int, x: int, j: nat, k: nat)
    requires Advancing(step)
    requires j < k
    ensures Iterate(step, x, j) < Iterate(step, x, k)
    decreases j
  {
    if j == 0 {
      IterateAtLeast(step, step(x), k - 1);
    } else {
      IterateIncreasing(step, step(x), j - 1, k - 1);
    }
  }

  /** Element `k` of a run is the seed stepped `k` times; stepping once more passes `end`. */
  lemma {:induction false} RunIsIterates(r: seq<int>, seed: int, end: int, step: int -> int)
    requires IsRun(r, seed, end, step)
    ensures forall k :: 0 <= k < |r| ==> r[k] == Iterate(step, seed, k)
    ensures Iterate(step, seed, |r|) > end
  {
    forall k | 0 <= k < |r|
      ensures r[k] == Iterate(step, seed, k)
    {
      RunElementIsIterate(r, seed, end, step, k);
    }
    if r != [] {
      RunElementIsIterate(r, seed, end, step, |r| - 1);
      IterateSucc(step, seed, |r| - 1);
    }
  }

  lemma {:induction false} RunElementIsIterate(r: seq<int>, seed: int, end: int, step: int -> int, k: nat)
    requires IsRun(r, seed, end, step)
    requires k < |r|
    ensures r[k] == Iterate(step, seed, k)
  {
    if k > 0 {
      RunElementIsIterate(r, seed, end, step, k - 1);
      IterateSucc(step, seed, k - 1);
    }
  }

  /** `IsRun` pins the enumeration down completely: two runs of the same step agree. */
  lemma {:induction false} RunIsUnique(r: seq<int>, q: seq<int>, seed: int, end: int, step: int -> int)
    requires IsRun(r, seed, end, step) && IsRun(q, seed, end, step)
    ensures r == q
  {
    RunIsIterates(r, seed, end, step);
    RunIsIterates(q, seed, end, step);
  }

  /** A run of an advancing step is strictly increasing, so it has no duplicates. */
  lemma {:induction false} RunStrictlyIncreasing(r: seq<int>, seed: int, end: int, step: int -> int)
    requires Advancing(step)
    requires IsRun(r, seed, end, step)
    ensures forall i, j :: 0 <= i < j < |r| ==> r[i] < r[j]
  {
    RunIsIterates(r, seed, end, step);
    forall i, j | 0 <= i < j < |r|
      ensures r[i] < r[j]
    {
      IterateIncreasing(step, seed, i, j);
    }
  }

  /**
   * Nothing is skipped: the seed stepped `k` times is `<= end` exactly when it
   * is an element of the run.
   */
  lemma {:induction false} RunIsComplete(r: seq<int>, seed: int, end: int, step: int -> int)
    requires Advancing(step)
    requires IsRun(r, seed, end, step)
    ensures forall k: nat :: Iterate(step, seed, k) <= end <==> k < |r|
  {
    RunIsIterates(r, seed, end, step);
    forall k: nat | |r| < k
      ensures Iterate(step, seed, k) > end
    {
      IterateIncreasing(step, seed, |r|, k);
    }
  }

  /** Euclidean division is determined by quotient and remainder. */
  lemma DivModUnique(d: int, u: int, q: int, m: int)
    requires u > 0 && 0 <= m < u && d == q * u + m
    ensures d / u == q && d % u == m
  {
    var q', m' := d / u, d % u;
    assert (q' - q) * u == m - m';
    SmallMultipleIsZero(q' - q, u);
  }

  lemma SmallMultipleIsZero(a: int, u: int)
    requires u > 0 && -u < a * u < u
    ensures a == 0
  {
  }

  lemma {:induction false} IteratePlus(u: int, x: int, k: nat)
    ensures Iterate(Plus(u), x, k) == x + k * u
    decreases k
  {
    if k > 0 {
      IteratePlus(u, x + u, k - 1);
    }
  }

  /**
   * A run of a fixed-length step `u` is the arithmetic grid `start + i * u`;
   * for `start <= end` it has `(end - start) / u + 1` elements, so `end` is
   * one of them exactly when `end - start` is a multiple of `u`.
   */
  lemma {:induction false} FixedStepRun(r: seq<int>, start: int, end: int, u: int)
    requires u > 0
    requires IsRun(r, start, end, Plus(u))
    ensures forall i :: 0 <= i < |r| ==> r[i] == start + i * u
    ensures start <= end ==> |r| == (end - start) / u + 1
    ensures end in r <==> start <= end && (end - start) % u == 0
  {
    RunIsIterates(r, start, end, Plus(u));
    forall i | 0 <= i < |r|
      ensures r[i] == start + i * u
    {
      IteratePlus(u, start, i);
    }
    IteratePlus(u, start, |r|);
    if start <= end {
      var n := |r|;
      assert start + (n - 1) * u <= end < start + n * u by {
        assert r[n - 1] == start + (n - 1) * u;
      }
      DivModUnique(end - start, u, n - 1, end - start - (n - 1) * u);
      if (end - start) % u == 0 {
        var i := (end - start) / u;
        assert r[i] == end;
      }
      if end in r {
        var i :| 0 <= i < |r| && r[i] == end;
        DivModUnique(end - start, u, i, 0);
      }
    }
  }
}
