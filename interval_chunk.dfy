/**
 * Chunking of a java.time interval (`chunkYear` ... `chunkMilli`), as the
 * tests in TemporalIntervalChunkTest.kt pin it down: the interval's unit-step
 * enumeration, which stops BEFORE the interval's end, is cut into consecutive
 * groups of `size` instants, the last group holding the remainder; a `size`
 * that is not positive is an `IllegalArgumentException` at the call itself.
 */
module TemporalIntervalChunk {
  import opened Timeline
  import opened Results

  /** The eight units that have a `chunkX` entry point. */
  datatype ChronoUnit = Year | Month | Week | Day | Hour | Minute | Second | Milli

  /**
   * The calendar arithmetic java.time supplies for the interval's zone:
   * `plusYears(1)`, `plusMonths(1)`, `plusWeeks(1)`, `plusDays(1)`. Hours,
   * minutes, seconds and milliseconds are fixed lengths on the instant line.
   */
  datatype ZonedCalendar = ZonedCalendar(
    plusYears: int -> int,
    plusMonths: int -> int,
    plusWeeks: int -> int,
    plusDays: int -> int)
  {
    ghost predicate Valid() {
      Advancing(plusYears) && Advancing(plusMonths) && Advancing(plusWeeks) && Advancing(plusDays)
    }
  }

  /** A `ReadableTemporalInterval` `start..end`, in epoch milliseconds. */
  datatype TemporalInterval = TemporalInterval(start: int, end: int)
  {
    /** `x in interval`: closed at both ends. */
    predicate Contains(x: int) {
      start <= x <= end
    }

    /** `other in interval`: `other` lies within this interval. */
    predicate ContainsInterval(other: TemporalInterval) {
      start <= other.start && other.end <= end
    }
  }

  /** Adding one `unit`. */
  function UnitStep(cal: ZonedCalendar, unit: ChronoUnit): (step: int -> int)
    requires cal.Valid()
    ensures Advancing(step)
  {
    match unit
    case Year => cal.plusYears
    case Month => cal.plusMonths
    case Week => cal.plusWeeks
    case Day => cal.plusDays
    case Hour => Plus(MillisPerHour)
    case Minute => Plus(MillisPerMinute)
    case Second => Plus(MillisPerSecond)
    case Milli => Plus(1)
  }

  /** The instants the chunks are cut from: `start`, one unit later, ..., all before `end`. */
  function UnitPoints(cal: ZonedCalendar, iv: TemporalInterval, unit: ChronoUnit): (r: seq<int>)
    requires cal.Valid()
    ensures forall i :: 0 <= i < |r| ==> iv.start <= r[i] < iv.end
    ensures IsRun(r, iv.start, iv.end - 1, UnitStep(cal, unit))
  {
    var step := UnitStep(cal, unit);
    EnumerateBeforeIsEnumerate(iv.start, iv.end, step);
    EnumerateBefore(iv.start, iv.end, step)
  }

  /** The chunks laid end to end. */
  function Flatten(cs: seq<seq<int>>): seq<int> {
    if cs == [] then [] else cs[0] + Flatten(cs[1..])
  }

  /**
   * `cs` cuts `xs` into groups of `n`: no group is empty or longer than `n`,
   * every group but the last is full, and together they are `xs` in order.
   */
  ghost predicate IsChunking(cs: seq<seq<int>>, xs: seq<int>, n: int) {
    && (forall i :: 0 <= i < |cs| ==> 0 < |cs[i]| <= n)
    && (forall i :: 0 <= i < |cs| - 1 ==> |cs[i]| == n)
    && Flatten(cs) == xs
  }

  /** Kotlin's `chunked(n)` on a list whose `n` has already been checked. */
  function Chunked(xs: seq<int>, n: int): (cs: seq<seq<int>>)
    requires n > 0
    ensures IsChunking(cs, xs, n)
    decreases |xs|
  {
    if |xs| <= n then
      if xs == [] then [] else assert Flatten([xs]) == xs + Flatten([]); [xs]
    else
      var rest := Chunked(xs[n..], n);
      var cs := [xs[..n]] + rest;
      assert cs[1..] == rest;
      assert xs == xs[..n] + xs[n..];
      cs
  }

  /**
   * The chunking entry point, generic in the unit. `size <= 0` fails before
   * anything is enumerated; otherwise the unit points are cut into groups.
   */
  function Chunk(cal: ZonedCalendar, iv: TemporalInterval, unit: ChronoUnit, size: int): (r: Result<seq<seq<int>>>)
    requires cal.Valid()
    ensures r.Failure? <==> size <= 0
    ensures r.Failure? ==> r.error == IllegalArgument
    ensures r.Success? ==> IsChunking(r.value, UnitPoints(cal, iv, unit), size)
  {
    if size <= 0 then Failure(IllegalArgument)
    else Success(Chunked(UnitPoints(cal, iv, unit), size))
  }

  /** `interval.chunkYear(size)`: `Chunk` with the unit fixed to `Year`. */
  function ChunkYear(cal: ZonedCalendar, iv: TemporalInterval, size: int): (r: Result<seq<seq<int>>>)
    requires cal.Valid()
    ensures r.Failure? <==> size <= 0
    ensures r.Failure? ==> r.error == IllegalArgument
    ensures r.Success? ==> IsChunking(r.value, UnitPoints(cal, iv, Year), size)
  {
    Chunk(cal, iv, Year, size)
  }

  /** `interval.chunkMonth(size)`: `Chunk` with the unit fixed to `Month`. */
  function ChunkMonth(cal: ZonedCalendar, iv: TemporalInterval, size: int): (r: Result<seq<seq<int>>>)
    requires cal.Valid()
    ensures r.Failure? <==> size <= 0
    ensures r.Failure? ==> r.error == IllegalArgument
    ensures r.Success? ==> IsChunking(r.value, UnitPoints(cal, iv, Month), size)
  {
    Chunk(cal, iv, Month, size)
  }

  /** `interval.chunkWeek(size)`: `Chunk` with the unit fixed to `Week`. */
  function ChunkWeek(cal: ZonedCalendar, iv: TemporalInterval, size: int): (r: Result<seq<seq<int>>>)
    requires cal.Valid()
    ensures r.Failure? <==> size <= 0
    ensures r.Failure? ==> r.error == IllegalArgument
    ensures r.Success? ==> IsChunking(r.value, UnitPoints(cal, iv, Week), size)
  {
    Chunk(cal, iv, Week, size)
  }

  /** `interval.chunkDay(size)`: `Chunk` with the unit fixed to `Day`. */
  function ChunkDay(cal: ZonedCalendar, iv: TemporalInterval, size: int): (r: Result<seq<seq<int>>>)
    requires cal.Valid()
    ensures r.Failure? <==> size <= 0
    ensures r.Failure? ==> r.error == IllegalArgument
    ensures r.Success? ==> IsChunking(r.value, UnitPoints(cal, iv, Day), size)
  {
    Chunk(cal, iv, Day, size)
  }

  /** `interval.chunkHour(size)`: `Chunk` with the unit fixed to `Hour`. */
  function ChunkHour(cal: ZonedCalendar, iv: TemporalInterval, size: int): (r: Result<seq<seq<int>>>)
    requires cal.Valid()
    ensures r.Failure? <==> size <= 0
    ensures r.Failure? ==> r.error == IllegalArgument
    ensures r.Success? ==> IsChunking(r.value, UnitPoints(cal, iv, Hour), size)
  {
    Chunk(cal, iv, Hour, size)
  }

  /** `interval.chunkMinute(size)`: `Chunk` with the unit fixed to `Minute`. */
  function ChunkMinute(cal: ZonedCalendar, iv: TemporalInterval, size: int): (r: Result<seq<seq<int>>>)
    requires cal.Valid()
    ensures r.Failure? <==> size <= 0
    ensures r.Failure? ==> r.error == IllegalArgument
    ensures r.Success? ==> IsChunking(r.value, UnitPoints(cal, iv, Minute), size)
  {
    Chunk(cal, iv, Minute, size)
  }

  /** `interval.chunkSecond(size)`: `Chunk` with the unit fixed to `Second`. */
  function ChunkSecond(cal: ZonedCalendar, iv: TemporalInterval, size: int): (r: Result<seq<seq<int>>>)
    requires cal.Valid()
    ensures r.Failure? <==> size <= 0
    ensures r.Failure? ==> r.error == IllegalArgument
    ensures r.Success? ==> IsChunking(r.value, UnitPoints(cal, iv, Second), size)
  {
    Chunk(cal, iv, Second, size)
  }

  /** `interval.chunkMilli(size)`: `Chunk` with the unit fixed to `Milli`. */
  function ChunkMilli(cal: ZonedCalendar, iv: TemporalInterval, size: int): (r: Result<seq<seq<int>>>)
    requires cal.Valid()
    ensures r.Failure? <==> size <= 0
    ensures r.Failure? ==> r.error == IllegalArgument
    ensures r.Success? ==> IsChunking(r.value, UnitPoints(cal, iv, Milli), size)
  {
    Chunk(cal, iv, Milli, size)
  }

  /** A chunking of a list is unique: `IsChunking` determines `Chunked` completely. */
  lemma {:induction false} ChunkingIsUnique(cs: seq<seq<int>>, ds: seq<seq<int>>, xs: seq<int>, n: int)
    requires IsChunking(cs, xs, n) && IsChunking(ds, xs, n)
    ensures cs == ds
    decreases |xs|
  {
    if cs != [] && ds != [] {
      ChunkingHead(cs, xs, n);
      ChunkingHead(ds, xs, n);
      assert cs[0] == ds[0];
      ChunkingIsUnique(cs[1..], ds[1..], xs[|cs[0]|..], n);
      assert cs == [cs[0]] + cs[1..];
      assert ds == [ds[0]] + ds[1..];
    }
  }

  /** The first chunk is the prefix of its size, and the rest chunk the remainder. */
  lemma ChunkingHead(cs: seq<seq<int>>, xs: seq<int>, n: int)
    requires IsChunking(cs, xs, n) && cs != []
    ensures |cs[0]| == if |cs| == 1 then |xs| else n
    ensures |cs[0]| <= |xs| && cs[0] == xs[..|cs[0]|]
    ensures IsChunking(cs[1..], xs[|cs[0]|..], n)
  {
    assert xs == cs[0] + Flatten(cs[1..]);
    if |cs| == 1 {
      assert cs[1..] == [];
    }
  }

  /** There are `ceil(|xs| / n)` chunks. */
  lemma {:induction false} ChunkCount(cs: seq<seq<int>>, xs: seq<int>, n: int)
    requires IsChunking(cs, xs, n) && n > 0
    ensures |cs| == (|xs| + n - 1) / n
    decreases |cs|
  {
    if cs == [] {
      DivModUnique(n - 1, n, 0, n - 1);
    } else {
      ChunkingHead(cs, xs, n);
      if |cs| == 1 {
        DivModUnique(|xs| + n - 1, n, 1, |xs| - 1);
      } else {
        ChunkCount(cs[1..], xs[n..], n);
        var q := (|xs| - n + n - 1) / n;
        DivModUnique(|xs| - n + n - 1, n, q, (|xs| - 1) % n);
        DivModUnique(|xs| + n - 1, n, q + 1, (|xs| - 1) % n);
      }
    }
  }

  /** Element `j` of chunk `i` is element `i * n + j` of the list. */
  lemma {:induction false} ChunkElement(cs: seq<seq<int>>, xs: seq<int>, n: int, i: nat, j: nat)
    requires IsChunking(cs, xs, n)
    requires i < |cs| && j < |cs[i]|
    ensures i * n + j < |xs| && cs[i][j] == xs[i * n + j]
    decreases i
  {
    ChunkingHead(cs, xs, n);
    if i > 0 {
      ChunkElement(cs[1..], xs[n..], n, i - 1, j);
      assert (i - 1) * n + j + n == i * n + j;
    }
  }

  /**
   * One chunk as every test checks it: between 1 and `size` instants, in
   * strictly ascending order, each inside `iv`, so that `first()..last()` is
   * contained in `iv`.
   */
  ghost predicate ChunkWithin(c: seq<int>, iv: TemporalInterval, size: int) {
    && 0 < |c| <= size
    && (forall j, k :: 0 <= j < k < |c| ==> c[j] < c[k])
    && (forall j :: 0 <= j < |c| ==> iv.Contains(c[j]))
    && iv.ContainsInterval(TemporalInterval(c[0], c[|c| - 1]))
  }

  /** For `k` unit points there are `ceil(k / size)` chunks. */
  lemma {:induction false} ChunkCountOfInterval(cal: ZonedCalendar, iv: TemporalInterval, unit: ChronoUnit, size: int)
    requires cal.Valid() && size > 0
    ensures |Chunk(cal, iv, unit, size).value| == (|UnitPoints(cal, iv, unit)| + size - 1) / size
  {
    ChunkCount(Chunk(cal, iv, unit, size).value, UnitPoints(cal, iv, unit), size);
  }

  /** What the tests assert for every unit and size: every chunk is within the interval. */
  lemma {:induction false} ChunksStayInsideInterval(cal: ZonedCalendar, iv: TemporalInterval, unit: ChronoUnit, size: int)
    requires cal.Valid() && size > 0
    ensures forall c :: c in Chunk(cal, iv, unit, size).value ==> ChunkWithin(c, iv, size)
  {
    var xs := UnitPoints(cal, iv, unit);
    var cs := Chunk(cal, iv, unit, size).value;
    RunStrictlyIncreasing(xs, iv.start, iv.end - 1, UnitStep(cal, unit));
    ChunksOfAscendingList(cs, xs, size, iv);
  }

  /** Chunks of an ascending list of instants of `iv` are within `iv`. */
  lemma ChunksOfAscendingList(cs: seq<seq<int>>, xs: seq<int>, n: int, iv: TemporalInterval)
    requires IsChunking(cs, xs, n)
    requires forall j, k :: 0 <= j < k < |xs| ==> xs[j] < xs[k]
    requires forall j :: 0 <= j < |xs| ==> iv.start <= xs[j] < iv.end
    ensures forall c :: c in cs ==> ChunkWithin(c, iv, n)
  {
    forall c | c in cs
      ensures ChunkWithin(c, iv, n)
    {
      var i :| 0 <= i < |cs| && cs[i] == c;
      ChunkIsOrderedSlice(cs, xs, n, i, iv.start, iv.end);
    }
  }

  /** A chunk of an ascending list within `[lo, hi]` is ascending and within `[lo, hi]`. */
  lemma ChunkIsOrderedSlice(cs: seq<seq<int>>, xs: seq<int>, n: int, i: nat, lo: int, hi: int)
    requires IsChunking(cs, xs, n) && i < |cs|
    requires forall j, k :: 0 <= j < k < |xs| ==> xs[j] < xs[k]
    requires forall j :: 0 <= j < |xs| ==> lo <= xs[j] <= hi
    ensures forall j, k :: 0 <= j < k < |cs[i]| ==> cs[i][j] < cs[i][k]
    ensures forall j :: 0 <= j < |cs[i]| ==> lo <= cs[i][j] <= hi
    ensures 0 < |cs[i]| && lo <= cs[i][0] && cs[i][|cs[i]| - 1] <= hi
  {
    forall j | 0 <= j < |cs[i]|
      ensures i * n + j < |xs| && cs[i][j] == xs[i * n + j]
    {
      ChunkElement(cs, xs, n, i, j);
    }
  }

  /**
   * The tests' interval: `start..start + 5 units`, built as five unit steps.
   * It has five unit points, because its end is not one of them.
   */
  lemma {:induction false} FiveUnitPoints(cal: ZonedCalendar, unit: ChronoUnit, start: int)
    requires cal.Valid()
    ensures var step := UnitStep(cal, unit);
      var xs := UnitPoints(cal, TemporalInterval(start, Iterate(step, start, 5)), unit);
      && |xs| == 5
      && (forall k :: 0 <= k < 5 ==> xs[k] == Iterate(step, start, k))
      && Iterate(step, start, 5) !in xs
  {
    var step := UnitStep(cal, unit);
    var end := Iterate(step, start, 5);
    var xs := UnitPoints(cal, TemporalInterval(start, end), unit);
    RunIsComplete(xs, start, end - 1, step);
    RunIsIterates(xs, start, end - 1, step);
    forall k: nat | k < 5
      ensures Iterate(step, start, k) <= end - 1
    {
      IterateIncreasing(step, start, k, 5);
    }
  }

  /**
   * The tests' scenario, for every unit: on a five-unit interval, size 4 gives
   * chunks of 4 and 1, size 3 gives two chunks each inside the interval, and
   * sizes 0 and -1 are rejected.
   */
  lemma {:induction false} FiveUnitScenario(cal: ZonedCalendar, unit: ChronoUnit, start: int)
    requires cal.Valid()
    ensures var iv := TemporalInterval(start, Iterate(UnitStep(cal, unit), start, 5));
      && Chunk(cal, iv, unit, 4).Success?
      && |Chunk(cal, iv, unit, 4).value| == 2
      && |Chunk(cal, iv, unit, 4).value[0]| == 4
      && |Chunk(cal, iv, unit, 4).value[1]| == 1
      && Chunk(cal, iv, unit, 3).Success?
      && |Chunk(cal, iv, unit, 3).value| == 2
      && (forall c :: c in Chunk(cal, iv, unit, 3).value ==> ChunkWithin(c, iv, 3))
      && Chunk(cal, iv, unit, 0) == Failure(IllegalArgument)
      && Chunk(cal, iv, unit, -1) == Failure(IllegalArgument)
  {
    var iv := TemporalInterval(start, Iterate(UnitStep(cal, unit), start, 5));
    var xs := UnitPoints(cal, iv, unit);
    FiveUnitPoints(cal, unit, start);
    var four := Chunk(cal, iv, unit, 4).value;
    ChunkCount(four, xs, 4);
    ChunkingHead(four, xs, 4);
    ChunkingHead(four[1..], xs[4..], 4);
    assert four[1..][0] == four[1];
    ChunksStayInsideInterval(cal, iv, unit, 3);
  }
}
