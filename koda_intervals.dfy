/**
 * The enumerations of a joda `ReadableInterval` (KodaTimeExtensions.kt):
 * `step`, `seconds`, `minutes`, `hours`, `days`, `weeks` and `months`.
 * Each is `generateSequence(seed) { next(it) }.takeWhile { it <= end }`,
 * modelled as the finite list of instants it yields.
 */
module KodaIntervals {
  import opened Timeline
  import opened Results

  /**
   * A joda interval, as its two instants in epoch milliseconds. Joda refuses to
   * build one whose end precedes its start; the enumerations below do not rely
   * on that. For such a pair `Step`, `Seconds`, `Minutes` and `Hours` yield
   * nothing, while `Days`, `Weeks` and `Months` yield the run from their
   * normalised seed whenever that seed is `<= end`.
   */
  datatype Interval = Interval(start: int, end: int)

  /**
   * The calendar arithmetic the enumerations use. `startOfDay`
   * (`withTimeAtStartOfDay`) and `startOfWeek` (back to Monday, then the start
   * of that day) work in the instant's own zone and chronology and never move
   * forward. `startOfMonth` is different: it builds day 1 of the instant's year
   * and month as an ISO date-time in the JVM's default zone, so for an instant
   * shown in another zone or chronology it can lie after that instant; nothing
   * is assumed about where it lands. It can also fail: when midnight of day 1
   * falls in a daylight-saving gap of the default zone, joda has no such local
   * time and raises an `IllegalInstantException`, an `IllegalArgumentException`.
   * The steps `plusDays(1)`, `plusWeeks(1)` and `plusMonths(1)` move forward.
   */
  datatype Calendar = Calendar(
    startOfDay: int -> int,
    startOfWeek: int -> int,
    startOfMonth: int -> Result<int>,
    plusDays: int -> int,
    plusWeeks: int -> int,
    plusMonths: int -> int)

  /**
   * `interval step period`: starts from `start + period`, so it never yields
   * the start itself, and keeps adding the period while `<= end`. `plusPeriod`
   * is adding the period in the interval's chronology; it must move forward,
   * since otherwise the sequence never ends.
   */
  function Step(iv: Interval, plusPeriod: int -> int): (r: seq<int>)
    requires Advancing(plusPeriod)
    ensures IsRun(r, plusPeriod(iv.start), iv.end, plusPeriod)
    ensures r == [] <==> plusPeriod(iv.start) > iv.end
    ensures forall i :: 0 <= i < |r| ==> iv.start < r[i] <= iv.end
  {
    var r := Enumerate(plusPeriod(iv.start), iv.end, plusPeriod);
    RunStrictlyIncreasing(r, plusPeriod(iv.start), iv.end, plusPeriod);
    r
  }

  /** `interval.seconds()`: every whole second from the start, up to and including the end. */
  function Seconds(iv: Interval): (r: seq<int>)
    ensures IsRun(r, iv.start, iv.end, Plus(MillisPerSecond))
    ensures forall i :: 0 <= i < |r| ==> r[i] == iv.start + i * MillisPerSecond
    ensures iv.start <= iv.end ==> |r| == (iv.end - iv.start) / MillisPerSecond + 1
    ensures iv.end in r <==> iv.start <= iv.end && (iv.end - iv.start) % MillisPerSecond == 0
  {
    var r := Enumerate(iv.start, iv.end, Plus(MillisPerSecond));
    FixedStepRun(r, iv.start, iv.end, MillisPerSecond);
    r
  }

  /** `interval.minutes()`: every whole minute from the start, up to and including the end. */
  function Minutes(iv: Interval): (r: seq<int>)
    ensures IsRun(r, iv.start, iv.end, Plus(MillisPerMinute))
    ensures forall i :: 0 <= i < |r| ==> r[i] == iv.start + i * MillisPerMinute
    ensures iv.start <= iv.end ==> |r| == (iv.end - iv.start) / MillisPerMinute + 1
    ensures iv.end in r <==> iv.start <= iv.end && (iv.end - iv.start) % MillisPerMinute == 0
  {
    var r := Enumerate(iv.start, iv.end, Plus(MillisPerMinute));
    FixedStepRun(r, iv.start, iv.end, MillisPerMinute);
    r
  }

  /** `interval.hours()`: every whole hour from the start, up to and including the end. */
  function Hours(iv: Interval): (r: seq<int>)
    ensures IsRun(r, iv.start, iv.end, Plus(MillisPerHour))
    ensures forall i :: 0 <= i < |r| ==> r[i] == iv.start + i * MillisPerHour
    ensures iv.start <= iv.end ==> |r| == (iv.end - iv.start) / MillisPerHour + 1
    ensures iv.end in r <==> iv.start <= iv.end && (iv.end - iv.start) % MillisPerHour == 0
  {
    var r := Enumerate(iv.start, iv.end, Plus(MillisPerHour));
    FixedStepRun(r, iv.start, iv.end, MillisPerHour);
    r
  }

  /**
   * `interval.days()`: starts at the start of the start's day, which may
   * precede the interval, and adds one calendar day while `<= end`.
   */
  function Days(cal: Calendar, iv: Interval): (r: seq<int>)
    requires Normalizing(cal.startOfDay) && Advancing(cal.plusDays)
    ensures IsRun(r, cal.startOfDay(iv.start), iv.end, cal.plusDays)
    ensures iv.start <= iv.end ==> r != [] && r[0] <= iv.start
  {
    Enumerate(cal.startOfDay(iv.start), iv.end, cal.plusDays)
  }

  /** `interval.weeks()`: from the Monday that starts the start's week, one week at a time. */
  function Weeks(cal: Calendar, iv: Interval): (r: seq<int>)
    requires Normalizing(cal.startOfWeek) && Advancing(cal.plusWeeks)
    ensures IsRun(r, cal.startOfWeek(iv.start), iv.end, cal.plusWeeks)
    ensures iv.start <= iv.end ==> r != [] && r[0] <= iv.start
  {
    Enumerate(cal.startOfWeek(iv.start), iv.end, cal.plusWeeks)
  }

  /**
   * `interval.months()`: from the first day of the start's month, one month at
   * a time. The seed is `startOfMonth(start)`, which may lie after `start` and
   * even after `end`; then nothing is yielded. When the seed cannot be built,
   * `months()` raises before yielding anything.
   */
  function Months(cal: Calendar, iv: Interval): (r: Result<seq<int>>)
    requires Advancing(cal.plusMonths)
    ensures r.Failure? <==> cal.startOfMonth(iv.start).Failure?
    ensures r.Failure? ==> r.error == IllegalArgument
    ensures r.Success? ==>
      var seed := cal.startOfMonth(iv.start).value;
      && IsRun(r.value, seed, iv.end, cal.plusMonths)
      && (r.value == [] <==> seed > iv.end)
      && (seed <= iv.start <= iv.end ==> r.value != [] && r.value[0] <= iv.start)
  {
    match cal.startOfMonth(iv.start)
    case Failure(_) => Failure(IllegalArgument)
    case Success(seed) => Success(Enumerate(seed, iv.end, cal.plusMonths))
  }

  /**
   * Every enumeration above is strictly increasing, stays `<= end`, and misses
   * nothing: the seed stepped `k` times is `<= end` exactly when it is element `k`.
   */
  lemma EnumerationsAreOrderedAndComplete(cal: Calendar, iv: Interval, plusPeriod: int -> int)
    requires Advancing(plusPeriod)
    requires Normalizing(cal.startOfDay) && Advancing(cal.plusDays)
    requires Normalizing(cal.startOfWeek) && Advancing(cal.plusWeeks)
    requires Advancing(cal.plusMonths)
    ensures var r := Step(iv, plusPeriod);
      && (forall i, j :: 0 <= i < j < |r| ==> r[i] < r[j])
      && (forall k: nat :: Iterate(plusPeriod, plusPeriod(iv.start), k) <= iv.end <==> k < |r|)
    ensures var r := Seconds(iv);
      && (forall i, j :: 0 <= i < j < |r| ==> r[i] < r[j])
      && (forall k: nat :: Iterate(Plus(MillisPerSecond), iv.start, k) <= iv.end <==> k < |r|)
    ensures var r := Minutes(iv);
      && (forall i, j :: 0 <= i < j < |r| ==> r[i] < r[j])
      && (forall k: nat :: Iterate(Plus(MillisPerMinute), iv.start, k) <= iv.end <==> k < |r|)
    ensures var r := Hours(iv);
      && (forall i, j :: 0 <= i < j < |r| ==> r[i] < r[j])
      && (forall k: nat :: Iterate(Plus(MillisPerHour), iv.start, k) <= iv.end <==> k < |r|)
    ensures var r := Days(cal, iv);
      && (forall i, j :: 0 <= i < j < |r| ==> r[i] < r[j])
      && (forall k: nat :: Iterate(cal.plusDays, cal.startOfDay(iv.start), k) <= iv.end <==> k < |r|)
    ensures var r := Weeks(cal, iv);
      && (forall i, j :: 0 <= i < j < |r| ==> r[i] < r[j])
      && (forall k: nat :: Iterate(cal.plusWeeks, cal.startOfWeek(iv.start), k) <= iv.end <==> k < |r|)
    ensures Months(cal, iv).Success? ==>
      var r, seed := Months(cal, iv).value, cal.startOfMonth(iv.start).value;
      && (forall i, j :: 0 <= i < j < |r| ==> r[i] < r[j])
      && (forall k: nat :: Iterate(cal.plusMonths, seed, k) <= iv.end <==> k < |r|)
  {
    OrderedAndComplete(Step(iv, plusPeriod), plusPeriod(iv.start), iv.end, plusPeriod);
    OrderedAndComplete(Seconds(iv), iv.start, iv.end, Plus(MillisPerSecond));
    OrderedAndComplete(Minutes(iv), iv.start, iv.end, Plus(MillisPerMinute));
    OrderedAndComplete(Hours(iv), iv.start, iv.end, Plus(MillisPerHour));
    OrderedAndComplete(Days(cal, iv), cal.startOfDay(iv.start), iv.end, cal.plusDays);
    OrderedAndComplete(Weeks(cal, iv), cal.startOfWeek(iv.start), iv.end, cal.plusWeeks);
    if Months(cal, iv).Success? {
      OrderedAndComplete(Months(cal, iv).value, cal.startOfMonth(iv.start).value, iv.end, cal.plusMonths);
    }
  }

  lemma OrderedAndComplete(r: seq<int>, seed: int, end: int, step: int -> int)
    requires Advancing(step) && IsRun(r, seed, end, step)
    ensures forall i, j :: 0 <= i < j < |r| ==> r[i] < r[j]
    ensures forall k: nat :: Iterate(step, seed, k) <= end <==> k < |r|
  {
    RunStrictlyIncreasing(r, seed, end, step);
    RunIsComplete(r, seed, end, step);
  }

  /**
   * An hour-long interval whose end lies on the grid yields 61 minutes, both
   * ends included; one millisecond less and the end drops out.
   */
  lemma MinutesOfAnHour(start: int)
    ensures |Minutes(Interval(start, start + MillisPerHour))| == 61
    ensures start + MillisPerHour in Minutes(Interval(start, start + MillisPerHour))
    ensures |Minutes(Interval(start, start + MillisPerHour - 1))| == 60
    ensures start + MillisPerHour - 1 !in Minutes(Interval(start, start + MillisPerHour - 1))
  {
  }
}
