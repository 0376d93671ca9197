/**
 * The small value helpers of KodaTimeExtensions.kt: `min`/`max` on `DateTime`
 * and `Duration`, `Duration.abs`, `Duration.isZero`, and the `Long` period
 * constructors, which narrow their receiver to an `Int` first.
 */
module KodaValues {
  import opened Results

  const TwoTo31: int := 0x8000_0000
  const TwoTo32: int := 0x1_0000_0000
  const MinInt64: int := -0x8000_0000_0000_0000

  /** Kotlin's `Long` and `Int`. */
  type Int64 = x: int | -0x8000_0000_0000_0000 <= x < 0x8000_0000_0000_0000
  type Int32 = x: int | -0x8000_0000 <= x < 0x8000_0000

  predicate InInt32(x: int) {
    -TwoTo31 <= x < TwoTo31
  }

  /**
   * A joda `DateTime`: an instant in epoch milliseconds and the zone it is shown
   * in. Joda orders date-times by their instant alone, so two date-times in
   * different zones can compare equal without being the same value.
   */
  type ZoneId = nat
  datatype DateTime = DateTime(millis: int, zone: ZoneId)

  /** `dt min that`: the earlier of the two; on a tie, `that`. */
  function MinDateTime(dt: DateTime, that: DateTime): (r: DateTime)
    ensures r == dt || r == that
    ensures r.millis <= dt.millis && r.millis <= that.millis
    ensures dt.millis == that.millis ==> r == that
  {
    if dt.millis < that.millis then dt else that
  }

  /** `dt max that`: the later of the two; on a tie, `that`. */
  function MaxDateTime(dt: DateTime, that: DateTime): (r: DateTime)
    ensures r == dt || r == that
    ensures r.millis >= dt.millis && r.millis >= that.millis
    ensures dt.millis == that.millis ==> r == that
  {
    if dt.millis > that.millis then dt else that
  }

  /** `min` and `max` of two different instants return both arguments, one each. */
  lemma {:induction false} MinMaxSplitDateTimes(a: DateTime, b: DateTime)
    requires a.millis != b.millis
    ensures multiset{MinDateTime(a, b), MaxDateTime(a, b)} == multiset{a, b}
    ensures MinDateTime(a, b) == MinDateTime(b, a) && MaxDateTime(a, b) == MaxDateTime(b, a)
  {
    if a.millis < b.millis {
      assert MinDateTime(a, b) == a && MaxDateTime(a, b) == b;
    } else {
      assert MinDateTime(a, b) == b && MaxDateTime(a, b) == a;
    }
  }

  /** A joda `Duration`: a signed length of time in milliseconds. */
  datatype Duration = Duration(millis: Int64)

  /** `emptyDuration`, joda's `Duration.ZERO`. */
  const EmptyDuration: Duration := Duration(0)

  /** `d min that`: the shorter of the two; on a tie, `that`. */
  function MinDuration(d: Duration, that: Duration): (r: Duration)
    ensures r == d || r == that
    ensures r.millis <= d.millis && r.millis <= that.millis
    ensures d.millis == that.millis ==> r == that
  {
    if d.millis < that.millis then d else that
  }

  /** `d max that`: the longer of the two; on a tie, `that`. */
  function MaxDuration(d: Duration, that: Duration): (r: Duration)
    ensures r == d || r == that
    ensures r.millis >= d.millis && r.millis >= that.millis
    ensures d.millis == that.millis ==> r == that
  {
    if d.millis > that.millis then d else that
  }

  /**
   * `-d`, joda's `Duration.negated()`: the one `Long` without a positive
   * counterpart cannot be negated and raises an `ArithmeticException`.
   */
  function Negated(d: Duration): (r: Result<Duration>)
    ensures r.Success? <==> d.millis != MinInt64
    ensures r.Success? ==> r.value.millis + d.millis == 0
    ensures r.Failure? ==> r.error == ArithmeticOverflow
  {
    if d.millis == MinInt64 then Failure(ArithmeticOverflow) else Success(Duration(-d.millis))
  }

  /** `d.abs()`: the length of `d` without its sign. */
  function Abs(d: Duration): (r: Result<Duration>)
    ensures r.Failure? <==> d.millis == MinInt64
    ensures r.Failure? ==> r.error == ArithmeticOverflow
    ensures r.Success? ==> r.value.millis >= 0 && (r.value.millis == d.millis || r.value.millis == -d.millis)
    ensures d.millis >= 0 ==> r == Success(d)
  {
    if d.millis < EmptyDuration.millis then Negated(d) else Success(d)
  }

  /** `d.isZero()`: the duration is the empty one. */
  function IsZero(d: Duration): (r: bool)
    ensures r <==> d == EmptyDuration
  {
    d.millis == 0
  }

  /** `abs` is idempotent, and only the empty duration has an empty absolute value. */
  lemma {:induction false} AbsIdempotent(d: Duration)
    requires Abs(d).Success?
    ensures Abs(Abs(d).value) == Abs(d)
    ensures IsZero(Abs(d).value) <==> IsZero(d)
  {
    var a := Abs(d).value;
    assert a.millis >= 0;
  }

  /**
   * Kotlin's `Long.toInt()`: keeps the low 32 bits and reads them as a two's
   * complement `Int`.
   */
  function ToInt32(x: Int64): (r: Int32)
    ensures (x - r) % TwoTo32 == 0
    ensures InInt32(x) ==> r == x
  {
    var low := x % TwoTo32;
    if low < TwoTo31 then low else low - TwoTo32
  }

  /** The two ensures of `ToInt32` admit exactly one `Int`. */
  lemma ToInt32Unique(x: Int64, y: Int32)
    requires (x - y) % TwoTo32 == 0
    ensures y == ToInt32(x)
  {
    var r := ToInt32(x);
    assert x - y == TwoTo32 * ((x - y) / TwoTo32);
    assert x - r == TwoTo32 * ((x - r) / TwoTo32);
  }

  /** The fields of joda's standard period type. */
  datatype PeriodField = Years | Months | Weeks | Days | Hours | Minutes | Seconds | Millis
  {
    /** The fields whose `Long` constructor returns a `DurationBuilder`. */
    predicate IsTimeField() {
      this == Millis || this == Seconds || this == Minutes || this == Hours
    }
  }

  /**
   * A joda `Period` of the standard type: one `Int` amount per field. Single-field
   * periods come from `Period.days(n)` and its siblings; `Period.plus` combines
   * them into periods with several fields.
   */
  datatype Period = Period(years: Int32, months: Int32, weeks: Int32, days: Int32,
                           hours: Int32, minutes: Int32, seconds: Int32, millis: Int32)
  {
    /** The amount of one field. */
    function Get(f: PeriodField): Int32 {
      match f
      case Years => years
      case Months => months
      case Weeks => weeks
      case Days => days
      case Hours => hours
      case Minutes => minutes
      case Seconds => seconds
      case Millis => millis
    }
  }

  /** `Period.ZERO`. */
  const ZeroPeriod: Period := Period(0, 0, 0, 0, 0, 0, 0, 0)

  /** `Period.days(amount)` and its siblings: `amount` in one field, zero in the others. */
  function Single(field: PeriodField, amount: Int32): (p: Period)
    ensures p.Get(field) == amount
    ensures forall g :: g != field ==> p.Get(g) == 0
  {
    match field
    case Years => ZeroPeriod.(years := amount)
    case Months => ZeroPeriod.(months := amount)
    case Weeks => ZeroPeriod.(weeks := amount)
    case Days => ZeroPeriod.(days := amount)
    case Hours => ZeroPeriod.(hours := amount)
    case Minutes => ZeroPeriod.(minutes := amount)
    case Seconds => ZeroPeriod.(seconds := amount)
    case Millis => ZeroPeriod.(millis := amount)
  }

  /** The library's `DurationBuilder`, a wrapper around a period. */
  datatype DurationBuilder = DurationBuilder(period: Period)

  /**
   * `n.days()`, `n.weeks()`, `n.months()`, `n.years()` on a `Long`: the period
   * is built from `n.toInt()`, so only the low 32 bits of `n` matter.
   */
  function LongPeriod(n: Int64, field: PeriodField): (p: Period)
    ensures (n - p.Get(field)) % TwoTo32 == 0
    ensures InInt32(n) ==> p.Get(field) == n
    ensures forall g :: g != field ==> p.Get(g) == 0
  {
    Single(field, ToInt32(n))
  }

  /** `n.millis()`, `n.seconds()`, `n.minutes()`, `n.hours()` on a `Long`: the same, wrapped. */
  function LongDuration(n: Int64, field: PeriodField): (b: DurationBuilder)
    requires field.IsTimeField()
    ensures (n - b.period.Get(field)) % TwoTo32 == 0
    ensures InInt32(n) ==> b.period.Get(field) == n
    ensures forall g :: g != field ==> b.period.Get(g) == 0
  {
    DurationBuilder(LongPeriod(n, field))
  }

  /** Every field of `p` times `scalar` stays in the `Int` range. */
  predicate ProductsFit(p: Period, scalar: int) {
    && InInt32(p.years * scalar) && InInt32(p.months * scalar)
    && InInt32(p.weeks * scalar) && InInt32(p.days * scalar)
    && InInt32(p.hours * scalar) && InInt32(p.minutes * scalar)
    && InInt32(p.seconds * scalar) && InInt32(p.millis * scalar)
  }

  /**
   * Joda's `Period.multipliedBy(scalar)`: every field times `scalar`, raising
   * an `ArithmeticException` when any product leaves the `Int` range.
   */
  function MultipliedBy(p: Period, scalar: Int32): (r: Result<Period>)
    ensures r.Success? <==> forall f: PeriodField :: InInt32(p.Get(f) * scalar)
    ensures r.Success? ==> forall f: PeriodField :: r.value.Get(f) == p.Get(f) * scalar
    ensures r.Failure? ==> r.error == ArithmeticOverflow
  {
    if ProductsFit(p, scalar) then
      Success(Period(p.years * scalar, p.months * scalar, p.weeks * scalar, p.days * scalar,
                     p.hours * scalar, p.minutes * scalar, p.seconds * scalar, p.millis * scalar))
    else
      assert !InInt32(p.Get(Years) * scalar) || !InInt32(p.Get(Months) * scalar)
          || !InInt32(p.Get(Weeks) * scalar) || !InInt32(p.Get(Days) * scalar)
          || !InInt32(p.Get(Hours) * scalar) || !InInt32(p.Get(Minutes) * scalar)
          || !InInt32(p.Get(Seconds) * scalar) || !InInt32(p.Get(Millis) * scalar);
      Failure(ArithmeticOverflow)
  }

  /** `n * period` with a `Long` receiver: multiplies by `n.toInt()`. */
  function LongTimesPeriod(n: Int64, p: Period): (r: Result<Period>)
    ensures r.Success? ==> forall f: PeriodField :: (r.value.Get(f) - n * p.Get(f)) % TwoTo32 == 0
    ensures r.Failure? ==> r.error == ArithmeticOverflow
    ensures InInt32(n) ==> (r.Success? <==> forall f: PeriodField :: InInt32(n * p.Get(f)))
    ensures InInt32(n) && r.Success? ==> forall f: PeriodField :: r.value.Get(f) == n * p.Get(f)
  {
    var r := MultipliedBy(p, ToInt32(n));
    if r.Success? then
      TruncatedProducts(n, p);
      r
    else r
  }

  /** `n * builder` with a `Long` receiver: the builder's period times `n.toInt()`. */
  function LongTimesBuilder(n: Int64, b: DurationBuilder): (r: Result<DurationBuilder>)
    ensures r.Success? ==> forall f: PeriodField :: (r.value.period.Get(f) - n * b.period.Get(f)) % TwoTo32 == 0
    ensures r.Failure? ==> r.error == ArithmeticOverflow
    ensures InInt32(n) ==> (r.Success? <==> forall f: PeriodField :: InInt32(n * b.period.Get(f)))
    ensures InInt32(n) && r.Success? ==> forall f: PeriodField :: r.value.period.Get(f) == n * b.period.Get(f)
  {
    match LongTimesPeriod(n, b.period)
    case Success(q) => Success(DurationBuilder(q))
    case Failure(e) => Failure(e)
  }

  lemma TruncatedProducts(n: Int64, p: Period)
    ensures forall f: PeriodField :: (ToInt32(n) * p.Get(f) - n * p.Get(f)) % TwoTo32 == 0
  {
    forall f: PeriodField
      ensures (ToInt32(n) * p.Get(f) - n * p.Get(f)) % TwoTo32 == 0
    {
      TruncatedProduct(n, p.Get(f));
    }
  }

  lemma TruncatedProduct(n: Int64, a: Int32)
    ensures (ToInt32(n) * a - n * a) % TwoTo32 == 0
  {
    var d := ToInt32(n) - n;
    var k := d / TwoTo32;
    ProductOfMultiple(ToInt32(n), n, k, a);
    MultipleHasNoRemainder(k * a);
  }

  lemma ProductOfMultiple(t: int, n: int, k: int, a: int)
    requires t - n == TwoTo32 * k
    ensures t * a - n * a == TwoTo32 * (k * a)
  {
  }

  lemma MultipleHasNoRemainder(j: int)
    ensures (TwoTo32 * j) % TwoTo32 == 0
  {
  }

  /**
   * Every `Long` constructor depends on its receiver only through the low 32
   * bits: receivers that agree there build the same period.
   */
  lemma {:induction false} LongConstructorsUseLowBits(n: Int64, m: Int64, field: PeriodField, p: Period)
    requires (n - m) % TwoTo32 == 0
    ensures LongPeriod(n, field) == LongPeriod(m, field)
    ensures LongTimesPeriod(n, p) == LongTimesPeriod(m, p)
  {
    var t := ToInt32(n);
    assert (m - t) % TwoTo32 == 0 by {
      assert n - m == TwoTo32 * ((n - m) / TwoTo32);
      assert n - t == TwoTo32 * ((n - t) / TwoTo32);
    }
    ToInt32Unique(m, t);
  }

  /** `(2^32 + 5).days()` is five days, and `0xFFFF_FFFF.days()` is minus one day. */
  lemma LongPeriodWrapsAround()
    ensures LongPeriod(TwoTo32 + 5, Days) == Single(Days, 5)
    ensures LongPeriod(0xFFFF_FFFF, Days) == Single(Days, -1)
  {
  }

  /**
   * `n * period` multiplies every field of a period built with `Period.plus`,
   * and one field leaving the `Int` range fails the whole product.
   */
  lemma LongTimesMultiFieldPeriod()
    ensures LongTimesPeriod(3, Single(Days, 1).(hours := 2)) == Success(Single(Days, 3).(hours := 6))
    ensures LongTimesPeriod(2, Single(Days, 1).(hours := 0x4000_0000)) == Failure(ArithmeticOverflow)
  {
  }
}
