# joda-time-kotlin interval logic, modelled in Dafny

This project models two pieces of interval logic from the joda-time-kotlin extension library.

1. **The enumerations of a joda `ReadableInterval`.** These are `step(period)`, `seconds()`, `minutes()`, `hours()`, `days()`, `weeks()` and `months()`. Each one repeatedly applies a calendar step to a seed and keeps the results while they are `<=` the interval's end. The same file also holds small value helpers, and these are modelled too: `min`/`max` on `DateTime` and `Duration`, `Duration.abs`, `Duration.isZero`, and the `Long` period constructors, which narrow their receiver with `toInt()`.
2. **Chunking of a java.time interval.** This covers `chunkYear`, `chunkMonth`, `chunkWeek`, `chunkDay`, `chunkHour`, `chunkMinute`, `chunkSecond` and `chunkMilli`. The chunking implementation is not part of this model. Its contract comes from the assertions in `TemporalIntervalChunkTest.kt`:
   - the instants one unit apart, from the interval's start and stopping before its end, are cut into consecutive groups of `size`;
   - the last group holds the remainder;
   - a `size` that is not positive is an `IllegalArgumentException` raised at the call.

Instants are integers (epoch milliseconds). Calendar arithmetic stays abstract:
- a "plus one day/week/month/year" is any function that moves strictly forward (`Timeline.Advancing`);
- a "start of day/week" is any function that never moves forward (`Timeline.Normalizing`);
- a "start of month" is any function at all, and it may fail.

These functions are fields of a `Calendar` (joda) or a `ZonedCalendar` (java.time) value. Each enumeration requires only the facts about its own fields. Joda's `startOfMonth` gets no such fact: it builds an ISO date-time in the JVM's default zone (`KodaTimeExtensions.kt` lines 149-164), so for an interval shown in another zone or chronology it can lie after the interval's start, or even after its end. It fails when midnight of day 1 falls in a daylight-saving gap of the default zone: joda raises an `IllegalInstantException`, an `IllegalArgumentException`, and `months()` raises it before yielding anything. Seconds, minutes, hours and milliseconds are fixed lengths on the instant line: 1000, 60000, 3600000 and 1 ms.

The two enumerations are kept apart, because they differ at the end:
- `Timeline.Enumerate` keeps instants `<= end`, as in `KodaTimeExtensions.kt`;
- `Timeline.EnumerateBefore` keeps instants `< end`, as the chunk tests require. A five-unit interval yields five points, chunked as 4 + 1.

`Timeline.EnumerateBeforeIsEnumerate` states how the two relate. The tests' assertions (five points, chunked 4 + 1) fix the chunk enumeration's end as excluded.

Exceptions are values: `Results.Result` carries either the value or `IllegalArgument` / `ArithmeticOverflow`.

Files:
- `results.dfy`: the exception values.
- `timeline.dfy`: the step theory, both enumerations, and the lemmas about runs.
- `koda_intervals.dfy`: the joda interval enumerations.
- `koda_values.dfy`: `min`/`max`, `abs`, `isZero`, the `Long` constructors.
- `interval_chunk.dfy`: chunking.

## Model

| member | source | states |
|---|---|---|
| Timeline.Enumerate | src/main/kotlin/com/github/debop/kodatimes/KodaTimeExtensions.kt:400 | `generateSequence(seed){step}.takeWhile{it <= end}` as a finite list. It is empty iff `seed > end`, starts at `seed`, each element is `step` of the previous one, all are `<= end`, and `step` of the last one is past `end` |
| Timeline.RunIsUnique | src/main/kotlin/com/github/debop/kodatimes/KodaTimeExtensions.kt:400 | the properties above determine the enumeration uniquely: two lists that both satisfy them are equal |
| Timeline.RunStrictlyIncreasing | src/main/kotlin/com/github/debop/kodatimes/KodaTimeExtensions.kt:394-426 | an enumeration of a forward-moving step is strictly increasing, so it has no duplicates |
| Timeline.RunIsComplete | src/main/kotlin/com/github/debop/kodatimes/KodaTimeExtensions.kt:394-426 | nothing is skipped: the seed stepped `k` times is `<= end` iff `k` is less than the length of the enumeration |
| Timeline.RunIsIterates | src/main/kotlin/com/github/debop/kodatimes/KodaTimeExtensions.kt:400 | element `k` is the seed stepped `k` times, and the seed stepped `length` times is past `end` |
| Timeline.FixedStepRun | src/main/kotlin/com/github/debop/kodatimes/KodaTimeExtensions.kt:399-411 | for a fixed step `u` the enumeration is `start + i*u`. If `start <= end` it has `(end - start)/u + 1` elements, and it contains `end` iff `start <= end` and `u` divides `end - start` |
| Timeline.EnumerateBefore | java-time/src/test/kotlin/com/github/debop/javatimes/TemporalIntervalChunkTest.kt:18-33 | the chunk enumeration: empty iff `seed >= end`, starts at `seed`, and every element lies in `[seed, end)` |
| Timeline.EnumerateBeforeIsEnumerate | java-time/src/test/kotlin/com/github/debop/javatimes/TemporalIntervalChunkTest.kt:19-33 | on integer instants, the exclusive enumeration equals the inclusive one stopped at `end - 1` |
| KodaIntervals.Step | src/main/kotlin/com/github/debop/kodatimes/KodaTimeExtensions.kt:394-396 | `interval step period` starts at `start + period` and never yields `start`: every element is in `(start, end]`. It is empty iff `start + period > end` |
| KodaIntervals.Seconds | src/main/kotlin/com/github/debop/kodatimes/KodaTimeExtensions.kt:399-401 | starts at the interval start, and element `i` is `start + i` seconds. For `start <= end` it has `(end-start)/1000 + 1` elements, and it includes `end` iff `end - start` is whole seconds |
| KodaIntervals.Minutes | src/main/kotlin/com/github/debop/kodatimes/KodaTimeExtensions.kt:404-406 | the same, with minutes (60000 ms) |
| KodaIntervals.Hours | src/main/kotlin/com/github/debop/kodatimes/KodaTimeExtensions.kt:409-411 | the same, with hours (3600000 ms) |
| KodaIntervals.Days | src/main/kotlin/com/github/debop/kodatimes/KodaTimeExtensions.kt:414-416 | enumerates `plusDays(1)` from `startOfDay(start)`, all `<= end`. For `start <= end` it is non-empty, and its first element is `<= start` (it may precede the interval) |
| KodaIntervals.Weeks | src/main/kotlin/com/github/debop/kodatimes/KodaTimeExtensions.kt:419-421 | the same, with `startOfWeek` and `plusWeeks(1)` |
| KodaIntervals.Months | src/main/kotlin/com/github/debop/kodatimes/KodaTimeExtensions.kt:424-426 | fails with `IllegalArgument` iff `startOfMonth(start)` cannot be built. Otherwise it enumerates `plusMonths(1)` from that seed, all `<= end`, and is empty iff the seed is past `end`. When the seed is `<= start <= end`, it is non-empty and its first element is `<= start`. Nothing is assumed about where `startOfMonth` lands |
| KodaIntervals.EnumerationsAreOrderedAndComplete | src/main/kotlin/com/github/debop/kodatimes/KodaTimeExtensions.kt:394-426 | each of the seven enumerations (`months()` when it does not fail) is strictly increasing. It contains exactly those steps from its seed that are `<= end` |
| KodaIntervals.MinutesOfAnHour | src/main/kotlin/com/github/debop/kodatimes/KodaTimeExtensions.kt:404-406 | an hour-long interval yields 61 minutes, including its end. One millisecond less yields 60 minutes, without the end |
| KodaValues.MinDateTime | src/main/kotlin/com/github/debop/kodatimes/KodaTimeExtensions.kt:233-235 | returns one of its arguments, and no later than either. On equal instants it returns `that`, even when the zones differ |
| KodaValues.MaxDateTime | src/main/kotlin/com/github/debop/kodatimes/KodaTimeExtensions.kt:238-240 | returns one of its arguments, and no earlier than either. On equal instants it returns `that` |
| KodaValues.MinMaxSplitDateTimes | src/main/kotlin/com/github/debop/kodatimes/KodaTimeExtensions.kt:233-240 | for different instants, `min` and `max` together return both arguments, and neither depends on argument order |
| KodaValues.MinDuration | src/main/kotlin/com/github/debop/kodatimes/KodaTimeExtensions.kt:341-343 | returns one argument, the shorter one; on a tie, `that` |
| KodaValues.MaxDuration | src/main/kotlin/com/github/debop/kodatimes/KodaTimeExtensions.kt:345-347 | returns one argument, the longer one; on a tie, `that` |
| KodaValues.Negated | src/main/kotlin/com/github/debop/kodatimes/KodaTimeExtensions.kt:335 | `-d` sums with `d` to zero. It fails with an arithmetic error exactly for `Long.MIN_VALUE` |
| KodaValues.Abs | src/main/kotlin/com/github/debop/kodatimes/KodaTimeExtensions.kt:321 | the result is non-negative and is `d` or `-d`. Non-negative inputs come back unchanged. It fails only for `Long.MIN_VALUE` |
| KodaValues.IsZero | src/main/kotlin/com/github/debop/kodatimes/KodaTimeExtensions.kt:339 | holds iff the duration is `emptyDuration` |
| KodaValues.AbsIdempotent | src/main/kotlin/com/github/debop/kodatimes/KodaTimeExtensions.kt:321 | `abs(abs(d)) == abs(d)`, and `abs(d)` is zero iff `d` is |
| KodaValues.ToInt32 | src/main/kotlin/com/github/debop/kodatimes/KodaTimeExtensions.kt:79 | `Long.toInt()` gives an `Int` congruent to its input modulo 2^32, and leaves values already in `Int` range unchanged |
| KodaValues.ToInt32Unique | src/main/kotlin/com/github/debop/kodatimes/KodaTimeExtensions.kt:79-100 | exactly one `Int` satisfies those two properties, so they define the truncation |
| KodaValues.LongPeriod | src/main/kotlin/com/github/debop/kodatimes/KodaTimeExtensions.kt:91-100 | `n.days()` through `n.years()` build a period with every other field zero. The field's amount is `n` truncated to its low 32 bits, and is `n` itself when `n` fits in an `Int` |
| KodaValues.LongDuration | src/main/kotlin/com/github/debop/kodatimes/KodaTimeExtensions.kt:79-88 | the same for `n.millis()` through `n.hours()`, wrapped in a `DurationBuilder` |
| KodaValues.MultipliedBy | src/main/kotlin/com/github/debop/kodatimes/KodaTimeExtensions.kt:103-106 | every field of the period times the scalar. It fails with an arithmetic error iff some field's product leaves the `Int` range |
| KodaValues.LongTimesPeriod | src/main/kotlin/com/github/debop/kodatimes/KodaTimeExtensions.kt:106 | `n * period`, for any period: on success every field is congruent to `n` times that field mod 2^32. For `n` in `Int` range every field is exactly `n` times the field, failing iff one of those products overflows |
| KodaValues.LongTimesBuilder | src/main/kotlin/com/github/debop/kodatimes/KodaTimeExtensions.kt:103 | the same for `n * builder` |
| KodaValues.LongConstructorsUseLowBits | src/main/kotlin/com/github/debop/kodatimes/KodaTimeExtensions.kt:79-106 | two receivers that agree modulo 2^32 build the same period, both in the constructors and in `n * period` |
| KodaValues.LongPeriodWrapsAround | src/main/kotlin/com/github/debop/kodatimes/KodaTimeExtensions.kt:91 | `(2^32 + 5).days()` is 5 days and `0xFFFFFFFF.days()` is -1 day |
| KodaValues.LongTimesMultiFieldPeriod | src/main/kotlin/com/github/debop/kodatimes/KodaTimeExtensions.kt:106 | `3 * (1 day + 2 hours)` is 3 days 6 hours; `2 * (1 day + 2^30 hours)` fails, though its days fit |
| TemporalIntervalChunk.UnitStep | java-time/src/test/kotlin/com/github/debop/javatimes/TemporalIntervalChunkTest.kt:16-351 | each of the eight units steps strictly forward |
| TemporalIntervalChunk.UnitPoints | java-time/src/test/kotlin/com/github/debop/javatimes/TemporalIntervalChunkTest.kt:18-33 | the points chunked are the unit enumeration from `start`. All of them lie in `[start, end)` |
| TemporalIntervalChunk.Chunked | java-time/src/test/kotlin/com/github/debop/javatimes/TemporalIntervalChunkTest.kt:22-33 | cuts a list into chunks of 1..n elements; all but the last are full. Laid end to end, the chunks give back the list |
| TemporalIntervalChunk.Chunk | java-time/src/test/kotlin/com/github/debop/javatimes/TemporalIntervalChunkTest.kt:16-41 | fails with `IllegalArgument` iff `size <= 0`, for any interval, before any enumeration. Otherwise it is a chunking of the unit points by `size` |
| TemporalIntervalChunk.ChunkYear | java-time/src/test/kotlin/com/github/debop/javatimes/TemporalIntervalChunkTest.kt:22 | `interval.chunkYear(size)`: `Chunk` with the unit fixed to `Year`. It fails with `IllegalArgument` iff `size <= 0`; otherwise it is a chunking of the year points by `size` |
| TemporalIntervalChunk.ChunkMonth | java-time/src/test/kotlin/com/github/debop/javatimes/TemporalIntervalChunkTest.kt:63 | `interval.chunkMonth(size)`: `Chunk` with the unit fixed to `Month`. It fails with `IllegalArgument` iff `size <= 0`; otherwise it is a chunking of the month points by `size` |
| TemporalIntervalChunk.ChunkWeek | java-time/src/test/kotlin/com/github/debop/javatimes/TemporalIntervalChunkTest.kt:105 | `interval.chunkWeek(size)`: `Chunk` with the unit fixed to `Week`. It fails with `IllegalArgument` iff `size <= 0`; otherwise it is a chunking of the week points by `size` |
| TemporalIntervalChunk.ChunkDay | java-time/src/test/kotlin/com/github/debop/javatimes/TemporalIntervalChunkTest.kt:147 | `interval.chunkDay(size)`: `Chunk` with the unit fixed to `Day`. It fails with `IllegalArgument` iff `size <= 0`; otherwise it is a chunking of the day points by `size` |
| TemporalIntervalChunk.ChunkHour | java-time/src/test/kotlin/com/github/debop/javatimes/TemporalIntervalChunkTest.kt:189 | `interval.chunkHour(size)`: `Chunk` with the unit fixed to `Hour`. It fails with `IllegalArgument` iff `size <= 0`; otherwise it is a chunking of the hour points by `size` |
| TemporalIntervalChunk.ChunkMinute | java-time/src/test/kotlin/com/github/debop/javatimes/TemporalIntervalChunkTest.kt:231 | `interval.chunkMinute(size)`: `Chunk` with the unit fixed to `Minute`. It fails with `IllegalArgument` iff `size <= 0`; otherwise it is a chunking of the minute points by `size` |
| TemporalIntervalChunk.ChunkSecond | java-time/src/test/kotlin/com/github/debop/javatimes/TemporalIntervalChunkTest.kt:273 | `interval.chunkSecond(size)`: `Chunk` with the unit fixed to `Second`. It fails with `IllegalArgument` iff `size <= 0`; otherwise it is a chunking of the second points by `size` |
| TemporalIntervalChunk.ChunkMilli | java-time/src/test/kotlin/com/github/debop/javatimes/TemporalIntervalChunkTest.kt:316 | `interval.chunkMilli(size)`: `Chunk` with the unit fixed to `Milli`. It fails with `IllegalArgument` iff `size <= 0`; otherwise it is a chunking of the milli points by `size` |
| TemporalIntervalChunk.ChunkingIsUnique | java-time/src/test/kotlin/com/github/debop/javatimes/TemporalIntervalChunkTest.kt:31-33 | a list has only one chunking by `n`, so the chunking properties determine the result |
| TemporalIntervalChunk.ChunkCount | java-time/src/test/kotlin/com/github/debop/javatimes/TemporalIntervalChunkTest.kt:31 | a chunking of `k` elements by `n` has `ceil(k/n)` chunks |
| TemporalIntervalChunk.ChunkElement | java-time/src/test/kotlin/com/github/debop/javatimes/TemporalIntervalChunkTest.kt:22-29 | element `j` of chunk `i` is element `i*n + j` of the list |
| TemporalIntervalChunk.ChunkCountOfInterval | java-time/src/test/kotlin/com/github/debop/javatimes/TemporalIntervalChunkTest.kt:31-33 | an interval with `k` unit points gives `ceil(k/size)` chunks |
| TemporalIntervalChunk.ChunksStayInsideInterval | java-time/src/test/kotlin/com/github/debop/javatimes/TemporalIntervalChunkTest.kt:24-29 | for every unit and size, each chunk holds 1..size strictly ascending instants, all inside the closed interval, so `first()..last()` is contained in it |
| TemporalIntervalChunk.FiveUnitPoints | java-time/src/test/kotlin/com/github/debop/javatimes/TemporalIntervalChunkTest.kt:18-20 | `start..start + 5 units` has exactly 5 unit points: the start stepped 0..4 times. The end is not one of them |
| TemporalIntervalChunk.FiveUnitScenario | java-time/src/test/kotlin/com/github/debop/javatimes/TemporalIntervalChunkTest.kt:16-55 | on that interval, for every unit, sizes and outcomes are: <br>• size 4: chunks of 4 and 1 <br>• size 3: two chunks, each inside the interval <br>• sizes 0 and -1: `IllegalArgument` |

## Left out

- Calendar arithmetic of joda-time and java.time is abstract: the model does not compute dates. This covers `plusDays`/`plusWeeks`/`plusMonths`/`plusYears`, `withTimeAtStartOfDay`, `startOfWeek`, `startOfMonth`, `dateTimeOf`, `monthInterval` and `dayInterval`. Only the direction of the steps and of the start of a day or week is used.
- Parsing, ISO formatting, time-zone conversion, `Date`/`Timestamp` conversion and `TimestampZoneText` are not modelled. They are thin wrappers over library code.
- `now`, `tomorrow`, `nextX()`, `lastX()`, `Period.ago/later`, `Duration.fromNow/agoNow` and `thisSecond/Minute/Hour` read the system clock, so they are not modelled.
- The one-line `plus`/`minus`/`times`/`div` operator forwarders are not modelled. The exceptions are `unaryMinus` (`Negated`), which `abs` uses, and `Long.times` on a `DurationBuilder` or a `Period` (`LongTimesBuilder`, `LongTimesPeriod`).
- The `Int` constructors `Int.millis()` … `Int.years()` and `Int.times` are not modelled separately. They are the `Long` ones without the narrowing.
- `rangeTo` and joda's refusal of an interval whose end precedes its start are not modelled. The enumerations accept any pair. On a reversed one, `Step`, `Seconds`, `Minutes` and `Hours` yield nothing. `Days`, `Weeks` and `Months` start from the normalised seed instead, and yield the run from that seed whenever it is `<= end`.
- Laziness and single-pass iteration of Kotlin `Sequence` are not modelled: enumerations are finite lists.
- The chunking implementation file is not part of this model. Two things are chosen to match the tests:
  - Its enumeration starts at the interval start. The tests only use unit-aligned starts, so they do not show whether the implementation would normalise an unaligned start.
  - The five-unit interval is built as five single unit steps. The tests build its end as `start + 5.yearPeriod()`, `5.monthPeriod()` and `5.weekPeriod()` for year, month and week. For day, hour, minute, second and milli they use `start + 5.days()`, `5.hours()`, `5.minutes()`, `5.seconds()` and `5.millis()`. Five unit steps agree with these when no zone transition falls inside the interval. The definitions of those `5.x()` helpers are not part of this model.
- `DateRange`/`InstantRange` are not modelled. Their tests only check constructor accessors and that a reversed range is empty.
- Test logging is not modelled.
- KodaIntervals.Step: requires adding the period to move every instant forward. A period that does not, whether zero, negative or mixed-sign (`1.months() - 30.days()` moves back from January 31), is not covered. There the library's sequence may never end, or may not be increasing.
- KodaValues.Abs: failing on `Long.MIN_VALUE` is joda's `Duration.negated()` behaviour, not something this file decides.
- Periods are joda's standard period type only; periods of other `PeriodType`s are not modelled.
- Instants are unbounded integers. The exceptions at the ends of the instant range are not modelled: joda's `plusSeconds`/`plusMinutes`/`plusHours` overflowing a `Long`, calendar steps past the supported year range, and java.time's `plusX` raising `DateTimeException`. There the model yields a list where the library throws.
