/**
 * Shared vocabulary of the pet-care scheduler model: Java's `null` as an
 * Option, the 32-bit `int` range, and the clock types that stand for
 * `java.time.LocalDateTime` and `java.time.LocalDate`.
 */
module Common {

  /** A value that may be Java's `null`. */
  datatype Option<+T> = None | Some(value: T)

  /** The range of a Java `int`. */
  const MinInt32: int := -0x8000_0000
  const MaxInt32: int := 0x7FFF_FFFF
  type Int32 = x: int | MinInt32 <= x <= MaxInt32

  /**
   * A `LocalDateTime`, as the number of nanoseconds since 1970-01-01T00:00 on
   * the same (time-zone-free) local clock. Nanoseconds rather than minutes,
   * because `LocalDateTime.now()` carries seconds and fractions of a second.
   */
  type DateTime = int

  /** A `LocalDate`, as the number of days since 1970-01-01. */
  type Date = int

  const NanosPerMinute: int := 60 * 1_000_000_000
  const NanosPerDay: int := 24 * 60 * NanosPerMinute
  const NanosPerWeek: int := 7 * NanosPerDay

  predicate StartsWith(s: string, prefix: string) {
    |prefix| <= |s| && s[..|prefix|] == prefix
  }

  predicate EndsWith(s: string, suffix: string) {
    |suffix| <= |s| && s[|s| - |suffix|..] == suffix
  }

  /** Where the three parts of `a + b + c` stand in it. */
  lemma PartsOfConcat(a: string, b: string, c: string)
    ensures StartsWith(a + b + c, a)
    ensures (a + b + c)[|a|..|a| + |b|] == b
    ensures EndsWith(a + b + c, c)
  {
    var s := a + b + c;
    assert s[..|a|] == a;
    assert s[|a|..|a| + |b|] == b;
    assert s[|s| - |c|..] == c;
  }
}
