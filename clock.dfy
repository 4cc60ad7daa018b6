/** Instants and durations of Go's `time` package, counted in nanoseconds. */
module Clock {

  /** A `time.Time` as nanoseconds since 1970-01-01T00:00:00Z; the location is not part of it. */
  type Instant = int

  /** A `time.Duration`: a signed 64-bit count of nanoseconds. */
  type Duration = int

  const Nanosecond: int := 1
  const Second: int := 1_000_000_000
  const Minute: int := 60 * Second
  const Hour: int := 60 * Minute

  const MinInt64: int := -0x8000_0000_0000_0000
  const MaxInt64: int := 0x7FFF_FFFF_FFFF_FFFF

  /** The zero `time.Time`, January 1 of year 1, 00:00:00 UTC. */
  const ZeroInstant: Instant := -62135596800 * Second

  predicate IsDuration(d: int) { MinInt64 <= d <= MaxInt64 }

  /** `time.Unix(sec, 0)` */
  function Unix(sec: int): Instant
  {
    sec * Second
  }

  /** `t.Sub(u)`: the elapsed time, saturated to the range of a Duration. */
  function Sub(t: Instant, u: Instant): (d: Duration)
    ensures IsDuration(d)
    ensures IsDuration(t - u) ==> d == t - u
    ensures t - u > MaxInt64 ==> d == MaxInt64
    ensures t - u < MinInt64 ==> d == MinInt64
  {
    if t - u > MaxInt64 then MaxInt64 else if t - u < MinInt64 then MinInt64 else t - u
  }

  /** `d.Seconds()` truncated toward zero, as `int64(d / time.Second)` computes it. */
  function WholeSeconds(d: Duration): (s: int)
    ensures d >= 0 ==> s * Second <= d < (s + 1) * Second
    ensures d <= 0 ==> (s - 1) * Second < d <= s * Second
  {
    if d >= 0 then d / Second else -((-d) / Second)
  }
}
