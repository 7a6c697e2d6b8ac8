/**
 * Go's fixed-width integers and time.Duration, written out so that
 * wrap-around is explicit. A Duration counts nanoseconds in an int64.
 */
module GoTime {

  const MinInt64: int := -0x8000_0000_0000_0000
  const MaxInt64: int := 0x7FFF_FFFF_FFFF_FFFF

  predicate InInt64(x: int) {
    MinInt64 <= x <= MaxInt64
  }

  /** Two's-complement wrap-around of an int64 result (Go's `*` on int64). */
  function Wrap64(x: int): (r: int)
    ensures InInt64(r)
    ensures (r - x) % 0x1_0000_0000_0000_0000 == 0
    ensures InInt64(x) ==> r == x
  {
    (x - MinInt64) % 0x1_0000_0000_0000_0000 + MinInt64
  }

  /** A time.Duration: nanoseconds in an int64. */
  type Duration = d: int | InInt64(d)

  const Second: Duration := 1_000_000_000

  /** `time.Duration(n) * time.Second`, wrapping as Go does. */
  function Seconds(n: int): (d: Duration)
    ensures (d - n * Second) % 0x1_0000_0000_0000_0000 == 0
    ensures InInt64(n * Second) ==> d == n * Second
  {
    Wrap64(n * Second)
  }

  /**
   * `now.Add(d).Unix()` for a whole-second instant `now`: the seconds of
   * the sum, rounded down (Dafny's `/` by a positive divisor is floor).
   */
  function AddUnix(now: int, d: Duration): (t: int)
    ensures d % Second == 0 ==> t == now + d / Second
    ensures d >= 0 ==> now <= t
  {
    now + d / Second
  }
}
