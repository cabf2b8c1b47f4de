/** What several parts of the model share. Instants and durations are integers in nanoseconds. */
module Common {

  datatype Option<+T> = None | Some(value: T)

  const U32_MAX: nat := 0xFFFF_FFFF
  const U64_MAX: nat := 0xFFFF_FFFF_FFFF_FFFF
  type U32 = n: int | 0 <= n <= U32_MAX

  const SECOND: int := 1_000_000_000
  const MILLI: int := 1_000_000

  function Min(a: int, b: int): int { if a <= b then a else b }

  function Pow2(n: nat): nat { if n == 0 then 1 else 2 * Pow2(n - 1) }

  /** A verification window: whole microseconds at both ends, whole seconds apart, from a minute to
      a week long. */
  predicate WindowOk(acceptedAt: int, deadlineAt: int) {
    && acceptedAt % 1000 == 0 && deadlineAt % 1000 == 0
    && (deadlineAt - acceptedAt) % SECOND == 0
    && 60 * SECOND <= deadlineAt - acceptedAt <= 604_800 * SECOND
  }

  /** The seconds both task workers wait after their n-th failure in a row; the last entry repeats. */
  const BACKOFF: seq<nat> := [1, 2, 4, 8, 16, 30]

  function BackoffSeconds(failures: U32): nat {
    BACKOFF[Min(if failures == 0 then 0 else failures - 1, |BACKOFF| - 1)]
  }

  /** An acceptable retry instant: in the future, not past the deadline, and a millisecond away at
      least unless the deadline is nearer. */
  predicate GoodRetry(now: int, due: int, deadline: int) {
    now < due <= deadline && (due >= now + MILLI || due == deadline)
  }
}
