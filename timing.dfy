/**
 * Monotonic-clock timestamps and the millisecond difference `ts_diff_ms`
 * (src/scheduler.h; identical private copies live in src/bom.c and
 * src/watchdog.c).  The C code computes in `int64_t`; the model uses
 * unbounded integers, which agree with it for every clock value a real
 * `CLOCK_MONOTONIC` can produce.
 */
module Timing {

  /** A POSIX `struct timespec`: whole seconds and nanoseconds. */
  datatype Timespec = Timespec(sec: int, nsec: int)

  const NsPerMs: int := 1000000
  const MsPerSec: int := 1000

  /** C's signed division `a / b` for a positive divisor: the quotient is
      truncated toward zero, so the remainder takes the sign of `a`. */
  function CDiv(a: int, b: int): (q: int)
    requires b > 0
    ensures 0 <= a ==> 0 <= a - q * b < b
    ensures a < 0 ==> -b < a - q * b <= 0
  {
    if a >= 0 then a / b else -((-a) / b)
  }

  /** Truncation toward zero is symmetric about zero. */
  lemma CDivNeg(a: int, b: int)
    requires b > 0
    ensures CDiv(-a, b) == -CDiv(a, b)
  {
  }

  /** `ts_diff_ms(a, b)`: the time from `b` to `a` in milliseconds, computed
      as whole seconds times 1000 plus the nanosecond difference divided
      (truncating) by 1,000,000.  Whatever the fields, the result is within
      one millisecond of the exact difference. */
  function DiffMs(a: Timespec, b: Timespec): (d: int)
    ensures -NsPerMs < ((a.sec - b.sec) * 1000000000 + (a.nsec - b.nsec)) - d * NsPerMs < NsPerMs
  {
    (a.sec - b.sec) * MsPerSec + CDiv(a.nsec - b.nsec, NsPerMs)
  }

  /** No time passes between a timestamp and itself. */
  lemma DiffMsSelf(a: Timespec)
    ensures DiffMs(a, a) == 0
  {
  }

  /** With equal nanosecond fields the difference is exactly 1000 per second. */
  lemma DiffMsWholeSeconds(a: Timespec, b: Timespec)
    requires a.nsec == b.nsec
    ensures DiffMs(a, b) == 1000 * (a.sec - b.sec)
  {
  }

  /** Swapping the arguments negates the difference. */
  lemma DiffMsAntisymmetric(a: Timespec, b: Timespec)
    ensures DiffMs(a, b) == -DiffMs(b, a)
  {
    CDivNeg(a.nsec - b.nsec, NsPerMs);
    assert b.nsec - a.nsec == -(a.nsec - b.nsec);
  }

  /** The nanosecond part is truncated toward zero, not floored: one
      nanosecond across a second boundary already counts as 1 ms, whereas a
      floored division would give 0. */
  lemma DiffMsTruncatesTowardZero()
    ensures DiffMs(Timespec(1, 0), Timespec(0, 999999999)) == 1
    ensures DiffMs(Timespec(0, 999999999), Timespec(1, 0)) == -1
  {
  }
}
