/**
 * The liveness watchdog of the control loop (src/watchdog.c).  The module
 * statics `g_timeout_ms`, `g_last_kick` and `g_fault` become the fields of a
 * `Watchdog` object; each clock reading is passed in as `now`.
 */
module Supervision {
  import opened Timing

  /** `WATCHDOG_TIMEOUT_MS_DEFAULT`. */
  const DefaultTimeoutMs: int := 1500

  /** The timeout `watchdog_init` keeps for a requested `timeoutMs`. */
  function EffectiveTimeout(timeoutMs: int): (t: int)
    ensures t > 0
    ensures timeoutMs > 0 ==> t == timeoutMs
    ensures timeoutMs <= 0 ==> t == DefaultTimeoutMs
  {
    if timeoutMs <= 0 then DefaultTimeoutMs else timeoutMs
  }

  /** The fault condition of `watchdog_check`: strictly more than the timeout since the last kick. */
  predicate Overdue(lastKick: Timespec, now: Timespec, timeoutMs: int)
  {
    DiffMs(now, lastKick) > timeoutMs
  }

  class Watchdog {
    var timeoutMs: int
    var lastKick: Timespec
    var fault: bool

    ghost predicate Valid()
      reads this
    {
      timeoutMs > 0
    }

    /** The static initial values: the default timeout, a zero timestamp, no fault. */
    constructor ()
      ensures Valid()
      ensures timeoutMs == DefaultTimeoutMs && lastKick == Timespec(0, 0) && !fault
    {
      timeoutMs := DefaultTimeoutMs;
      lastKick := Timespec(0, 0);
      fault := false;
    }

    /** `watchdog_init`: a non-positive timeout falls back to the default;
        the last kick is now and the fault is cleared.  Always returns 0. */
    method Init(timeoutMs: int, now: Timespec) returns (rc: int)
      modifies this
      ensures Valid()
      ensures this.timeoutMs == EffectiveTimeout(timeoutMs)
      ensures lastKick == now && !fault && rc == 0
    {
      if timeoutMs <= 0 {
        this.timeoutMs := DefaultTimeoutMs;
      } else {
        this.timeoutMs := timeoutMs;
      }
      lastKick := now;
      fault := false;
      rc := 0;
    }

    /** `watchdog_kick`: only the last-kick timestamp changes. */
    method Kick(now: Timespec)
      modifies this`lastKick
      ensures lastKick == now
    {
      lastKick := now;
    }

    /** `watchdog_check`: reports a fault iff more than the timeout has passed
        since the last kick.  The fault is not latched: a healthy check clears it. */
    method Check(now: Timespec) returns (faulty: bool)
      modifies this`fault
      ensures faulty <==> Overdue(lastKick, now, timeoutMs)
      ensures fault == faulty
    {
      var elapsed := DiffMs(now, lastKick);
      if elapsed > timeoutMs {
        if !fault {
          fault := true;
        }
        return true;
      }
      fault := false;
      return false;
    }

    /** `watchdog_is_fault`: the result of the most recent check. */
    function IsFault(): (f: bool)
      reads this
      ensures f == fault
    {
      fault
    }

    /** `watchdog_get_timeout_ms`: the stored timeout, which is always positive. */
    function GetTimeoutMs(): (t: int)
      reads this
      requires Valid()
      ensures t > 0
    {
      timeoutMs
    }
  }

  /** A kick keeps the watchdog healthy for the whole timeout after it: a
      check at any reading from the kick up to and including exactly the
      timeout later reports no fault and leaves the fault flag clear,
      whatever the flag held before. */
  method FreshKickStaysHealthy(w: Watchdog, kick: Timespec, now: Timespec) returns (faulty: bool)
    requires w.Valid()
    requires 0 <= DiffMs(now, kick) <= w.timeoutMs
    modifies w
    ensures !faulty && !w.IsFault()
    ensures w.lastKick == kick && w.timeoutMs == old(w.timeoutMs)
  {
    w.Kick(kick);
    faulty := w.Check(now);
  }

  /** The auto-clearing scenario: with a 1500 ms timeout, a check 1600 ms
      after the last kick reports a fault; a kick followed at once by a check
      reports none, and `IsFault` follows each check. */
  method KickClearsFault(w: Watchdog, start: Timespec) returns (first: bool, second: bool)
    modifies w
    ensures first && !second && !w.IsFault()
  {
    var _ := w.Init(1500, start);
    var late := Timespec(start.sec + 1, start.nsec + 600000000);
    first := w.Check(late);
    assert w.IsFault();
    w.Kick(late);
    second := w.Check(late);
  }
}
