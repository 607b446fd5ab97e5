/**
 * One protection channel of the relay (src/bom.c): a threshold, a time delay
 * (TMS) in milliseconds, an invalid flag and the start of the current
 * exceedance streak.  In C the streak start is a `struct timespec` whose
 * `tv_sec == 0` means "timer unset"; the model writes that sentinel as
 * `None`.
 */
module Protection {
  import opened Wrappers
  import opened Timing

  /** The fields of `bom_t`. */
  datatype ChannelState = ChannelState(threshold: real, tmsMs: int, invalid: bool, tmsStart: Option<Timespec>)

  /** The state `bom_init` leaves behind. */
  function Fresh(threshold: real, tmsMs: int): ChannelState
  {
    ChannelState(threshold, tmsMs, false, None)
  }

  /** `bom_check`: an invalid channel never exceeds; otherwise exceedance is strict. */
  predicate Exceeds(s: ChannelState, value: real)
  {
    !s.invalid && value > s.threshold
  }

  /** One call of `bom_check_with_tms` at time `now`: the new channel state and the trip output. */
  function Step(s: ChannelState, value: real, now: Timespec): (ChannelState, bool)
  {
    if Exceeds(s, value) then
      var start := if s.tmsStart.None? then now else s.tmsStart.value;
      (s.(tmsStart := Some(start)), DiffMs(now, start) >= s.tmsMs)
    else
      (s.(tmsStart := None), false)
  }

  /** A timed sample handed to the channel: the measured value and the clock reading taken for it. */
  datatype Sample = Sample(value: real, at: Timespec)

  /** The channel state after feeding it `samples` in order. */
  function Run(s: ChannelState, samples: seq<Sample>): ChannelState
    decreases |samples|
  {
    if samples == [] then s
    else
      var last := samples[|samples| - 1];
      Step(Run(s, samples[..|samples| - 1]), last.value, last.at).0
  }

  /** The trip output of the last sample of `samples`. */
  function LastTrip(s: ChannelState, samples: seq<Sample>): bool
    requires samples != []
  {
    var last := samples[|samples| - 1];
    Step(Run(s, samples[..|samples| - 1]), last.value, last.at).1
  }

  /** The index where the trailing run of samples above `threshold` begins
      (`|samples|` when the last sample does not exceed). */
  function StreakStart(samples: seq<Sample>, threshold: real): (k: nat)
    ensures k <= |samples|
    ensures forall i :: k <= i < |samples| ==> samples[i].value > threshold
    ensures k > 0 ==> samples[k - 1].value <= threshold
    decreases |samples|
  {
    if samples == [] then 0
    else if samples[|samples| - 1].value > threshold then StreakStart(samples[..|samples| - 1], threshold)
    else |samples|
  }

  /** Running a valid channel leaves threshold, delay and validity alone and
      keeps exactly the start of the current unbroken exceedance streak. */
  lemma {:induction false} RunTracksStreak(s: ChannelState, samples: seq<Sample>)
    requires !s.invalid && s.tmsStart.None?
    ensures Run(s, samples).threshold == s.threshold && Run(s, samples).tmsMs == s.tmsMs
    ensures !Run(s, samples).invalid
    ensures var k := StreakStart(samples, s.threshold);
            Run(s, samples).tmsStart == if k < |samples| then Some(samples[k].at) else None
    decreases |samples|
  {
    if samples != [] {
      var init := samples[..|samples| - 1];
      RunTracksStreak(s, init);
      assert init[..] == init;
    }
  }

  /** The time-delay property of a channel: fed from a fresh, valid state,
      the channel trips on a sample exactly when that sample exceeds the
      threshold and at least `tmsMs` milliseconds have passed since the first
      sample of the current unbroken streak of exceeding samples.  A single
      sample at or below the threshold restarts the count. */
  lemma TripExactlyAfterDelay(s: ChannelState, samples: seq<Sample>)
    requires !s.invalid && s.tmsStart.None?
    requires samples != []
    ensures var k := StreakStart(samples, s.threshold);
            LastTrip(s, samples) <==>
              k < |samples| && DiffMs(samples[|samples| - 1].at, samples[k].at) >= s.tmsMs
  {
    RunTracksStreak(s, samples[..|samples| - 1]);
  }

  /** Ticks every 100 ms starting at second 100 of the monotonic clock. */
  function Tick100(k: int): Timespec
  {
    Timespec(100 + k / 10, (k % 10) * 100000000)
  }

  lemma Tick100Elapsed(k: nat)
    ensures DiffMs(Tick100(k), Tick100(0)) == 100 * k
  {
    assert (k % 10) * 100000000 / NsPerMs == (k % 10) * 100;
  }

  /** Worked example: threshold 550, delay 2000 ms, a constant 560 every
      100 ms.  The sample taken 2000 ms after the first one (index 20) is the
      first to trip; the one 1900 ms after it (index 19) does not. */
  lemma ConstantOverloadTripsAfterTwentyPeriods(n: nat)
    requires n >= 1
    ensures LastTrip(Fresh(550.0, 2000), seq(n, k => Sample(560.0, Tick100(k)))) <==> n - 1 >= 20
  {
    var samples := seq(n, k => Sample(560.0, Tick100(k)));
    var k := StreakStart(samples, 550.0);
    assert k == 0;
    TripExactlyAfterDelay(Fresh(550.0, 2000), samples);
    Tick100Elapsed(n - 1);
  }

  /** A `bom_t`, updated in place by the operations of src/bom.c. */
  class Channel {
    var threshold: real
    var tmsMs: int
    var invalid: bool
    var tmsStart: Option<Timespec>

    function State(): ChannelState
      reads this
    {
      ChannelState(threshold, tmsMs, invalid, tmsStart)
    }

    /** A channel that has just been through `bom_init`. */
    constructor (threshold: real, tmsMs: int)
      ensures State() == Fresh(threshold, tmsMs)
    {
      this.threshold := threshold;
      this.tmsMs := tmsMs;
      invalid := false;
      tmsStart := None;
    }

    /** `bom_init`: new threshold and delay, valid, timer unset. */
    method Init(threshold: real, tmsMs: int)
      modifies this
      ensures this.threshold == threshold && this.tmsMs == tmsMs
      ensures !invalid && tmsStart == None
    {
      this.threshold := threshold;
      this.tmsMs := tmsMs;
      invalid := false;
      tmsStart := None;
    }

    /** `bom_check`: whether `value` counts as an exceedance. */
    function Check(value: real): (r: bool)
      reads this
      ensures invalid ==> !r
      ensures value <= threshold ==> !r
      ensures !invalid && value > threshold ==> r
    {
      !invalid && value > threshold
    }

    /** `bom_check_with_tms`, with the clock reading passed in as `now`. */
    method CheckWithTms(value: real, now: Timespec) returns (trip: bool)
      modifies this
      ensures (State(), trip) == Step(old(State()), value, now)
      ensures threshold == old(threshold) && tmsMs == old(tmsMs) && invalid == old(invalid)
      ensures !old(Check(value)) ==> tmsStart == None && !trip
      ensures old(Check(value)) ==> tmsStart == Some(if old(tmsStart).None? then now else old(tmsStart).value)
      ensures old(Check(value)) ==> (trip <==> DiffMs(now, tmsStart.value) >= tmsMs)
    {
      if Check(value) {
        if tmsStart.None? {
          tmsStart := Some(now);
        }
        var elapsed := DiffMs(now, tmsStart.value);
        trip := elapsed >= tmsMs;
      } else {
        tmsStart := None;
        trip := false;
      }
    }

    /** `bom_set_invalid`: stores the flag normalised to a boolean; the timer is left running. */
    method SetInvalid(flag: int)
      modifies this`invalid
      ensures invalid == (flag != 0)
    {
      invalid := flag != 0;
    }
  }
}
