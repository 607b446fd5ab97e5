/**
 * The logic input of src/bel.c: a GPIO line read with a polarity, and a
 * debounced read taking the majority of several samples.  The raw values
 * the GPIO driver returns are inputs: one per read, in order.
 */
module DigitalInput {

  /** What `bel_t` holds: whether a line was obtained, and the polarity. */
  datatype BelState = BelState(hasLine: bool, activeHigh: int)

  /** `bel_read` on a read that returned `raw`: -1 without a line or on a
      failed (negative) read, otherwise the value itself for an active-high
      input and its C negation for an active-low one. */
  function Level(s: BelState, raw: int): (r: int)
    ensures r < 0 <==> !s.hasLine || raw < 0
    ensures r < 0 ==> r == -1
    ensures s.hasLine && raw >= 0 && s.activeHigh != 0 ==> r == raw
    ensures s.hasLine && raw >= 0 && s.activeHigh == 0 ==> (r == 1 <==> raw == 0) && (r == 0 <==> raw != 0)
  {
    if !s.hasLine || raw < 0 then -1
    else if s.activeHigh != 0 then raw
    else if raw == 0 then 1 else 0
  }

  /** For a binary line, the two polarities read complementary levels. */
  lemma PolaritiesComplement(raw: int)
    requires raw == 0 || raw == 1
    ensures Level(BelState(true, 1), raw) + Level(BelState(true, 0), raw) == 1
  {
  }

  /** Every read of `raws` succeeds. */
  predicate AllRead(s: BelState, raws: seq<int>)
  {
    forall i :: 0 <= i < |raws| ==> Level(s, raws[i]) >= 0
  }

  /** The counters `count1` and `count0` after the reads `raws`: how many
      read a true (non-zero) level and how many a zero one. */
  function Tally(s: BelState, raws: seq<int>): (r: (nat, nat))
    ensures r.0 + r.1 == |raws|
  {
    if raws == [] then (0, 0)
    else
      var prev := Tally(s, raws[..|raws| - 1]);
      if Level(s, raws[|raws| - 1]) != 0 then (prev.0 + 1, prev.1) else (prev.0, prev.1 + 1)
  }

  /** `bel_read_debounced` on the reads `raws`: -1 for a non-positive sample
      count or when any of the first `samples` reads fails, otherwise 1
      when at least as many samples read true as read zero, else 0. */
  function Debounced(s: BelState, samples: int, raws: seq<int>): int
    requires samples <= |raws|
  {
    if samples <= 0 || !AllRead(s, raws[..samples]) then -1
    else
      var (ones, zeros) := Tally(s, raws[..samples]);
      if ones >= zeros then 1 else 0
  }

  /** The outcome is -1 exactly when the count or a read is bad, and
      otherwise 1 precisely when the true samples are at least half. */
  lemma DebouncedMeaning(s: BelState, samples: int, raws: seq<int>)
    requires samples <= |raws|
    ensures Debounced(s, samples, raws) == -1 <==>
              samples <= 0 || !s.hasLine || exists i :: 0 <= i < samples && raws[i] < 0
    ensures Debounced(s, samples, raws) == 1 <==>
              samples > 0 && AllRead(s, raws[..samples]) && 2 * Tally(s, raws[..samples]).0 >= samples
  {
    if samples > 0 && s.hasLine && !AllRead(s, raws[..samples]) {
      var i :| 0 <= i < samples && Level(s, raws[..samples][i]) < 0;
      assert raws[i] < 0;
    }
    if samples > 0 && (!s.hasLine || exists i :: 0 <= i < samples && raws[i] < 0) {
      if s.hasLine {
        var i :| 0 <= i < samples && raws[i] < 0;
        assert Level(s, raws[..samples][i]) < 0;
      } else {
        assert Level(s, raws[..samples][0]) < 0;
      }
    }
  }

  /** A tie between true and zero samples resolves to 1. */
  lemma TieReadsTrue(s: BelState, samples: int, raws: seq<int>)
    requires 0 < samples <= |raws| && AllRead(s, raws[..samples])
    requires Tally(s, raws[..samples]).0 == Tally(s, raws[..samples]).1
    ensures Debounced(s, samples, raws) == 1
  {
  }

  /** On a binary line, swapping the polarity swaps the two counters. */
  lemma {:induction false} TallySwapsWithPolarity(raws: seq<int>)
    requires forall i :: 0 <= i < |raws| ==> raws[i] == 0 || raws[i] == 1
    ensures Tally(BelState(true, 1), raws).0 == Tally(BelState(true, 0), raws).1
  {
    if raws != [] {
      TallySwapsWithPolarity(raws[..|raws| - 1]);
    }
  }

  /** On a binary line with no tie, the two polarities vote opposite ways. */
  lemma PolarityFlipsVote(samples: int, raws: seq<int>)
    requires 0 < samples <= |raws|
    requires forall i :: 0 <= i < |raws| ==> raws[i] == 0 || raws[i] == 1
    requires 2 * Tally(BelState(true, 1), raws[..samples]).0 != samples
    ensures Debounced(BelState(true, 1), samples, raws) == 1 - Debounced(BelState(true, 0), samples, raws)
  {
    TallySwapsWithPolarity(raws[..samples]);
  }

  /** `bel_t`: the line handle (present or not) and the polarity. */
  class Bel {
    var hasLine: bool
    var activeHigh: int

    function State(): BelState
      reads this
    {
      BelState(hasLine, activeHigh)
    }

    /** A `bel_t` with no line yet. */
    constructor ()
      ensures !hasLine && activeHigh == 0
    {
      hasLine, activeHigh := false, 0;
    }

    /** `bel_init`: `chipPresent` says whether a chip was given, `lineFound`
        whether the driver returned a line and `requestOk` whether the
        input request succeeded.  On success the polarity is normalised to
        0 or 1. */
    method Init(chipPresent: bool, lineFound: bool, requestOk: bool, activeHigh: int) returns (rc: int)
      modifies this
      ensures rc == 0 || rc == -1
      ensures rc == 0 <==> chipPresent && lineFound && requestOk
      ensures hasLine == (if chipPresent then lineFound else old(hasLine))
      ensures rc == 0 ==> this.activeHigh == (if activeHigh != 0 then 1 else 0)
      ensures rc != 0 ==> this.activeHigh == old(this.activeHigh)
    {
      if !chipPresent {
        return -1;
      }
      hasLine := lineFound;
      if !lineFound {
        return -1;
      }
      if !requestOk {
        return -1;
      }
      this.activeHigh := if activeHigh != 0 then 1 else 0;
      rc := 0;
    }

    /** `bel_read_debounced`: up to `samples` reads whose raw values are
        `raws`, stopping at the first failure.  The pause between samples
        is not modelled. */
    method ReadDebounced(samples: int, usBetweenSamples: int, raws: seq<int>) returns (r: int)
      requires samples <= |raws|
      ensures r == Debounced(State(), samples, raws)
    {
      if samples <= 0 {
        return -1;
      }
      var count1, count0 := 0, 0;
      var i := 0;
      while i < samples
        invariant 0 <= i <= samples
        invariant AllRead(State(), raws[..i])
        invariant (count1, count0) == Tally(State(), raws[..i])
      {
        var v := Level(State(), raws[i]);
        if v < 0 {
          assert Level(State(), raws[..samples][i]) < 0;
          return -1;
        }
        if v != 0 {
          count1 := count1 + 1;
        } else {
          count0 := count0 + 1;
        }
        assert raws[..i + 1][..i] == raws[..i];
        i := i + 1;
      }
      assert raws[..i] == raws[..samples];
      r := if count1 >= count0 then 1 else 0;
    }
  }
}
