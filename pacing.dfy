/** The elapsed-time test of the main loop against the millisecond counter.
    The reference `clock_clock` moves on by one `clock_timer` on every pass
    whose message pump succeeded, after the test and whether or not it
    passed, so the test compares the counter with a reference that runs at
    one second per pass. */
module Pacing {
  import opened TimeConvert
  import opened SoftClock

  /** `ticks_diff(now, reference) >= clock_timer`, with the counter taken as
      an unbounded integer. */
  predicate ElapsedReached(now: int, reference: int): (b: bool)
    ensures b ==> now > reference
    ensures !b ==> now - reference < ClockTimer
  {
    now - reference >= ClockTimer
  }

  /** The outcomes of the test on consecutive pumped passes that read the
      counter values `nows`, the first of them against `reference`: pass `k`
      is tested against the reference advanced `k` times. */
  function ElapsedTests(nows: seq<int>, reference: int): (tests: seq<bool>)
    ensures |tests| == |nows|
    ensures forall k :: 0 <= k < |nows| ==>
      tests[k] == ElapsedReached(nows[k], reference + k * ClockTimer)
    decreases |nows|
  {
    if nows == [] then []
    else
      var rest := ElapsedTests(nows[1..], reference + ClockTimer);
      var tests := [ElapsedReached(nows[0], reference)] + rest;
      assert forall k :: 1 <= k < |nows| ==> tests[k] == rest[k - 1];
      tests
  }

  /** The pumped passes that see the given test outcomes. */
  function Passes(tests: seq<bool>, f: TimeTuple): (its: seq<Iteration>)
    ensures |its| == |tests|
    ensures forall k :: 0 <= k < |its| ==>
      !its[k].pumpFailed && its[k].elapsedReached == tests[k] && its[k].fetched == f
  {
    seq(|tests|, k requires 0 <= k < |tests| => Iteration(false, tests[k], f))
  }

  /** The reference each test of `ElapsedTests` uses is the clock's own
      reference before that pass: after `k` pumped passes it has moved on
      by `k` ticks. */
  lemma ElapsedTestsMatchClock(s: ClockState, nows: seq<int>, f: TimeTuple)
    ensures var tests := ElapsedTests(nows, s.reference); var its := Passes(tests, f);
      forall k :: 0 <= k < |nows| ==>
        tests[k] == ElapsedReached(nows[k], After(s, its[..k]).reference)
  {
    var tests := ElapsedTests(nows, s.reference);
    var its := Passes(tests, f);
    forall k | 0 <= k < |nows|
      ensures tests[k] == ElapsedReached(nows[k], After(s, its[..k]).reference)
    {
      AllPumped(its[..k]);
      AfterReference(s, its[..k]);
    }
  }

  /** When the first test fails and the passes read the counter at most one
      `clock_timer` apart, no later test passes either: the counter gains at
      most as much per pass as the reference does. */
  lemma {:induction false} NeverElapsedWhenPassesAreQuick(nows: seq<int>, reference: int)
    requires |nows| > 0 ==> !ElapsedReached(nows[0], reference)
    requires forall k :: 0 < k < |nows| ==> nows[k] - nows[k - 1] <= ClockTimer
    ensures forall k :: 0 <= k < |nows| ==> !ElapsedTests(nows, reference)[k]
    decreases |nows|
  {
    if nows != [] {
      var rest := nows[1..];
      assert forall k :: 0 < k < |rest| ==> rest[k] - rest[k - 1] == nows[k + 1] - nows[k];
      NeverElapsedWhenPassesAreQuick(rest, reference + ClockTimer);
      var tests := ElapsedTests(nows, reference);
      assert tests == [ElapsedReached(nows[0], reference)] + ElapsedTests(rest, reference + ClockTimer);
    }
  }

  /** Hence, with passes at most a second apart after a first pass within a
      second of the reference, the clock's tick, minute, hour and label
      stand still while the reference advances one second per pass. This
      holds for the unbounded counter of `ElapsedReached`; on the board it
      holds only while the reference runs less than 2^28 ms (about 74 hours)
      ahead of the counter, since past that `ticks_diff` wraps and the test
      passes again. */
  lemma ClockStandsStill(s: ClockState, nows: seq<int>, f: TimeTuple)
    requires |nows| > 0 ==> !ElapsedReached(nows[0], s.reference)
    requires forall k :: 0 < k < |nows| ==> nows[k] - nows[k - 1] <= ClockTimer
    ensures var e := After(s, Passes(ElapsedTests(nows, s.reference), f));
      e.tick == s.tick && e.minute == s.minute && e.hour == s.hour && e.amPm == s.amPm &&
      e.reference == s.reference + |nows| * ClockTimer
  {
    var tests := ElapsedTests(nows, s.reference);
    var its := Passes(tests, f);
    NeverElapsedWhenPassesAreQuick(nows, s.reference);
    AfterWithoutTicks(s, its);
    AfterReference(s, its);
    AllPumped(its);
  }

  lemma {:induction false} AllPumped(its: seq<Iteration>)
    requires forall k :: 0 <= k < |its| ==> !its[k].pumpFailed
    ensures Pumped(its) == |its|
    decreases |its|
  {
    if its != [] {
      AllPumped(its[1..]);
    }
  }
}
