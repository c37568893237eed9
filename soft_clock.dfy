/** The software wall clock kept by the main loop: a tick (second) counter,
    a minute counter, a 12-hour hour with its meridiem label, and the
    millisecond reference it measures elapsed time against. It is set from
    the time service at start-up and again whenever the minute counter
    rolls past 59. */
module SoftClock {
  import opened TimeConvert

  /** `clock_timer`: one tick is 1000 milliseconds. */
  const ClockTimer: int := 1 * 1000

  /** The values of `tick`, `minute`, `hour`, `am_pm` and `clock_clock`. */
  datatype ClockState = ClockState(tick: int, minute: int, hour: int, amPm: string, reference: int)

  /** What one pass of the `while True` loop brings to the clock: whether
      pumping the message loop raised (the pass then ends at `continue`),
      whether `ticks_diff(ticks_ms(), clock_clock) >= clock_timer` held,
      and the time `update_time()` would return if it were called. */
  datatype Iteration = Iteration(pumpFailed: bool, elapsedReached: bool, fetched: TimeTuple)

  predicate CountersInRange(s: ClockState)
  {
    0 <= s.tick <= 59 && 0 <= s.minute <= 59
  }

  predicate HourInRange(s: ClockState)
  {
    1 <= s.hour <= 12 && IsMeridiem(s.amPm)
  }

  predicate FetchCountersInRange(f: TimeTuple)
  {
    0 <= f.minute <= 59 && 0 <= f.second <= 59
  }

  predicate FetchHourInRange(f: TimeTuple)
  {
    0 <= f.hour < 24
  }

  /** The clock taken from a fetched time: hour and label from
      `convert_time`, tick from field `[5]`, minute from field `[4]`. */
  function Synced(fetched: TimeTuple, reference: int): (s: ClockState)
    ensures s.reference == reference
    ensures s.hour % 12 == fetched.hour % 12 && (s.amPm == PM <==> fetched.hour >= 12)
    ensures FetchCountersInRange(fetched) ==> CountersInRange(s)
    ensures FetchHourInRange(fetched) ==> HourInRange(s)
  {
    var (h, a) := ConvertTime(fetched);
    ClockState(fetched.second, fetched.minute, h, a, reference)
  }

  /** The clock after the rollover block and the reference update of one
      pass whose message pump succeeded. */
  function Next(s: ClockState, elapsedReached: bool, fetched: TimeTuple): (r: ClockState)
    ensures r.reference == s.reference + ClockTimer
    ensures !elapsedReached ==> r.(reference := s.reference) == s
    ensures r.hour != s.hour || r.amPm != s.amPm ==> elapsedReached && s.tick >= 59 && s.minute >= 59
    ensures CountersInRange(s) && FetchCountersInRange(fetched) ==> CountersInRange(r)
    ensures HourInRange(s) && FetchHourInRange(fetched) ==> HourInRange(r)
  {
    var counted :=
      if !elapsedReached then s
      else if s.tick + 1 <= 59 then s.(tick := s.tick + 1)
      else if s.minute + 1 <= 59 then s.(tick := 0, minute := s.minute + 1)
      else Synced(fetched, s.reference);
    counted.(reference := s.reference + ClockTimer)
  }

  /** One pass of the main loop: a failed pump leaves the clock alone. */
  function Iterate(s: ClockState, it: Iteration): (r: ClockState)
    ensures it.pumpFailed ==> r == s
    ensures r.reference == s.reference + (if it.pumpFailed then 0 else ClockTimer)
    ensures CountersInRange(s) && FetchCountersInRange(it.fetched) ==> CountersInRange(r)
    ensures HourInRange(s) && FetchHourInRange(it.fetched) ==> HourInRange(r)
  {
    if it.pumpFailed then s else Next(s, it.elapsedReached, it.fetched)
  }

  /** The clock after a run of passes. */
  function After(s: ClockState, its: seq<Iteration>): (r: ClockState)
    ensures s.reference <= r.reference <= s.reference + ClockTimer * |its|
    decreases |its|
  {
    if its == [] then s else After(Iterate(s, its[0]), its[1..])
  }

  /** The number of passes whose pump succeeded. */
  function Pumped(its: seq<Iteration>): nat
    decreases |its|
  {
    if its == [] then 0 else (if its[0].pumpFailed then 0 else 1) + Pumped(its[1..])
  }

  /** `n` passes in a row that each see a second elapse. */
  function Seconds(n: nat, f: TimeTuple): seq<Iteration>
  {
    seq(n, _ => Iteration(false, true, f))
  }

  // ----- one pass -----

  /** When the elapsed-time test fails the counters, hour and label stay;
      the reference still moves on by one `clock_timer`. */
  lemma NextNotElapsed(s: ClockState, f: TimeTuple)
    ensures Next(s, false, f) == s.(reference := s.reference + ClockTimer)
  {
  }

  /** A tick below 59 counts up; minute, hour and label stay. */
  lemma NextTick(s: ClockState, f: TimeTuple)
    requires s.tick < 59
    ensures Next(s, true, f) == s.(tick := s.tick + 1, reference := s.reference + ClockTimer)
  {
  }

  /** Tick 59 wraps to 0 and the minute counts up; hour and label stay. */
  lemma NextMinute(s: ClockState, f: TimeTuple)
    requires s.tick >= 59 && s.minute < 59
    ensures Next(s, true, f) == s.(tick := 0, minute := s.minute + 1, reference := s.reference + ClockTimer)
  {
  }

  /** Minute 59 rolling over resyncs everything from the fetched time. */
  lemma NextResync(s: ClockState, f: TimeTuple)
    requires s.tick >= 59 && s.minute >= 59
    ensures var n := Next(s, true, f);
      n.tick == f.second && n.minute == f.minute &&
      (n.hour, n.amPm) == ConvertTime(f) && n.reference == s.reference + ClockTimer
  {
  }

  /** The resync derives nothing from the old hour and label. */
  lemma ResyncIgnoresOldHour(s: ClockState, f: TimeTuple, h: int, a: string)
    requires s.tick >= 59 && s.minute >= 59
    ensures Next(s, true, f) == Next(s.(hour := h, amPm := a), true, f)
  {
  }

  lemma NextKeepsCounters(s: ClockState, e: bool, f: TimeTuple)
    requires CountersInRange(s) && FetchCountersInRange(f)
    ensures CountersInRange(Next(s, e, f))
  {
  }

  lemma NextKeepsHour(s: ClockState, e: bool, f: TimeTuple)
    requires HourInRange(s) && FetchHourInRange(f)
    ensures HourInRange(Next(s, e, f))
  {
  }

  // ----- runs of passes -----

  /** Tick and minute stay in 0..59 for any number of passes, as long as
      every time that could be fetched has minute and second in 0..59. */
  lemma {:induction false} AfterKeepsCounters(s: ClockState, its: seq<Iteration>)
    requires CountersInRange(s)
    requires forall i :: 0 <= i < |its| ==> FetchCountersInRange(its[i].fetched)
    ensures CountersInRange(After(s, its))
    decreases |its|
  {
    if its != [] {
      var s' := Iterate(s, its[0]);
      if !its[0].pumpFailed {
        NextKeepsCounters(s, its[0].elapsedReached, its[0].fetched);
      }
      AfterKeepsCounters(s', its[1..]);
    }
  }

  /** The hour stays in 1..12 with an AM/PM label for any number of passes,
      as long as every time that could be fetched has an hour in 0..23. */
  lemma {:induction false} AfterKeepsHour(s: ClockState, its: seq<Iteration>)
    requires HourInRange(s)
    requires forall i :: 0 <= i < |its| ==> FetchHourInRange(its[i].fetched)
    ensures HourInRange(After(s, its))
    decreases |its|
  {
    if its != [] {
      var s' := Iterate(s, its[0]);
      if !its[0].pumpFailed {
        NextKeepsHour(s, its[0].elapsedReached, its[0].fetched);
      }
      AfterKeepsHour(s', its[1..]);
    }
  }

  /** The reference moves on by one `clock_timer` for every pass whose pump
      succeeded, whether or not a tick was counted. */
  lemma {:induction false} AfterReference(s: ClockState, its: seq<Iteration>)
    ensures After(s, its).reference == s.reference + ClockTimer * Pumped(its)
    decreases |its|
  {
    if its != [] {
      AfterReference(Iterate(s, its[0]), its[1..]);
    }
  }

  /** A run in which no elapsed-time test passes changes only the reference. */
  lemma {:induction false} AfterWithoutTicks(s: ClockState, its: seq<Iteration>)
    requires forall i :: 0 <= i < |its| ==> !its[i].elapsedReached
    ensures var e := After(s, its);
      e.tick == s.tick && e.minute == s.minute && e.hour == s.hour && e.amPm == s.amPm
    decreases |its|
  {
    if its != [] {
      AfterWithoutTicks(Iterate(s, its[0]), its[1..]);
    }
  }

  lemma {:induction false} AfterAppend(s: ClockState, a: seq<Iteration>, b: seq<Iteration>)
    ensures After(s, a + b) == After(After(s, a), b)
    decreases |a|
  {
    if a == [] {
      assert a + b == b;
    } else {
      assert (a + b)[0] == a[0] && (a + b)[1..] == a[1..] + b;
      AfterAppend(Iterate(s, a[0]), a[1..], b);
    }
  }

  lemma SecondsSplit(m: nat, n: nat, f: TimeTuple)
    ensures Seconds(m + n, f) == Seconds(m, f) + Seconds(n, f)
  {
  }

  /** Within a minute, `k` elapsed seconds add `k` to the tick. */
  lemma {:induction false} TicksWithinMinute(s: ClockState, k: nat, f: TimeTuple)
    requires 0 <= s.tick && s.tick + k <= 59
    ensures After(s, Seconds(k, f)) == s.(tick := s.tick + k, reference := s.reference + k * ClockTimer)
    decreases k
  {
    if k > 0 {
      assert Seconds(k, f)[1..] == Seconds(k - 1, f);
      var s' := Next(s, true, f);
      assert s' == s.(tick := s.tick + 1, reference := s.reference + ClockTimer);
      TicksWithinMinute(s', k - 1, f);
    }
  }

  /** From any tick below 60, the tick reaches 0 and the minute counts up
      once `60 - tick` seconds have elapsed. */
  lemma MinuteRollsOver(s: ClockState, f: TimeTuple)
    requires CountersInRange(s) && s.minute < 59
    ensures After(s, Seconds(60 - s.tick, f))
      == s.(tick := 0, minute := s.minute + 1, reference := s.reference + (60 - s.tick) * ClockTimer)
  {
    var k := 59 - s.tick;
    var last := Seconds(1, f);
    SecondsSplit(k, 1, f);
    AfterAppend(s, Seconds(k, f), last);
    TicksWithinMinute(s, k, f);
    var s59 := s.(tick := 59, reference := s.reference + k * ClockTimer);
    assert last == [Iteration(false, true, f)];
    assert After(s59, last) == After(Next(s59, true, f), []);
  }

  /** Sixty elapsed seconds add one minute and leave tick, hour and label
      where they were, when no resync falls inside them. */
  lemma FullMinute(s: ClockState, f: TimeTuple)
    requires CountersInRange(s) && s.minute < 59
    ensures After(s, Seconds(60, f))
      == s.(minute := s.minute + 1, reference := s.reference + 60 * ClockTimer)
  {
    var k := 60 - s.tick;
    var first, rest := Seconds(k, f), Seconds(s.tick, f);
    SecondsSplit(k, s.tick, f);
    assert Seconds(60, f) == first + rest;
    AfterAppend(s, first, rest);
    MinuteRollsOver(s, f);
    var s0 := s.(tick := 0, minute := s.minute + 1, reference := s.reference + k * ClockTimer);
    assert After(s, first) == s0;
    TicksWithinMinute(s0, s.tick, f);
    assert After(s0, rest) == s0.(tick := s.tick, reference := s0.reference + s.tick * ClockTimer);
  }

  /** The module-level clock variables of the main loop. */
  class Clock {
    var tick: int
    var minute: int
    var hour: int
    var amPm: string
    var clockClock: int

    function State(): ClockState
      reads this
    {
      ClockState(tick, minute, hour, amPm, clockClock)
    }

    /** The initial reference time: `clock_clock` from `ticks_ms()` (here
        `now`), then hour, label, tick and minute from the first fetch. */
    constructor (now: int, fetched: TimeTuple)
      ensures State() == Synced(fetched, now)
      ensures tick == fetched.second && minute == fetched.minute
      ensures (hour, amPm) == ConvertTime(fetched) && clockClock == now
      ensures FetchCountersInRange(fetched) ==> CountersInRange(State())
      ensures FetchHourInRange(fetched) ==> HourInRange(State())
    {
      clockClock := now;
      var clock := fetched;
      var (h, a) := ConvertTime(clock);
      hour, amPm := h, a;
      tick := clock.second;
      minute := clock.minute;
    }

    /** The clock update at the end of a pass: count a tick when a second
        has elapsed, roll tick into minute and minute into a resync from
        `resync`, then move the reference on by `clock_timer`. */
    method Step(elapsedReached: bool, resync: TimeTuple)
      modifies this
      ensures State() == Next(old(State()), elapsedReached, resync)
      ensures clockClock == old(clockClock) + ClockTimer
      ensures !elapsedReached ==>
        tick == old(tick) && minute == old(minute) && hour == old(hour) && amPm == old(amPm)
      ensures old(CountersInRange(State())) && FetchCountersInRange(resync) ==> CountersInRange(State())
      ensures old(HourInRange(State())) && FetchHourInRange(resync) ==> HourInRange(State())
    {
      if elapsedReached {
        tick := tick + 1;
        if tick > 59 {
          tick := 0;
          minute := minute + 1;
          if minute > 59 {
            var clock := resync;
            var (h, a) := ConvertTime(clock);
            hour, amPm := h, a;
            tick := clock.second;
            minute := clock.minute;
          }
        }
      }
      clockClock := clockClock + ClockTimer;
    }

    /** One pass of the main loop: when pumping the message loop raised,
        `continue` skips the clock update altogether. */
    method Pass(it: Iteration)
      modifies this
      ensures State() == Iterate(old(State()), it)
    {
      if it.pumpFailed {
        return;
      }
      Step(it.elapsedReached, it.fetched);
    }

    /** The `while True` loop, run for the given passes. */
    method MainLoop(its: seq<Iteration>)
      modifies this
      ensures State() == After(old(State()), its)
    {
      var i := 0;
      while i < |its|
        invariant 0 <= i <= |its|
        invariant After(State(), its[i..]) == After(old(State()), its)
      {
        assert its[i..][1..] == its[i + 1..];
        Pass(its[i]);
        i := i + 1;
      }
      assert its[i..] == [];
    }
  }
}
