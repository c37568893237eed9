# PyPortal plant-sensor hub: software clock and label updates

This project models the logic of the PyPortal firmware sketch `code.py` that does not touch hardware. The sketch shows three plant-sensor readings (temperature, humidity, gas index) received from Adafruit IO over MQTT, plus a "last updated" time kept by a software clock.

The model has five parts:

- `TimeConvert` holds the `struct_time` record the time service returns, and `convert_time`. That function turns the record's 24-hour hour into a 12-hour hour with an "AM"/"PM" label. It is a pure function over any integer hour, as in the source.
- `SoftClock` holds the clock kept by the main loop: `tick`, `minute`, `hour`, `am_pm` and the millisecond reference `clock_clock`.
  - The class `Clock` holds those variables. Its constructor is the start-up sync. `Step` is the rollover block plus the reference update. `Pass` is one pass of `while True`, including the `continue` taken when pumping the message loop raises. `MainLoop` runs a sequence of passes.
  - Each method is proved against the specification functions `Next`, `Iterate` and `After`. The lemmas about those functions state:
    - the tick, minute and resync rules;
    - that the resync uses nothing of the old hour;
    - that the counters stay in 0..59 and the hour in 1..12 for any number of passes;
    - that sixty elapsed seconds add exactly one minute;
    - how far the reference moves.
- `Pacing` links the elapsed-time test to the millisecond counter. The reference moves on by one second on every pass whose pump succeeded, after the test and whether or not the test passed (code.py:209). So the test compares the counter with a reference that gains one second per pass.
  - `ClockStandsStill` proves a consequence of the code as written, for an unbounded counter. Suppose the first test fails and the passes read the counter at most one second apart. Then no later test passes, and tick, minute, hour and label never change. On the board this holds only while the reference runs less than 2^28 ms (about 74 hours) ahead of the counter; past that `ticks_diff` wraps and the test passes again.
- `Text` covers Python's `str()` of an integer and the `{minute:02}` format. It includes a parser, and lemmas prove that each text reads back to its number.
- `Labels` covers the label texts and the `message` callback.
  - A reading on one of the three feeds replaces only that feed's label. Any other topic leaves all three reading labels unchanged.
  - The time label is then set from the clock.
  - A payload whose conversion raises `ValueError` raises before any label is written.

Inputs the source reads from the outside world are parameters here:
- `ticks_ms()` at start-up is the constructor's `now`.
- The elapsed-time test `ticks_diff(ticks_ms(), clock_clock) >= clock_timer` is `Iteration.elapsedReached`.
- What `update_time()` returns is a `TimeTuple` parameter.
- Whether `io.loop()` / `display.refresh()` raised is `Iteration.pumpFailed`.
- A message payload is a `Reading`: either the integer that the float conversion and rounding produce, or `Malformed` for a payload whose conversion raises `ValueError`.

Two facts of the code worth noting:
- The gas label's unit is "Ω" (code.py:156).
- The reference advances on every pass whose pump succeeded (code.py:209).

## Model

| member | source | states |
|---|---|---|
| TimeConvert.ConvertTime | code.py:120-129 | For any hour: the label is "PM" exactly when hour >= 12, otherwise "AM". The 12-hour hour equals the hour modulo 12. For an hour in 0..23 the result lies in 1..12. |
| TimeConvert.ConvertTimeCases | code.py:122-128 | Hour 0 gives (12, AM). Hours 1..11 give (h, AM). Hour 12 gives (12, PM). Hours 13..23 give (h-12, PM). |
| TimeConvert.ConvertTimeReadsHourOnly | code.py:121 | Two tuples with the same field [3] give the same result. |
| TimeConvert.To24Hour | code.py:120-129 | The inverse reading of a 12-hour clock lies in 0..23. It is >= 12 exactly for PM, and it agrees with the 12-hour hour modulo 12. |
| TimeConvert.ConvertTimeRoundTrip | code.py:120-129 | For an hour in 0..23, converting and then reading back gives the same hour, with a label that is AM or PM. |
| TimeConvert.ConvertTimeOnto | code.py:120-129 | Every (1..12, AM/PM) pair is produced by the hour that To24Hour gives. Together with the round trip, convert_time is a bijection from 0..23 onto the 12-hour readings. |
| Text.NatString | code.py:150 | str() of a non-negative integer is a non-empty digit string with no leading zero, of length 1 exactly below 10, and it parses back to the number. |
| Text.DecimalString | code.py:157 | str() of any integer starts with '-' exactly when the integer is negative, with only digits after the sign. It has no leading zero, is one character exactly for 0..9, and parses back to the integer. |
| Text.Pad2 | code.py:157 | `{minute:02}` is at least two characters. It is exactly two digits for 0..99. It equals str() whenever str() already has two characters, and it parses back to the minute. |
| SoftClock.Synced | code.py:177-179 | The clock taken from a fetched time keeps the given reference. Its hour agrees with the fetched hour modulo 12, and its label is PM exactly when the fetched hour is 12 or more. Its counters and hour are in range when the fetched fields are. |
| SoftClock.Next | code.py:199-209 | One pumped pass moves the reference on by exactly 1000 ms. A failed test changes nothing else. Hour and label change only on a resync (test passed, tick and minute at 59). The ranges are preserved. |
| SoftClock.Iterate | code.py:192-198 | A pass whose pump raised leaves the clock as it was, reference included. Otherwise the reference moves on 1000 ms and the ranges are preserved. |
| SoftClock.After | code.py:189-209 | Over a run of passes, the reference never moves back and moves on at most 1000 ms per pass. |
| SoftClock.NextNotElapsed | code.py:199-209 | When the elapsed test fails, tick, minute, hour and label are unchanged and the reference moves on by 1000 ms. |
| SoftClock.NextTick | code.py:199-200 | When the test passes and tick < 59, the tick increases by one, the reference moves on by 1000 ms, and nothing else changes. |
| SoftClock.NextMinute | code.py:200-203 | When the test passes with tick 59 and minute < 59, the tick becomes 0 and the minute increases by one. Hour and label stay. |
| SoftClock.NextResync | code.py:204-208 | When the minute passes 59, tick becomes field [5] and minute field [4] of the fetched time, and (hour, label) becomes convert_time of it. |
| SoftClock.ResyncIgnoresOldHour | code.py:204-208 | On a resync the new state does not depend on the old hour or label. |
| SoftClock.NextKeepsCounters | code.py:199-208 | One pass keeps tick and minute in 0..59 when the fetched minute and second are in 0..59. |
| SoftClock.NextKeepsHour | code.py:204-206 | One pass keeps the hour in 1..12 with an AM/PM label when the fetched hour is in 0..23. |
| SoftClock.AfterKeepsCounters | code.py:177-209 | Tick and minute stay in 0..59 over any number of passes when every fetchable time has minute and second in 0..59. |
| SoftClock.AfterKeepsHour | code.py:177-209 | The hour stays in 1..12 with an AM/PM label over any number of passes when every fetchable hour is in 0..23. |
| SoftClock.AfterReference | code.py:192-209 | After a run, the reference has moved on by 1000 ms per pass whose pump succeeded. A failed pump does not move it. |
| SoftClock.AfterWithoutTicks | code.py:199-209 | A run in which no elapsed test passes changes only the reference. |
| SoftClock.TicksWithinMinute | code.py:199-200 | Within a minute, k elapsed seconds add k to the tick and k*1000 ms to the reference. |
| SoftClock.MinuteRollsOver | code.py:199-203 | From tick t below 60 and minute below 59, after 60-t elapsed seconds the tick is 0 and the minute has increased by one. Hour and label stay. |
| SoftClock.FullMinute | code.py:199-203 | Sixty elapsed seconds with no resync inside them add exactly one minute and leave tick, hour and label as they were. |
| SoftClock.Clock.constructor | code.py:173-179 | The initial reference is `now`. Tick, minute, hour and label come from the first fetched time, and they are in range when that time is. |
| SoftClock.Clock.Step | code.py:199-209 | The new clock state is Next of the old one. The reference always advances by 1000 ms. A failed test leaves the counters, hour and label unchanged. The ranges are preserved. |
| SoftClock.Clock.Pass | code.py:189-209 | A pass whose pump raised changes nothing, because `continue` skips the clock update. Otherwise it is Step. |
| SoftClock.Clock.MainLoop | code.py:189-209 | After the given passes, the clock state is After of the initial state. |
| Pacing.ElapsedReached | code.py:199 | A passing test means the counter is past the reference. A failing one means the counter is less than 1000 ms past the reference, or behind it. |
| Pacing.ElapsedTestsMatchClock | code.py:199-209 | Test k of ElapsedTests uses exactly the reference the clock holds after the first k passes of that run. |
| Pacing.ElapsedTests | code.py:199-209 | Pass k of a run of successful pumps is tested against the reference advanced k times: the test passes exactly when now_k - (reference + k*1000) >= 1000. |
| Pacing.NeverElapsedWhenPassesAreQuick | code.py:199-209 | If the first test fails and successive counter readings are at most 1000 ms apart, no test in the run passes. |
| Pacing.ClockStandsStill | code.py:199-209 | Under those timings, with an unbounded counter, the clock's tick, minute, hour and label never change, while the reference advances 1000 ms per pass. |
| Labels.TopicsDistinct | code.py:148-154 | The three feed names are different strings, so a message matches at most one of the callback's `if`s. |
| Labels.ReadingText | code.py:150-156 | A reading label ends in its unit and starts with '-' exactly for a negative reading. |
| Labels.TimeLabel | code.py:157 | The time label starts with "Last updated at " and ends with the AM/PM label, with at least five characters of hour, colon, minute and space between them. |
| Labels.ReadingTextReadsBack | code.py:150-156 | A reading label ends in its unit, and the text before the unit parses back to the reading. |
| Labels.TimeLabelReadsBack | code.py:157 | For a clock in range, the time label is "Last updated at ", then the hour's digits with no leading zero, ':', exactly two minute digits, ' ' and AM/PM. It is 23 or 24 characters long, and hour and minute parse back from it. |
| Labels.Screen.constructor | code.py:75-82 | The three reading labels start as "N/A" and the time label as "No updates". |
| Labels.Screen.Message | code.py:146-157 | A feed topic replaces only its own label with `{value}{unit}`. Any other topic changes no reading label. The time label becomes "Last updated at {hour}:{minute:02} {am_pm}" from the clock. A malformed payload on a feed topic raises and changes nothing. |

## Left out

- Hardware bring-up is not modelled: SPI, ESP32 pins, NeoPixel, backlight, palette, icons, fonts and the display group (code.py:31-89). It is board I/O through vendor libraries.
- The WiFi join retry loop and `wifi.reset()` are not modelled (code.py:91-99, 195-198). A failed pump is modelled only by its effect on the clock: nothing changes.
- The MQTT and HTTP clients are left out: `io.connect`, `subscribe`, `get` and `loop`, and the body of `update_time` (code.py:101-118, 160-187, 193). These are foreign network calls. The fetched time is a parameter. A failure of the resync fetch itself is outside the `try` and would end the program, which the model does not represent.
- Labels.Screen.Message: the payload parsing `float(message)`, the conversion `1.8*x + 32` and `round()` are not modelled (code.py:149, 152, 155). They are floating-point numerics. The callback receives the rounded integer, or `Malformed` for a payload whose conversion raises `ValueError`. That covers a text `float()` rejects and "nan", which `round()` rejects. Payloads that overflow on rounding (infinity) raise `OverflowError`, which the main loop does not catch. They are not distinguished.
- Labels.Screen.Message: the interleaving of message callbacks with the clock passes inside `io.loop()` is not modelled. The callback reads the clock state it is given.
- Pacing.ElapsedReached: the wrap-around of `ticks_ms`, `ticks_add` and `ticks_diff` (a 2^29 ms period in adafruit_ticks) is not modelled. The library is not part of this model. The counter and the reference are unbounded integers and the difference is plain subtraction.
- Pacing.ClockStandsStill: because of that, it holds on the board only while the reference is less than 2^28 ms (about 74 hours) ahead of the counter. With passes under a second apart the reference gains on the counter every pass, and past that bound `ticks_diff` wraps and the test passes again, which the unbounded model does not show.
- `time.sleep(0.5)` and `display.refresh()` are not modelled (code.py:194, 210). They are timing and rendering side effects. Their timing appears only as the counter readings given to Pacing.
- SoftClock.AfterKeepsCounters assumes fetched seconds of at most 59. A `struct_time` may report a leap second (60). The model handles that input as the code does: tick 60 rolls to 0 on the next counted second. It is simply outside the range lemma.
- The other callbacks (`connected`, `subscribe`, `disconnected`) are not modelled. They only print.
