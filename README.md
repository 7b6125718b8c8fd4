# pv-switcher decision logic in Dafny

A model of `py/control.py`, the photovoltaic surplus switcher: once per
polling interval it reads the inverter's power, scales a base threshold by a
per-day factor, optionally asks a weather forecast whether the next period
looks stable, and switches a relay (driving e.g. a water heater) on for one
minimum-on period or off. A counter caps how many minimum-on periods the
relay stays on in a row.

Modules, one per part of the program:

- `Numeric`: Python's `int()` on a float, truncation toward zero (`Trunc`).
- `Settings`: the configuration constants and `periods = int(maximum_on_time / minimum_on_time)`.
- `ScalingFactors`: `str.strip`, and the class `ScalingTable` holding the global
  `scaling_factors` list with `Load`, the `load_scaling_factors` loop. The file is
  the sequence of strings `readline` returns, the number parser an abstract
  partial function `string -> Option<real>` applied to the stripped line.
- `Threshold`: `get_current_threshold`, with the day of the year as a parameter.
- `Power`: the register selection of `get_current_power`.
- `Weather`: `get_weather_prediction` over an abstract forecast record; the
  method `Predict` runs the source's search loop and is proved equal to the
  function `Prediction`.
- `Switch`: the state machine of the main loop. The functions `Step`, `Run`
  and `Trace` specify it; the class `SwitchController` (fields `counter`,
  `relayOn`, `dryRun`) implements `engage`, `disengage`, one loop pass
  (`Cycle`), a finite run of passes and the shutdown handler.
- `Control`: start-up and one full pass of the loop (threshold, power,
  weather, log record, decision).

Behaviour the model follows as written in the code:

- The counter is cleared on every cycle that does not engage
  (py/control.py:252); there is no calendar-day reset and no daily budget.
  `periods` therefore caps *consecutive* ON periods (`NoRunLongerThanPeriods`),
  and under steady surplus the relay cycles `periods` on, one off (`SteadySurplus`).
- The day of the year (1..366) indexes the factor list directly, so entry 0
  of the list is never used (`FirstEntryIgnored`). When every line of the
  scaling file parses, that means the first line serves no day and day `d`
  takes line `d + 1` (`DayUsesLineAfterIt`); each skipped line shifts every
  later day one entry down.
- The "next hour" test `current_time - h_time < 3600` (py/control.py:174) holds
  for every entry at or after the current time, so the gate uses the first
  such entry however far ahead it lies (`DistantEntryStillDecides`), and the
  early `return True` on py/control.py:180-181 is never reached.
- Power comes from one inverter only: the second register word, 0 when the
  read returns nothing. There is no summing over several meters.
- The docstring of `get_current_power` (py/control.py:131-132) promises 0 for
  a value out of range, but the code only keeps the low register word: the
  "no value" marker happens to read as 0 W (`NotANumberReadsZero`), while a
  negative reading such as -1 W is reported as 65535 W and counts as surplus
  (`NegativeReadingIsLarge`).

## Model

| member | source | states |
|---|---|---|
| `Numeric.Trunc` | py/control.py:150 | `int()` of a real: for non-negative `x`, `0 <= r <= x < r + 1`; for negative `x`, `r - 1 < x <= r <= 0` (truncation toward zero) |
| `Numeric.TruncMonotone` | py/control.py:150 | truncation preserves order: `x <= y` implies `Trunc(x) <= Trunc(y)` |
| `Numeric.TruncOfInt` | py/control.py:149-150 | a whole number is truncated to itself, so a factor of 1 leaves the threshold unchanged |
| `Settings.Periods` | py/control.py:239 | `p = int(max / min)` with `p * min <= max < (p + 1) * min` for a non-negative maximum, and `p >= 1` whenever `max >= min` |
| `Settings.DefaultPeriods` | py/control.py:21-24 | with the shipped 1 and 5 minutes, `periods == 5` |
| `ScalingFactors.IsSpace` | py/control.py:120 | the whitespace `strip()` removes includes space, tab, newline and carriage return, and never a digit, sign, decimal point or exponent letter |
| `ScalingFactors.StripLeft` | py/control.py:120 | `lstrip()` never lengthens the line and leaves it starting with a non-whitespace character (or empty) |
| `ScalingFactors.StripRight` | py/control.py:120 | `rstrip()` never lengthens the line and leaves it ending with a non-whitespace character (or empty) |
| `ScalingFactors.Strip` | py/control.py:120 | `strip()` never lengthens the line and leaves neither leading nor trailing whitespace |
| `ScalingFactors.LineFactor` | py/control.py:119-122 | a line contributes at most one factor, and one exactly when `float(line.strip())` succeeds |
| `ScalingFactors.ParsedLines` | py/control.py:115-122 | the list built from the lines holds no more factors than there are lines |
| `ScalingFactors.StripLeftSpec` | py/control.py:120 | the left strip keeps a suffix, drops only whitespace, and stops at a non-whitespace character |
| `ScalingFactors.StripRightSpec` | py/control.py:120 | the right strip keeps a prefix, drops only whitespace, and stops at a non-whitespace character |
| `ScalingFactors.StripIsTrimmedSlice` | py/control.py:120 | `line.strip()` is a slice of the line with only whitespace cut off either side, neither starting nor ending with whitespace |
| `ScalingFactors.StripIdempotent` | py/control.py:120 | stripping twice equals stripping once |
| `ScalingFactors.LinesBeforeEof` | py/control.py:115-118 | the loop reads every line up to the first empty `readline` result (the end of the file), and no empty line before it |
| `ScalingFactors.ScalingTable.constructor` | py/control.py:60 | the factor list starts empty |
| `ScalingFactors.ScalingTable.Load` | py/control.py:108-122 | after loading, the list is exactly the parsed values of the lines read, in file order, whatever it held before |
| `ScalingFactors.ParsedLinesAppend` | py/control.py:115-122 | the factors of a file split in two are those of the first part followed by those of the second (file order is kept) |
| `ScalingFactors.ParsedLinesLength` | py/control.py:119-122 | at most one factor per line, exactly one per line when every line parses |
| `ScalingFactors.ParsedLineKept` | py/control.py:119-122 | a line that parses appears in the list, right after the factors of the lines before it |
| `ScalingFactors.ParsedLinesFromLines` | py/control.py:119-122 | every factor in the list is the parsed value of some line (unparseable lines contribute nothing) |
| `ScalingFactors.AllLinesRead` | py/control.py:115-118 | when no line is empty the loop reads the whole file |
| `Threshold.ScalingFactor` | py/control.py:146-149 | a day with no entry gets factor 1; any factor used comes from entries 1 onward of the list, never entry 0 |
| `Threshold.CurrentThreshold` | py/control.py:143-153 | with no factor for the day the threshold equals the base exactly; otherwise it is `base * factor` truncated toward zero |
| `Threshold.FirstEntryIgnored` | py/control.py:145-147 | entry 0 of the list never affects any day's threshold |
| `Threshold.ThresholdMonotone` | py/control.py:147-150 | for a non-negative base, a larger factor never lowers the threshold |
| `Threshold.ThresholdNonNegative` | py/control.py:146-150 | a non-negative base and non-negative factors give a non-negative threshold |
| `Threshold.ThresholdExamples` | py/control.py:10 | the shipped 1200 W base stays 1200 W under factor 1.0 and becomes 600 W under 0.5 |
| `Power.ReportedPower` | py/control.py:137-140 | the reported power is the second register word when the read returned words, 0 when it returned none |
| `Power.PowerIsLowWord` | py/control.py:52-53 | the reported value is the low 16 bits of the two-word total; the high word never contributes |
| `Power.NotANumberReadsZero` | py/control.py:137-138 | the inverter's 0x80000000 "no value" reading is reported as 0 W |
| `Power.NegativeReadingIsLarge` | py/control.py:131-138 | a reading of -1 W (0xFFFF_FFFF) is reported as 65535 W, not as 0 |
| `Power.PowerWrapsAt16Bits` | py/control.py:137-138 | a total of 65536 W is reported as 0 W |
| `Weather.FirstAtOrAfter` | py/control.py:170-179 | the index found is the first hourly entry at or after the current time; none is found only when every entry lies before it |
| `Weather.SundownMinutes` | py/control.py:182 | the whole minutes to sunset, truncated toward zero: `60m <= sunset - dt < 60(m + 1)` before sunset, mirrored after it |
| `Weather.Prediction` | py/control.py:161-192 | a disabled gate or failed query admits, and the gate refuses only when some entry at or after the current time exists (its exact refusal condition is `RefusalIff`) |
| `Weather.Predict` | py/control.py:156-195 | the search loop's answer equals `Prediction` for every input, whatever `over_threshold` is |
| `Weather.RefusalIff` | py/control.py:161-188 | the gate refuses if and only if it is enabled, the query succeeded, and the first entry at or after now comes with sunset at most two minimum-on periods away or with 100 % cloud cover |
| `Weather.FailOpen` | py/control.py:161-162 | a disabled gate, a failed query, and a forecast with no entry at or after now each admit |
| `Weather.DistantEntryStillDecides` | py/control.py:172-175 | a fully clouded entry two hours ahead still refuses: the one-hour test limits nothing |
| `Weather.SundownBoundary` | py/control.py:182-188 | with one-minute periods, sunset 179 s away (2 whole minutes) refuses and 180 s away (3 minutes) admits |
| `Switch.Eligible` | py/control.py:246 | no cycle is eligible without strict surplus (`power <= thresh` never is), without good weather, or with the counter at `periods` |
| `Switch.Step` | py/control.py:246-252 | one decision keeps the state invariant: counter within `0..periods`, relay on exactly when the counter is positive and hardware is present |
| `Switch.Run` | py/control.py:241-253 | any number of decisions keeps the state invariant |
| `Switch.EqualPowerDisengages` | py/control.py:246-252 | power equal to the threshold is no surplus: the relay goes off and the counter to 0 |
| `Switch.CapReachedDisengages` | py/control.py:246-252 | with the counter at `periods` the next cycle disengages and resets the counter, even with surplus and good weather |
| `Switch.CounterBounded` | py/control.py:238-252 | from counter 0, `0 <= counter <= periods` after any cycles |
| `Switch.CounterCountsTrailingOn` | py/control.py:246-252 | from the start, the counter equals the number of consecutive engaging cycles that ended the run |
| `Switch.NoRunLongerThanPeriods` | py/control.py:239-252 | no run of consecutive engaging cycles is longer than `periods` |
| `Switch.SteadySurplus` | py/control.py:239-252 | under constant surplus and good weather cycle `k` engages exactly when `k mod (periods + 1) < periods`, and the counter is the number of cycles mod `periods + 1` |
| `Switch.ShippedScenario` | py/control.py:21-24 | with five periods, six cycles at 1500 W over 1200 W engage five times and then disengage with the counter back at 0 |
| `Switch.SwitchController.constructor` | py/control.py:238 | the loop starts with counter 0 and the relay off |
| `Switch.SwitchController.Engage` | py/control.py:197-202 | the relay is switched on unless there is no relay hardware |
| `Switch.SwitchController.Disengage` | py/control.py:205-210 | the relay is switched off unless there is no relay hardware |
| `Switch.SwitchController.Cycle` | py/control.py:246-253 | an eligible cycle ends with the relay on (with hardware) and the counter up by one; any other ends with the relay off and counter 0; the new state is `Step` of the old; the sleep is a minimum-on period plus the interval when engaging, the interval otherwise |
| `Switch.SwitchController.RunCycles` | py/control.py:241-253 | a run of loop passes ends in `Run` of the initial state and reports `Trace` as the engaged flags |
| `Switch.SwitchController.Shutdown` | py/control.py:227-229 | the shutdown handler leaves the relay off |
| `Control.Start` | py/control.py:234-239 | start-up loads the factors from the file and sets up a controller with counter 0, relay off, and `periods` from the configuration |
| `Control.LoopBody` | py/control.py:241-253 | one pass logs the selected power and the day's threshold and applies `Step` with the weather gate's answer |
| `Control.FailedReadDisengages` | py/control.py:137-140 | a failed register read (0 W) switches the relay off and clears the counter when the threshold cannot be negative |
| `Control.NegativeFactorEngagesOnFailedRead` | py/control.py:146-150 | a negative factor in the file makes a failed read count as surplus and engage the relay |
| `Control.DayUsesLineAfterIt` | py/control.py:113-122 | with every line non-empty and parseable, day `d` takes the value on line `d + 1` of the file and days past the end take 1 |

## Left out

- The Modbus TCP client and the register read (py/control.py:134-136): network I/O; the reply is a parameter.
- The HTTP request to the forecast service and the JSON decoding (py/control.py:163-166): network and a foreign library; the decoded forecast is a parameter, `None` standing for any exception.
- Weather.Prediction: a missing field is modelled only as a failed query as a whole (`None`); the source can also fail on a missing field of an entry it reads before the one it uses, which the model does not distinguish.
- The import of `requests`/`json` and its failure (py/control.py:80-86): the result is the `weatherEnabled` flag of the configuration.
- The gpiozero import and the relay hardware calls (py/control.py:91-97, 202, 210): the relay is the boolean `relayOn`; `dryRun` is a constructor argument.
- Reading the scaling file and writing the log file (py/control.py:114, 213-218), `localtime`/`strftime` (py/control.py:145, 215): I/O and clock; the day of the year is a parameter and the log line is the returned `LogEntry` without its time stamp.
- Threshold.CurrentThreshold: `float()` accepts "nan", "inf" and "1e999", and such a factor, or a finite one whose product with the base overflows, makes `int()` at py/control.py:150 raise outside any handler and ends the program; `parse` yields finite reals only, so the model always returns a threshold.
- Settings.Periods: `minimum_on_time == 0` raises ZeroDivisionError at py/control.py:102 and 239 and ends the program; the model requires a positive minimum-on time instead of modelling the crash.
- Control.Start: a missing or unreadable scaling file makes `open` at py/control.py:114 raise and ends the program before the loop (there is no fallback to factor 1); the model takes the file's lines as given.
- Control.LoopBody: a log file that cannot be opened or written (py/control.py:214-218) raises out of the loop and ends the program; the model always completes the pass.
- Floating point: values are reals, so the rounding of `threshold * scaling_factor`, of `float(line)` and of the sunset division (py/control.py:120, 150, 182) is not modelled; `float()` itself is the abstract `parse` function.
- `sleep` (py/control.py:248, 253): nothing waits; `Cycle` returns the dwell in seconds.
- Debug output and `print_config_info` (py/control.py:100-105, 151-152, 176-178, 189-190) and `prediction_time` (py/control.py:184), which is only printed.
- `while True` (py/control.py:241): the loop never ends; the model covers any finite number of passes (`RunCycles`, `LoopBody`).
- Switch.SwitchController.Shutdown: signal registration and `sys.exit` (py/control.py:221-229) are not modelled; the signal is taken at a cycle boundary, whereas the source may receive it between `engage()` and `counter += 1`.
- Power.ReportedPower: a non-empty reply shorter than two words would raise `IndexError` out of the loop; the model requires the two words the read asks for.
