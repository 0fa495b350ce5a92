# py_ping2hue — a verified model of the ping-quality pipeline and the time-of-day trigger

py_ping2hue keeps pinging a host and colours Philips Hue lights by the outcome:
each iteration of its main loop first processes the on/off schedulers
(`SchedFunc` objects that switch the lights on or off once a day at a configured
time), then takes five pings, reduces them to a quality in [0, 1] and writes a
hue (red → green-cyan) and a brightness (bright when bad, dark when good) to the
lights.

This project models that core in Dafny:

- `ping_quality.dfy` (module `PingQuality`): aggregation of a window of ping
  samples into a `MultiPingResult` (`collect_pings`), the quality score
  (`calculate_quality`: clamped linear interpolation between the green and red
  thresholds, then one multiplication by the loss factor per lost packet), and
  the mapping to hue and brightness (`calc_hue`, `calc_bri`). Both loops of the
  source are methods proved against specification functions; the properties are
  lemmas about those functions.
- `schedule.dfy` (module `Schedule`): the `SchedFunc` class, with
  `last_executed_on` and `last_checked_at` as fields updated in place by
  `Process(now, log)`, proved against a pure state machine (`Step`). Lemmas about
  runs of checks (`FireTimes`) state the once-per-day guarantee, when the first
  firing happens, and when nothing fires.
- `ping_to_hue.dfy` (module `PingToHue`): `init_on_off_scheduler` (configuration
  events to scheduler objects, "on" events first, defaults for absent keys,
  startup errors as a `Result`) and one iteration of `main` (`Tick`), with the
  order of the writes to the lights.
- `wrappers.dfy`: `Option` and `Result`.

Modelling choices:

- A ping sample is `Option<real>` (seconds). `if not p` treats both a missing
  answer and a zero time as lost (`IsLost`).
- Floats are exact `real`s; Python's `int(...)` is truncation toward zero
  (`Trunc`), so `calc_hue` and `calc_bri` truncate rather than round.
- Wall-clock time is one integer `now` per call: seconds since 1970-01-01 in
  local time; day `now / 86400`, time of day `now % 86400`, ISO weekday
  `((day + 3) % 7) + 1` (1970-01-01 was a Thursday).
- A scheduler's callable is a value of type `A` (for the program, the
  `LightCommand` that `partial(set_lights_state, ids, {"on": ...})` sends).
  Invoking it appends it to a `CallLog`, which also receives the health-driven
  `set_lights_state` call, so the log is the sequence of requests made to the
  lights.
- `time(hour, minute, second)` raises `ValueError` on an out-of-range value and
  `event["hour"]` raises `KeyError` when absent; both abort startup, modelled as
  `Failure(InvalidTime)` / `Failure(MissingHour)`.

Behaviour of the code that the model keeps:

- `calc_hue` and `calc_bri` truncate (`int()`, py_ping2hue.py:96 and :104):
  the example window (40, 45, 50 ms, a loss, 42 ms; green 50 ms, red 400 ms,
  factor 0.8) gives hue 19876 and brightness 25 (`ExampleWindow`).
- A firing invokes the callable four times (schedfunc.py:51-54).
- A trigger created at or after its time of day does not fire that day: the
  constructor sets `last_checked_at` to the creation time, so the instant is
  not inside any later gap (`CreatedAfterInstantNoFireThatDay`).
- When the trigger is armed but the instant has not been crossed,
  `last_checked_at` is not advanced (there is no `else` at schedfunc.py:48).
- An all-lost window reports mean 9999 (py_ping2hue.py:84) and scores 0 exactly
  when green < 9999 and red ≤ 9999, or when the loss factor is 0 and the window
  is not empty (`AllLostQualityZero`); in every other case its score is not 0.

## Model

| member | source | states |
|---|---|---|
| `PingQuality.LostCount` | py_ping2hue.py:73-78 | the number of lost samples never exceeds the number of pings |
| `PingQuality.IsLost` | py_ping2hue.py:76 | a sample is not lost exactly when it is an answer with a non-zero time, so a missing answer and a zero time both count as losses |
| `PingQuality.LostCountIsLostIndices` | py_ping2hue.py:76-77 | the lost count equals the number of positions whose sample is missing or zero |
| `PingQuality.Aggregate` | py_ping2hue.py:81-90 | attempts equal the window size, 0 ≤ lost ≤ attempts, and a window with every ping lost reports mean 9999 |
| `PingQuality.CollectPings` | py_ping2hue.py:65-90 | the accumulation loop returns exactly the aggregate of the samples (attempts, mean of successes or 9999, lost count) |
| `PingQuality.AllLostIffLostCountFull` | py_ping2hue.py:81-84 | every sample is lost if and only if the lost count equals the number of attempts, i.e. exactly when the 9999 sentinel is used |
| `PingQuality.MeanWithinSuccessfulSamples` | py_ping2hue.py:79-82 | when at least one ping succeeds, the mean lies between the smallest and the largest successful round-trip time |
| `PingQuality.BaseQuality` | py_ping2hue.py:49-56 | the clamped interpolated base score lies in [0, 1] for any thresholds |
| `PingQuality.BaseQualityStrictlyBetween` | py_ping2hue.py:53-56 | strictly between the thresholds the base score is strictly between 0 and 1 |
| `PingQuality.OverlappingThresholdsStep` | py_ping2hue.py:49-52 | when red ≤ green the green test wins: the base score is 1 up to green and 0 above it |
| `PingQuality.BaseQualityAntitone` | py_ping2hue.py:46-56 | the base score never increases as the mean response time grows |
| `PingQuality.CalculateQuality` | py_ping2hue.py:43-62 | the loop multiplying by the loss factor once per lost packet returns the base score times factor^lost |
| `PingQuality.LossPenalty` | py_ping2hue.py:59-60 | no loss, or a factor of 1, leaves the score unchanged; any loss under a factor of 0 zeroes it |
| `PingQuality.Quality` | py_ping2hue.py:43-62 | a mean at or below green with no loss scores 1; a mean above green and at or above red scores 0; any loss under a factor of 0 scores 0 |
| `PingQuality.LossPenaltyInUnitInterval` | py_ping2hue.py:59-60 | with a loss factor in [0, 1] the accumulated penalty stays in [0, 1] |
| `PingQuality.QualityInUnitInterval` | py_ping2hue.py:43-62 | with a loss factor in [0, 1] the quality lies in [0, 1], whatever the thresholds |
| `PingQuality.QualityAntitoneInMean` | py_ping2hue.py:43-62 | for a fixed loss count the quality never increases with the mean response time |
| `PingQuality.QualityCompoundsPerLoss` | py_ping2hue.py:58-60 | with no loss the quality is the base score; each extra lost packet multiplies it by the loss factor once more |
| `PingQuality.QualityAntitoneInLosses` | py_ping2hue.py:58-60 | with a loss factor in [0, 1] an extra lost packet never raises the quality |
| `PingQuality.AllLostQualityZero` | py_ping2hue.py:43-84 | when every ping is lost, the quality is 0 if and only if green < 9999 and red ≤ 9999, or the loss factor is 0 and at least one ping was taken |
| `PingQuality.LossPenaltyNonZero` | py_ping2hue.py:59-60 | with a non-zero loss factor no number of losses drives the penalty to 0 |
| `PingQuality.Trunc` | py_ping2hue.py:96 | `int()` truncates toward zero: the result is the integer next to x on the side of zero |
| `PingQuality.CalcHue` | py_ping2hue.py:93-96 | for a quality in [0, 1] the hue lies between HUE_VAL_RED (0) and HUE_VAL_GREEN (24845) |
| `PingQuality.CalcHueMonotone` | py_ping2hue.py:93-96 | a better quality never gives a smaller hue |
| `PingQuality.CalcBri` | py_ping2hue.py:99-104 | for a quality in [0, 1] the brightness lies in [0, 128] |
| `PingQuality.CalcBriAntitone` | py_ping2hue.py:99-104 | a better quality never gives a brighter light |
| `PingQuality.HueAndBriEndpoints` | py_ping2hue.py:30-31 | quality 1 gives hue 24845 and brightness 0; quality 0 gives hue 0 and brightness 128 |
| `Schedule.TimeOfDay` | schedfunc.py:46 | an instant splits into its day and a time of day in [0, 86400) |
| `Schedule.Day` | schedfunc.py:36 | `date.today()`: the day whose 86400 seconds contain the instant |
| `Schedule.ExecuteAt` | schedfunc.py:46 | for a valid time of day, the scheduled instant falls on the given day at exactly that time of day |
| `Schedule.Fires` | schedfunc.py:36-48 | a firing check comes strictly after the last check, on a day the trigger has not fired yet, and strictly after the execution time of day |
| `Schedule.IsoWeekday` | schedfunc.py:41 | the ISO weekday of a day lies in 1..7 |
| `Schedule.SecondsOfDay` | schedfunc.py:24 | a valid hour, minute, second gives a time of day in [0, 86400) from which all three are recovered |
| `Schedule.Initial` | schedfunc.py:26-27 | a new trigger counts as executed before today and as checked at its creation time |
| `Schedule.Step` | schedfunc.py:36-50 | a check fires exactly when it changes last_executed_on; a firing check records today and now; last_checked_at becomes now or stays |
| `Schedule.SchedFunc.constructor` | schedfunc.py:15-27 | the trigger keeps its weekdays, callable and time of day, last_executed_on is yesterday and last_checked_at the creation time |
| `Schedule.SchedFunc.Process` | schedfunc.py:34-54 | already executed today or a disallowed weekday: only last_checked_at := now; crossing: both fields set and the callable invoked four times; armed but not crossed: nothing changes |
| `Schedule.CallLog.Record` | schedfunc.py:51-54 | invoking a callable or writing a light state appends exactly that request to the log |
| `Schedule.FiresAfterLastExecuted` | schedfunc.py:36-38 | checks that never go back in time fire only on days after the recorded last execution day |
| `Schedule.FiresAtMostOncePerDay` | schedfunc.py:36-50 | for checks that never go back in time the firing instants fall on strictly increasing days, so at most one firing per calendar day |
| `Schedule.NoFireAfterExecutedToday` | schedfunc.py:36-38 | once it fired on a day, no later check that day fires |
| `Schedule.NoFireOnExcludedWeekday` | schedfunc.py:41-44 | on a day whose ISO weekday is not allowed, no check fires |
| `Schedule.NoFireOnceCheckedPastInstant` | schedfunc.py:46-48 | once the last check is at or after today's instant, no later check that day fires |
| `Schedule.CreatedAfterInstantNoFireThatDay` | schedfunc.py:26-48 | a trigger created at or after its time of day does not fire for any check later that same day |
| `Schedule.FiresAtFirstCheckAfterInstant` | schedfunc.py:46-50 | an armed trigger fires exactly once over a day's checks, at the first check strictly after the instant, however long the gap before it |
| `Schedule.ShortGapFiresOnce` | schedfunc.py:36-50 | checked 10 s before the instant, then 10 s and 20 s after: it fires once, at the first of the two |
| `Schedule.LongGapStillFires` | schedfunc.py:46-50 | checked an hour before and next an hour after the instant, the check fires |
| `PingToHue.SwitchDecides` | py_ping2hue.py:114-139 | after an on/off request the lights are in the state it asks for, whatever requests came before |
| `PingToHue.HealthState` | py_ping2hue.py:160-170 | the health-driven state has no on key, saturation 255, and for a quality in [0, 1] a hue in [0, 24845] and brightness in [0, 128] |
| `PingToHue.HealthCommand` | py_ping2hue.py:156-172 | the health-driven write goes to the configured lights, sends no on key, and for a loss factor in [0, 1] has a hue in [0, 24845] and a brightness in [0, 128] |
| `PingToHue.EventTrigger` | py_ping2hue.py:119-125 | an event without hour fails with the missing-key error; an event succeeds exactly when it has an hour and its time of day (minute and second default to 0) is valid |
| `PingToHue.EventDefaults` | py_ping2hue.py:120-123 | an event giving only an hour fires Monday to Saturday at that full hour |
| `PingToHue.EventsPlan` | py_ping2hue.py:116-126 | one scheduler per event, in order, each with that event's trigger and the list's command; it fails exactly when some event is bad |
| `PingToHue.PlanWithoutAutoSwitch` | py_ping2hue.py:109-110 | without an auto_switch section there are no schedulers |
| `PingToHue.PlanOnThenOff` | py_ping2hue.py:112-141 | one scheduler per "on" event switching on, followed by one per "off" event switching off |
| `PingToHue.PlanFailsIffBadEvent` | py_ping2hue.py:114-139 | startup fails exactly when some "on" or "off" event lacks an hour or has an invalid time |
| `PingToHue.Plan` | py_ping2hue.py:107-141 | without auto_switch there are no schedulers; otherwise a successful plan has one scheduler per "on" event plus one per "off" event |
| `PingToHue.AddSchedulers` | py_ping2hue.py:116-126 | the loop appends one new scheduler per event, created now, matching the plan, or returns the first event's error |
| `PingToHue.InitOnOffScheduler` | py_ping2hue.py:107-141 | returns distinct new schedulers whose triggers and commands are the plan, all in their initial state, or the plan's error |
| `PingToHue.Tick` | py_ping2hue.py:151-172 | every scheduler is stepped at now, then the requests are: the schedulers' firings in list order, followed by one health-driven write computed from the five samples |
| `PingToHue.HealthWriteKeepsOnOff` | py_ping2hue.py:170-172 | appending the health-driven write never changes whether the lights end up on |
| `PingToHue.ExampleWindow` | py_ping2hue.py:156-170 | samples 40, 45, 50 ms, a loss, 42 ms with green 50 ms, red 400 ms, factor 0.8 give mean 44.25 ms, quality 0.8, hue 19876, brightness 25 |

## Left out

- simplehue.py (the HTTP PUT to the bridge, and its swallowing of connection and timeout errors): each `set_lights_state` call is recorded as a `LightCommand` instead; what the bridge does with it is not modelled.
- The `ping3.ping` call and the one-second `sleep` before each ping: the pings are an input sequence of samples. A ping that returns `False` (an error rather than a timeout) is represented as `None`, since both are lost.
- Reading `config.toml` and the module-level constants derived from it: the thresholds, loss factor, light ids and auto_switch events are a `Config` value. Configuration values of the wrong type are not modelled.
- Logging through loguru, the f-string debug output, the unbounded `while True` loop (one iteration is `Tick`) and the second `main()` call at the end of the script.
- IEEE floating-point rounding: reals are exact.
- Time zones, daylight saving and leap seconds: an instant is an integer count of seconds and every day has 86400 of them. The several reads of `datetime.now()`/`date.today()` inside one `process` call are one `now`; so are the reads in every `SchedFunc.__init__` at startup (`InitOnOffScheduler` passes one `now` to all of them, schedfunc.py:26-27), and the clock reads of all schedulers' `process()` calls within one iteration (`Tick` processes every scheduler at the same `now`, py_ping2hue.py:153-154). Time passing between those calls is not modelled.
- `CollectPings`: the number of attempts is the number of samples, so a negative `num_of_pings` (which Python would accept and report) is not modelled.
- `isoweekdays` may be any Python container; the model takes a sequence (the configuration supplies a list).
- The callables built with `functools.partial` are modelled as the `LightCommand` they send.
