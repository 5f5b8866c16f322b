# VIX chart scheduler — Dafny model

This project models the daily send scheduler of `vix_monitor_service.py`. That
service posts a VIX / S&P 500 chart to a Telegram channel at 08:00 Korea
Standard Time, Tuesday to Saturday. A background loop makes a pass (a tick)
and then sleeps 60 seconds. Consecutive ticks are therefore 60 seconds plus the
pass's own duration apart. On each tick the loop converts the UTC clock to KST
by adding nine hours, records the check time, and starts the report job when
three tests hold:

- the KST weekday is Tuesday to Saturday;
- the KST `HH:MM` text equals `"08:00"`;
- today's KST date differs from the last date a send succeeded.

The job renders the chart. It gives up if there is no data. Otherwise it sends
the chart with up to three attempts and a 1, 2, 4 second back-off, closes the
image buffer, and reports whether the send worked. Only a successful job
records today's date. The record starts at the sentinel date `1970-01-01`.

Modules:

- `KstClock` (`kst_clock.dfy`): instants as whole seconds since the epoch.
  It defines the fixed +9 h shift, day numbers, weekdays (Monday = 0; day 0
  was a Thursday) and the zero-padded `%H:%M` text.
- `TelegramSend` (`telegram_send.dfy`): the retry loop of the send call, the
  image buffer, and the report job.
- `Schedule` (`schedule.dfy`): the pure state machine. It holds the status
  record, the three tick tests, the if/elif skip chain, the effect of one
  tick (`Step`) and of a run of ticks (`Run`), and the lemmas about them.
- `Monitor` (`monitor.dfy`): the status record as a class that is updated in
  place. `Tick` is one pass of the loop body and `MonitorLoop` is the loop
  over a finite run of ticks. Both are proved against `Step` and `Run`.

Modelling choices:

- Date strings are modelled by KST day numbers. The status only ever holds the
  sentinel or a date printed from a KST instant, so two strings are equal
  exactly when the day numbers are equal.
- The time test compares real five-character strings. `TargetTimeIsExactMinute`
  proves that it matches exactly the 60 seconds 08:00:00–08:00:59.
- One send attempt is reduced to a boolean: `ok` set in the response, or not.
  An exception, an HTTP error status and `ok` unset all count as false.
  An attempt with no entry in the input sequence counts as failed.
- Chart rendering is reduced to "data came back or not".
- The send back-off is recorded as a list of delays. No time passes in the model.

Consequence of the exact-minute test: the clock is read in whole seconds, and
consecutive readings are 60 or more seconds apart. A tick that reaches
08:00:00 is sure to fall inside the target minute only when the two readings
are exactly 60 seconds apart (`PollWithinIntervalHitsTarget`). When they are 61
seconds apart, the ticks can fall at 07:59:59 and 08:01:00, and that day has
no send and no later retry (`DriftCanSkipDay`). The source has no catch-up
logic, so the model has none either.

## Model

| member | source | states |
|---|---|---|
| `KstClock.KstInstant` | vix_monitor_service.py:202-203 | KST is UTC plus nine hours: the KST time of day is the UTC one nine hours on, and the KST date is the UTC date plus one exactly from 15:00 UTC on. |
| `KstClock.KstDay` | vix_monitor_service.py:204 | The `%Y-%m-%d` date of an instant is the day number d whose 86400 seconds contain it. |
| `KstClock.Weekday` | vix_monitor_service.py:210 | `weekday()` is a number 0..6 with Monday = 0: that many days before the instant's date lies a Monday a whole number of weeks from Monday 1970-01-05. |
| `KstClock.ClockText` | vix_monitor_service.py:205 | The `%H:%M` text is five characters: the two-digit hour, a colon, the two-digit minute. |
| `KstClock.Pad2Injective` | vix_monitor_service.py:216 | Distinct hours (or minutes) below 100 get distinct `%02d` texts. |
| `KstClock.ClockTextDeterminesMinute` | vix_monitor_service.py:205 | The `%H:%M` text of a KST instant equals the text of hour h and minute m exactly when the instant's hour is h and its minute is m. |
| `KstClock.KstDayMonotone` | vix_monitor_service.py:202-204 | A later instant never falls on an earlier KST date. |
| `KstClock.NextDayWeekday` | vix_monitor_service.py:210 | Adding one day moves the date by one and the weekday by one, cyclically (Monday = 0 numbering). |
| `KstClock.WeekdayAfterDays` | vix_monitor_service.py:210 | k days later is k weekdays later, modulo 7. |
| `Schedule.CountValidDaysByWeekday` | vix_monitor_service.py:210-213 | The number of send days among n consecutive days depends only on the first day's weekday. |
| `Schedule.FiveSendDaysInAnyWeek` | vix_monitor_service.py:212-213 | Any seven consecutive KST days hold exactly five days that pass the weekday test. |
| `Schedule.IsValidDay` | vix_monitor_service.py:212-213 | The weekday test holds exactly when the weekday is neither Monday (0) nor Sunday (6), that is Tuesday to Saturday. |
| `Schedule.IsTargetTime` | vix_monitor_service.py:215-217 | The time test holds exactly when the five-character `%H:%M` text equals `"08:00"`. |
| `Schedule.IsAlreadySent` | vix_monitor_service.py:219-220 | The already-sent test holds exactly when the instant lies inside the recorded date's 86400 seconds, i.e. today's date equals the recorded one. |
| `Schedule.TargetTimeIsExactMinute` | vix_monitor_service.py:215-217 | The time test holds exactly when the KST second of day is in [08:00:00, 08:01:00). It is an exact-minute match, not a wider window. |
| `Schedule.Classify` | vix_monitor_service.py:225-260 | The skip chain. A tick sends iff the weekday is Tuesday–Saturday, the time is 08:00 and today is not the recorded date, so never on Sunday or Monday. It is "invalid day" iff the weekday is outside Tuesday–Saturday. It is "already sent" iff the day is valid and today is recorded. It is "time mismatch" iff the day is valid, today is not recorded and the time is not 08:00. The fallback branch is never taken. |
| `Schedule.Step` | vix_monitor_service.py:208-236 | Every tick sets the check time to its own KST instant. The last-sent date changes only when the job was started and succeeded, and then it becomes the tick's KST date. A tick that does not start the job, or whose job fails, changes nothing else. |
| `Schedule.Run` | vix_monitor_service.py:200-266 | The repeated passes of the loop: no ticks leave the status as it was, and after any ticks `last_check_time_kst` is the last tick's KST instant. |
| `Schedule.SameDayTicksNeverResend` | vix_monitor_service.py:220 | Starting from a status that records date d, any run of ticks on date d starts no job and leaves d recorded. |
| `Schedule.NoResendAfterSuccess` | vix_monitor_service.py:220-236 | After a tick that started the job and succeeded, no later tick (ticks in clock order) on the same KST date starts the job again. |
| `Schedule.LastSentComesFromATick` | vix_monitor_service.py:234-236 | After any run of ticks, the recorded date is the initial one or the KST date of one of the ticks. |
| `Schedule.LastSentNeverMovesBack` | vix_monitor_service.py:234-236 | With ticks in clock order and none before the recorded date, the recorded date never moves backwards and never passes the last tick's date. |
| `Schedule.FailuresKeepLastSent` | vix_monitor_service.py:232-236 | A run in which no tick both hits a valid 08:00 and has a successful job leaves the recorded date unchanged. |
| `Schedule.FirstEligibleTickAfterStart` | vix_monitor_service.py:29 | From the start-up status, the first tick at 08:00 on a Tuesday–Saturday starts the job iff its date is not 1970-01-01 (the sentinel itself). This holds also after a restart on a day that already had a send. |
| `Schedule.PollWithinIntervalHitsTarget` | vix_monitor_service.py:216-217 | If one tick falls before 08:00:00 KST and the next, at most 60 seconds later, falls at or after it, the next tick passes the time test. Since the sleep at line 266 is followed by the pass's own duration, the premise holds only when the two whole-second readings are exactly 60 apart. |
| `Schedule.LongerGapCanMissTarget` | vix_monitor_service.py:217 | Ticks at 07:59:59 and 08:01:00, 61 seconds apart, both fail the time test, so a longer gap can skip the day. |
| `Schedule.DriftCanSkipDay` | vix_monitor_service.py:216-266 | On Wednesday 2024-01-03, starting from the initial status, ticks at 07:59:59 and 08:01:00 KST (61 seconds apart) start no job. The last-sent date stays the sentinel, and no later tick that day passes the time test. |
| `TelegramSend.SendPhoto` | vix_monitor_service.py:126-158 | The retry loop takes the chart buffer and requires it still open. Its result satisfies `SendOutcome`. It makes 1 to 3 attempts. It succeeds iff one of the first three attempts gets `ok`, and then it stops at the first such attempt. It fails only after three failed attempts. The waits are 2^attempt seconds after each failed attempt (1, 2, 4 when all fail). |
| `TelegramSend.SendOutcomeUnique` | vix_monitor_service.py:140-158 | The attempt outcomes fix the verdict, the attempt count and the waits: two results that both satisfy `SendOutcome` are equal. |
| `TelegramSend.BackoffDoubles` | vix_monitor_service.py:155 | The i-th wait in the back-off list is 2^i seconds. |
| `TelegramSend.PlotVixSp500` | vix_monitor_service.py:168 | The chart step gives a fresh, open buffer exactly when market data came back, and nothing otherwise. |
| `TelegramSend.PhotoBuffer.Close` | vix_monitor_service.py:184 | Releasing the image buffer leaves it closed. |
| `TelegramSend.RunAndSendPlot` | vix_monitor_service.py:161-187 | With no chart the job fails and reports no send call. Otherwise it hands the rendered buffer, still open, to one send call (`SendPhoto` requires an open buffer, so the close cannot come first), reports that call, whose result satisfies `SendOutcome` (attempts, first `ok`, back-off), closes the buffer afterwards whatever the outcome, and returns that call's verdict. |
| `Monitor.MonitorStatus.constructor` | vix_monitor_service.py:29 | The status starts with the sentinel date and no check time ("N/A"). |
| `Monitor.MonitorStatus.Tick` | vix_monitor_service.py:200-260 | One loop pass takes the branch `Classify` gives, and its new status is `Step` of the old one. It returns the job's send call. There is one exactly when `Attempts` holds and the chart came back, and its result satisfies `SendOutcome`. The pass records a send exactly when that call succeeded. |
| `Monitor.MonitorStatus.MonitorLoop` | vix_monitor_service.py:200-266 | Over a run of ticks the status becomes `Run` of the old one. Each tick's branch and send call are those `Tick` gives in the status left by the ticks before it (`TickReport`). So the day-guard lemmas about `Attempts` hold of the send calls themselves. |

## Left out

- The chart itself (`plot_vix_sp500`, lines 40-119): the market-data download, the date intersection, floating-point prices and rendering. Only "data came back or not" is modelled.
- The HTTP mechanics of a send attempt: the session, the multipart form, the 15-second timeout, `raise_for_status` and JSON parsing. Each attempt is one boolean outcome.
- asyncio: the background task, real sleeping and the unbounded `while True`. The loop runs over a finite sequence of ticks. The 60-second sleep between ticks is not recorded. The send back-off is recorded as a list of delays.
- Send calls are reported as an optional `Delivery` record, one per job at most. There is no channel object with a log of HTTP posts, so "one call" is stated through the record, not counted on the wire.
- Time passing inside a tick. A tick's date and time are read once at its start, as in the source. How long the job takes is not modelled.
- The catch-all around a tick (lines 262-263). A tick that raises is not modelled. In the source such a tick leaves the last-sent date unchanged, because the date is written only as the last step of a successful send.
- Python's `datetime` calendar and `strftime` for dates. Dates are day numbers; the time of day is modelled as its `%H:%M` text.
- Microseconds of the clock. Instants are whole seconds, and no decision depends on a finer unit.
- Log messages, the log level of each branch, the caption text and the unused `current_kst` in the job.
- Start-up: the FastAPI app, uvicorn, environment variables, the credential warning, and the read-only `/` health endpoint (lines 271-305).
