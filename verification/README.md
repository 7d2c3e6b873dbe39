# OverloadClock — a Dafny model of the work timer's logic

OverloadClock is a one-page browser work timer. A progress bar fills over a
configured work period. It turns from green through yellow to red, and once
the period is used up it enters overtime. In overtime an alarm sounds once,
the bar fades from red to deep purple over ten minutes, and a stopwatch
counts the overtime as `HH:MM:SS`.

This project models the pure logic of `script.js` and proves properties of it:

- `decimal.dfy` (`Decimal`): `parseInt(s, 10)` on digit strings, `n.toString()`,
  `padStart` and the script's `pad` helper.
- `duration.dfy` (`Duration`): `parseDuration`. This covers `String.prototype.trim`
  and the regular expression `^(\d{1,2}):([0-5]\d)$`, which is written both as a
  language (`InPattern`) and as a character-by-character automaton (`Scan`) that
  is proved to recognise it. A match is converted to seconds; anything else falls
  back to the eight-hour default.
- `colour.dfy` (`Colour`): the drawing half of `updateBar`. It computes the
  progress `min(elapsed / duration, 1)`, the bar width, the green→yellow→red
  gradient of the work period and the red→purple fade of overtime. The arithmetic
  is over `real`, and `Math.round(x)` is `(x + 0.5).Floor`.
- `stopwatch.dfy` (`Stopwatch`): `updateOvertime`. It splits whole seconds into
  hours, minutes and seconds, formats them with `pad`, and leaves the display
  alone when the count is negative. `Decode` reads the text back.
- `clock.dfy` (`Clock`): the state `updateBar` and `startClock` mutate. This is
  the `alarmPlayed` latch, whether the `overtimeTimer` interval exists, and the
  stopwatch text. Each event is a transition that reports whether the alarm
  plays and whether a new overtime interval is created. `Run` plays a sequence
  of events.
- `wrappers.dfy` (`Wrappers`): the `Option` type.

Three behaviours of the code that the model keeps as written:

- Progress is clamped only from above, so a start time later than now gives a
  negative progress, a negative bar width and, below about -0.1 %, a negative
  red channel (`Colour.EarlyBarIsNegative`).
- Dropping back below the period re-arms the latch but does not clear the
  overtime interval (script.js:61-62). Only `startClock` clears it
  (`Clock.StopwatchHeldWithoutRestart`).
- The hour field takes at most two digits, so durations are bounded by 99:59.

## Model

| member | source | states |
|---|---|---|
| Decimal.Show | script.js:9 | below 10^21, `n.toString()` is the shortest decimal text of `n`: at least one digit, no leading zero unless `n` is 0, one digit exactly when `n < 10`, and it reads back as `n` |
| Decimal.Pad | script.js:9 | `pad(n)` is all digits, reads back as `n`, is at least two characters long, exactly two when `n < 100`, and equals `n.toString()` from 10 upwards |
| Decimal.PadBelowSixty | script.js:9 | `pad(n)` for `n < 60` is two digits, the first between 0 and 5, reading back as `n` |
| Decimal.PadIsPadStart | script.js:9 | `pad(n)` is `n.toString().padStart(2, '0')` |
| Decimal.PadStart | script.js:9 | `padStart` leaves text of the target length or longer as it is; otherwise it puts fill characters in front up to the target length |
| Duration.Trim | script.js:25 | `trim()` leaves no whitespace at either end and never lengthens the text |
| Duration.TrimRemovesPadding | script.js:25 | whatever JavaScript whitespace surrounds a string without whitespace at its ends, `trim()` returns that string |
| Duration.Hours | script.js:27 | the hour capture of a match is at most 99 |
| Duration.Minutes | script.js:28 | the minute capture of a match is at most 59 |
| Duration.ScanSound | script.js:25 | each state the recogniser reaches describes the text read so far; reaching `Done` means the text is in the pattern and the state holds its two captures |
| Duration.ScanComplete | script.js:25 | every string of the pattern drives the recogniser to `Done` with its hour and minute numbers |
| Duration.ScanRecognisesPattern | script.js:25-28 | the recogniser matches exactly the strings of `^(\d{1,2}):([0-5]\d)$` and returns their two captured numbers; it rejects everything else |
| Duration.ParseDuration | script.js:24-30 | on a trimmed match the result is `hours*3600 + minutes*60`; otherwise it is 28800; it is always a multiple of 60 and at most 358740 |
| Duration.Seconds | script.js:29 | `hours*3600 + minutes*60` is a multiple of 60, at most 358740, and gives back the hours (`/ 3600`) and minutes (`% 3600 / 60`) |
| Duration.ParseTypedDuration | script.js:24-30 | `H:MM` or `HH:MM` with minutes below 60, surrounded by any whitespace, parses to `3600*H + 60*MM` |
| Duration.ParseDurationAccepts | script.js:24-30 | `"8:00"` is 28800, `"08:30"` is 30600, `"99:59"` is 358740 |
| Duration.ParseDurationRejects | script.js:25-26 | `"25:61"`, `"100:00"`, `"800"` and `""` fall back to 28800 |
| Colour.Round | script.js:52 | `Math.round` gives the nearest integer, rounding halves up |
| Colour.Progress | script.js:43 | the progress never exceeds 1; it equals 1 exactly when the period is used up; below that it is `elapsed / duration`; it is negative exactly when elapsed time is |
| Colour.WorkColour | script.js:47-59 | blue is 0; below half-way green is 255 and red is `510·p` rounded, within [0,255] for `p >= 0`; from half-way red is 255 and green lies in [0,255], and below 1 green is `255 − 510·(p − 0.5)` rounded, so the clamp at 0 never changes it |
| Colour.RedNonDecreasing | script.js:49-56 | red never decreases as progress grows |
| Colour.GreenNonIncreasing | script.js:51-58 | green never increases as progress grows |
| Colour.FadeFraction | script.js:66 | the fade fraction is at most 1, non-negative for non-negative overtime, equals 1 exactly from 600 s, and below that is `overtime / 600` |
| Colour.OvertimeColour | script.js:65-71 | green is 0; at 0 s the colour is exactly (255,0,0); from 600 s on it is exactly (75,0,110); in between red lies in [75,255] and blue in [0,110]; red is `255·(1−t) + 75·t` and blue `110·t` rounded to the nearest integer, with `t` the fade fraction |
| Colour.OvertimeFades | script.js:66-70 | more overtime never means more red or less blue |
| Colour.Render | script.js:42-72 | the bar is in overtime exactly when elapsed ≥ duration, and then it is full-width with green 0; otherwise its width is `100·elapsed/duration` with blue 0; the width never exceeds 100, and for non-negative elapsed time every channel lies in [0,255]; the colour is the work gradient of `elapsed / duration` below the period and the overtime fade of `elapsed − duration` from then on |
| Colour.EarlyBarIsNegative | script.js:43-44 | a negative elapsed time gives a negative bar width and no overtime; once elapsed time is below −1/1020 of the period the red channel is negative too |
| Colour.RenderScenarios | script.js:43-71 | for an eight-hour period, half-way is a 50 % yellow bar; 300 s over is a full (165,0,55) bar; 0 s over is red; 11200 s over is deep purple |
| Stopwatch.Split | script.js:88-90 | hours, minutes and seconds add back up to the count (`3600h + 60m + s`), with minutes and seconds below 60 |
| Stopwatch.SplitUnique | script.js:88-90 | any split with minutes and seconds below 60 is the one the script computes |
| Stopwatch.Format | script.js:88-91 | the stopwatch text has at least 8 characters, exactly 8 below 100 hours, with colons three and six characters from the end and a minute and second field whose first digit is 0 to 5 |
| Stopwatch.DecodeFormat | script.js:88-91 | reading the stopwatch text back, which accepts only minute and second fields below 60, gives exactly the seconds it shows |
| Stopwatch.FormatInjective | script.js:88-91 | two different counts are never shown as the same text |
| Stopwatch.UpdateOvertime | script.js:84-93 | a negative whole-second overtime leaves the text unchanged; otherwise the new text reads back as that overtime, and below 100 hours it is exactly eight characters |
| Stopwatch.FiveMinutesOver | script.js:84-93 | 300 s of overtime is shown as `00:05:00` |
| Clock.Initial | script.js:34-36 | at load the latch is down, no overtime interval exists and the page's own stopwatch text is kept, so the invariant that a set latch has an overtime interval holds |
| Clock.RunFromLoad | script.js:34-103 | from page load, any run plays at most one alarm per re-arming event plus one, creates at most one overtime interval per restart plus one, and ends with the latch invariant intact; the first overtime update after load sounds the alarm and starts the stopwatch, and a run of overtime updates and ticks holding at least one update sounds it exactly once |
| Clock.UpdateBar | script.js:47-80 | the latch afterwards records whether the clock is in overtime; the alarm plays exactly when overtime is entered with the latch down; an interval is created exactly when in overtime with none existing; an existing interval stays; the text is untouched |
| Clock.StartClock | script.js:95-103 | after a restart the text is `00:00:00`, and the alarm, the latch and a fresh interval all follow whether the clock is in overtime, whatever the state before |
| Clock.OvertimeTick | script.js:84-93 | an overtime tick changes neither latch nor interval; with no interval, or with negative overtime, nothing changes; otherwise the text reads back as the overtime and is eight characters long below 100 hours |
| Clock.AlarmOncePerOvertime | script.js:73-93 | a run of overtime updates and overtime ticks plays the alarm once if the latch was down and the run holds an update, and never otherwise, whatever its length; the latch ends set exactly when it was set or an update came |
| Clock.AlarmsBoundedByRearms | script.js:62-99 | over any run, alarms ≤ (below-period updates + restarts) + 1 if the latch started down |
| Clock.LatchHeldWithoutRearm | script.js:62-99 | with no below-period update and no restart, a set latch stays set and no alarm plays |
| Clock.StopwatchesBoundedByRestarts | script.js:78-98 | over any run, overtime intervals created ≤ restarts + 1 if none existed at the start |
| Clock.StopwatchHeldWithoutRestart | script.js:61-98 | with no restart an existing overtime interval survives any run, leaving overtime included, and no second one is created |
| Clock.LatchNeedsStopwatchKept | script.js:62-99 | "latch set implies an overtime interval exists" holds after any run that starts with it |
| Clock.UpdatesKeepText | script.js:38-82 | `updateBar` calls alone never change the stopwatch text |
| Clock.Refresh | script.js:38-81 | a full `updateBar` draws the bar `Colour.Render` gives; it plays the alarm exactly when elapsed ≥ duration and the latch was down, creates an overtime interval exactly when elapsed ≥ duration and none exists, keeps an existing one, leaves the stopwatch text alone, and afterwards the latch equals the bar's overtime flag |
| Clock.AlarmScenario | script.js:38-103 | with an eight-hour period, the update at 0 s over plays the alarm and starts the stopwatch; the one at 1 s over does neither; a restart 300 s over resets the text to `00:00:00` and plays the alarm again |

## Left out

- DOM lookups, `style` writes, `classList` changes and `alarmSound.play()` are not modelled. They appear only as values (`Colour.Bar`) and flags (`Step.playAlarm`).
- `setInterval`/`clearInterval` are not modelled: no scheduling, tick timing or concurrency. Only whether the overtime interval exists is kept. The main `timer` handle is not kept either: `startClock` only passes it to `clearInterval` before replacing it, so it never affects the modelled state.
- `new Date()`, `getStartTimeToday` and `getNowTimeISO` are not modelled. They need local-time calendar arithmetic through the Date API, so elapsed time is an input (`elapsed`, in seconds).
- A work period of 0 seconds (`"0:00"`) is not modelled. `Colour.Render` and `Clock.Refresh` require `duration > 0`, because the script then relies on IEEE `Infinity`/`NaN` from `x / 0`.
- IEEE-754 double arithmetic and the exact `Math.round` on doubles are not modelled. All colour and width arithmetic is over the reals.
- The theme switch and its `localStorage` persistence are not modelled: it is a two-value mapping over browser storage.
- Decimal.Show: JavaScript's `toString` switches to exponent notation from 10^21 upwards; the model always gives plain digits, since stopwatch hours never reach that size.
- Decimal.Pad: `pad` is modelled for non-negative integers only, the only values it receives here. `toString` of a negative number is not modelled.
