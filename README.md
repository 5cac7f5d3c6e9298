# Interval-debt reconciliation engine of the BetterMe tracker

This project models `game-logic.js`, the hourly self-report tracker. The
tracker keeps a snapshot of the player's `level`, the instant of the last
report (`lastUpdate`) and an append-only log of report entries. It also
keeps a count of whole one-hour windows still owed (`pendingHours`) and
whether the backlog form is shown.

The engine has four parts:

- **Debt calculation.** `checkPendingUpdates` counts the whole windows
  since `lastUpdate` and shows the backlog form exactly when that count is
  positive.
- **Backlog resolution.** Each accepted backlog report is logged as a
  `recovery` entry, backdated to the end of the oldest owed window. That
  window is then paid: `lastUpdate` moves one hour on and the count drops
  by one. Paying the last owed window raises the level once and restarts
  the clock at the current instant.
- **On-time report.** It is logged at the current instant, raises the level
  and restarts the clock, however late it is.
- **Reset.** It logs a failure entry with fixed sentinel answers, puts the
  level back to 1 and restarts the clock. Earlier entries are kept.

The model also covers the integer countdown the timer shows (`MM:SS` or
`¡AHORA!`), `pad`, and the defaulting of a missing `logs` field on load.

Layout:

- `reports.dfy` (module `Reports`): the form, the stored answers, log
  entries, `String.prototype.trim`, `validateInputs` and `getInputValues`.
- `timing.dfy` (module `Timing`): the owed-window count, JavaScript's
  truncating `%`, the countdown, `Number.prototype.toString`, `padStart`
  and `pad`.
- `engine.dfy` (module `Engine`): the state as a value (`Game`) and one
  specification function per handler. It also holds the class `Tracker`,
  whose fields are the snapshot, the owed count and the form's visibility.
  Each `Tracker` method updates those fields in place, the way the handler
  does. Its `ensures` ties the new state to the specification function
  applied to the old state.
- `engine_properties.dfy` (module `EngineProperties`): properties that span
  several calls. These are clearing a whole backlog, the timeline the
  recovery entries form, and that no sequence of actions rewrites history.

The clock (`Date.now()`) is a `now: int` parameter in milliseconds. The
values typed into the inputs are a `Form` parameter.

Where the behaviour described for the program and its code differ, the
model follows the code:

- The owed count is `Math.floor((now - lastUpdate) / 3600000)` and is not
  clamped. A clock behind `lastUpdate` gives a negative count. Only the
  `> 0` test turns that into "no backlog" (game-logic.js:124-126).
- Clearing a backlog of n windows raises the level by exactly 1, not by n
  (game-logic.js:246-257). No level penalty is ever applied: the penalty
  block at game-logic.js:127-152 has no effect (a local copy of the count
  and an empty `if`, surrounded by comments).
- The level starts at 1 (game-logic.js:6) and reset puts it back to 1
  (game-logic.js:316).
- Reset does not clear `pendingHours` and does not hide the backlog form.
  A stale count therefore survives a reset, and the next backlog report
  after it is stamped one hour after the reset instant
  (`EngineProperties.RecoveryAfterResetIsFutureDated`).
- On load, only a missing `logs` is defaulted (game-logic.js:58). A stored
  snapshot replaces `level` and `lastUpdate` as they are.

## Model

| member | source | states |
|---|---|---|
| Timing.PendingCount | game-logic.js:121-124 | the count n is the floor of elapsed/3600000: n·H ≤ now − lastUpdate < (n+1)·H, negative values included |
| Timing.BacklogIffWindowElapsed | game-logic.js:124-126 | the count is positive exactly when at least one full hour has elapsed |
| Timing.NegativeElapsedIsNegativeCount | game-logic.js:121-126 | a clock behind `lastUpdate` gives a negative, unclamped count |
| Timing.PendingCountMonotone | game-logic.js:124 | more elapsed time never lowers the count |
| Timing.PendingCountAfterOneWindow | game-logic.js:243-246 | moving `lastUpdate` one hour on lowers the count by exactly one, so the decrement keeps the count exact |
| Timing.OwedWindowsHaveEnded | game-logic.js:124 | each of the first n owed windows ends no later than `now` |
| Engine.Checked | game-logic.js:119-158 | the count satisfies the floor bounds; the form is shown iff at least an hour has passed; level, lastUpdate and logs are unchanged |
| Engine.Tracker.CheckPendingUpdates | game-logic.js:119-158 | the in-place update leaves exactly the state `Checked` describes |
| Reports.TrimStartSpec | game-logic.js:325 | the contract of `TrimStart`: trimming the start keeps a suffix that begins at a non-blank character and drops only whitespace |
| Reports.TrimEndSpec | game-logic.js:325 | the contract of `TrimEnd`: trimming the end keeps a prefix that ends at a non-blank character and drops only whitespace |
| Reports.Trim | game-logic.js:325 | `trim()` leaves a non-empty string iff the string holds a non-whitespace character |
| Reports.ValidateInputs | game-logic.js:324-326 | a form is accepted iff each of its four fields holds a non-whitespace character |
| Reports.GetInputValues | game-logic.js:328-335 | the stored answers are the form's four values, field for field |
| Engine.WindowPaid | game-logic.js:224-264 | paying a window appends one recovery entry stamped old lastUpdate + H after the earlier entries and lowers the count by one; with more than one window owed it keeps level and form and moves lastUpdate one hour on; otherwise (the last window, or a stale count of 0 or less) it raises the level by one, sets lastUpdate to now and hides the form |
| Engine.PendingSubmitted | game-logic.js:216-265 | a refused backlog form changes nothing; an accepted one appends the backdated recovery entry after the existing log |
| Engine.Tracker.SubmitPending | game-logic.js:216-265 | the handler accepts iff the form is valid, and its in-place updates leave exactly the state `PendingSubmitted` describes |
| EngineProperties.BacklogWindowPaid | game-logic.js:243-254 | with windows still owed afterwards, a paid window keeps level and form, moves lastUpdate one hour, drops the count by 1 and keeps it equal to ⌊(now − lastUpdate)/H⌋ |
| EngineProperties.FinalWindowPaid | game-logic.js:246-263 | paying the last window raises the level by exactly 1, sets lastUpdate to now, leaves nothing owed and hides the form |
| EngineProperties.RecoveriesAt | game-logic.js:224-232 | the i-th recovery entry of a backlog is stamped lastUpdate + (i+1)·H and carries the i-th answers |
| EngineProperties.ClearBacklog | game-logic.js:224-263 | paying n ≥ 1 owed windows appends exactly the n recovery entries after the old log, raises the level once, sets lastUpdate to now and hides the form |
| EngineProperties.AnswersOf | game-logic.js:230 | the answers of a sequence of forms, one per form, in order |
| EngineProperties.AcceptedFormsPayWindows | game-logic.js:216-232 | submitting only valid forms pays one window per form with that form's answers |
| EngineProperties.CatchUpFromCheck | game-logic.js:216-265 | after a check that finds n ≥ 1 owed, n valid backlog reports leave level + 1, lastUpdate = now, the form hidden, the log extended by exactly the n recovery entries, and a fresh check finds nothing owed |
| EngineProperties.RecoveryTimeline | game-logic.js:224-243 | the recovery entries of a backlog are stamped L+H, …, L+nH in order, none later than the instant they are written |
| Engine.OnTimeSubmitted | game-logic.js:268-296 | a refused form changes nothing; an accepted one appends a regular entry stamped now, sets level to old level + 1 and lastUpdate to now, and keeps the count and the form |
| Engine.Tracker.SubmitOnTime | game-logic.js:268-296 | the handler accepts iff the form is valid, and its in-place updates leave exactly the state `OnTimeSubmitted` describes |
| EngineProperties.OnTimeRestartsWindow | game-logic.js:278-289 | after an accepted on-time report, a check within the next hour finds nothing owed |
| Engine.LevelReset | game-logic.js:299-321 | the log grows by exactly one entry, a reset entry stamped now with answers (FALLO, FALLO, FALLO, REINICIO DE NIVEL), after the unchanged earlier entries; level becomes 1 and lastUpdate now; the count and form are kept |
| Engine.Tracker.ResetLevel | game-logic.js:299-321 | the in-place updates leave exactly the state `LevelReset` describes |
| EngineProperties.RecoveryAfterResetIsFutureDated | game-logic.js:299-321 | a stale count that survives a reset makes the next backlog report stamped now + H, with level 1 and the form's visibility kept |
| Timing.TimeLeft | game-logic.js:163-164 | the time left is ≤ 0 exactly when an hour after lastUpdate has been reached, and exceeds an hour exactly when the clock is behind lastUpdate |
| Timing.DueIffBacklog | game-logic.js:164-166 | the timer is due (timeLeft ≤ 0) exactly when the backlog check would find a window owed |
| Timing.JsRem | game-logic.js:177-178 | JavaScript's `%` on a positive divisor: the result is strictly between −b and b, and equals the mathematical remainder for a non-negative dividend; for a negative dividend it is ≤ 0 and differs from the dividend by a multiple of b |
| Timing.CountdownOf | game-logic.js:164-179 | the countdown is due iff timeLeft ≤ 0; otherwise minutes and seconds are both in 0..59 |
| Timing.CountdownIsTimeLeftInSeconds | game-logic.js:177-178 | whenever time is left, minutes·60000 + seconds·1000 is timeLeft with whole hours dropped (timeLeft mod H), rounded down to whole seconds; a clock behind lastUpdate therefore shows only the part below an hour |
| Timing.CountdownAtFullHour | game-logic.js:177-178 | a full hour left, at the instant of a report, shows 00:00 |
| Engine.Ticked | game-logic.js:160-174 | the timer never touches level, lastUpdate or logs, and changes nothing unless it is due and the form is hidden |
| Engine.Tracker.Tick | game-logic.js:160-182 | the shown text is the countdown text of the old state, and the new state is the one `Ticked` describes |
| EngineProperties.TickOpensBacklog | game-logic.js:166-174 | a due tick with the form hidden opens the form with at least one window owed and the count exact |
| Timing.NatToString | game-logic.js:185 | `toString()` of a non-negative integer is a non-empty digit string, one character below 10 and two below 100 |
| Timing.NatToStringRoundTrip | game-logic.js:185 | the decimal string reads back as the number |
| Timing.PadStartSpec | game-logic.js:185 | `padStart` gives max(width, length) characters: fill characters followed by the original string |
| Timing.LeadingZerosIgnored | game-logic.js:185 | leading '0's do not change the value of a digit string |
| Timing.PadStart | game-logic.js:185 | `padStart` gives max(width, length) characters (contents in `PadStartSpec`) |
| Timing.Pad | game-logic.js:184-186 | `pad` gives at least two characters, exactly two below 100 |
| Timing.PadShape | game-logic.js:184-186 | `pad` gives at least two characters, exactly two below 100, all digits |
| Timing.PadReadsBack | game-logic.js:184-186 | a padded number reads back as itself |
| Timing.CountdownText | game-logic.js:166-179 | the text is "¡AHORA!" exactly when the countdown is due; otherwise it is `MM:SS` (see `CountdownTextReadsBack`) |
| Engine.TimerText | game-logic.js:160-179 | the timer shows "¡AHORA!" exactly when no time is left before the next report |
| Timing.CountdownTextReadsBack | game-logic.js:177-179 | when time is left, the text is five characters `MM:SS` whose two fields read back as the minutes and seconds |
| Engine.DefaultLogs | game-logic.js:58 | a missing `logs` becomes the empty log; a present one is kept |
| Engine.Loaded | game-logic.js:53-64 | with nothing stored, only lastUpdate changes, to now; loading never touches the count or the form |
| Engine.Tracker.Load | game-logic.js:53-64 | the in-place updates leave exactly the state `Loaded` describes |
| Engine.Initial | game-logic.js:5-9 | the initial state has level 1, lastUpdate now and an empty log |
| Engine.Tracker.constructor | game-logic.js:5-9 | a new tracker is in the initial state |
| Engine.Tracker.Start | game-logic.js:36-42 | start-up loads the stored snapshot and then checks for owed windows |
| EngineProperties.RunKeepsHistory | game-logic.js:216-321 | no sequence of checks, submissions, resets and ticks reorders or deletes a log entry; each adds at most one entry, and a level ≥ 1 stays ≥ 1 |

## Left out

- DOM lookups and rendering are not modelled. This covers `renderLogs` and its sorted copy, date formatting, `updateUI` colours, `updatePendingUI`, clearing inputs and `focus()`. They are display only: `renderLogs` sorts a copy, so the stored log order is never changed.
- `localStorage`, `JSON.parse`/`JSON.stringify`, `saveState` and the cross-tab `storage` event are persistence transport and are not modelled. A stored snapshot is an `Option<Stored>` parameter of `Load`.
- `setInterval` is not modelled; `Tracker.Tick` is one timer callback. `Date.now()` is the `now` parameter.
- Every reading of the clock inside one handler is taken as the same instant `now`. The source reads `Date.now()` twice in the on-time handler (the entry stamp at game-logic.js:280 and `lastUpdate` at :289), twice in the reset handler (:305 and :317), and a due tick reads it at :161 and again inside `checkPendingUpdates` at :120. So the model's promise that the new entry's timestamp equals the new `lastUpdate` (from `OnTimeSubmitted` and `LevelReset`) holds only up to the milliseconds between those reads.
- `alert` and `confirm` are not modelled. A refused form returns without changing anything, and `ResetLevel` is the confirmed path.
- The colour of the timer text is not modelled.
- The initial visibility of the backlog form comes from the page markup, which is not part of this model. The form is taken to start hidden.
- Engine.Loaded: for a present snapshot, the contract states only what holds for every snapshot (the count and form are kept). The field replacement is the function body, and `Tracker.Load` is proved against it.
- Timing.NatToString: only non-negative numbers are converted. The minutes and seconds passed to `pad` are non-negative whenever they are computed, because `timeLeft > 0` there.
