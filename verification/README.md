# Calendar and flashcard games: a Dafny model

This project models the logic of two React components of a classroom game
site.

- **The flashcard game** (`FlashcardGame`) generates sets of two-digit
  additions and subtractions. After a "GET READY" countdown it flashes each
  set's numbers one at a time. In practice mode it reveals each set's answer
  after the set. In competition mode it shows a scoreboard at the end, with
  the rows revealed one by one.
- **The date game** (`CalendarGame`) draws a random date and counts down.
  It then spins three slot-machine reels (day, month, year) that land on
  that date. Once the reels stop, the player may reveal the answer: the
  weekday, and the month's calendar grid with the day highlighted.

Both components are phase machines driven by clicks and by browser timers.
The model states each component's state as one immutable datatype, with
each handler as a pure function. The browser's timer queue is a logical
clock (`Timers`). `setTimeout` and `setInterval` register callbacks there.
`clearTimeout` and `clearInterval` remove them, and `Fire` runs the
earliest one. Only the handles that a component pushes to its refs can be
cleared. `Math.random()` is a parameter: a real number in [0, 1).

The flashcard machine takes a build parameter. `Step(g, e, AsWritten)` is
the component as written: the scoreboard's reveal handles are not kept, so
leaving the scoreboard cannot cancel them. `Step(g, e, KeepReveals)` is the
same machine with those handles kept, the behaviour the scoreboard evidently
intends (see Findings). The reachable-state invariant is proved for both
builds; the clauses about the scoreboard counter hold only for
`KeepReveals`.

Modules:

- `Options`: `Option`, `Min`, `Max`, `Sum`.
- `Draws`: `Math.floor(Math.random() * n)`.
- `Timers`: the timer queue.
- `ArithmeticSets`: `generateRandomSets` and what a valid set is.
- `FlashcardGame`, `FlashcardInvariant`, `FlashcardFindings`: the
  flashcard component, its reachable-state invariant, and the one defect
  found in it.
- `CalendarDates`, `CalendarGrid`, `CalendarReels`: the date game's date
  arithmetic, the month grid, and the reels.
- `CalendarGame`, `CalendarInvariant`: the date game's component and its
  invariant.

## Model

| member | source | states |
|---|---|---|
| Draws.Pick | src/FlashcardGame.jsx:47 | `Math.floor(r * n)` for `r` in [0, 1) is a whole number in `0..n-1` |
| Draws.DrawFor | src/CalendarGame.jsx:49-51 | every outcome `k < n` of a floor draw is produced by some random value |
| ArithmeticSets.PassBounds | src/FlashcardGame.jsx:43-72 | one pass of the inner loop: the first term is 10..99; an addition is 10..99; a subtraction happens only above a total of 20 and takes 10..min(89, total-1); a repair term is 60..99; the total moves by exactly the pushed term unless repaired |
| ArithmeticSets.RepairUnreachable | src/FlashcardGame.jsx:53-70 | from a starting total of 0, or any positive total, the running total stays at least 1, so the "fix if zero/negative" branch never runs |
| ArithmeticSets.RepairWouldDiverge | src/FlashcardGame.jsx:65-69 | if the repair branch ran, the running total would no longer equal the sum of the pushed terms (the bad term is added, but the fix is pushed in its place) |
| ArithmeticSets.RepairNeedsNonPositiveTotal | src/FlashcardGame.jsx:53-66 | the repair branch would need a later term drawn from a total of at most -10 |
| ArithmeticSets.PrefixTotal | src/FlashcardGame.jsx:39-72 | after `k` passes there are `k` terms, the running total is their sum, and the total is at least 1 once a term is pushed |
| ArithmeticSets.PrefixValid | src/FlashcardGame.jsx:39-72 | every prefix the loop builds is a valid set |
| ArithmeticSets.ValidSetPrefixPositive | src/FlashcardGame.jsx:53-57 | in a valid set every non-empty prefix sums to at least 1 |
| ArithmeticSets.GenerateSetValid | src/FlashcardGame.jsx:39-73 | a generated set has `numbersPerSet` terms, is valid, and each of its running totals is at least 1 |
| ArithmeticSets.GeneratorReachesEvery | src/FlashcardGame.jsx:39-73 | the converse: every valid set is what the generator returns for some sequence of random values |
| ArithmeticSets.PassReplays | src/FlashcardGame.jsx:53-71 | the replayed draws make each pass push exactly the set's next term |
| ArithmeticSets.GenerateRandomSets | src/FlashcardGame.jsx:37-75 | `numSets` sets, each of `numbersPerSet` terms and valid |
| Timers.SetTimeout | src/FlashcardGame.jsx:161-185 | a new one-shot is appended, due `delay` ms from now, under a fresh handle |
| Timers.SetInterval | src/FlashcardGame.jsx:168-180 | a new repeating callback is appended, first due one period from now |
| Timers.Cancel | src/FlashcardGame.jsx:118-122 | exactly the callbacks whose handles are not listed survive; cancelling every pending handle empties the queue |
| Timers.WithoutIdempotent | src/FlashcardGame.jsx:118-122 | clearing the same handles twice changes nothing more |
| Timers.WithoutFresh | src/CalendarGame.jsx:241-244 | a callback registered and then cleared through its handle leaves the queue as it was |
| Timers.Fire | src/FlashcardGame.jsx:168-180 | the earliest-due callback runs (the first registered among ties); the clock moves to its due time; an interval is put back one period later; everything else stays pending |
| Timers.SameHandle | src/FlashcardGame.jsx:104-105 | a handle names at most one pending callback |
| Timers.ScheduleAll | src/FlashcardGame.jsx:160-186 | registering a list of steps appends one timeout per step and pushes their handles, in order, to the kept list |
| FlashcardGame.NumbersShown | src/FlashcardGame.jsx:190 | `Math.max(1, Math.min(n, 20))` is `n` clamped to 1..20 |
| FlashcardGame.TickPeriod | src/FlashcardGame.jsx:180 | the flash period is the speed, but never below 200 ms |
| FlashcardGame.SetsToGenerate | src/FlashcardGame.jsx:192 | exactly 30 sets up to 30 rounds, otherwise exactly one set per round |
| FlashcardGame.ClearTimers | src/FlashcardGame.jsx:118-122 | the interval and every kept timeout are cancelled, other callbacks survive, and the kept list is emptied |
| FlashcardGame.StartSequenceForSet | src/FlashcardGame.jsx:137-187 | the chosen set with the cursor on its first number, the answer cleared, "GET" shown; the queue holds what clearing could not reach plus the six countdown steps at 0.9, 1.8, 2.7, 3.6, 4.5 and 5.5 s, whose handles alone are kept |
| FlashcardGame.HandleStart | src/FlashcardGame.jsx:189-195 | `max(30, totalRounds)` fresh valid sets of the clamped length, then set 0 |
| FlashcardGame.Reveals | src/FlashcardGame.jsx:226-230 | row `idx` of the scoreboard is revealed at `(idx + 1) * 800` ms |
| FlashcardGame.StartSummarySequenceAsWritten | src/FlashcardGame.jsx:221-232 | the scoreboard with the counter at 0 and one reveal per row, whose handles are not kept |
| FlashcardGame.StartSummarySequence | src/FlashcardGame.jsx:221-232 | the same scoreboard and queue, with the reveal handles kept (see Findings) |
| FlashcardGame.StartSummary | src/FlashcardGame.jsx:221-232 | both builds open the same scoreboard; the component keeps the handles it had, the corrected build adds one per row |
| FlashcardGame.HandleNextSet | src/FlashcardGame.jsx:208-219 | a round left: that set's countdown on the same sets, cursor 0, no answer; competition over: the scoreboard from a counter of 0 on the same sets, with one more pending callback per row; practice over: `SetsToGenerate` fresh valid sets and the countdown of set 0 |
| FlashcardGame.HandleBackToSettings | src/FlashcardGame.jsx:234-240 | the settings screen with answer, cursor and counter reset; only callbacks that clearing cannot reach stay pending |
| FlashcardGame.OnNextNumber | src/FlashcardGame.jsx:169-179 | a tick advances the cursor, except on the last number, where it clears the interval, stays on that number and waits |
| FlashcardInvariant.RevealCountAppend | src/FlashcardGame.jsx:226-231 | the pending-reveal count of two queues side by side is the sum of their counts |
| FlashcardInvariant.RevealCountRemove | src/FlashcardGame.jsx:227-228 | removing one callback lowers the pending-reveal count by one exactly when it is a reveal |
| FlashcardInvariant.InitialInv | src/FlashcardGame.jsx:80-94 | the mounted component satisfies the invariant |
| FlashcardInvariant.StartSequenceInv | src/FlashcardGame.jsx:137-187 | starting a set from a state whose callbacks are all tracked (or are stale reveals, as written) gives a state that satisfies the invariant |
| FlashcardInvariant.HandleStartInv | src/FlashcardGame.jsx:189-195 | START keeps the invariant |
| FlashcardInvariant.SummaryInv | src/FlashcardGame.jsx:221-232 | the scoreboard keeps the invariant in both builds; with the handles kept it begins with the counter plus the pending reveals equal to the number of rounds |
| FlashcardInvariant.NextSetInv | src/FlashcardGame.jsx:208-219 | NEXT keeps the invariant in each of its three branches, in both builds |
| FlashcardInvariant.RevealAnswerInv | src/FlashcardGame.jsx:198-206 | REVEAL ANSWER keeps the invariant |
| FlashcardInvariant.BackToSettingsInv | src/FlashcardGame.jsx:234-240 | going back to the settings keeps the invariant; as written only reveals of an earlier scoreboard stay pending, and with the handles kept nothing does |
| FlashcardInvariant.BeginPlayingInv | src/FlashcardGame.jsx:165-180 | the last countdown step starts the one flashing interval |
| FlashcardInvariant.NextNumberInv | src/FlashcardGame.jsx:168-180 | an interval tick keeps the invariant, whether it advances the cursor or stops on the last number |
| FlashcardInvariant.RevealInv | src/FlashcardGame.jsx:227-230 | a scoreboard reveal raises the counter by one and removes one pending reveal |
| FlashcardInvariant.TextInv | src/FlashcardGame.jsx:161-164 | a countdown text or the buzz keeps the invariant |
| FlashcardInvariant.EditInv | src/FlashcardGame.jsx:316 | the settings controls keep the invariant |
| FlashcardInvariant.IdleInv | src/FlashcardGame.jsx:160-186 | time passing without a callback keeps the invariant |
| FlashcardInvariant.StepInv | src/FlashcardGame.jsx:189-244 | every event keeps the invariant, in both builds |
| FlashcardInvariant.RunInv | src/FlashcardGame.jsx:189-244 | every state reached by any run of events satisfies the invariant, in both builds |
| FlashcardInvariant.CursorInRange | src/FlashcardGame.jsx:247-254 | in either build, while numbers flash, the cursor is on one of the first `numbersPerSet` terms of an existing set |
| FlashcardInvariant.StopsOnLastNumber | src/FlashcardGame.jsx:168-180 | in either build, once the flashing ends the cursor is on the last shown number and no interval tick is pending |
| FlashcardInvariant.RevealedAnswer | src/FlashcardGame.jsx:198-206 | in either build, REVEAL ANSWER opens the answer screen with the sum of the whole current set, which equals the value the scoreboard shows for that row and is at least 1 |
| FlashcardInvariant.SettingsPending | src/FlashcardGame.jsx:234-240 | on the settings screen only scoreboard reveals can be pending; with the handles kept nothing is |
| FlashcardInvariant.ScoreboardCounter | src/FlashcardGame.jsx:425 | with the handles kept, the scoreboard counter never passes the number of rounds, and is 0 away from the scoreboard |
| FlashcardInvariant.LeavingScoreboardCancelsReveals | src/FlashcardGame.jsx:234-240 | with the reveal handles kept, leaving the scoreboard leaves nothing pending |
| FlashcardFindings.RevealOutlivesScoreboard | src/FlashcardGame.jsx:226-231 | as written: the events NEXT, open settings, timer fire from a one-round game leave a reveal pending on the settings screen; it fires there, sets the counter to 1 and breaks the corrected invariant |
| FlashcardFindings.RevealCancelledWithScoreboard | src/FlashcardGame.jsx:234-240 | with the handles kept, the same three events leave nothing pending and the counter at 0 |
| CalendarDates.DaysInMonth | src/CalendarGame.jsx:53-59 | 28 to 31 days; February has 29 exactly in a Gregorian leap year; the other 30-day months are April, June, September and November |
| CalendarDates.RandomDate | src/CalendarGame.jsx:48-61 | a year 2000..2024, a month 1..12 and a day 1..28, a valid date |
| CalendarDates.RandomDateReaches | src/CalendarGame.jsx:48-61 | every year, month and day in those ranges is drawn for some random values |
| CalendarDates.RandomDateRange | src/CalendarGame.jsx:48-61 | a date can be drawn exactly when it lies in those ranges |
| CalendarDates.JsFullYear | src/CalendarGame.jsx:64 | `new Date(y, ...)` reads a year 0..99 as 1900 + y and keeps every other year |
| CalendarDates.Weekday | src/CalendarGame.jsx:272-276 | the day of the week is in 0..6 |
| CalendarDates.FirstDay | src/CalendarGame.jsx:64 | the month's first weekday is in 0..6 |
| CalendarDates.LastDate | src/CalendarGame.jsx:65 | `new Date(y, m, 0).getDate()` is the length of month `m` of the year `new Date` reads `y` as: of 1900 + y for 0..99, of y otherwise |
| CalendarDates.YearLength | src/CalendarGame.jsx:55 | a year has 366 days exactly when it is a leap year, otherwise 365 |
| CalendarDates.MonthsTotal | src/CalendarGame.jsx:53-59 | the months add up to the year's length |
| CalendarDates.MonthEnd | src/CalendarGame.jsx:65 | the day after a month's last day is the first of the next month |
| CalendarDates.WeekdayInMonth | src/CalendarGame.jsx:274-275 | a date's weekday is the month's first weekday advanced by day - 1 |
| CalendarDates.Y2KSaturday | src/CalendarGame.jsx:274-275 | 1 January 2000 is a Saturday (6), anchoring the day count to the calendar |
| CalendarGrid.Rows | src/CalendarGame.jsx:73-81 | there is always at least the first row |
| CalendarGrid.Grid | src/CalendarGame.jsx:63-83 | the grid has `Rows` rows of seven cells |
| CalendarGrid.BuildCalendar | src/CalendarGame.jsx:63-83 | the loop builds exactly the grid |
| CalendarGrid.RowsExit | src/CalendarGame.jsx:74 | the `while` loop stops after exactly `Rows` rows |
| CalendarGrid.CalendarFor | src/CalendarGame.jsx:63-65 | the calendar of a date is the grid for its month's first weekday and the month length `new Date` gives |
| CalendarGrid.FirstRowBlanks | src/CalendarGame.jsx:68-72 | the first row has a blank exactly before the first weekday, then day 1 |
| CalendarGrid.RowCount | src/CalendarGame.jsx:66-82 | the number of rows is `ceil((firstDay + lastDate) / 7)` |
| CalendarGrid.CellsAreDays | src/CalendarGame.jsx:69-79 | every filled cell holds a day of the month, at its place in reading order |
| CalendarGrid.DaysAreCells | src/CalendarGame.jsx:69-79 | every day of the month is in the grid, at row `(firstDay + n - 1) / 7`, column `(firstDay + n - 1) % 7` |
| CalendarGrid.TargetCellUnique | src/CalendarGame.jsx:550 | the cell `isTarget` marks is the one and only cell holding the day |
| CalendarGrid.ReadingOrder | src/CalendarGame.jsx:69-79 | days increase in reading order, in both directions |
| CalendarGrid.TrailingBlanksLastRow | src/CalendarGame.jsx:76-79 | after the first row, blanks come only at the end of the last row |
| CalendarGrid.ColumnIsWeekday | src/CalendarGame.jsx:64 | a day's column is its weekday |
| CalendarGrid.MonthsFill | src/CalendarGame.jsx:74 | the first weekday plus the month's length is at least a week, so the `while` loop runs at least once for every month |
| CalendarReels.Show | src/CalendarGame.jsx:283 | decimal digits without a leading zero |
| CalendarReels.ParseShow | src/CalendarGame.jsx:283 | the shown digits read back as the number |
| CalendarReels.ShowInjective | src/CalendarGame.jsx:287 | different numbers show differently |
| CalendarReels.Pad2 | src/CalendarGame.jsx:283 | `padStart(2, "0")`: a leading zero below 10, two characters below 100 |
| CalendarReels.ParsePad2 | src/CalendarGame.jsx:283 | the padded digits read back as the number |
| CalendarReels.Pad2Injective | src/CalendarGame.jsx:283 | different numbers pad differently |
| CalendarReels.DisplayYearThai | src/CalendarGame.jsx:267-270 | the shown year is the year + 543 exactly in the Buddhist era, the year itself exactly in A.D. |
| CalendarReels.DayItems | src/CalendarGame.jsx:285 | 31 items, "01" to "31" |
| CalendarReels.MonthItems | src/CalendarGame.jsx:286 | 12 items, "01" to "12" |
| CalendarReels.YearItems | src/CalendarGame.jsx:287 | 25 items, the years 2000 to 2024, shifted by 543 in the Buddhist era |
| CalendarReels.YearItemsShowYear | src/CalendarGame.jsx:287 | item `i` of the year reel is the shown form of year 2000 + i |
| CalendarReels.FindIndex | src/CalendarGame.jsx:127 | `findIndex`: -1 exactly when the value is missing, otherwise its first place |
| CalendarReels.Repeat | src/CalendarGame.jsx:164-166 | the strip is the items repeated `k` times |
| CalendarReels.RepeatAt | src/CalendarGame.jsx:164-166 | place `j * n + i` of the strip holds item `i` |
| CalendarReels.ReelTarget | src/CalendarGame.jsx:125-130 | no spin for an empty or missing value; otherwise the target lies in copy number `loops`, at the value's first place there |
| CalendarReels.ReelLandsOnValue | src/CalendarGame.jsx:130-131 | with fewer loops than copies, the strip at the target shows the value, and the reel scrolls `target * 220` px |
| CalendarReels.DayReel | src/CalendarGame.jsx:477 | the day reel stops at place `day - 1 + 12 * 31` |
| CalendarReels.MonthReel | src/CalendarGame.jsx:480 | the month reel stops at place `month - 1 + 13 * 12` |
| CalendarReels.YearReel | src/CalendarGame.jsx:483 | the year reel stops at place `year - 2000 + 14 * 25` in either era |
| CalendarGame.ClearTimers | src/CalendarGame.jsx:241-244 | exactly the callbacks whose handles are not kept survive, and the kept list is emptied |
| CalendarGame.StartRound | src/CalendarGame.jsx:313-346 | a drawn date, "GET" and the getready phase; the spin flags untouched; the queue holds what clearing could not reach plus six countdown timeouts, whose handles alone are kept |
| CalendarGame.TriggerSpinSequence | src/CalendarGame.jsx:290-311 | the slot phase, a new spin, the lever down, the roulette on; the lever's spring-back at 0.4 s (not kept) and the end of the spin at 5.8 s (kept) |
| CalendarGame.HandleShowAnswer | src/CalendarGame.jsx:348-354 | nothing while locked; otherwise the answer with confetti, and its end at 3 s (not kept) |
| CalendarGame.HandleBackSettings | src/CalendarGame.jsx:356-362 | the settings screen with spin, roulette and confetti off; only callbacks that clearing cannot reach stay pending |
| CalendarInvariant.InitialInv | src/CalendarGame.jsx:212-223 | the mounted component satisfies the invariant |
| CalendarInvariant.Untracked | src/CalendarGame.jsx:298 | the only callbacks whose handles are not kept are the lever's and the confetti's |
| CalendarInvariant.StartRoundKeeps | src/CalendarGame.jsx:314 | after `clearTimers` only lever and confetti callbacks remain, none due after 3 s |
| CalendarInvariant.StartRoundInv | src/CalendarGame.jsx:313-346 | SPIN and PLAY AGAIN keep the invariant |
| CalendarInvariant.TriggerInv | src/CalendarGame.jsx:336-339 | the countdown's last step starts the spin, and the invariant holds |
| CalendarInvariant.OnTimerShape | src/CalendarGame.jsx:298 | a callback other than the countdown's last changes only its own flag: the end of the spin stops the reels and the roulette and unlocks REVEAL, the lever callback releases the lever, the confetti callback ends the confetti |
| CalendarInvariant.ShrinkInv | src/CalendarGame.jsx:298 | such a callback keeps the invariant |
| CalendarInvariant.FireInv | src/CalendarGame.jsx:298 | every callback keeps the invariant |
| CalendarInvariant.ShowAnswerInv | src/CalendarGame.jsx:348-354 | REVEAL keeps the invariant |
| CalendarInvariant.BackInv | src/CalendarGame.jsx:356-362 | going back to the settings keeps the invariant |
| CalendarInvariant.IdleInv | src/CalendarGame.jsx:304-309 | time passing without a callback keeps the invariant |
| CalendarInvariant.StepInv | src/CalendarGame.jsx:290-362 | every event keeps the invariant |
| CalendarInvariant.RunInv | src/CalendarGame.jsx:290-362 | every state reached by any run of events satisfies the invariant |
| CalendarInvariant.RevealLocked | src/CalendarGame.jsx:349 | while the reels turn, REVEAL does nothing, and the end of the spin is at most 5.8 s away |
| CalendarInvariant.RevealUnlocks | src/CalendarGame.jsx:304-309 | the end of the spin stops the roulette and unlocks REVEAL, which then shows the answer with confetti |
| CalendarInvariant.LeverSpringsBack | src/CalendarGame.jsx:297-298 | a pulled lever has its spring-back pending within 0.4 s, and that callback releases it |
| CalendarInvariant.SettingsStays | src/CalendarGame.jsx:356-362 | on the settings screen only the lever's and the confetti's callbacks can be pending, so no timer leaves the settings screen |
| CalendarInvariant.LeavingEndsRound | src/CalendarGame.jsx:356-362 | going back to the settings leaves only lever and confetti callbacks pending, and the next one to fire stays on the settings screen |
| CalendarInvariant.RoundReels | src/CalendarGame.jsx:477-483 | in every round the three reels land on the drawn day, month and shown year |
| CalendarInvariant.AnswerCalendar | src/CalendarGame.jsx:547-550 | on the answer screen exactly one grid cell is the drawn day, in the column of its weekday |

## Left out

- Sound. `playSound`, `stopSound` and the audio refs are left out; only the
  looping roulette's on/off state is kept, as `rouletteOn`.
- Rendering. JSX, CSS classes, the `Confetti` component's random pieces,
  and the translated texts (`t`, the weekday name tables) are left out. So
  is the number display's font size and sign.
- The reel animation. `easeOutCubic`, the blur, the final bounce and
  `requestAnimationFrame` are left out; the model keeps the target index
  and the scroll distance the animation ends on.
- `spinId` is kept only as a counter. The model does not represent the
  reel effect that it re-runs.
- Floating point. `Math.random()` is an exact real in [0, 1), and
  `Math.floor(r * n)` is its exact floor.
- Browser calls. `new Date(...).getDay()` and `getDate()` are replaced by
  a day count from the Gregorian rules, anchored so that 1 January 2000 is
  a Saturday. The Gregorian rules are applied to every year, as `Date`
  does. The time zone is not modelled.
- Speed. The speed input (`Number(e.target.value)` seconds) is a whole
  number of milliseconds. `NaN` and fractional milliseconds are left out.
- React. `useState` updates are applied at once, not batched.
  `useImperativeHandle` is the `OpenSettings` event. The unmount cleanup is
  left out, because an unmounted component has no further state.
- Timer timing. Callbacks run at exactly their due time, and ties run in
  registration order. Real timer jitter is left out.
- `src/App.jsx` and `vite.config.js` are not part of this model. They hold
  the page around the two games.
- FlashcardInvariant.ScoreboardCounter: this bounds the counter only in
  the `KeepReveals` build. In the component as written, a reveal left
  pending after leaving the scoreboard breaks the bound (see Findings).
- FlashcardInvariant.LeavingScoreboardCancelsReveals: holds only in the
  `KeepReveals` build. As written, leaving the scoreboard leaves its
  reveals pending (see Findings).

## Findings

| source | as written | input that shows it | evidently intended | confidence | as-written member | corrected member |
|---|---|---|---|---|---|---|
| src/FlashcardGame.jsx:226-231 | the scoreboard's reveal timeouts are never pushed to `timeoutsRef`, so `clearTimers` cannot cancel them | competition mode with 1 round: finish the set, then open the settings before 0.8 s have passed; the pending reveal fires on the settings screen and sets `revealedSummaryCount` to 1 | leaving the scoreboard cancels the reveals still to come, like every other timeout of the game | not executed | FlashcardFindings.RevealOutlivesScoreboard | FlashcardInvariant.LeavingScoreboardCancelsReveals |
