# WiSPR dashboard core, modelled in Dafny

The WiSPR dashboard is a single-page operator console for a monitored
facility. It shows a simulated temperature/humidity feed, classifies each
reading into an alert tier, draws a sparkline of the last 30 temperatures,
lists incident tickets, and lets the operator send alerts and resolve tickets
through a small set of dialogs.

This project models the logic behind that screen:

- `telemetry.dfy` (module `Telemetry`): the simulated feed from
  `src/useFakeEnvData.js`. It has the initial reading, the clamped
  random-walk step and the walk of successive ticks. The two `Math.random` draws of a tick are passed in as
  a `Draw`.
- `environment.dfy` (module `Environment`): `toC`, `computeEnvState` and
  `stateSubtitle`.
- `history.dfy` (module `History`): the rolling 30-reading temperature
  history and the normalised bar heights of the sparkline.
- `tickets.dfy` (module `Tickets`): ticket records, lookup by id, and the
  rewrite that marks a ticket Resolved.
- `dashboard.dfy` (module `Dashboard`): class `App`. It has one field per
  workflow and history state cell of the `App` component (`tickets`,
  `selectedTicketId`, `modal`, `pickerTempId`, `pickerNotes`,
  `resolveInitialNotes`, `toast`, `tempHist`) and one method per handler.
  The `lastUpdated` cell (src/App.js:299) and the feed's own `data` cell
  (src/useFakeEnvData.js:9) have no field: the first holds a clock reading,
  the second is the value `Telemetry.Walk` computes. `Valid()` is the invariant every
  handler keeps:
  - ticket ids are non-empty and unique;
  - any id held in `selectedTicketId` or `pickerTempId` names a ticket;
  - the ticket and resolve dialogs are open only while a ticket is selected;
  - the history holds at most 30 readings.

  Together these mean the two dialogs that render only with a selected
  ticket (src/App.js:517, src/App.js:532) always do render when open.
- `wrappers.dfy` (module `Wrappers`): `Option`, standing for JavaScript's
  `null`.

All arithmetic is over Dafny's `real`. The thresholds of the classifier
and the bounds of the walk and of the bar heights therefore hold exactly. The
original computes in IEEE doubles.

Four details of the workflow that are easy to get wrong:

- `close` only sets `modal` to null. It does not reset the picker fields;
  the pickers reset them when they are entered (src/App.js:350,
  src/App.js:356-357).
- Toast timeouts are never cancelled (src/App.js:338, src/App.js:345).
  `ExpireToast` therefore clears whatever toast is showing when any
  earlier timeout fires. A new toast does not supersede an older timeout.
- "Resolve This Ticket" (src/App.js:524) opens the resolve dialog without
  clearing `resolveInitialNotes`. Notes typed in an earlier resolve picker
  (src/App.js:574) therefore seed the dialog for a ticket selected later by
  a row click; `Dashboard.StaleResolveNotes` walks through such a sequence.
- A picker's Continue does nothing without a pick. The button is disabled
  (src/App.js:271) and the handler returns early (src/App.js:552,
  src/App.js:572). Both test the same value, so the model keeps the early
  return as a no-op branch and has no precondition.

## Model

| member | source | states |
|---|---|---|
| Telemetry.InitialInRange | src/useFakeEnvData.js:9 | The feed starts at 78.0 °F and 42.0 %, inside both clamp bands. |
| Telemetry.Clamp | src/useFakeEnvData.js:14-15 | `Math.max(lo, Math.min(hi, x))` lies in [lo, hi]; it is x when x is inside, lo below and hi above. |
| Telemetry.TempDelta | src/useFakeEnvData.js:14 | For a draw in [0,1) the raw temperature step (r−0.5)·1.6 lies in [−0.8, 0.8). |
| Telemetry.HumDelta | src/useFakeEnvData.js:15 | For a draw in [0,1) the raw humidity step (r−0.5)·2.2 lies in [−1.1, 1.1). |
| Telemetry.Step | src/useFakeEnvData.js:13-19 | Whatever the previous reading, the next one has temperature in [60, 100] and humidity in [15, 90]. |
| Telemetry.StepIsSmall | src/useFakeEnvData.js:14-15 | (Unrounded step.) From a reading inside the bands, each coordinate moves by at most the absolute value of its raw step: at most 0.8 °F and 1.1 %. |
| Telemetry.StepUnclamped | src/useFakeEnvData.js:14-15 | (Unrounded step.) When previous + step is already inside the band, the clamp is the identity. |
| Telemetry.Walk | src/useFakeEnvData.js:12-20 | The reading after one tick per draw: the start itself after no ticks, otherwise a reading inside both bands. |
| Telemetry.WalkDrift | src/useFakeEnvData.js:12-20 | After n ticks from an in-band reading, the reading is still in band and has drifted at most 0.8·n °F and 1.1·n %. |
| Telemetry.WalkFromInitialInRange | src/useFakeEnvData.js:9-20 | Every reading the feed reports, from the initial one on, is inside both bands. |
| Environment.ToC | src/App.js:36 | The Celsius value converts back to the Fahrenheit input by c·9/5 + 32. |
| Environment.ComputeEnvState | src/App.js:39-49 | Emergency exactly when ≥ 86 °F (30 °C) or ≥ 70 %. Otherwise Warning exactly when ≥ 80.6 °F (27 °C) or ≥ 60 %. Safe exactly when below both warning thresholds. Either condition alone suffices. |
| Environment.StateSubtitle | src/App.js:51-55 | Emergency, and only Emergency, gets 'Immediate Action Required'; Warning alone gets 'Monitor Area'; Safe alone gets 'Conditions Normal'. |
| Environment.ClassifierMonotone | src/App.js:42-46 | A hotter or more humid reading never gets a calmer tier. |
| History.LastN | src/App.js:285 | For n ≥ 1, `slice(-n)` has length min(\|s\|, n) and is the suffix of s of that length. |
| History.Push | src/App.js:285 | Appending gives length min(\|h\|+1, 30). The result is the newest readings of h in time order, followed by the new reading. |
| History.PushAll | src/App.js:284-286 | Running the history effect once per reading, from a history of at most 30, keeps it at most 30 long, ends with the latest reading, and leaves the history alone when no reading arrives. |
| History.PushAllKeepsLastWindow | src/App.js:284-286 | After any number of appends, the history is the last 30 of all readings, oldest first. |
| History.SeqMin | src/App.js:291 | `Math.min(...h)` is an element of h and no larger than any element. |
| History.SeqMax | src/App.js:292 | `Math.max(...h)` is an element of h and no smaller than any element. |
| History.ToH | src/App.js:293 | A value between min and max maps into [16, 64]. It maps to 24 when min = max. Otherwise min maps to 16 and max to 64. |
| History.Heights | src/App.js:289-295 | An empty history gives []. Otherwise there is one height per reading, each in [16, 64]. All heights are 24 when min = max; otherwise the minimum readings get 16 and the maximum readings 64. |
| History.HeightsPreserveOrder | src/App.js:293-294 | A reading no warmer than another gets a bar no taller. |
| History.Bars | src/App.js:424-426 | An empty history draws 30 bars of height 24; otherwise the bars are exactly the normalised heights, one per reading. Every bar is in [16, 64], and a history of at most 30 readings draws at most 30 bars. |
| Tickets.FindById | src/App.js:324 | `find` returns a ticket exactly when one has the id. It returns the first ticket with that id. |
| Tickets.MarkResolved | src/App.js:342 | Same length and order. Only a ticket whose id matches gets sev Resolved. Every other sev, and id, type, time, assignee and details of every ticket, are unchanged. |
| Tickets.MarkResolvedUnknownId | src/App.js:342 | Resolving an id the store does not hold leaves the store unchanged. |
| Tickets.MarkResolvedIdempotent | src/App.js:342 | Resolving twice gives the same store as resolving once. |
| Tickets.MarkResolvedKeepsIds | src/App.js:342 | The store holds the same ids afterwards, so unique non-empty ids stay unique and non-empty. |
| Tickets.MarkResolvedFinds | src/App.js:324-342 | After resolving an id the store holds, looking it up finds it Resolved. A Resolved ticket never regresses. |
| Dashboard.App.SelectedTicket | src/App.js:324 | `selectedTicket` is a ticket of the store carrying the selected id. In a valid state it is present exactly when an id is selected. |
| Dashboard.App.CanContinue | src/App.js:271 | In a valid state the Continue button is enabled exactly when a ticket is picked. |
| Dashboard.App.GuardedDialogsRender | src/App.js:517-541 | Whenever the ticket or resolve dialog is open in a valid state, there is a selected ticket, so the dialog renders. |
| Dashboard.App.constructor | src/App.js:283-330 | Initial state: the two seeded tickets, no dialog, no selection, no pick, empty notes, no toast, empty history. |
| Dashboard.App.Open | src/App.js:332 | `open(m)` sets `modal` to m and nothing else. The ticket and resolve dialogs are opened only with a ticket selected. |
| Dashboard.App.Close | src/App.js:333 | `close()` sets `modal` to null and keeps every other cell, including selection, pick and picker notes. Closing a closed dashboard changes nothing. |
| Dashboard.App.HandleSend | src/App.js:335-339 | Closes the dialog and shows "Alert sent: {severity} in {zone} — {type}". Nothing else changes. |
| Dashboard.App.HandleResolve | src/App.js:341-346 | Requires the confirmation checkbox (src/App.js:193). The tickets become the resolve rewrite of the old ones, the dialog closes and the resolve toast shows. Nothing else changes. |
| Dashboard.App.ConfirmResolve | src/App.js:188-194 | "Mark as Resolved" in the open resolve dialog resolves the selected ticket: afterwards its lookup finds it Resolved and the dialog is closed. |
| Dashboard.App.OpenViewTicket | src/App.js:348-351 | With a selected ticket it opens the ticket dialog. Without one it clears the pick and opens the view picker. |
| Dashboard.App.OpenResolve | src/App.js:353-360 | With a selected ticket it empties the initial notes and opens the resolve dialog. Without one it clears the pick and the picker notes and opens the resolve picker. |
| Dashboard.App.HandleRowClick | src/App.js:362-365 | Selects the clicked ticket and opens the ticket dialog, which then shows that very ticket. |
| Dashboard.App.PickTicket | src/App.js:565 | Picking a listed ticket sets `pickerTempId` and nothing else. |
| Dashboard.App.SetPickerNotes | src/App.js:570 | Editing the picker's notes sets `pickerNotes` and nothing else. |
| Dashboard.App.ContinueToTicket | src/App.js:551-555 | Without a pick, no change. With a pick, the pick becomes the selection and the ticket dialog opens on that ticket. |
| Dashboard.App.ContinueToResolve | src/App.js:571-576 | Without a pick, no change. With a pick, the pick becomes the selection, the picker notes seed the resolve notes, and the resolve dialog opens on that ticket. |
| Dashboard.App.ExpireToast | src/App.js:338 | A toast timeout clears the toast, whichever toast is showing, and nothing else. |
| Dashboard.App.RecordTemp | src/App.js:284-286 | The temperature effect replaces the history by its append with the new reading, which is then the last entry. The history stays at most 30 long. |

## Left out

- Rendering, icons, CSS classes, inline styles, the logo and the static list of recent team alerts: presentation only.
- The `Modal` wrapper's Escape-key listener, backdrop click and × button: DOM wiring. All three call `close`, which `Close` models.
- The 1200 ms `setInterval` and its cleanup, and the 3000 ms toast `setTimeout` scheduling: timing. Their callbacks are modelled as `Step` and `ExpireToast`.
- `Math.random`: each tick's two draws are parameters, assumed in [0, 1).
- Telemetry.Step: does not model the `toFixed(1)` rounding of each new reading, nor double-precision rounding of the step; the range bounds hold either way, while `StepIsSmall` and `StepUnclamped` describe the unrounded step (rounding 78.06 to 78.1 moves the reading by more than its raw step).
- Environment.ComputeEnvState: computes over exact reals, whereas `toC` runs in doubles. The case is reachable: readings lie on a 0.1 grid, so 80.6 °F occurs, and in doubles (80.6 − 32)·(5/9) = 26.999999999999996, so the dashboard shows 'safe' at 80.6 °F and 50 % where the model gives Warning. `Environment.ToC` and `History.ToH` (the height division) are exact in the same way.
- Dashboard.App.RecordTemp: React runs the effect on mount and whenever `temp` changes. That dependency check is not modelled; `RecordTemp` is the effect body, called once per new temperature.
- `lastUpdated`, `Date` and `toLocaleTimeString`: wall-clock reads.
- The Send Alert form's own select/textarea state and the resolve dialog's notes/checkbox state: local form state. The submitted payload, the notes and the checkbox value are method parameters.
- Display formatting with `toFixed(1)` of temperature and humidity, and the badge colour derived from the tier: presentation.
